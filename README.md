# Eclipse update configurator: registry, persistence, history and address list

This project models three parts of the Eclipse Update Manager.

- **`PlatformConfiguration`** of the update configurator. It keeps the platform's registry of
  installation sites, keyed by URL string. It answers feature and plug-in queries, computes the
  change stamp and reconciles stale sites. It discovers sites through link files in the `links`
  directory and prunes sites whose directories or link files have disappeared. It loads and
  saves `platform.xml` with a crash-safe `.tmp`/`.bak` protocol.
- **`SiteLocalParser`**. It adds the current install configuration to the local site, then one
  configuration per `history/<millis>.xml` file that `save` preserved.
- **`WebBrowserView`** of the welcome portal. It keeps a most-recent-first address list with no
  two entries for the same normalized URL and at most ten entries. It also sets the Stop and
  Refresh actions from the browser's download events.

Modules, one per file:

- `Wrappers` (`wrappers.dfy`): `Option`, `Result`, `Outcome`.
- `JavaStrings` (`java_strings.dfy`): the `java.lang.String` and `Long` operations the code relies
  on, with Java's semantics.
- `Registry` (`registry.dfy`): the entries, the configuration value, and pure functions for every
  rule of `PlatformConfiguration`, with lemmas about them.
- `Persistence` (`persistence.dfy`): the configuration directory as a map from path to file, the
  three-stage load, the file states one save passes through, and crash safety.
- `Platform` (`platform.dfy`): `class PlatformConfiguration`. Its methods use the source's loops
  and field updates, and each is proved equal to the `Registry` or `Persistence` function for
  the same operation.
- `WebBrowser` (`web_browser.dfy`): URL normalization, the list after `navigate`, and
  `class WebBrowserView` with its action flags.
- `SiteLocal` (`site_local.dfy`): history file-name decoding, `class LocalSite` and
  `class SiteLocalParser`.

Collaborators whose code is not part of this model are parameters:

- `Registry.Host` bundles `File.exists`, `getAbsolutePath`, `URL.getFile`, `URLDecoder.decode`,
  `Utils.asPlatformURL`, `resolvePlatformURL`, `new URL(base, spec)`, `SiteEntry.loadFromDisk` and `scan`, which gives the features, plug-ins and change stamps a new `SiteEntry` finds at its URL.
- The XML parser is a function from path to `ParseOutcome`.
- Directory listings and properties files are passed in as values.
- The clock is the `now` argument.
- File-system failures are the flags of `SaveFaults`.

Behaviour of the code worth knowing:

- **Failed write and failed final rename.** Both throw the same `IOException` ("unable to save"
  with the `.tmp` path), so both are `UnableToSave(TempFile(dir))`.
- **Interrupted save.** The loader tries `.tmp` before `.bak`. A save interrupted after the
  primary file became `.bak` therefore loads as the new configuration, not through `.bak`.
  `Persistence.SaveIsCrashSafe` proves that every intermediate state loads as the old or the new
  configuration.
- **`dirty` after a save.** Only the non-file branch of `save` clears `dirty`; the file branch
  leaves it as it was.
- **Backup parse errors.** When the backup fails with an exception other than `IOException`,
  `loadConfig` propagates that exception rather than the primary file's one.
- **History copy.** `copy` catches its own `IOException`, so the save goes on whatever the copy
  into `history/` does. A copy that fails while moving bytes leaves a partial file. A copy that
  cannot open its source or target stream (for instance after a failed `mkdir` of `history/`)
  creates no file, and the `setLastModified` that follows then changes nothing.

## Model

| member | source | states |
|---|---|---|
| JavaStrings.IndexOfFinds | update/org.eclipse.update.ui.win32/src/org/eclipse/welcome/internal/WebBrowserView.java:255 | `indexOf` returns -1 exactly when the pattern does not occur; otherwise it returns the first occurrence |
| JavaStrings.Trim | update/org.eclipse.update.configurator/src/org/eclipse/update/internal/configurator/PlatformConfiguration.java:1098 | `trim` removes exactly the leading and trailing characters up to U+0020: the result occurs in the string with only such characters before and after it, and neither starts nor ends with one |
| JavaStrings.TrimOfUnique | update/org.eclipse.update.configurator/src/org/eclipse/update/internal/configurator/PlatformConfiguration.java:1098 | at most one string is a trim of a given string, so the contract of `Trim` determines its result |
| JavaStrings.TrimIdempotent | update/org.eclipse.update.configurator/src/org/eclipse/update/internal/configurator/PlatformConfiguration.java:1098 | trimming twice is trimming once |
| JavaStrings.ReplaceChar | update/org.eclipse.update.core/src/org/eclipse/update/internal/model/SiteLocalParser.java:163 | `replace(from, to)` keeps the length and swaps every `from` for `to`, leaving other characters as they are |
| JavaStrings.DecimalRoundTrip | update/org.eclipse.update.core/src/org/eclipse/update/internal/model/SiteLocalParser.java:160 | `Long.parseLong(String.valueOf(n)) == n` for every `long` |
| JavaStrings.ParseLong | update/org.eclipse.update.core/src/org/eclipse/update/internal/model/SiteLocalParser.java:160 | a successful parse yields a value in the `long` range |
| Registry.Configuration.Sites | update/org.eclipse.update.configurator/src/org/eclipse/update/internal/configurator/PlatformConfiguration.java:202 | `getSites()` lists the entry of every key, in registry order |
| Registry.Configuration.GetSiteEntry | update/org.eclipse.update.configurator/src/org/eclipse/update/internal/configurator/PlatformConfiguration.java:172 | a lookup finds an entry exactly when the key is present, and then finds that key's entry |
| Registry.Configuration.AddSiteEntry | update/org.eclipse.update.configurator/src/org/eclipse/update/internal/configurator/PlatformConfiguration.java:176 | the key maps to the entry and the order stays a duplicate-free list of the keys; nothing else changes |
| Registry.Configuration.RemoveSiteEntry | update/org.eclipse.update.configurator/src/org/eclipse/update/internal/configurator/PlatformConfiguration.java:192 | exactly that key is removed and the order stays consistent; nothing else changes |
| Registry.ConfigureSite | update/org.eclipse.update.configurator/src/org/eclipse/update/internal/configurator/PlatformConfiguration.java:162-177 | a null entry or null URL changes nothing; an occupied key changes nothing unless `replace`; otherwise the URL key maps to the entry |
| Registry.UnconfigureSite | update/org.eclipse.update.configurator/src/org/eclipse/update/internal/configurator/PlatformConfiguration.java:182-193 | only the entry's URL key is removed, and removing an absent key changes nothing |
| Registry.ConfigureSiteIdempotent | update/org.eclipse.update.configurator/src/org/eclipse/update/internal/configurator/PlatformConfiguration.java:172-173 | configuring the same entry twice without replace is the same as configuring it once |
| Registry.UnconfigureUndoesConfigure | update/org.eclipse.update.configurator/src/org/eclipse/update/internal/configurator/PlatformConfiguration.java:162-193 | unconfiguring a site just configured under a new key restores the registry exactly |
| Registry.FindConfiguredSite | update/org.eclipse.update.configurator/src/org/eclipse/update/internal/configurator/PlatformConfiguration.java:224-247 | a null URL gives null; an exact key match is returned; any result is an entry of the registry |
| Registry.FirstHit | update/org.eclipse.update.configurator/src/org/eclipse/update/internal/configurator/PlatformConfiguration.java:229-237 | the entry under the first present key, or none when no key is present |
| Registry.FindConfiguredSiteIsFirstHit | update/org.eclipse.update.configurator/src/org/eclipse/update/internal/configurator/PlatformConfiguration.java:224-247 | the lookup is the first hit among the exact key, the decoded key and, only with `checkPlatformURL`, the platform form and its decoding; there is no deeper retry |
| Registry.EnabledSitesMembers | update/org.eclipse.update.configurator/src/org/eclipse/update/internal/configurator/PlatformConfiguration.java:203-207 | a site is kept by the filter if and only if it is listed and enabled |
| Registry.EnabledSitesAppend | update/org.eclipse.update.configurator/src/org/eclipse/update/internal/configurator/PlatformConfiguration.java:204-207 | filtering keeps the order: the filter of a concatenation is the concatenation of the filters |
| Registry.ConfiguredSites | update/org.eclipse.update.configurator/src/org/eclipse/update/internal/configurator/PlatformConfiguration.java:198-209 | `getConfiguredSites()` holds exactly the enabled entries of the registry |
| Registry.ResolvedPluginsMembers | update/org.eclipse.update.configurator/src/org/eclipse/update/internal/configurator/PlatformConfiguration.java:389-398 | the resolved URLs of one site are exactly the results of its plug-ins that resolve |
| Registry.PluginPathMembers | update/org.eclipse.update.configurator/src/org/eclipse/update/internal/configurator/PlatformConfiguration.java:381-401 | a URL is on the plug-in path if and only if some plug-in of a given site resolves to it |
| Registry.PluginPathLength | update/org.eclipse.update.configurator/src/org/eclipse/update/internal/configurator/PlatformConfiguration.java:389-397 | a malformed entry is skipped on its own: at most one URL per plug-in, and exactly one each when all resolve |
| Registry.FirstFeature | update/org.eclipse.update.configurator/src/org/eclipse/update/internal/configurator/PlatformConfiguration.java:303-314 | a null id gives null; otherwise the entry of the first site that has the id, or null when none has it |
| Registry.PrimaryFeatureIdentifier | update/org.eclipse.update.configurator/src/org/eclipse/update/internal/configurator/PlatformConfiguration.java:364-376 | the configured default feature, or `org.eclipse.platform` without one, when some site has it; null otherwise |
| Registry.ApplicationIdentifier | update/org.eclipse.update.configurator/src/org/eclipse/update/internal/configurator/PlatformConfiguration.java:345-359 | no default feature, or no site that has it, gives `org.eclipse.ui.ide.workbench`; any other result is the application of some site's entry for the default feature |
| Registry.FirstFeatureAt | update/org.eclipse.update.configurator/src/org/eclipse/update/internal/configurator/PlatformConfiguration.java:303-314 | when site `i` is the first to have the feature, the lookup returns that site's entry |
| Registry.ApplicationOfFirstSite | update/org.eclipse.update.configurator/src/org/eclipse/update/internal/configurator/PlatformConfiguration.java:345-359 | when site `i` is the first to have the default feature, the identifier is that entry's application, or the built-in one when it names none |
| Registry.ConfigureFeatureEntry | update/org.eclipse.update.configurator/src/org/eclipse/update/internal/configurator/PlatformConfiguration.java:252-270 | the feature is added to the `platform:/base/` site, replacing one with the same id; without that site nothing changes |
| Registry.LoadAttribute | update/org.eclipse.update.configurator/src/org/eclipse/update/internal/configurator/PlatformConfiguration.java:1093-1099 | an absent property gives the default; a present one gives its trim, which is the property itself when that is already trimmed |
| Registry.InitFeature | update/org.eclipse.update.configurator/src/org/eclipse/update/internal/configurator/PlatformConfiguration.java:1130-1135 | no entry exactly when `install.ini` has no default feature id; otherwise a primary entry whose id is the trimmed property |
| Registry.LoadInitializationAttributes | update/org.eclipse.update.configurator/src/org/eclipse/update/internal/configurator/PlatformConfiguration.java:1101-1152 | an unreadable `install.ini`, or one without `feature.default.id`, changes nothing; otherwise the trimmed id becomes the default feature whether or not a base site exists; when some site already has the feature, or there is no base site, the sites stay as they were; otherwise only the `platform:/base/` site changes, gaining the feature entry `install.ini` describes; no site is added or removed and nothing else changes |
| Registry.InitializationSetsPrimaryFeature | update/org.eclipse.update.configurator/src/org/eclipse/update/internal/configurator/PlatformConfiguration.java:1130-1145 | once `install.ini` names a default feature and a base site exists, that trimmed id is the primary feature |
| Registry.MaxStampBounds | update/org.eclipse.update.configurator/src/org/eclipse/update/internal/configurator/PlatformConfiguration.java:786-791 | the running maximum from 0 is non-negative, bounds every site's stamp, and is 0 or one of the stamps |
| Registry.MaxStampMonotone | update/org.eclipse.update.configurator/src/org/eclipse/update/internal/configurator/PlatformConfiguration.java:786-790 | more sites or newer stamps never lower the maximum |
| Registry.ChangeStampBounds | update/org.eclipse.update.configurator/src/org/eclipse/update/internal/configurator/PlatformConfiguration.java:773-780 | the change stamp is a multiple of 1000, at most `max(f, p)` and above `max(f, p) - 1000` |
| Registry.RoundToSecondsMonotone | update/org.eclipse.update.configurator/src/org/eclipse/update/internal/configurator/PlatformConfiguration.java:778 | rounding non-negative stamps down to seconds keeps their order |
| Registry.ParseLinkPath | update/org.eclipse.update.configurator/src/org/eclipse/update/internal/configurator/PlatformConfiguration.java:867-875 | `r ` gives read-only with the rest trimmed; `rw ` gives read-write with the rest trimmed; anything else is read-write with the raw path |
| Registry.ParseFormatLinkPath | update/org.eclipse.update.configurator/src/org/eclipse/update/internal/configurator/PlatformConfiguration.java:867-875 | writing a target with its prefix and parsing it back gives the target |
| Registry.LinkSiteURL | update/org.eclipse.update.configurator/src/org/eclipse/update/internal/configurator/PlatformConfiguration.java:877-885 | a link's site URL starts with `file:` and ends with `/` |
| Registry.SupportsDetection | update/org.eclipse.update.configurator/src/org/eclipse/update/internal/configurator/PlatformConfiguration.java:1173-1187 | detection is supported exactly for `file:` URLs and for `platform:` URLs that resolve to a `file:` URL |
| Registry.LinkSitesAreDetectable | update/org.eclipse.update.configurator/src/org/eclipse/update/internal/configurator/PlatformConfiguration.java:882 | every site created from a link file supports detection, so validation inspects it |
| Registry.ConfigureLinkSite | update/org.eclipse.update.configurator/src/org/eclipse/update/internal/configurator/PlatformConfiguration.java:856-912 | no `path`, or a site already found at the link's URL, changes nothing and leaves `dirty` alone; otherwise a new site is added with the link's flag and file name and the features, plug-ins and stamps found by scanning the site, and `dirty` is set |
| Registry.NewSiteEntry | update/org.eclipse.update.configurator/src/org/eclipse/update/internal/configurator/PlatformConfiguration.java:126-128 | a new site entry is enabled, updateable, has no link file, and carries the features, plug-ins and three change stamps that scanning its URL finds |
| Registry.LinkSiteIsScanned | update/org.eclipse.update.configurator/src/org/eclipse/update/internal/configurator/PlatformConfiguration.java:780-808 | a newly linked site keeps its scanned change stamp, and its scanned features and plug-ins stamps are at most the registry-wide maxima computed over all sites |
| Registry.LinkSiteIsReconciled | update/org.eclipse.update.configurator/src/org/eclipse/update/internal/configurator/PlatformConfiguration.java:1259-1268 | a newly linked site whose scanned stamp is newer than the saved date is replaced by its reload from disk in a reconcile that succeeds |
| Registry.FirstLinkWins | update/org.eclipse.update.configurator/src/org/eclipse/update/internal/configurator/PlatformConfiguration.java:906-908 | two link files for the same location give one site, which carries the first file's flag and name |
| Registry.ConfigureLinksOnlyAdds | update/org.eclipse.update.configurator/src/org/eclipse/update/internal/configurator/PlatformConfiguration.java:830-853 | link discovery never removes or replaces a configured site |
| Registry.ValidateSiteEffect | update/org.eclipse.update.configurator/src/org/eclipse/update/internal/configurator/PlatformConfiguration.java:919-942 | one validation step removes the site's key exactly when the site is inspectable and its root or link file is missing |
| Registry.ValidateSitesRemovesStale | update/org.eclipse.update.configurator/src/org/eclipse/update/internal/configurator/PlatformConfiguration.java:914-944 | validation removes exactly the keys of the stale sites; every other entry and every flag except `dirty` is unchanged |
| Registry.ValidateSitesDirty | update/org.eclipse.update.configurator/src/org/eclipse/update/internal/configurator/PlatformConfiguration.java:934-941 | validation sets `dirty` exactly when an inspectable site's link file is missing; a missing root alone does not set it |
| Registry.Rescan | update/org.eclipse.update.configurator/src/org/eclipse/update/internal/configurator/PlatformConfiguration.java:1262-1267 | rescanning never adds or removes a site |
| Registry.Reconcile | update/org.eclipse.update.configurator/src/org/eclipse/update/internal/configurator/PlatformConfiguration.java:1260-1269 | only sites and `dirty` change; a completed reconcile sets `dirty`; a failed one leaves `dirty` as it was |
| Registry.RescanEffect | update/org.eclipse.update.configurator/src/org/eclipse/update/internal/configurator/PlatformConfiguration.java:1263-1267 | after a successful reconcile, exactly the sites newer than the saved date hold what `loadFromDisk(date)` produced; the others are untouched |
| Registry.RescanFailure | update/org.eclipse.update.configurator/src/org/eclipse/update/internal/configurator/PlatformConfiguration.java:1265-1266 | a failed reconcile means some site newer than the saved date was being reloaded |
| Persistence.PathsDistinct | update/org.eclipse.update.configurator/src/org/eclipse/update/internal/configurator/PlatformConfiguration.java:493-520 | primary, `.tmp`, `.bak`, `config.ini` and the history file are pairwise different paths |
| Persistence.LoadConfig | update/org.eclipse.update.configurator/src/org/eclipse/update/internal/configurator/PlatformConfiguration.java:1057-1090 | a null URL is an error; a readable primary wins, then a readable `.tmp`; when all three fail, an `IOException` on `.bak` rethrows the primary file's exception and any other `.bak` failure propagates itself; any result is what one of the three files holds |
| Persistence.TempFallback | update/org.eclipse.update.configurator/src/org/eclipse/update/internal/configurator/PlatformConfiguration.java:1073-1078 | with the primary file unreadable, a complete `.tmp` file is what loads |
| Persistence.BackupFallback | update/org.eclipse.update.configurator/src/org/eclipse/update/internal/configurator/PlatformConfiguration.java:1079-1082 | with neither primary nor `.tmp` readable, `.bak` is what loads |
| Persistence.LoadFailsOnlyWithoutDocuments | update/org.eclipse.update.configurator/src/org/eclipse/update/internal/configurator/PlatformConfiguration.java:1083-1085 | loading fails only when none of the three files holds a complete document |
| Persistence.Delete | update/org.eclipse.update.configurator/src/org/eclipse/update/internal/configurator/PlatformConfiguration.java:522 | a delete removes the file, or changes nothing when it fails |
| Persistence.Rename | update/org.eclipse.update.configurator/src/org/eclipse/update/internal/configurator/PlatformConfiguration.java:530 | a rename succeeds exactly when it does not fail and the source exists; success moves the file; failure changes nothing |
| Persistence.WriteStage | update/org.eclipse.update.configurator/src/org/eclipse/update/internal/configurator/PlatformConfiguration.java:492-518 | the first half of a save is dated once `.tmp` is opened and written once the document is complete; a failure to open `.tmp` throws the stream's error and a failed write throws "unable to save" `.tmp`; a failed history copy never stops it |
| Persistence.TempStage | update/org.eclipse.update.configurator/src/org/eclipse/update/internal/configurator/PlatformConfiguration.java:505-518 | the `.tmp` write extends the earlier states; it succeeds exactly when the document is written, in three more states |
| Persistence.SaveTrace | update/org.eclipse.update.configurator/src/org/eclipse/update/internal/configurator/PlatformConfiguration.java:484-544 | a save that succeeds has completely written the new document |
| Persistence.SaveOutcome | update/org.eclipse.update.configurator/src/org/eclipse/update/internal/configurator/PlatformConfiguration.java:484-544 | a save fails with the `.tmp` stream error when `.tmp` cannot be opened, with "unable to save" `.tmp` when the write or the final rename fails, and succeeds otherwise, whatever the history copy, `config.ini`, `.bak` steps or clean-up do; on success the primary file holds the new document dated by the configuration, `.tmp` is gone, and `.bak` is gone unless the clean-up failed |
| Persistence.Preserved | update/org.eclipse.update.configurator/src/org/eclipse/update/internal/configurator/PlatformConfiguration.java:493-501 | with no primary file nothing changes; otherwise only `history/<lastModified>.xml` changes: it is a copy of the primary file, a partial file, or (when a stream cannot be opened) untouched apart from its time stamp, which is the primary file's whenever the file exists |
| Persistence.HistoryKeepsPrevious | update/org.eclipse.update.configurator/src/org/eclipse/update/internal/configurator/PlatformConfiguration.java:493-501 | a completed history copy keeps the previous primary file under `history/<lastModified>.xml` in every later state of the save |
| Persistence.LoadDependsOnThreeFiles | update/org.eclipse.update.configurator/src/org/eclipse/update/internal/configurator/PlatformConfiguration.java:1071-1086 | loading depends only on primary and `.bak` and on whether `.tmp` holds a complete document |
| Persistence.TempHoldsSaved | update/org.eclipse.update.configurator/src/org/eclipse/update/internal/configurator/PlatformConfiguration.java:524-528 | while `.tmp` holds the new document and the primary file is the old one or gone, the directory loads as old or new |
| Persistence.PromotionRecovers | update/org.eclipse.update.configurator/src/org/eclipse/update/internal/configurator/PlatformConfiguration.java:520-544 | every step of the promotion leaves a directory that loads as old or new, and a successful promotion loads as new |
| Persistence.TempStageRecovers | update/org.eclipse.update.configurator/src/org/eclipse/update/internal/configurator/PlatformConfiguration.java:505-518 | from a state that loads as the old configuration, every state of the `.tmp` write still does, and a completed write leaves the new document in `.tmp` beside the old primary file |
| Persistence.WriteStageRecovers | update/org.eclipse.update.configurator/src/org/eclipse/update/internal/configurator/PlatformConfiguration.java:492-518 | every state of the first half of a save, including one whose history copy failed, loads as the old or the new configuration, and a completed first half leaves the new document in `.tmp` beside the old primary file |
| Persistence.SaveIsCrashSafe | update/org.eclipse.update.configurator/src/org/eclipse/update/internal/configurator/PlatformConfiguration.java:465-545 | unless the save starts from a stale `.tmp` file, every intermediate file state loads as the old or the new configuration, and a completed save loads as the new one |
| Persistence.StaleTempLosesState | update/org.eclipse.update.configurator/src/org/eclipse/update/internal/configurator/PlatformConfiguration.java:505-518 | the exception: after an interrupted save left only `.tmp` and `.bak`, a failed write of the next save makes the older `.bak` load |
| Platform.PlatformConfiguration.constructor | update/org.eclipse.update.configurator/src/org/eclipse/update/internal/configurator/PlatformConfiguration.java:81-87 | after loading, the configuration is held and no cached stamp is valid |
| Platform.PlatformConfiguration.ConfigureSite | update/org.eclipse.update.configurator/src/org/eclipse/update/internal/configurator/PlatformConfiguration.java:162-177 | the new configuration is `Registry.ConfigureSite` of the old one |
| Platform.PlatformConfiguration.UnconfigureSite | update/org.eclipse.update.configurator/src/org/eclipse/update/internal/configurator/PlatformConfiguration.java:182-193 | the new configuration is `Registry.UnconfigureSite` of the old one |
| Platform.PlatformConfiguration.GetConfiguredSites | update/org.eclipse.update.configurator/src/org/eclipse/update/internal/configurator/PlatformConfiguration.java:198-209 | the filtering loop returns exactly `ConfiguredSites`: the enabled sites in registry order |
| Platform.PlatformConfiguration.EnabledOf | update/org.eclipse.update.configurator/src/org/eclipse/update/internal/configurator/PlatformConfiguration.java:203-207 | the filtering loop over a site list returns `EnabledSites` of that list |
| Platform.PlatformConfiguration.GetPluginPath | update/org.eclipse.update.configurator/src/org/eclipse/update/internal/configurator/PlatformConfiguration.java:381-401 | the two nested loops produce exactly the plug-in path of the enabled sites |
| Platform.PlatformConfiguration.PathOf | update/org.eclipse.update.configurator/src/org/eclipse/update/internal/configurator/PlatformConfiguration.java:387-399 | the outer loop concatenates the sites' resolved plug-ins in site order |
| Platform.PlatformConfiguration.ResolvePlugins | update/org.eclipse.update.configurator/src/org/eclipse/update/internal/configurator/PlatformConfiguration.java:388-398 | the inner loop keeps, in order, the plug-ins that resolve |
| Platform.PlatformConfiguration.FindConfiguredFeatureEntry | update/org.eclipse.update.configurator/src/org/eclipse/update/internal/configurator/PlatformConfiguration.java:303-314 | the loop with its early return yields `FirstFeature` |
| Platform.PlatformConfiguration.GetPrimaryFeatureIdentifier | update/org.eclipse.update.configurator/src/org/eclipse/update/internal/configurator/PlatformConfiguration.java:364-376 | equals `PrimaryFeatureIdentifier` |
| Platform.PlatformConfiguration.GetApplicationIdentifier | update/org.eclipse.update.configurator/src/org/eclipse/update/internal/configurator/PlatformConfiguration.java:345-359 | the lookup equals `ApplicationIdentifier`: the application of the first site that has the default feature, or the built-in one |
| Platform.PlatformConfiguration.ConfigureFeatureEntry | update/org.eclipse.update.configurator/src/org/eclipse/update/internal/configurator/PlatformConfiguration.java:252-270 | a null entry changes nothing; otherwise the result is `Registry.ConfigureFeatureEntry` |
| Platform.PlatformConfiguration.LoadInitializationAttributes | update/org.eclipse.update.configurator/src/org/eclipse/update/internal/configurator/PlatformConfiguration.java:1101-1152 | equals `Registry.LoadInitializationAttributes` |
| Platform.PlatformConfiguration.InitFeatureOf | update/org.eclipse.update.configurator/src/org/eclipse/update/internal/configurator/PlatformConfiguration.java:1130-1135 | reading the three `install.ini` attributes gives `InitFeature` |
| Platform.PlatformConfiguration.ComputeFeaturesChangeStamp | update/org.eclipse.update.configurator/src/org/eclipse/update/internal/configurator/PlatformConfiguration.java:782-794 | a valid cache is returned unchanged; otherwise the loop caches the maximum feature stamp from 0 and marks the cache valid |
| Platform.PlatformConfiguration.ComputePluginsChangeStamp | update/org.eclipse.update.configurator/src/org/eclipse/update/internal/configurator/PlatformConfiguration.java:796-808 | the same for plug-in stamps |
| Platform.PlatformConfiguration.ComputeChangeStamp | update/org.eclipse.update.configurator/src/org/eclipse/update/internal/configurator/PlatformConfiguration.java:773-780 | the stamp is `ChangeStamp` of the two cached stamps, each recomputed only when invalid |
| Platform.PlatformConfiguration.ConfigureExternalLinkSite | update/org.eclipse.update.configurator/src/org/eclipse/update/internal/configurator/PlatformConfiguration.java:856-912 | equals `ConfigureLinkSite` |
| Platform.PlatformConfiguration.ConfigureExternalLinks | update/org.eclipse.update.configurator/src/org/eclipse/update/internal/configurator/PlatformConfiguration.java:810-854 | an undetectable install URL or an unlistable directory changes nothing; otherwise the loop, skipping directories and unreadable files, equals `ConfigureLinks` |
| Platform.PlatformConfiguration.ValidateSites | update/org.eclipse.update.configurator/src/org/eclipse/update/internal/configurator/PlatformConfiguration.java:914-944 | the loop over the snapshot of the sites equals `Registry.ValidateSites` |
| Platform.PlatformConfiguration.Reconcile | update/org.eclipse.update.configurator/src/org/eclipse/update/internal/configurator/PlatformConfiguration.java:1260-1269 | the loop equals `Registry.Reconcile`, and a failed reload ends it |
| Platform.PlatformConfiguration.RescanSites | update/org.eclipse.update.configurator/src/org/eclipse/update/internal/configurator/PlatformConfiguration.java:1262-1267 | the loop over the sites equals `Registry.Rescan`, stopping at the first failed reload |
| Platform.PlatformConfiguration.Startup | update/org.eclipse.update.configurator/src/org/eclipse/update/internal/configurator/PlatformConfiguration.java:92-106 | links, then `install.ini`, then validation, then the change stamp; reconcile runs exactly when the stamp is newer than the saved date and the configuration is not transient |
| Platform.PlatformConfiguration.Save | update/org.eclipse.update.configurator/src/org/eclipse/update/internal/configurator/PlatformConfiguration.java:465-545 | a null URL is an error and changes neither the files, the configuration nor the change stamp; a remote save changes no file and no change stamp, and dates the configuration once the stream is open; the file branch passes through the states of `SaveTrace` |
| Platform.PlatformConfiguration.SaveFile | update/org.eclipse.update.configurator/src/org/eclipse/update/internal/configurator/PlatformConfiguration.java:484-544 | the file branch passes through the states of `SaveTrace`, which goes on past a failed history copy; it dates the configuration once `.tmp` is open and takes the change stamp once it is written |
| Platform.PlatformConfiguration.WriteTemp | update/org.eclipse.update.configurator/src/org/eclipse/update/internal/configurator/PlatformConfiguration.java:492-518 | preserving under `history/` (a whole copy, a partial file, or no new file when a stream cannot be opened; the save goes on in each case), `config.ini` and the `.tmp` write pass through the states of `WriteStage` |
| Platform.PlatformConfiguration.WriteTempFile | update/org.eclipse.update.configurator/src/org/eclipse/update/internal/configurator/PlatformConfiguration.java:505-518 | writing `.tmp` passes through the states of `TempStage`, dates the configuration once the stream is open and takes the change stamp only after a complete write |
| Platform.PlatformConfiguration.Promote | update/org.eclipse.update.configurator/src/org/eclipse/update/internal/configurator/PlatformConfiguration.java:520-544 | the delete/rename steps pass through the states of `Promotion` |
| WebBrowser.NormalizedURLShape | update/org.eclipse.update.ui.win32/src/org/eclipse/welcome/internal/WebBrowserView.java:253-259 | a normalized URL is lower-case and contains `://` |
| WebBrowser.DefaultSchemeShape | update/org.eclipse.update.ui.win32/src/org/eclipse/welcome/internal/WebBrowserView.java:256-257 | prefixing `http://` to a lower-case URL gives a lower-case URL containing `://` |
| WebBrowser.NormalizedURLIdempotent | update/org.eclipse.update.ui.win32/src/org/eclipse/welcome/internal/WebBrowserView.java:253-259 | normalizing twice is normalizing once |
| WebBrowser.NormalizedURLIgnoresCase | update/org.eclipse.update.ui.win32/src/org/eclipse/welcome/internal/WebBrowserView.java:254 | a URL and its lower-case form normalize alike |
| WebBrowser.NormalizedURLKeepsScheme | update/org.eclipse.update.ui.win32/src/org/eclipse/welcome/internal/WebBrowserView.java:255-257 | a URL that has `://` normalizes to its lower-case form, with no `http://` added |
| WebBrowser.MatchIndex | update/org.eclipse.update.ui.win32/src/org/eclipse/welcome/internal/WebBrowserView.java:159-168 | the index is -1 or an item that normalizes like the URL |
| WebBrowser.MatchIndexIsFirst | update/org.eclipse.update.ui.win32/src/org/eclipse/welcome/internal/WebBrowserView.java:161-167 | the match is the first one, and -1 means no item matches |
| WebBrowser.NavigateFront | update/org.eclipse.update.ui.win32/src/org/eclipse/welcome/internal/WebBrowserView.java:172 | the visited URL becomes the first entry |
| WebBrowser.NavigateLength | update/org.eclipse.update.ui.win32/src/org/eclipse/welcome/internal/WebBrowserView.java:169-175 | the list never exceeds ten entries; it keeps its length on a repeat visit, and grows by one on a new URL while there is room |
| WebBrowser.NavigateKeepsOrder | update/org.eclipse.update.ui.win32/src/org/eclipse/welcome/internal/WebBrowserView.java:169-175 | after the front entry come the old entries in order, without the matching one, with the oldest dropped when over the limit |
| WebBrowser.NavigateKeepsDistinct | update/org.eclipse.update.ui.win32/src/org/eclipse/welcome/internal/WebBrowserView.java:156-177 | if no two entries normalize alike before a navigation, none do after it |
| WebBrowser.NavigateAgainIsStable | update/org.eclipse.update.ui.win32/src/org/eclipse/welcome/internal/WebBrowserView.java:156-177 | visiting the newest entry again leaves the list unchanged |
| WebBrowser.WebBrowserView.constructor | update/org.eclipse.update.ui.win32/src/org/eclipse/welcome/internal/WebBrowserView.java:179-245 | every action starts disabled and the list starts empty |
| WebBrowser.WebBrowserView.FindItem | update/org.eclipse.update.ui.win32/src/org/eclipse/welcome/internal/WebBrowserView.java:159-168 | the search loop with its `break` returns `MatchIndex` |
| WebBrowser.WebBrowserView.Navigate | update/org.eclipse.update.ui.win32/src/org/eclipse/welcome/internal/WebBrowserView.java:156-177 | the URL is requested from the browser; the list becomes `AfterNavigate` of the old list and stays bounded and duplicate-free |
| WebBrowser.WebBrowserView.NavigatedItems | update/org.eclipse.update.ui.win32/src/org/eclipse/welcome/internal/WebBrowserView.java:158-175 | finding, removing, prepending and truncating give `AfterNavigate` of the current list |
| WebBrowser.WebBrowserView.SetText | update/org.eclipse.update.ui.win32/src/org/eclipse/welcome/internal/WebBrowserView.java:126-131 | Go is enabled exactly when the text is non-empty |
| WebBrowser.WebBrowserView.Go | update/org.eclipse.update.ui.win32/src/org/eclipse/welcome/internal/WebBrowserView.java:180-184 | Go and Enter navigate to the combo box's text |
| WebBrowser.WebBrowserView.SelectItem | update/org.eclipse.update.ui.win32/src/org/eclipse/welcome/internal/WebBrowserView.java:133-138 | choosing a non-empty item navigates to it; an empty one changes nothing |
| WebBrowser.WebBrowserView.OpenTo | update/org.eclipse.update.ui.win32/src/org/eclipse/welcome/internal/WebBrowserView.java:105-112 | the text shows the URL, then the browser navigates to it |
| WebBrowser.WebBrowserView.DownloadBegin | update/org.eclipse.update.ui.win32/src/org/eclipse/welcome/internal/WebBrowserView.java:96-101 | Stop turns on and Refresh off |
| WebBrowser.WebBrowserView.DownloadComplete | update/org.eclipse.update.ui.win32/src/org/eclipse/welcome/internal/WebBrowserView.java:87-119 | a null location changes nothing; otherwise the text shows it, Back and Forward follow the browser, Stop turns off and Refresh on, so Stop and Refresh are never on together |
| SiteLocal.DecodeHistoryName | update/org.eclipse.update.core/src/org/eclipse/update/internal/model/SiteLocalParser.java:155-160 | names without `.xml` are skipped; otherwise the name less its last four characters is parsed as a `long`, and a failed parse is reported |
| SiteLocal.DecodeSavedName | update/org.eclipse.update.core/src/org/eclipse/update/internal/model/SiteLocalParser.java:156-160 | `String.valueOf(t) + ".xml"` decodes back to `t` |
| SiteLocal.PreservedFileIsFound | update/org.eclipse.update.configurator/src/org/eclipse/update/internal/configurator/PlatformConfiguration.java:498 | the file `save` preserves under `history/` is found again under the same time stamp |
| SiteLocal.HistoryConfig | update/org.eclipse.update.core/src/org/eclipse/update/internal/model/SiteLocalParser.java:162-164 | the location is the absolute path with no `\` left, and the date is the decoded stamp |
| SiteLocal.HistoryConfigsAppend | update/org.eclipse.update.core/src/org/eclipse/update/internal/model/SiteLocalParser.java:154-169 | without a non-numeric name, the files are processed independently and in order |
| SiteLocal.HistoryStopsAtFailure | update/org.eclipse.update.core/src/org/eclipse/update/internal/model/SiteLocalParser.java:153-173 | a non-numeric `.xml` name ends the loop: the configurations added before it stay and every later file is ignored |
| SiteLocal.SkipsNonXml | update/org.eclipse.update.core/src/org/eclipse/update/internal/model/SiteLocalParser.java:156-159 | a file not ending in `.xml` contributes nothing, wherever it is |
| SiteLocal.HistoryConfigsFromFiles | update/org.eclipse.update.core/src/org/eclipse/update/internal/model/SiteLocalParser.java:155-168 | every configuration added comes from a listed file whose name decodes to its date, and its location has no `\` |
| SiteLocal.HistoryConfigsCount | update/org.eclipse.update.core/src/org/eclipse/update/internal/model/SiteLocalParser.java:154-169 | with every name numeric, there is exactly one configuration per `.xml` file |
| SiteLocal.LocalSite.AddConfiguration | update/org.eclipse.update.core/src/org/eclipse/update/internal/model/SiteLocalParser.java:168 | a configuration is appended to the site's list |
| SiteLocal.SiteLocalParser.constructor | update/org.eclipse.update.core/src/org/eclipse/update/internal/model/SiteLocalParser.java:55-71 | the current configuration is added first, then the history configurations; without a history directory, only the current one |
| SiteLocal.SiteLocalParser.ProcessConfig | update/org.eclipse.update.core/src/org/eclipse/update/internal/model/SiteLocalParser.java:123-142 | the current configuration, at the site's location and with the platform configuration's date, is appended |
| SiteLocal.SiteLocalParser.ProcessHistory | update/org.eclipse.update.core/src/org/eclipse/update/internal/model/SiteLocalParser.java:147-174 | the loop appends exactly `HistoryConfigs` of the listing; an absent directory adds nothing |

## Left out

- XML serialisation and parsing (`saveAsXML`, `ConfigurationParser`) are not modelled. A parse is a given function that returns a configuration or fails, and a written document is the configuration value itself.
- The `java.util.Properties` format is not modelled; link files and `install.ini` are given as maps.
- `URL` construction and its `MalformedURLException`, `URLDecoder`, `Utils.asPlatformURL`, `resolvePlatformURL`, `File.getAbsolutePath`, `SiteEntry.loadFromDisk` and what the lazily computing getters of a new `SiteEntry` find on disk (`Registry.Host.scan`) are functions of `Registry.Host`. Their code is not part of this model.
- The bytes that `copy`, `writeConfigIni` and `linkInitializedState` move are not modelled. The copy into `history/` copies the whole file, leaves a partial one, or creates none (`Persistence.CopyOutcome`).
- OSGi `Location` handling, the configuration lock, the `synchronized` methods and the static `startup`/`shutdown` singletons are left out. They are I/O plumbing and concurrency.
- `initializeCurrent`/`initialize` are left out. They choose the configuration location and fall back to a fresh configuration, which is OSGi location logic. The model starts from a loaded configuration (`Platform.PlatformConfiguration.constructor`).
- `unconfigureFeatureEntry`, `getConfiguredFeatureEntries`, `refresh` and `isTransient(boolean)` are left out. They delegate to `Configuration` and `SiteEntry` code that is not part of this model.
- `getChangeStamp`, `getFeaturesChangeStamp` and `getPluginsChangeStamp` are left out. They return the saved date and two constants 0.
- `SitePolicy` and `createSitePolicy` are left out. A new link site carries no policy.
- The `externalLinkSites` map is never filled in the code, so its lookup always misses. The model always creates a fresh site entry.
- The `config == null` branches are left out. After construction `config` always holds a configuration, so those branches never run.
- A feature entry with a null identifier is not modelled. `FeatureEntry.id` is a string.
- `Platform.PlatformConfiguration.Save`: the configuration directory is a parameter. Deriving it from the URL (`getFile`, appending `platform.xml`, `mkdirs`) is left out, and paths are joined with `/`.
- `Platform.PlatformConfiguration.Save`: a remote save is reduced to three outcomes (`RemoteOutcome`). The connection itself is not modelled.
- `Persistence.WithConfigIni`: the copied `config.ini` is an opaque file. Its bytes are not modelled.
- `Registry.FindConfiguredSite`: `URLDecoder.decode` is a total function of `Registry.Host`. The `IllegalArgumentException` it throws on a malformed `%` escape is not modelled. In the code that exception escapes `findConfiguredSite` and, through `configureExternalLinkSite` and `configureExternalLinks`, the constructor; in the model the lookup goes on with the decoded key.
- `Persistence.LoadConfig`: a garbled document is a parse error that is not an `IOException`, and a missing file is an `IOException`.
- `Persistence.SaveIsCrashSafe`: requires that the save does not start from a stale `.tmp` file.
  - In that state the primary file is unreadable and `.tmp` holds a complete document.
  - The code cannot recover it either: `Persistence.StaleTempLosesState` exhibits the lost state.
- `JavaStrings.ToLowerAscii`: only ASCII letters are lower-cased. Java's locale-dependent Unicode case mapping is not modelled.
- `JavaStrings.ParseLong`: only ASCII digits are accepted, and a leading `+` is allowed as in current Java.
- `SiteLocal.SiteLocalParser.ProcessHistory`: the exceptions of `listFiles` returning null, `toURL` and `resolve` are not modelled, nor is the `Date.toString` label. An absent listing stands for both a missing directory and a null listing.
- `SiteLocal.SiteLocalParser.ProcessConfig`: the resource-bundle lookup of the label and the URL's external form are left out. The location is the site's location string.
- Widgets, images, help, layout and toolbar wiring of `WebBrowserView` are left out.
- `WebBrowser.WebBrowserView.OpenTo`: `asyncExec` is modelled as running `navigate` right after `setText`.
- `WebBrowser.WebBrowserView.DownloadComplete`: setting the text is taken to run the modify listener, as `SetText` does.
- The browser control is not modelled. `requested` records the URLs handed to it.
