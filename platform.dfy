/**
 * `PlatformConfiguration` as an object: the loaded configuration, the cached
 * change stamps, and the methods that read and update them.  Every method is
 * proved against the corresponding function of module Registry or Persistence.
 */
module Platform {
  import opened Wrappers
  import opened JavaStrings
  import opened Registry
  import opened Persistence

  /** The local file system the configuration directory lives on. */
  class Disk {
    var files: Files

    constructor (files: Files)
      ensures this.files == files
    {
      this.files := files;
    }
  }

  /** How writing to a URL that is not a `file:` URL ends. */
  datatype RemoteOutcome = RemoteWritten | ConnectionFails | DocumentFails

  class PlatformConfiguration {
    var config: Configuration
    var changeStamp: int
    var featuresChangeStamp: int
    var featuresChangeStampIsValid: bool
    var pluginsChangeStamp: int
    var pluginsChangeStampIsValid: bool
    /** The services the object calls: file system queries, URL handling, site scanning. */
    const host: Host

    ghost predicate Valid()
      reads this
    {
      config.Valid()
    }

    /** The state right after the configuration has been loaded: no stamp computed yet. */
    constructor (initial: Configuration, host: Host)
      requires initial.Valid()
      ensures Valid() && config == initial && this.host == host
      ensures changeStamp == 0 && !featuresChangeStampIsValid && !pluginsChangeStampIsValid
    {
      config := initial;
      this.host := host;
      changeStamp := 0;
      featuresChangeStamp := 0;
      featuresChangeStampIsValid := false;
      pluginsChangeStamp := 0;
      pluginsChangeStampIsValid := false;
    }

    // ------------------------------------------------------------ sites

    method ConfigureSite(entry: Option<SiteEntry>, replace: bool)
      requires Valid()
      modifies this`config
      ensures Valid() && config == Registry.ConfigureSite(old(config), entry, replace)
    {
      if entry.None? {
        return;
      }
      var url := entry.value.url;
      if url.None? {
        return;
      }
      var key := url.value;
      if config.GetSiteEntry(key).Some? && !replace {
        return;
      }
      config := config.AddSiteEntry(key, entry.value);
    }

    method UnconfigureSite(entry: Option<SiteEntry>)
      requires Valid()
      modifies this`config
      ensures Valid() && config == Registry.UnconfigureSite(old(config), entry)
    {
      if entry.None? || entry.value.url.None? {
        return;
      }
      config := config.RemoveSiteEntry(entry.value.url.value);
    }

    /** `getConfiguredSites()`: the enabled sites in registry order. */
    method GetConfiguredSites() returns (enabledSites: seq<SiteEntry>)
      requires Valid()
      ensures enabledSites == ConfiguredSites(config)
    {
      var sites := config.Sites();
      enabledSites := EnabledOf(sites);
    }

    /** The filtering loop of `getConfiguredSites()`. */
    method EnabledOf(sites: seq<SiteEntry>) returns (enabledSites: seq<SiteEntry>)
      ensures enabledSites == EnabledSites(sites)
    {
      enabledSites := [];
      for i := 0 to |sites|
        invariant enabledSites + EnabledSites(sites[i..]) == EnabledSites(sites)
      {
        assert sites[i..][1..] == sites[i + 1..];
        if sites[i].enabled {
          enabledSites := enabledSites + [sites[i]];
        }
      }
      assert sites[|sites|..] == [];
    }

    /** `getPluginPath()`: the resolved plug-in URLs of the enabled sites; a bad URL is skipped. */
    method GetPluginPath() returns (path: seq<string>)
      requires Valid()
      ensures path == PluginPath(ConfiguredSites(config), host)
    {
      var sites := GetConfiguredSites();
      path := PathOf(sites);
    }

    /** The outer loop of `getPluginPath()`, over the sites in order. */
    method PathOf(sites: seq<SiteEntry>) returns (path: seq<string>)
      ensures path == PluginPath(sites, host)
    {
      path := [];
      for i := 0 to |sites|
        invariant path + PluginPath(sites[i..], host) == PluginPath(sites, host)
      {
        var urls := ResolvePlugins(sites[i].resolvedUrl, sites[i].plugins);
        assert PluginPath(sites[i..], host) == urls + PluginPath(sites[i + 1..], host) by {
          assert sites[i..][0] == sites[i] && sites[i..][1..] == sites[i + 1..];
        }
        path := path + urls;
      }
      assert sites[|sites|..] == [];
    }

    /** The inner loop of `getPluginPath()`: `new URL(base, plugin)` for each plug-in, skipping malformed ones. */
    method ResolvePlugins(base: string, plugins: seq<string>) returns (urls: seq<string>)
      ensures urls == ResolvedPlugins(base, plugins, host)
    {
      urls := [];
      for j := 0 to |plugins|
        invariant urls + ResolvedPlugins(base, plugins[j..], host) == ResolvedPlugins(base, plugins, host)
      {
        assert plugins[j..][1..] == plugins[j + 1..];
        var pathURL := host.resolvePlugin(base, plugins[j]);
        if pathURL.Some? {
          urls := urls + [pathURL.value];
        }
      }
      assert plugins[|plugins|..] == [];
    }

    // ------------------------------------------------------------ features

    /** `findConfiguredFeatureEntry(id)`: the first site, in registry order, that has the feature wins. */
    method FindConfiguredFeatureEntry(id: Option<string>) returns (feature: Option<FeatureEntry>)
      requires Valid()
      ensures feature == FirstFeature(config.Sites(), id)
    {
      if id.None? {
        return None;
      }
      var sites := config.Sites();
      for i := 0 to |sites|
        invariant FirstFeature(sites[i..], id) == FirstFeature(sites, id)
      {
        assert sites[i..][1..] == sites[i + 1..];
        if id.value in sites[i].features {
          return Some(sites[i].features[id.value]);
        }
      }
      assert sites[|sites|..] == [];
      return None;
    }

    method GetPrimaryFeatureIdentifier() returns (r: Option<string>)
      requires Valid()
      ensures r == PrimaryFeatureIdentifier(config)
    {
      var primaryFeatureId := if config.defaultFeature.Some? then config.defaultFeature.value else DEFAULT_FEATURE_ID;
      var fe := FindConfiguredFeatureEntry(Some(primaryFeatureId));
      r := if fe.None? then None else Some(primaryFeatureId);
    }

    method GetApplicationIdentifier() returns (r: string)
      requires Valid()
      ensures r == ApplicationIdentifier(config)
    {
      if config.defaultFeature.Some? {
        var fe := FindConfiguredFeatureEntry(config.defaultFeature);
        if fe.Some? && fe.value.application.Some? {
          return fe.value.application.value;
        }
      }
      return DEFAULT_FEATURE_APPLICATION;
    }

    method ConfigureFeatureEntry(entry: Option<FeatureEntry>)
      requires Valid()
      modifies this`config
      ensures Valid()
      ensures entry.None? ==> config == old(config)
      ensures entry.Some? ==> config == Registry.ConfigureFeatureEntry(old(config), entry.value)
    {
      if entry.None? {
        return;
      }
      var defaultSite := config.GetSiteEntry(BASE_SITE_URL);
      if defaultSite.Some? {
        var site := defaultSite.value;
        config := config.(sites := config.sites[BASE_SITE_URL := site.(features := site.features[entry.value.id := entry.value])]);
      }
    }

    /** `loadInitializationAttributes()` given the properties of `install.ini` (`None`: unreadable). */
    method LoadInitializationAttributes(initProps: Option<map<string, string>>)
      requires Valid()
      modifies this`config
      ensures Valid() && config == Registry.LoadInitializationAttributes(old(config), initProps)
    {
      if initProps.None? {
        return;
      }
      var init := InitFeatureOf(initProps.value);
      if init.None? {
        return;
      }
      var fe := FindConfiguredFeatureEntry(Some(init.value.id));
      if fe.None? {
        ConfigureFeatureEntry(init);
      }
      config := config.(defaultFeature := Some(init.value.id));
    }

    /** The `install.ini` attributes: the feature id, its application and plug-in id (the feature id when absent). */
    method InitFeatureOf(props: map<string, string>) returns (init: Option<FeatureEntry>)
      ensures init == InitFeature(props)
    {
      var initId := LoadAttribute(props, INIT_DEFAULT_FEATURE_ID, None);
      if initId.None? {
        return None;
      }
      var application := LoadAttribute(props, INIT_DEFAULT_FEATURE_APPLICATION, None);
      var initPluginId := LoadAttribute(props, INIT_DEFAULT_PLUGIN_ID, None);
      if initPluginId.None? {
        initPluginId := initId;
      }
      return Some(FeatureEntry(initId.value, None, initPluginId, None, true, application));
    }

    // ------------------------------------------------------------ change stamps

    method ComputeFeaturesChangeStamp() returns (r: int)
      requires Valid()
      modifies this`featuresChangeStamp, this`featuresChangeStampIsValid
      ensures old(featuresChangeStampIsValid) ==> r == featuresChangeStamp == old(featuresChangeStamp)
      ensures !old(featuresChangeStampIsValid) ==> r == featuresChangeStamp == MaxStamp(FeaturesStamps(config.Sites()))
      ensures featuresChangeStampIsValid
    {
      if featuresChangeStampIsValid {
        return featuresChangeStamp;
      }
      var sites := config.Sites();
      ghost var stamps := FeaturesStamps(sites);
      var result := 0;
      MaxStampBounds(stamps);
      for i := 0 to |sites|
        invariant result >= 0 && Max(result, MaxStamp(stamps[i..])) == MaxStamp(stamps)
      {
        assert stamps[i..][1..] == stamps[i + 1..];
        result := Max(result, sites[i].featuresChangeStamp);
      }
      assert stamps[|sites|..] == [];
      featuresChangeStamp := result;
      featuresChangeStampIsValid := true;
      return featuresChangeStamp;
    }

    method ComputePluginsChangeStamp() returns (r: int)
      requires Valid()
      modifies this`pluginsChangeStamp, this`pluginsChangeStampIsValid
      ensures old(pluginsChangeStampIsValid) ==> r == pluginsChangeStamp == old(pluginsChangeStamp)
      ensures !old(pluginsChangeStampIsValid) ==> r == pluginsChangeStamp == MaxStamp(PluginsStamps(config.Sites()))
      ensures pluginsChangeStampIsValid
    {
      if pluginsChangeStampIsValid {
        return pluginsChangeStamp;
      }
      var sites := config.Sites();
      ghost var stamps := PluginsStamps(sites);
      var result := 0;
      MaxStampBounds(stamps);
      for i := 0 to |sites|
        invariant result >= 0 && Max(result, MaxStamp(stamps[i..])) == MaxStamp(stamps)
      {
        assert stamps[i..][1..] == stamps[i + 1..];
        result := Max(result, sites[i].pluginsChangeStamp);
      }
      assert stamps[|sites|..] == [];
      pluginsChangeStamp := result;
      pluginsChangeStampIsValid := true;
      return pluginsChangeStamp;
    }

    /** `computeChangeStamp()`: the larger of the two stamps, rounded down to whole seconds. */
    method ComputeChangeStamp() returns (r: int)
      requires Valid()
      modifies this`featuresChangeStamp, this`featuresChangeStampIsValid
      modifies this`pluginsChangeStamp, this`pluginsChangeStampIsValid, this`changeStamp
      ensures old(featuresChangeStampIsValid) ==> featuresChangeStamp == old(featuresChangeStamp)
      ensures !old(featuresChangeStampIsValid) ==> featuresChangeStamp == MaxStamp(FeaturesStamps(config.Sites()))
      ensures old(pluginsChangeStampIsValid) ==> pluginsChangeStamp == old(pluginsChangeStamp)
      ensures !old(pluginsChangeStampIsValid) ==> pluginsChangeStamp == MaxStamp(PluginsStamps(config.Sites()))
      ensures featuresChangeStampIsValid && pluginsChangeStampIsValid
      ensures r == changeStamp == Registry.ChangeStamp(featuresChangeStamp, pluginsChangeStamp)
    {
      featuresChangeStamp := ComputeFeaturesChangeStamp();
      pluginsChangeStamp := ComputePluginsChangeStamp();
      changeStamp := Max(featuresChangeStamp, pluginsChangeStamp);
      changeStamp := JavaDiv(changeStamp, 1000) * 1000;
      return changeStamp;
    }

    // ------------------------------------------------------------ links, validation, reconciliation

    /** `configureExternalLinkSite(linkFile, props)` given the file's absolute path and its `path` property. */
    method ConfigureExternalLinkSite(linkFile: string, path: Option<string>)
      requires Valid()
      modifies this`config
      ensures Valid() && config == ConfigureLinkSite(old(config), linkFile, path, host)
    {
      if path.None? {
        return;
      }
      var target := ParseLinkPath(path.value);
      var siteURL := LinkSiteURL(target.directory, host);
      if FindConfiguredSite(config, Some(siteURL), true, host).Some? {
        return;
      }
      ConfigureSite(Some(LinkSite(siteURL, target, linkFile, host)), false);
      config := config.(dirty := true);
    }

    /**
     * `configureExternalLinks()` given the install URL and the files of its
     * `links` directory (`None`: the directory URL cannot be formed or listed).
     */
    method ConfigureExternalLinks(installURL: string, links: Option<seq<LinkFile>>)
      requires Valid()
      modifies this`config
      ensures Valid()
      ensures !SupportsDetection(installURL, host) || links.None? ==> config == old(config)
      ensures SupportsDetection(installURL, host) && links.Some? ==> config == ConfigureLinks(old(config), links.value, host)
    {
      if !SupportsDetection(installURL, host) || links.None? {
        return;
      }
      var files := links.value;
      for i := 0 to |files|
        invariant Valid()
        invariant ConfigureLinks(config, files[i..], host) == ConfigureLinks(old(config), files, host)
      {
        assert files[i..][1..] == files[i + 1..];
        if files[i].isDirectory || files[i].properties.None? {
          continue;
        }
        ConfigureExternalLinkSite(files[i].absolutePath, LinkProperty(files[i].properties.value));
      }
      assert files[|files|..] == [];
    }

    /** `validateSites()`: removes the sites whose root or link file has disappeared. */
    method ValidateSites()
      requires Valid()
      modifies this`config
      ensures Valid() && config == Registry.ValidateSites(old(config), old(config).Sites(), host)
    {
      var list := config.Sites();
      for i := 0 to |list|
        invariant Valid()
        invariant Registry.ValidateSites(config, list[i..], host) == Registry.ValidateSites(old(config), list, host)
      {
        assert list[i..][1..] == list[i + 1..];
        var siteURL := list[i].resolvedUrl;
        if !SupportsDetection(siteURL, host) {
          continue;
        }
        if RootMissing(list[i], host) {
          UnconfigureSite(Some(list[i]));
        }
        var linkName := list[i].linkFileName;
        if linkName.Some? && !host.fileExists(linkName.value) {
          UnconfigureSite(Some(list[i]));
          config := config.(dirty := true);
        }
      }
      assert list[|list|..] == [];
    }

    /**
     * `reconcile()`: reloads every site newer than the saved date; `false` is the
     * `CoreException` of a failed reload, which ends the loop.
     */
    method Reconcile() returns (ok: bool)
      requires Valid()
      modifies this`config
      ensures Valid() && (config, ok) == Registry.Reconcile(old(config), host)
    {
      var sites;
      sites, ok := RescanSites(config.sites, config.order, config.date);
      config := config.(sites := sites, dirty := if ok then true else config.dirty);
    }

    /** The loop of `reconcile()`: sites newer than `lastChange` are reloaded; a failed reload ends it. */
    method RescanSites(sites: map<string, SiteEntry>, keys: seq<string>, lastChange: int)
      returns (rescanned: map<string, SiteEntry>, ok: bool)
      ensures (rescanned, ok) == Rescan(sites, keys, lastChange, host)
    {
      rescanned := sites;
      for i := 0 to |keys|
        invariant Rescan(rescanned, keys[i..], lastChange, host) == Rescan(sites, keys, lastChange, host)
      {
        assert keys[i..][1..] == keys[i + 1..];
        var key := keys[i];
        if key in rescanned && rescanned[key].changeStamp > lastChange {
          var reloaded := host.loadFromDisk(rescanned[key], lastChange);
          if reloaded.None? {
            return rescanned, false;
          }
          rescanned := rescanned[key := reloaded.value];
        }
      }
      assert keys[|keys|..] == [];
      return rescanned, true;
    }

    /**
     * The constructor's work after loading: links, `install.ini` defaults,
     * validation, the change stamp, and reconciliation when the stamp is newer
     * than the saved date and the configuration is not transient.  `false` is a
     * failed reconciliation.
     */
    method Startup(installURL: string, links: Option<seq<LinkFile>>, initProps: Option<map<string, string>>) returns (ok: bool)
      requires Valid() && !featuresChangeStampIsValid && !pluginsChangeStampIsValid
      modifies this`config, this`changeStamp
      modifies this`featuresChangeStamp, this`featuresChangeStampIsValid
      modifies this`pluginsChangeStamp, this`pluginsChangeStampIsValid
      ensures Valid()
      ensures var c1 := if SupportsDetection(installURL, host) && links.Some? then ConfigureLinks(old(config), links.value, host) else old(config);
              var c2 := Registry.LoadInitializationAttributes(c1, initProps);
              var c3 := Registry.ValidateSites(c2, c2.Sites(), host);
              && changeStamp == Registry.ChangeStamp(MaxStamp(FeaturesStamps(c3.Sites())), MaxStamp(PluginsStamps(c3.Sites())))
              && (if NeedsReconcile(changeStamp, c3) then (config, ok) == Registry.Reconcile(c3, host)
                  else config == c3 && ok)
    {
      ConfigureExternalLinks(installURL, links);
      LoadInitializationAttributes(initProps);
      ValidateSites();
      var stamp := ComputeChangeStamp();
      ok := true;
      if stamp > config.date && !config.isTransient {
        ok := Reconcile();
      }
    }

    // ------------------------------------------------------------ save

    /**
     * `save(URL)`.  On the file branch the directory `dir` of the configuration
     * file goes through the states of `SaveTrace`; `trace` records them.
     */
    method Save(url: Option<string>, dir: string, disk: Disk, now: int, remote: RemoteOutcome, f: SaveFaults)
      returns (r: Outcome<SaveError>, ghost trace: seq<Files>)
      requires Valid()
      modifies this`config, this`changeStamp, disk
      ensures Valid()
      ensures url.None? ==> r == Fail(NoSaveLocation) && config == old(config) && disk.files == old(disk.files)
                            && changeStamp == old(changeStamp)
      ensures url.Some? && Protocol(url.value) != FILE_PROTOCOL ==>
                && disk.files == old(disk.files) && changeStamp == old(changeStamp)
                && (remote == RemoteWritten ==> r == Pass && config == old(config).(date := now, dirty := false))
                && (remote == ConnectionFails ==> r == Fail(StreamFailed(url.value)) && config == old(config))
                && (remote == DocumentFails ==> r == Fail(UnableToSave(url.value)) && config == old(config).(date := now))
      ensures url.Some? && Protocol(url.value) == FILE_PROTOCOL ==>
                var run := SaveTrace(old(disk.files), dir, old(config).(date := now), now, f);
                && r == run.outcome && trace == run.trace && disk.files == trace[|trace| - 1]
                && config == (if run.started then old(config).(date := now) else old(config))
                && changeStamp == (if run.written then now else old(changeStamp))
    {
      trace := [disk.files];
      if url.None? {
        return Fail(NoSaveLocation), trace;
      }
      if Protocol(url.value) != FILE_PROTOCOL {
        match remote
        case ConnectionFails =>
          return Fail(StreamFailed(url.value)), trace;
        case DocumentFails =>
          config := config.(date := now);
          return Fail(UnableToSave(url.value)), trace;
        case RemoteWritten =>
          config := config.(date := now, dirty := false);
          return Pass, trace;
      }
      r, trace := SaveFile(dir, disk, now, f);
    }

    /** The file branch of `save(URL)`: write `.tmp`, then promote it. */
    method SaveFile(dir: string, disk: Disk, now: int, f: SaveFaults) returns (r: Outcome<SaveError>, ghost trace: seq<Files>)
      requires Valid()
      modifies this`config, this`changeStamp, disk
      ensures Valid()
      ensures var run := SaveTrace(old(disk.files), dir, old(config).(date := now), now, f);
              && r == run.outcome && trace == run.trace && disk.files == trace[|trace| - 1]
              && config == (if run.started then old(config).(date := now) else old(config))
              && changeStamp == (if run.written then now else old(changeStamp))
    {
      r, trace := WriteTemp(dir, disk, now, f);
      if r.Fail? {
        return;
      }
      ghost var tail;
      var ok;
      ok, tail := Promote(dir, disk, f);
      trace := trace + tail;
      r := if ok then Pass else Fail(UnableToSave(TempFile(dir)));
    }

    /** Preserve the current file under `history/`, create `config.ini`, write `.tmp`. */
    method WriteTemp(dir: string, disk: Disk, now: int, f: SaveFaults) returns (r: Outcome<SaveError>, ghost trace: seq<Files>)
      requires Valid()
      modifies this`config, this`changeStamp, disk
      ensures Valid()
      ensures var run := WriteStage(old(disk.files), dir, old(config).(date := now), now, f);
              && r == run.outcome && trace == run.trace && disk.files == trace[|trace| - 1]
              && config == (if run.started then old(config).(date := now) else old(config))
              && changeStamp == (if run.written then now else old(changeStamp))
    {
      trace := [disk.files];
      var primary := ConfigFile(dir);
      // back up the old file
      if primary in disk.files {
        var stamp := disk.files[primary].lastModified;
        var preserved := HistoryFile(dir, stamp);
        // `copy` catches its IOException; `setLastModified` needs a target
        match f.historyCopy {
          case Copied =>
            disk.files := disk.files[preserved := disk.files[primary]];
          case CopyPartial =>
            disk.files := disk.files[preserved := FileData(Garbled, stamp)];
          case CopyNotOpened =>
            if preserved in disk.files {
              disk.files := disk.files[preserved := disk.files[preserved].(lastModified := stamp)];
            }
        }
      }
      trace := trace + [disk.files];
      assert trace == [old(disk.files), Preserved(old(disk.files), dir, f.historyCopy)];
      disk.files := WithConfigIni(disk.files, dir, now, f.configIniFails);
      r, trace := WriteTempFile(trace, dir, disk, now, f);
    }

    /** Writing the document to `.tmp`, after the file states `before`. */
    method WriteTempFile(ghost before: seq<Files>, dir: string, disk: Disk, now: int, f: SaveFaults)
      returns (r: Outcome<SaveError>, ghost trace: seq<Files>)
      requires Valid()
      modifies this`config, this`changeStamp, disk
      ensures Valid()
      ensures var run := TempStage(before, old(disk.files), dir, old(config).(date := now), now, f);
              && r == run.outcome && trace == run.trace && disk.files == trace[|trace| - 1]
              && config == (if run.started then old(config).(date := now) else old(config))
              && changeStamp == (if run.written then now else old(changeStamp))
    {
      var tmp := TempFile(dir);
      trace := before + [disk.files];
      // first save the file as temp
      if f.openFails {
        return Fail(StreamFailed(tmp)), trace;
      }
      disk.files := disk.files[tmp := FileData(Garbled, now)];
      trace := trace + [disk.files];
      config := config.(date := now);
      if f.writeFails {
        return Fail(UnableToSave(tmp)), trace;
      }
      disk.files := disk.files[tmp := FileData(Document(config), config.date)];
      trace := trace + [disk.files];
      changeStamp := config.date;
      return Pass, trace;
    }

    /** Making the saved configuration the active one. */
    method Promote(dir: string, disk: Disk, f: SaveFaults) returns (ok: bool, ghost tail: seq<Files>)
      modifies disk
      ensures tail == Promotion(old(disk.files), dir, f).0 && ok == Promotion(old(disk.files), dir, f).1
      ensures disk.files == tail[|tail| - 1]
    {
      var primary, tmp, bak := ConfigFile(dir), TempFile(dir), BakFile(dir);
      disk.files := Delete(disk.files, bak, f.staleBakDeleteFails);
      tail := [disk.files];
      if primary in disk.files {
        var (moved, _) := Rename(disk.files, primary, bak, f.renameToBakFails);
        disk.files := moved;
      }
      tail := tail + [disk.files];
      var (promoted, renamed) := Rename(disk.files, tmp, primary, f.renameToPrimaryFails);
      disk.files := promoted;
      ok := renamed;
      tail := tail + [disk.files];
      if ok {
        disk.files := Delete(disk.files, bak, f.cleanupFails);
        tail := tail + [disk.files];
      }
    }
  }
}
