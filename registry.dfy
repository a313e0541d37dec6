/**
 * The install-state registry of the update configurator: site entries keyed by
 * their URL string, feature entries inside the sites, and the pure rules of
 * `PlatformConfiguration` (site lookup with its fallbacks, enabled-site
 * filtering, the plug-in path, the change stamps, link descriptors, site
 * validation and reconciliation).  The imperative methods of the class live in
 * module Platform and are proved against the functions defined here.
 */
module Registry {
  import opened Wrappers
  import opened JavaStrings

  const FILE_PROTOCOL: string := "file"
  const PLATFORM_PROTOCOL: string := "platform"
  /** The URL of the installation's own site, `platform:/base/`. */
  const BASE_SITE_URL: string := "platform:/base/"
  const DEFAULT_FEATURE_ID: string := "org.eclipse.platform"
  const DEFAULT_FEATURE_APPLICATION: string := "org.eclipse.ui.ide.workbench"
  const ECLIPSE: string := "eclipse"
  const LINK_PATH: string := "path"
  const LINK_READ: string := "r"
  const LINK_READ_WRITE: string := "rw"
  const INIT_DEFAULT_FEATURE_ID: string := "feature.default.id"
  const INIT_DEFAULT_PLUGIN_ID: string := "feature.default.plugin.id"
  const INIT_DEFAULT_FEATURE_APPLICATION: string := "feature.default.application"

  /** A feature entry: the fields the configurator reads. */
  datatype FeatureEntry = FeatureEntry(
    id: string,
    version: Option<string>,
    pluginIdentifier: Option<string>,
    pluginVersion: Option<string>,
    primary: bool,
    application: Option<string>)

  /**
   * A site entry.  `url` is the external form of the site URL (`None` is a null
   * URL); the three stamps are the values the entry's lazily computed
   * change-stamp getters return.
   */
  datatype SiteEntry = SiteEntry(
    url: Option<string>,
    resolvedUrl: string,
    enabled: bool,
    updateable: bool,
    linkFileName: Option<string>,
    features: map<string, FeatureEntry>,
    plugins: seq<string>,
    changeStamp: int,
    featuresChangeStamp: int,
    pluginsChangeStamp: int)

  /**
   * What the lazily computing getters of a fresh site entry find on disk at a
   * site: its features, its plug-ins and the three change stamps.
   */
  datatype SiteScan = SiteScan(
    features: map<string, FeatureEntry>,
    plugins: seq<string>,
    changeStamp: int,
    featuresChangeStamp: int,
    pluginsChangeStamp: int)

  /**
   * `createSiteEntry(url, defaultPolicy)`: enabled, updateable, no link file;
   * its features, plug-ins and stamps are what scanning the site finds.
   */
  function NewSiteEntry(url: string, h: Host): (s: SiteEntry)
    ensures s.url == Some(url) && s.resolvedUrl == url && s.enabled && s.updateable && s.linkFileName.None?
    ensures var scan := h.scan(url);
            s.features == scan.features && s.plugins == scan.plugins && s.changeStamp == scan.changeStamp
            && s.featuresChangeStamp == scan.featuresChangeStamp && s.pluginsChangeStamp == scan.pluginsChangeStamp
  {
    var scan := h.scan(url);
    SiteEntry(Some(url), url, true, true, None, scan.features, scan.plugins,
              scan.changeStamp, scan.featuresChangeStamp, scan.pluginsChangeStamp)
  }

  /**
   * The host services the configurator calls but whose code is not part of
   * this model.  `None` results stand for `null` or for the exception named.
   */
  datatype Host = Host(
    separator: char,                                     // File.separatorChar
    absolutePath: string -> string,                      // File.getAbsolutePath
    urlFile: string -> string,                           // URL.getFile
    fileExists: string -> bool,                          // File.exists
    decode: string -> string,                            // URLDecoder.decode(_, "UTF-8")
    asPlatformURL: string -> Option<string>,             // Utils.asPlatformURL (null or exception)
    resolvePlatformURL: string -> Option<string>,        // resolvePlatformURL (IOException)
    resolvePlugin: (string, string) -> Option<string>,   // new URL(base, spec) (MalformedURLException)
    loadFromDisk: (SiteEntry, int) -> Option<SiteEntry>, // SiteEntry.loadFromDisk (CoreException)
    scan: string -> SiteScan)                            // the lazy getters of a new SiteEntry

  /**
   * The persisted configuration: the site map, the order in which `getSites()`
   * enumerates it, the saved date (epoch milliseconds) and the flags.
   */
  datatype Configuration = Configuration(
    sites: map<string, SiteEntry>,
    order: seq<string>,
    date: int,
    defaultFeature: Option<string>,
    isTransient: bool,
    dirty: bool)
  {
    /** `order` lists every key of `sites` exactly once. */
    ghost predicate Valid() {
      && (forall i, j :: 0 <= i < j < |order| ==> order[i] != order[j])
      && (forall k :: k in sites <==> k in order)
    }

    /** `getSites()`. */
    function Sites(): (r: seq<SiteEntry>)
      requires Valid()
      ensures |r| == |order|
      ensures forall i :: 0 <= i < |order| ==> r[i] == sites[order[i]]
    {
      seq(|order|, i requires 0 <= i < |order| => sites[order[i]])
    }

    /** `getSiteEntry(key)`. */
    function GetSiteEntry(key: string): (r: Option<SiteEntry>)
      ensures r.Some? <==> key in sites
      ensures r.Some? ==> r.value == sites[key]
    {
      if key in sites then Some(sites[key]) else None
    }

    /** `addSiteEntry(key, entry)`: a new key goes to the end of the order, an old one keeps its place. */
    function AddSiteEntry(key: string, entry: SiteEntry): (r: Configuration)
      requires Valid()
      ensures r.Valid()
      ensures r.sites == sites[key := entry]
      ensures r == this.(sites := r.sites, order := r.order)
    {
      this.(sites := sites[key := entry], order := if key in sites then order else order + [key])
    }

    /** `removeSiteEntry(key)`. */
    function RemoveSiteEntry(key: string): (r: Configuration)
      requires Valid()
      ensures r.Valid()
      ensures r.sites == sites - {key}
      ensures r == this.(sites := r.sites, order := r.order)
    {
      this.(sites := sites - {key}, order := Without(order, key))
    }
  }

  /** `xs` with every occurrence of `k` removed. */
  function Without(xs: seq<string>, k: string): (r: seq<string>)
    ensures forall x :: x in r <==> x in xs && x != k
    ensures (forall i, j :: 0 <= i < j < |xs| ==> xs[i] != xs[j]) ==>
              (forall i, j :: 0 <= i < j < |r| ==> r[i] != r[j])
    ensures k !in xs ==> r == xs
  {
    if xs == [] then []
    else
      var rest := Without(xs[1..], k);
      assert (forall i, j :: 0 <= i < j < |xs| ==> xs[i] != xs[j]) ==>
               xs[0] !in xs[1..] && forall i, j :: 0 <= i < j < |xs[1..]| ==> xs[1..][i] != xs[1..][j] by {
        if forall i, j :: 0 <= i < j < |xs| ==> xs[i] != xs[j] {
          forall i | 0 <= i < |xs[1..]| ensures xs[1..][i] != xs[0] { assert xs[1..][i] == xs[i + 1]; }
        }
      }
      if xs[0] == k then rest else [xs[0]] + rest
  }

  lemma {:induction false} WithoutAppended(xs: seq<string>, k: string)
    requires k !in xs
    ensures Without(xs + [k], k) == xs
  {
    if xs == [] {
      assert Without([k], k) == Without([], k);
    } else {
      assert (xs + [k])[1..] == xs[1..] + [k];
      WithoutAppended(xs[1..], k);
    }
  }

  // ---------------------------------------------------------------- configureSite / unconfigureSite

  /**
   * `configureSite(entry, replace)`: a null entry or a null URL changes nothing;
   * an occupied key changes nothing unless `replace`; otherwise the key
   * `url.toExternalForm()` maps to the entry and no other key changes.
   */
  function ConfigureSite(c: Configuration, entry: Option<SiteEntry>, replace: bool): (r: Configuration)
    requires c.Valid()
    ensures r.Valid()
    ensures entry.None? || entry.value.url.None? ==> r == c
    ensures entry.Some? && entry.value.url.Some? && entry.value.url.value in c.sites && !replace ==> r == c
    ensures entry.Some? && entry.value.url.Some? && (entry.value.url.value !in c.sites || replace) ==>
              r == c.AddSiteEntry(entry.value.url.value, entry.value)
  {
    if entry.None? || entry.value.url.None? then c
    else
      var key := entry.value.url.value;
      if c.GetSiteEntry(key).Some? && !replace then c
      else c.AddSiteEntry(key, entry.value)
  }

  /** `unconfigureSite(entry)`: removes the key of the entry's URL, and nothing else. */
  function UnconfigureSite(c: Configuration, entry: Option<SiteEntry>): (r: Configuration)
    requires c.Valid()
    ensures r.Valid()
    ensures entry.None? || entry.value.url.None? ==> r == c
    ensures entry.Some? && entry.value.url.Some? ==> r.sites == c.sites - {entry.value.url.value}
    ensures entry.Some? && entry.value.url.Some? && entry.value.url.value !in c.sites ==> r == c
    ensures r == c.(sites := r.sites, order := r.order)
  {
    if entry.None? || entry.value.url.None? then c
    else c.RemoveSiteEntry(entry.value.url.value)
  }

  /** Configuring the same entry twice without `replace` is the same as configuring it once. */
  lemma ConfigureSiteIdempotent(c: Configuration, e: SiteEntry)
    requires c.Valid()
    ensures ConfigureSite(ConfigureSite(c, Some(e), false), Some(e), false) == ConfigureSite(c, Some(e), false)
  {
  }

  /** Unconfiguring a site that was just configured under a fresh key restores the configuration. */
  lemma UnconfigureUndoesConfigure(c: Configuration, e: SiteEntry, replace: bool)
    requires c.Valid() && e.url.Some? && e.url.value !in c.sites
    ensures UnconfigureSite(ConfigureSite(c, Some(e), replace), Some(e)) == c
  {
    var k := e.url.value;
    assert k !in c.order;
    WithoutAppended(c.order, k);
    assert c.sites[k := e] - {k} == c.sites;
  }

  // ---------------------------------------------------------------- findConfiguredSite

  /**
   * `findConfiguredSite(url, checkPlatformURL)`: the exact key, then the decoded
   * key, then (only when `checkPlatformURL`) one retry with the platform form of
   * the URL that does not retry again.  Never fails: no match is `None`.
   */
  function FindConfiguredSite(c: Configuration, url: Option<string>, checkPlatformURL: bool, h: Host): (r: Option<SiteEntry>)
    decreases checkPlatformURL
    ensures r.Some? ==> r.value in c.sites.Values
    ensures url.Some? && url.value in c.sites ==> r == Some(c.sites[url.value])
    ensures url.None? ==> r.None?
  {
    if url.None? then None
    else
      var key := url.value;
      var result := c.GetSiteEntry(key);
      var decoded := h.decode(key);
      var result := if result.None? then c.GetSiteEntry(decoded) else result;
      if result.None? && checkPlatformURL then
        match h.asPlatformURL(key)
        case None => None
        case Some(platformForm) => FindConfiguredSite(c, Some(platformForm), false, h)
      else result
  }

  /** The keys `findConfiguredSite` tries, in order. */
  function LookupKeys(key: string, checkPlatformURL: bool, h: Host): (keys: seq<string>)
    ensures |keys| <= 4
  {
    [key, h.decode(key)] +
    if checkPlatformURL && h.asPlatformURL(key).Some? then
      [h.asPlatformURL(key).value, h.decode(h.asPlatformURL(key).value)]
    else []
  }

  /** The entry under the first of `keys` that is present. */
  function FirstHit(sites: map<string, SiteEntry>, keys: seq<string>): (r: Option<SiteEntry>)
    ensures r.None? <==> forall i :: 0 <= i < |keys| ==> keys[i] !in sites
    ensures r.Some? ==> exists i :: 0 <= i < |keys| && keys[i] in sites && r.value == sites[keys[i]]
                                    && forall j :: 0 <= j < i ==> keys[j] !in sites
  {
    if keys == [] then None
    else if keys[0] in sites then Some(sites[keys[0]])
    else
      var r := FirstHit(sites, keys[1..]);
      assert r.Some? ==> exists i :: 1 <= i < |keys| && keys[i] in sites && r.value == sites[keys[i]]
                                    && forall j :: 0 <= j < i ==> keys[j] !in sites by {
        if r.Some? {
          var i :| 0 <= i < |keys[1..]| && keys[1..][i] in sites && r.value == sites[keys[1..][i]]
                   && forall j :: 0 <= j < i ==> keys[1..][j] !in sites;
          assert forall j :: 1 <= j < i + 1 ==> keys[j] == keys[1..][j - 1];
        }
      }
      r
  }

  /** The lookup is exactly "first hit among the candidate keys": at most four lookups, no deeper indirection. */
  lemma FindConfiguredSiteIsFirstHit(c: Configuration, key: string, checkPlatformURL: bool, h: Host)
    decreases checkPlatformURL
    ensures FindConfiguredSite(c, Some(key), checkPlatformURL, h) == FirstHit(c.sites, LookupKeys(key, checkPlatformURL, h))
  {
    var keys := LookupKeys(key, checkPlatformURL, h);
    if checkPlatformURL && h.asPlatformURL(key).Some? {
      var p := h.asPlatformURL(key).value;
      assert keys[1..][1..] == LookupKeys(p, false, h);
      FindConfiguredSiteIsFirstHit(c, p, false, h);
    } else {
      assert keys[1..] == [h.decode(key)];
      assert keys[1..][1..] == [];
    }
  }

  // ---------------------------------------------------------------- enabled sites and the plug-in path

  /** The enabled entries of `sites`, in order. */
  function EnabledSites(sites: seq<SiteEntry>): (r: seq<SiteEntry>)
    ensures |r| <= |sites|
  {
    if sites == [] then []
    else if sites[0].enabled then [sites[0]] + EnabledSites(sites[1..])
    else EnabledSites(sites[1..])
  }

  /** The filter keeps exactly the enabled sites. */
  lemma {:induction false} EnabledSitesMembers(sites: seq<SiteEntry>)
    ensures forall s :: s in EnabledSites(sites) <==> s in sites && s.enabled
  {
    if sites != [] {
      EnabledSitesMembers(sites[1..]);
      assert forall s :: s in sites <==> s == sites[0] || s in sites[1..];
    }
  }

  /** Filtering keeps the order: the enabled sites of a concatenation are concatenated. */
  lemma {:induction false} EnabledSitesAppend(a: seq<SiteEntry>, b: seq<SiteEntry>)
    ensures EnabledSites(a + b) == EnabledSites(a) + EnabledSites(b)
  {
    if a == [] {
      assert a + b == b;
    } else {
      assert (a + b)[1..] == a[1..] + b;
      EnabledSitesAppend(a[1..], b);
    }
  }

  /** `getConfiguredSites()`: exactly the enabled entries of the registry. */
  function ConfiguredSites(c: Configuration): (r: seq<SiteEntry>)
    requires c.Valid()
    ensures forall s :: s in r <==> s in c.sites.Values && s.enabled
  {
    var all := c.Sites();
    assert forall s :: s in all <==> s in c.sites.Values by {
      forall s | s in c.sites.Values ensures s in all {
        var k :| k in c.sites && c.sites[k] == s;
        var i :| 0 <= i < |c.order| && c.order[i] == k;
        assert all[i] == s;
      }
    }
    EnabledSitesMembers(all);
    EnabledSites(all)
  }

  /** The URLs of `plugins` resolved against `base`; the ones that fail to resolve are skipped. */
  function ResolvedPlugins(base: string, plugins: seq<string>, h: Host): (r: seq<string>)
    ensures |r| <= |plugins|
  {
    if plugins == [] then []
    else
      var rest := ResolvedPlugins(base, plugins[1..], h);
      match h.resolvePlugin(base, plugins[0])
      case None => rest
      case Some(u) => [u] + rest
  }

  /** `getPluginPath()` over given sites: site order, then plug-in order. */
  function PluginPath(sites: seq<SiteEntry>, h: Host): (r: seq<string>)
  {
    if sites == [] then []
    else ResolvedPlugins(sites[0].resolvedUrl, sites[0].plugins, h) + PluginPath(sites[1..], h)
  }

  function PluginCount(sites: seq<SiteEntry>): nat {
    if sites == [] then 0 else |sites[0].plugins| + PluginCount(sites[1..])
  }

  predicate AllPluginsResolve(sites: seq<SiteEntry>, h: Host) {
    forall s, p :: s in sites && p in s.plugins ==> h.resolvePlugin(s.resolvedUrl, p).Some?
  }

  /** The resolved URLs are exactly the results of the plug-ins that resolve. */
  lemma {:induction false} ResolvedPluginsMembers(base: string, plugins: seq<string>, h: Host, x: string)
    ensures x in ResolvedPlugins(base, plugins, h) <==> exists p :: p in plugins && h.resolvePlugin(base, p) == Some(x)
  {
    if plugins != [] {
      ResolvedPluginsMembers(base, plugins[1..], h, x);
      assert forall p :: p in plugins <==> p == plugins[0] || p in plugins[1..];
    }
  }

  /** Every path entry comes from a plug-in of one of the sites, and every plug-in that resolves is there. */
  lemma {:induction false} PluginPathMembers(sites: seq<SiteEntry>, h: Host, x: string)
    ensures x in PluginPath(sites, h) <==>
              exists s, p :: s in sites && p in s.plugins && h.resolvePlugin(s.resolvedUrl, p) == Some(x)
  {
    if sites != [] {
      PluginPathMembers(sites[1..], h, x);
      ResolvedPluginsMembers(sites[0].resolvedUrl, sites[0].plugins, h, x);
      assert forall s :: s in sites <==> s == sites[0] || s in sites[1..];
    }
  }

  /** A bad entry is skipped on its own: at most one URL per plug-in, exactly one each when all resolve. */
  lemma {:induction false} PluginPathLength(sites: seq<SiteEntry>, h: Host)
    ensures |PluginPath(sites, h)| <= PluginCount(sites)
    ensures AllPluginsResolve(sites, h) ==> |PluginPath(sites, h)| == PluginCount(sites)
  {
    if sites != [] {
      PluginPathLength(sites[1..], h);
      if AllPluginsResolve(sites, h) {
        assert AllPluginsResolve(sites[1..], h);
        AllResolveLength(sites[0].resolvedUrl, sites[0].plugins, h);
      }
    }
  }

  lemma {:induction false} AllResolveLength(base: string, plugins: seq<string>, h: Host)
    requires forall p :: p in plugins ==> h.resolvePlugin(base, p).Some?
    ensures |ResolvedPlugins(base, plugins, h)| == |plugins|
  {
    if plugins != [] {
      AllResolveLength(base, plugins[1..], h);
    }
  }

  // ---------------------------------------------------------------- feature lookups

  /** `findConfiguredFeatureEntry(id)` over the given sites: the entry of the first site that has the id. */
  function FirstFeature(sites: seq<SiteEntry>, id: Option<string>): (r: Option<FeatureEntry>)
    ensures id.None? ==> r.None?
    ensures r.None? && id.Some? ==> forall i :: 0 <= i < |sites| ==> id.value !in sites[i].features
    ensures r.Some? ==> exists i :: 0 <= i < |sites| && id.value in sites[i].features
                                    && r.value == sites[i].features[id.value]
                                    && forall j :: 0 <= j < i ==> id.value !in sites[j].features
  {
    if id.None? || sites == [] then None
    else if id.value in sites[0].features then Some(sites[0].features[id.value])
    else
      var r := FirstFeature(sites[1..], id);
      assert r.Some? ==> exists i :: 1 <= i < |sites| && id.value in sites[i].features
                                    && r.value == sites[i].features[id.value]
                                    && forall j :: 0 <= j < i ==> id.value !in sites[j].features by {
        if r.Some? {
          var i :| 0 <= i < |sites[1..]| && id.value in sites[1..][i].features
                   && r.value == sites[1..][i].features[id.value]
                   && forall j :: 0 <= j < i ==> id.value !in sites[1..][j].features;
          assert forall j :: 1 <= j < i + 1 ==> sites[j] == sites[1..][j - 1];
        }
      }
      r
  }

  predicate HasFeature(sites: seq<SiteEntry>, id: string) {
    exists i :: 0 <= i < |sites| && id in sites[i].features
  }

  /** `getPrimaryFeatureIdentifier()`: the default feature (or the built-in one) if some site has it. */
  function PrimaryFeatureIdentifier(c: Configuration): (r: Option<string>)
    requires c.Valid()
    ensures var wanted := if c.defaultFeature.Some? then c.defaultFeature.value else DEFAULT_FEATURE_ID;
            (r == Some(wanted) <==> HasFeature(c.Sites(), wanted)) && (r.None? <==> !HasFeature(c.Sites(), wanted))
  {
    var wanted := if c.defaultFeature.Some? then c.defaultFeature.value else DEFAULT_FEATURE_ID;
    if FirstFeature(c.Sites(), Some(wanted)).None? then None else Some(wanted)
  }

  /** `getApplicationIdentifier()`: the application of the default feature, or the built-in application. */
  function ApplicationIdentifier(c: Configuration): (r: string)
    requires c.Valid()
    ensures r == DEFAULT_FEATURE_APPLICATION ||
            (c.defaultFeature.Some? && exists i :: 0 <= i < |c.Sites()| && c.defaultFeature.value in c.Sites()[i].features
                                                   && c.Sites()[i].features[c.defaultFeature.value].application == Some(r))
    ensures c.defaultFeature.None? ==> r == DEFAULT_FEATURE_APPLICATION
    ensures c.defaultFeature.Some? && (forall i :: 0 <= i < |c.Sites()| ==> c.defaultFeature.value !in c.Sites()[i].features)
            ==> r == DEFAULT_FEATURE_APPLICATION
  {
    if c.defaultFeature.None? then DEFAULT_FEATURE_APPLICATION
    else
      match FirstFeature(c.Sites(), c.defaultFeature)
      case None => DEFAULT_FEATURE_APPLICATION
      case Some(fe) => if fe.application.Some? then fe.application.value else DEFAULT_FEATURE_APPLICATION
  }
  /** `FirstSite(sites, id, i)`: site `i` is the first one that has feature `id`. */
  predicate FirstSite(sites: seq<SiteEntry>, id: string, i: int) {
    0 <= i < |sites| && id in sites[i].features && forall j :: 0 <= j < i ==> id !in sites[j].features
  }

  /** The feature lookup returns the entry of the first site that has the feature. */
  lemma FirstFeatureAt(sites: seq<SiteEntry>, id: string, i: int)
    requires FirstSite(sites, id, i)
    ensures FirstFeature(sites, Some(id)) == Some(sites[i].features[id])
  {
  }

  /**
   * When site `i` is the first to have the default feature, the application
   * identifier is that entry's application, or the built-in one when it names none.
   */
  lemma ApplicationOfFirstSite(c: Configuration, i: int)
    requires c.Valid() && c.defaultFeature.Some? && FirstSite(c.Sites(), c.defaultFeature.value, i)
    ensures var a := c.Sites()[i].features[c.defaultFeature.value].application;
            ApplicationIdentifier(c) == if a.Some? then a.value else DEFAULT_FEATURE_APPLICATION
  {
    FirstFeatureAt(c.Sites(), c.defaultFeature.value, i);
  }


  /**
   * `configureFeatureEntry(entry)`: the entry is added to the `platform:/base/`
   * site; without that site nothing happens.
   */
  function ConfigureFeatureEntry(c: Configuration, fe: FeatureEntry): (r: Configuration)
    requires c.Valid()
    ensures r.Valid() && r.sites.Keys == c.sites.Keys && r.order == c.order
    ensures BASE_SITE_URL !in c.sites ==> r == c
    ensures BASE_SITE_URL in c.sites ==>
              r.sites == c.sites[BASE_SITE_URL := c.sites[BASE_SITE_URL].(features := c.sites[BASE_SITE_URL].features[fe.id := fe])]
    ensures r == c.(sites := r.sites)
  {
    match c.GetSiteEntry(BASE_SITE_URL)
    case None => c
    case Some(site) => c.(sites := c.sites[BASE_SITE_URL := site.(features := site.features[fe.id := fe])])
  }

  /** `loadAttribute(props, name, dflt)`: the trimmed property value, or the default when it is absent. */
  function LoadAttribute(props: map<string, string>, name: string, dflt: Option<string>): (r: Option<string>)
    ensures name !in props ==> r == dflt
    ensures name in props ==> r.Some? && IsTrimOf(props[name], r.value)
    ensures name in props && IsTrimmed(props[name]) ==> r == Some(props[name])
  {
    if name !in props then dflt else Some(Trim(props[name]))
  }

  /**
   * The feature entry `install.ini` describes: the default feature id, the
   * plug-in id (the feature id when absent) and the application, marked primary.
   */
  function InitFeature(props: map<string, string>): (r: Option<FeatureEntry>)
    ensures r.None? <==> INIT_DEFAULT_FEATURE_ID !in props
    ensures r.Some? ==> r.value.id == Trim(props[INIT_DEFAULT_FEATURE_ID]) && r.value.primary
  {
    var initId := LoadAttribute(props, INIT_DEFAULT_FEATURE_ID, None);
    if initId.None? then None
    else
      var application := LoadAttribute(props, INIT_DEFAULT_FEATURE_APPLICATION, None);
      var initPluginId := LoadAttribute(props, INIT_DEFAULT_PLUGIN_ID, None);
      var initPluginId := if initPluginId.None? then initId else initPluginId;
      Some(FeatureEntry(initId.value, None, initPluginId, None, true, application))
  }

  /**
   * `loadInitializationAttributes()` given the properties of `install.ini`
   * (`None` when it cannot be read): the default feature id, created on the base
   * site when no site has it yet.
   */
  function LoadInitializationAttributes(c: Configuration, props: Option<map<string, string>>): (r: Configuration)
    requires c.Valid()
    ensures r.Valid() && r.sites.Keys == c.sites.Keys && r.order == c.order
    ensures r == c.(sites := r.sites, defaultFeature := r.defaultFeature)
    ensures props.None? || INIT_DEFAULT_FEATURE_ID !in props.value ==> r == c
    ensures props.Some? && INIT_DEFAULT_FEATURE_ID in props.value ==>
              var id := Trim(props.value[INIT_DEFAULT_FEATURE_ID]);
              && r.defaultFeature == Some(id)
              && (HasFeature(c.Sites(), id) || BASE_SITE_URL !in c.sites ==> r.sites == c.sites)
              && (!HasFeature(c.Sites(), id) && BASE_SITE_URL in c.sites ==>
                    r.sites == c.sites[BASE_SITE_URL := c.sites[BASE_SITE_URL].(features :=
                                 c.sites[BASE_SITE_URL].features[id := InitFeature(props.value).value])])
  {
    if props.None? then c
    else
      match InitFeature(props.value)
      case None => c
      case Some(fe) =>
        var c1 := if FirstFeature(c.Sites(), Some(fe.id)).None? then ConfigureFeatureEntry(c, fe) else c;
        c1.(defaultFeature := Some(fe.id))
  }

  /** After `install.ini` names a feature, that feature is the primary one whenever a base site exists. */
  lemma InitializationSetsPrimaryFeature(c: Configuration, props: map<string, string>)
    requires c.Valid() && INIT_DEFAULT_FEATURE_ID in props && BASE_SITE_URL in c.sites
    ensures PrimaryFeatureIdentifier(LoadInitializationAttributes(c, Some(props))) == Some(Trim(props[INIT_DEFAULT_FEATURE_ID]))
  {
    var id := Trim(props[INIT_DEFAULT_FEATURE_ID]);
    var r := LoadInitializationAttributes(c, Some(props));
    if FirstFeature(c.Sites(), Some(id)).Some? {
      var i :| 0 <= i < |c.Sites()| && id in c.Sites()[i].features;
      assert r.Sites()[i] == c.Sites()[i];
      assert HasFeature(r.Sites(), id);
    } else {
      var i :| 0 <= i < |c.order| && c.order[i] == BASE_SITE_URL;
      assert id in r.Sites()[i].features;
    }
  }

  // ---------------------------------------------------------------- change stamps

  /** `Math.max`. */
  function Max(a: int, b: int): int { if a >= b then a else b }

  /** The running maximum `result = max(result, x)` over `xs`, starting from 0. */
  function MaxStamp(xs: seq<int>): int {
    if xs == [] then 0 else Max(xs[0], MaxStamp(xs[1..]))
  }

  /** The maximum is at least 0, bounds every element, and is 0 or one of the elements. */
  lemma {:induction false} MaxStampBounds(xs: seq<int>)
    ensures MaxStamp(xs) >= 0
    ensures forall i :: 0 <= i < |xs| ==> xs[i] <= MaxStamp(xs)
    ensures MaxStamp(xs) == 0 || MaxStamp(xs) in xs
  {
    if xs != [] {
      MaxStampBounds(xs[1..]);
      assert forall i :: 1 <= i < |xs| ==> xs[i] == xs[1..][i - 1];
    }
  }

  /** More sites, or newer stamps on the same sites, never lower the maximum. */
  lemma {:induction false} MaxStampMonotone(xs: seq<int>, ys: seq<int>)
    requires |xs| <= |ys|
    requires forall i :: 0 <= i < |xs| ==> xs[i] <= ys[i]
    ensures MaxStamp(xs) <= MaxStamp(ys)
  {
    if xs == [] {
      MaxStampBounds(ys);
    } else {
      MaxStampMonotone(xs[1..], ys[1..]);
    }
  }

  function FeaturesStamps(sites: seq<SiteEntry>): (r: seq<int>)
    ensures |r| == |sites| && forall i :: 0 <= i < |sites| ==> r[i] == sites[i].featuresChangeStamp
  {
    seq(|sites|, i requires 0 <= i < |sites| => sites[i].featuresChangeStamp)
  }

  function PluginsStamps(sites: seq<SiteEntry>): (r: seq<int>)
    ensures |r| == |sites| && forall i :: 0 <= i < |sites| ==> r[i] == sites[i].pluginsChangeStamp
  {
    seq(|sites|, i requires 0 <= i < |sites| => sites[i].pluginsChangeStamp)
  }

  /** Java's `long` division, which truncates toward zero. */
  function JavaDiv(a: int, b: int): int
    requires b > 0
  {
    if a >= 0 then a / b else -((-a) / b)
  }

  /** `(stamp / 1000) * 1000`. */
  function RoundToSeconds(stamp: int): int {
    JavaDiv(stamp, 1000) * 1000
  }

  /** `computeChangeStamp()` from the two stamps it combines. */
  function ChangeStamp(featuresStamp: int, pluginsStamp: int): int {
    RoundToSeconds(Max(featuresStamp, pluginsStamp))
  }

  /** For non-negative stamps the change stamp is the whole second at or below the maximum. */
  lemma ChangeStampBounds(f: int, p: int)
    requires f >= 0 && p >= 0
    ensures var s := ChangeStamp(f, p);
            s % 1000 == 0 && s <= Max(f, p) && Max(f, p) - 1000 < s && s >= 0
  {
  }

  lemma RoundToSecondsMonotone(a: int, b: int)
    requires 0 <= a <= b
    ensures RoundToSeconds(a) <= RoundToSeconds(b)
  {
  }

  // ---------------------------------------------------------------- link descriptors

  /** The parsed `path` value of a link file. */
  datatype LinkTarget = LinkTarget(updateable: bool, directory: string)

  /** `r ` marks read-only and `rw ` read-write, each with the rest trimmed; any other value is read-write as is. */
  function ParseLinkPath(path: string): (t: LinkTarget)
    ensures StartsWith(path, LINK_READ + " ") ==> !t.updateable && t.directory == Trim(path[2..])
    ensures !StartsWith(path, LINK_READ + " ") && StartsWith(path, LINK_READ_WRITE + " ") ==> t.updateable && t.directory == Trim(path[3..])
    ensures !StartsWith(path, LINK_READ + " ") && !StartsWith(path, LINK_READ_WRITE + " ") ==> t == LinkTarget(true, path)
  {
    if StartsWith(path, LINK_READ + " ") then LinkTarget(false, Trim(path[2..]))
    else if StartsWith(path, LINK_READ_WRITE + " ") then LinkTarget(true, Trim(path[3..]))
    else LinkTarget(true, path)
  }

  /** How a link file states a target with an explicit prefix. */
  function FormatLinkPath(t: LinkTarget): string {
    (if t.updateable then LINK_READ_WRITE else LINK_READ) + " " + t.directory
  }

  /** Parsing a written link path gives the target back, whenever the directory carries no blanks at its ends. */
  lemma ParseFormatLinkPath(t: LinkTarget)
    requires IsTrimmed(t.directory)
    ensures ParseLinkPath(FormatLinkPath(t)) == t
  {
    var s := FormatLinkPath(t);
    TrimOfTrimmed(t.directory);
    if t.updateable {
      assert s == "rw " + t.directory;
      assert s[..2] != "r " by { assert s[..2][1] == 'w'; }
      assert s[..3] == "rw ";
      assert s[3..] == t.directory;
    } else {
      assert s == "r " + t.directory;
      assert s[..2] == "r ";
      assert s[2..] == t.directory;
    }
  }

  /**
   * The site URL a link directory stands for: `"file:"` + the absolute path of
   * `<directory><separator>eclipse` with separators turned into `/`, ending in `/`.
   */
  function LinkSiteURL(directory: string, h: Host): (u: string)
    ensures StartsWith(u, "file:") && EndsWith(u, "/")
  {
    var link := if EndsWith(directory, [h.separator]) then directory else directory + [h.separator];
    var absolute := h.absolutePath(link + ECLIPSE);
    var u := "file:" + ReplaceChar(absolute, h.separator, '/');
    if EndsWith(u, "/") then u else u + "/"
  }

  /** The characters before the first `:`, lower-cased as `URL.getProtocol()` returns them. */
  function Protocol(url: string): string {
    ToLowerAscii(Scheme(url))
  }

  function Scheme(url: string): string {
    if url == [] || url[0] == ':' then [] else [url[0]] + Scheme(url[1..])
  }

  lemma FileScheme(rest: string)
    ensures Protocol("file:" + rest) == FILE_PROTOCOL
  {
    var u := "file:" + rest;
    assert Scheme(u[4..]) == [] by { assert u[4..][0] == ':'; }
    assert Scheme(u[3..]) == "e" by { assert u[3..][1..] == u[4..]; }
    assert Scheme(u[2..]) == "le" by { assert u[2..][1..] == u[3..]; }
    assert Scheme(u[1..]) == "ile" by { assert u[1..][1..] == u[2..]; }
    assert Scheme(u) == "file";
  }

  /** `supportsDetection(url)`: a `file:` URL, or a `platform:` URL that resolves to one. */
  function SupportsDetection(url: string, h: Host): (r: bool)
    ensures r <==> Protocol(url) == FILE_PROTOCOL
                   || (Protocol(url) == PLATFORM_PROTOCOL && h.resolvePlatformURL(url).Some?
                       && Protocol(h.resolvePlatformURL(url).value) == FILE_PROTOCOL)
  {
    var protocol := Protocol(url);
    if protocol == FILE_PROTOCOL then true
    else if protocol == PLATFORM_PROTOCOL then
      match h.resolvePlatformURL(url)
      case None => false
      case Some(resolved) => Protocol(resolved) == FILE_PROTOCOL
    else false
  }

  /** Every site a link file creates is at a detectable location, so validation inspects it. */
  lemma LinkSitesAreDetectable(directory: string, h: Host)
    ensures SupportsDetection(LinkSiteURL(directory, h), h)
  {
    var u := LinkSiteURL(directory, h);
    assert u[..5] == "file:";
    assert u == "file:" + u[5..];
    FileScheme(u[5..]);
  }

  /** The entry created for a link: fresh, with the link's read/write flag and the link file's name. */
  function LinkSite(url: string, t: LinkTarget, linkFile: string, h: Host): SiteEntry {
    NewSiteEntry(url, h).(updateable := t.updateable, linkFileName := Some(linkFile))
  }

  /**
   * `configureExternalLinkSite(linkFile, props)` given the `path` property: no
   * path, or a site already found at the link's URL, changes nothing; otherwise
   * the link's site is added and the configuration becomes dirty.
   */
  function ConfigureLinkSite(c: Configuration, linkFile: string, path: Option<string>, h: Host): (r: Configuration)
    requires c.Valid()
    ensures r.Valid()
    ensures path.None? ==> r == c
    ensures path.Some? && FindConfiguredSite(c, Some(LinkSiteURL(ParseLinkPath(path.value).directory, h)), true, h).Some? ==> r == c
    ensures path.Some? && FindConfiguredSite(c, Some(LinkSiteURL(ParseLinkPath(path.value).directory, h)), true, h).None? ==>
              var t := ParseLinkPath(path.value);
              var url := LinkSiteURL(t.directory, h);
              r == c.AddSiteEntry(url, LinkSite(url, t, linkFile, h)).(dirty := true) && url !in c.sites
  {
    if path.None? then c
    else
      var t := ParseLinkPath(path.value);
      var url := LinkSiteURL(t.directory, h);
      if FindConfiguredSite(c, Some(url), true, h).Some? then c
      else ConfigureSite(c, Some(LinkSite(url, t, linkFile, h)), false).(dirty := true)
  }

  /** Two link files naming the same location register one site, carrying the first file's flag and name. */
  lemma FirstLinkWins(c: Configuration, file1: string, path1: string, file2: string, path2: string, h: Host)
    requires c.Valid()
    requires LinkSiteURL(ParseLinkPath(path1).directory, h) == LinkSiteURL(ParseLinkPath(path2).directory, h)
    requires FindConfiguredSite(c, Some(LinkSiteURL(ParseLinkPath(path1).directory, h)), true, h).None?
    ensures var url := LinkSiteURL(ParseLinkPath(path1).directory, h);
            var r := ConfigureLinkSite(ConfigureLinkSite(c, file1, Some(path1), h), file2, Some(path2), h);
            r.sites == c.sites[url := LinkSite(url, ParseLinkPath(path1), file1, h)] && r.dirty
  {
    var url := LinkSiteURL(ParseLinkPath(path1).directory, h);
    var c1 := ConfigureLinkSite(c, file1, Some(path1), h);
    assert url in c1.sites;
    assert FindConfiguredSite(c1, Some(url), true, h).Some?;
  }

  /**
   * A newly linked site counts like any other: its scanned stamps bound the
   * features and plug-ins change stamps, and a reconcile that follows sees its
   * scanned stamp.
   */
  lemma LinkSiteIsScanned(c: Configuration, linkFile: string, path: string, h: Host)
    requires c.Valid()
    requires FindConfiguredSite(c, Some(LinkSiteURL(ParseLinkPath(path).directory, h)), true, h).None?
    ensures var url := LinkSiteURL(ParseLinkPath(path).directory, h);
            var r := ConfigureLinkSite(c, linkFile, Some(path), h);
            url in r.sites && r.sites[url].changeStamp == h.scan(url).changeStamp
            && h.scan(url).featuresChangeStamp <= MaxStamp(FeaturesStamps(r.Sites()))
            && h.scan(url).pluginsChangeStamp <= MaxStamp(PluginsStamps(r.Sites()))
  {
    var url := LinkSiteURL(ParseLinkPath(path).directory, h);
    var r := ConfigureLinkSite(c, linkFile, Some(path), h);
    assert url in r.sites;
    var i :| 0 <= i < |r.order| && r.order[i] == url;
    assert r.Sites()[i] == r.sites[url];
    MaxStampBounds(FeaturesStamps(r.Sites()));
    MaxStampBounds(PluginsStamps(r.Sites()));
  }

  /** A file found in the `links` directory: `properties` is `None` when loading them fails. */
  datatype LinkFile = LinkFile(absolutePath: string, isDirectory: bool, properties: Option<map<string, string>>)

  /** One pass of `configureExternalLinks()` over the listed files: directories and unreadable files are skipped. */
  function ConfigureLinks(c: Configuration, links: seq<LinkFile>, h: Host): (r: Configuration)
    requires c.Valid()
    ensures r.Valid()
    decreases |links|
  {
    if links == [] then c
    else
      var f := links[0];
      var c1 := if f.isDirectory || f.properties.None? then c
                else ConfigureLinkSite(c, f.absolutePath, LinkProperty(f.properties.value), h);
      ConfigureLinks(c1, links[1..], h)
  }

  function LinkProperty(props: map<string, string>): Option<string> {
    if LINK_PATH in props then Some(props[LINK_PATH]) else None
  }

  /** Link discovery only ever adds sites: nothing configured before is replaced or removed. */
  lemma {:induction false} ConfigureLinksOnlyAdds(c: Configuration, links: seq<LinkFile>, h: Host)
    requires c.Valid()
    ensures var r := ConfigureLinks(c, links, h);
            c.sites.Keys <= r.sites.Keys && forall k :: k in c.sites ==> r.sites[k] == c.sites[k]
    decreases |links|
  {
    if links != [] {
      var f := links[0];
      var c1 := if f.isDirectory || f.properties.None? then c
                else ConfigureLinkSite(c, f.absolutePath, LinkProperty(f.properties.value), h);
      ConfigureLinksOnlyAdds(c1, links[1..], h);
    }
  }

  // ---------------------------------------------------------------- validateSites

  /** The site's root directory is missing. */
  predicate RootMissing(s: SiteEntry, h: Host) {
    !h.fileExists(ReplaceChar(h.urlFile(s.resolvedUrl), '/', h.separator))
  }

  /** The site came from a link file that is missing. */
  predicate LinkMissing(s: SiteEntry, h: Host) {
    s.linkFileName.Some? && !h.fileExists(s.linkFileName.value)
  }

  /** Validation removes the site. */
  predicate Stale(s: SiteEntry, h: Host) {
    SupportsDetection(s.resolvedUrl, h) && (RootMissing(s, h) || LinkMissing(s, h))
  }

  /** One iteration of `validateSites()`; both checks run, so a site can be unconfigured twice. */
  function ValidateSite(c: Configuration, s: SiteEntry, h: Host): (r: Configuration)
    requires c.Valid()
    ensures r.Valid()
  {
    if !SupportsDetection(s.resolvedUrl, h) then c
    else
      var c1 := if RootMissing(s, h) then UnconfigureSite(c, Some(s)) else c;
      if LinkMissing(s, h) then UnconfigureSite(c1, Some(s)).(dirty := true) else c1
  }

  /** `validateSites()` over the snapshot `list` of the sites. */
  function ValidateSites(c: Configuration, list: seq<SiteEntry>, h: Host): (r: Configuration)
    requires c.Valid()
    ensures r.Valid()
    decreases |list|
  {
    if list == [] then c else ValidateSites(ValidateSite(c, list[0], h), list[1..], h)
  }

  /** The keys validation removes: those of the stale sites. */
  function StaleKeys(list: seq<SiteEntry>, h: Host): set<string> {
    set s | s in list && Stale(s, h) && s.url.Some? :: s.url.value
  }

  /** The keys one validation step removes. */
  function StaleKey(s: SiteEntry, h: Host): set<string> {
    if Stale(s, h) && s.url.Some? then {s.url.value} else {}
  }

  lemma ValidateSiteEffect(c: Configuration, s: SiteEntry, h: Host)
    requires c.Valid()
    ensures var r := ValidateSite(c, s, h);
            r.sites == c.sites - StaleKey(s, h) && r == c.(sites := r.sites, order := r.order, dirty := r.dirty)
  {
  }

  lemma StaleKeysSplit(list: seq<SiteEntry>, h: Host)
    requires list != []
    ensures StaleKeys(list, h) == StaleKey(list[0], h) + StaleKeys(list[1..], h)
  {
    assert forall s :: s in list <==> s == list[0] || s in list[1..];
  }

  /** Validation removes exactly the stale sites' keys and changes no remaining entry or flag but `dirty`. */
  lemma {:induction false} ValidateSitesRemovesStale(c: Configuration, list: seq<SiteEntry>, h: Host)
    requires c.Valid()
    ensures var r := ValidateSites(c, list, h);
            r.sites == c.sites - StaleKeys(list, h) && r == c.(sites := r.sites, order := r.order, dirty := r.dirty)
    decreases |list|
  {
    if list == [] {
      assert StaleKeys(list, h) == {};
    } else {
      var c1 := ValidateSite(c, list[0], h);
      ValidateSiteEffect(c, list[0], h);
      ValidateSitesRemovesStale(c1, list[1..], h);
      StaleKeysSplit(list, h);
      assert c.sites - StaleKey(list[0], h) - StaleKeys(list[1..], h) == c.sites - StaleKeys(list, h);
    }
  }

  /** The configuration becomes dirty exactly when some inspected site lost its link file. */
  lemma {:induction false} ValidateSitesDirty(c: Configuration, list: seq<SiteEntry>, h: Host)
    requires c.Valid()
    ensures ValidateSites(c, list, h).dirty <==>
              c.dirty || exists s :: s in list && SupportsDetection(s.resolvedUrl, h) && LinkMissing(s, h)
    decreases |list|
  {
    if list != [] {
      ValidateSitesDirty(ValidateSite(c, list[0], h), list[1..], h);
      assert forall s :: s in list <==> s == list[0] || s in list[1..];
    }
  }

  // ---------------------------------------------------------------- reconcile

  /** The constructor's rule: reconcile only when the stamp is newer than the saved date and the configuration is not transient. */
  predicate NeedsReconcile(changeStamp: int, c: Configuration) {
    changeStamp > c.date && !c.isTransient
  }

  /**
   * The loop of `reconcile()` over `keys`: sites newer than `lastChange` are
   * reloaded; the first failing reload stops the loop (`false`).
   */
  function Rescan(sites: map<string, SiteEntry>, keys: seq<string>, lastChange: int, h: Host): (r: (map<string, SiteEntry>, bool))
    ensures r.0.Keys == sites.Keys
  {
    if keys == [] then (sites, true)
    else if keys[0] !in sites || sites[keys[0]].changeStamp <= lastChange then Rescan(sites, keys[1..], lastChange, h)
    else
      match h.loadFromDisk(sites[keys[0]], lastChange)
      case None => (sites, false)
      case Some(s) => Rescan(sites[keys[0] := s], keys[1..], lastChange, h)
  }

  /** `reconcile()`: `dirty` is set when every reload succeeded. */
  function Reconcile(c: Configuration, h: Host): (r: (Configuration, bool))
    ensures r.0 == c.(sites := r.0.sites, dirty := r.0.dirty)
    ensures r.1 ==> r.0.dirty
    ensures !r.1 ==> r.0.dirty == c.dirty
  {
    var (sites, ok) := Rescan(c.sites, c.order, c.date, h);
    (c.(sites := sites, dirty := if ok then true else c.dirty), ok)
  }
  /**
   * A newly linked site whose scanned stamp is newer than the saved date is
   * reloaded from disk by a reconcile that succeeds.
   */
  lemma LinkSiteIsReconciled(c: Configuration, linkFile: string, path: string, h: Host)
    requires c.Valid()
    requires FindConfiguredSite(c, Some(LinkSiteURL(ParseLinkPath(path).directory, h)), true, h).None?
    requires var url := LinkSiteURL(ParseLinkPath(path).directory, h);
             h.scan(url).changeStamp > c.date
    requires Reconcile(ConfigureLinkSite(c, linkFile, Some(path), h), h).1
    ensures var url := LinkSiteURL(ParseLinkPath(path).directory, h);
            var r := ConfigureLinkSite(c, linkFile, Some(path), h);
            Some(Reconcile(r, h).0.sites[url]) == h.loadFromDisk(r.sites[url], c.date)
  {
    var url := LinkSiteURL(ParseLinkPath(path).directory, h);
    var r := ConfigureLinkSite(c, linkFile, Some(path), h);
    LinkSiteIsScanned(c, linkFile, path, h);
    RescanEffect(r.sites, r.order, r.date, h);
  }


  /**
   * When reconciliation succeeds, exactly the sites newer than the saved date
   * hold what `loadFromDisk(date)` made of them; the others are untouched.
   */
  lemma {:induction false} RescanEffect(sites: map<string, SiteEntry>, keys: seq<string>, lastChange: int, h: Host)
    requires forall i, j :: 0 <= i < j < |keys| ==> keys[i] != keys[j]
    requires Rescan(sites, keys, lastChange, h).1
    ensures var m := Rescan(sites, keys, lastChange, h).0;
            forall k :: k in sites ==>
              if k in keys && sites[k].changeStamp > lastChange then h.loadFromDisk(sites[k], lastChange) == Some(m[k])
              else m[k] == sites[k]
  {
    if keys != [] {
      var k0 := keys[0];
      assert forall i, j :: 0 <= i < j < |keys[1..]| ==> keys[1..][i] != keys[1..][j] by {
        forall i, j | 0 <= i < j < |keys[1..]| ensures keys[1..][i] != keys[1..][j] {
          assert keys[1..][i] == keys[i + 1] && keys[1..][j] == keys[j + 1];
        }
      }
      assert k0 !in keys[1..] by {
        forall i | 0 <= i < |keys[1..]| ensures keys[1..][i] != k0 { assert keys[1..][i] == keys[i + 1]; }
      }
      assert forall k :: k in keys <==> k == k0 || k in keys[1..];
      if k0 !in sites || sites[k0].changeStamp <= lastChange {
        RescanEffect(sites, keys[1..], lastChange, h);
      } else {
        var s :| h.loadFromDisk(sites[k0], lastChange) == Some(s);
        RescanEffect(sites[k0 := s], keys[1..], lastChange, h);
      }
    }
  }

  /** A failed reconciliation means some site newer than the saved date could not be reloaded. */
  lemma {:induction false} RescanFailure(sites: map<string, SiteEntry>, keys: seq<string>, lastChange: int, h: Host)
    requires !Rescan(sites, keys, lastChange, h).1
    ensures exists k :: k in keys && k in sites && sites[k].changeStamp > lastChange
  {
    var k0 := keys[0];
    if k0 !in sites || sites[k0].changeStamp <= lastChange {
      RescanFailure(sites, keys[1..], lastChange, h);
      var k :| k in keys[1..] && k in sites && sites[k].changeStamp > lastChange;
      assert k in keys;
    } else {
      assert k0 in keys;
    }
  }
}
