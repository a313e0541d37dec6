/**
 * How the local site picks up its install configurations: the current one
 * first, then one per file of the configuration's `history` directory whose
 * name is a saved configuration's time stamp followed by `.xml`.
 */
module SiteLocal {
  import opened Wrappers
  import opened JavaStrings
  import Persistence

  const HISTORY_SUFFIX: string := ".xml"

  /** A directory entry of the history directory. */
  datatype HistoryFile = HistoryFile(name: string, absolutePath: string)

  /** An install configuration as the local site lists it: where it lives and the date it is labelled with. */
  datatype InstallConfiguration = InstallConfiguration(location: string, date: int)

  /** What a history file's name says. */
  datatype Decoded =
    | NotXml              // skipped by `continue`
    | NotNumeric          // `Long.parseLong` throws
    | Stamp(time: int)

  /** The per-name decoding: a `.xml` suffix, then the rest read as a `long`. */
  function DecodeHistoryName(name: string): (r: Decoded)
    ensures r.NotXml? <==> !EndsWith(name, HISTORY_SUFFIX)
    ensures r.Stamp? ==> IsLong(r.time) && ParseLong(name[..|name| - 4]) == Some(r.time)
    ensures r.NotNumeric? ==> EndsWith(name, HISTORY_SUFFIX) && ParseLong(name[..|name| - 4]).None?
  {
    if !EndsWith(name, HISTORY_SUFFIX) then NotXml
    else
      match ParseLong(name[..|name| - 4])
      case None => NotNumeric
      case Some(t) => Stamp(t)
  }

  /** The name `save` gives a preserved configuration decodes back to its time stamp. */
  lemma DecodeSavedName(t: int)
    requires IsLong(t)
    ensures DecodeHistoryName(DecimalString(t) + HISTORY_SUFFIX) == Stamp(t)
  {
    var s := DecimalString(t);
    var name := s + HISTORY_SUFFIX;
    assert name[|name| - 4..] == HISTORY_SUFFIX;
    assert name[..|name| - 4] == s;
    DecimalRoundTrip(t);
  }

  /** The file `save` writes into the history directory is found again under the same time stamp. */
  lemma PreservedFileIsFound(dir: string, t: int)
    requires IsLong(t)
    ensures var name := DecimalString(t) + HISTORY_SUFFIX;
            Persistence.HistoryFile(dir, t) == dir + "/" + Persistence.CONFIG_HISTORY + "/" + name
            && DecodeHistoryName(name) == Stamp(t)
  {
    DecodeSavedName(t);
  }

  /** The configuration a history file stands for: its path with `\` turned to `/`, dated by its name. */
  function HistoryConfig(f: HistoryFile, t: int): (c: InstallConfiguration)
    ensures c.date == t && |c.location| == |f.absolutePath|
    ensures forall i :: 0 <= i < |c.location| ==> c.location[i] != '\\'
  {
    ReplaceCharRemovesAll(f.absolutePath, '\\', '/');
    InstallConfiguration(ReplaceChar(f.absolutePath, '\\', '/'), t)
  }

  /**
   * The configurations the history loop adds for `files`, in order: names
   * without `.xml` are skipped, and the first non-numeric one ends the loop,
   * since the exception is caught outside it.
   */
  function HistoryConfigs(files: seq<HistoryFile>): seq<InstallConfiguration> {
    if files == [] then []
    else
      match DecodeHistoryName(files[0].name)
      case NotXml => HistoryConfigs(files[1..])
      case NotNumeric => []
      case Stamp(t) => [HistoryConfig(files[0], t)] + HistoryConfigs(files[1..])
  }

  /** The history configurations when the directory is absent (`None`) or lists `files`. */
  function HistoryOf(listing: Option<seq<HistoryFile>>): seq<InstallConfiguration> {
    if listing.None? then [] else HistoryConfigs(listing.value)
  }

  predicate Numeric(f: HistoryFile) {
    !DecodeHistoryName(f.name).NotNumeric?
  }

  /** Without a non-numeric name, the files are processed independently of one another. */
  lemma {:induction false} HistoryConfigsAppend(a: seq<HistoryFile>, b: seq<HistoryFile>)
    requires forall i :: 0 <= i < |a| ==> Numeric(a[i])
    ensures HistoryConfigs(a + b) == HistoryConfigs(a) + HistoryConfigs(b)
  {
    if a == [] {
      assert a + b == b;
    } else {
      assert (a + b)[1..] == a[1..] + b;
      HistoryConfigsAppend(a[1..], b);
    }
  }

  /** Everything after a non-numeric `.xml` name is ignored; what came before it stays. */
  lemma HistoryStopsAtFailure(a: seq<HistoryFile>, bad: HistoryFile, b: seq<HistoryFile>)
    requires forall i :: 0 <= i < |a| ==> Numeric(a[i])
    requires DecodeHistoryName(bad.name).NotNumeric?
    ensures HistoryConfigs(a + [bad] + b) == HistoryConfigs(a)
  {
    assert a + [bad] + b == a + ([bad] + b);
    HistoryConfigsAppend(a, [bad] + b);
    assert HistoryConfigs([bad] + b) == [];
  }

  /** A file whose name does not end with `.xml` contributes nothing, wherever it is. */
  lemma SkipsNonXml(a: seq<HistoryFile>, f: HistoryFile, b: seq<HistoryFile>)
    requires forall i :: 0 <= i < |a| ==> Numeric(a[i])
    requires !EndsWith(f.name, HISTORY_SUFFIX)
    ensures HistoryConfigs(a + [f] + b) == HistoryConfigs(a + b)
  {
    assert a + [f] + b == a + ([f] + b);
    HistoryConfigsAppend(a, [f] + b);
    assert ([f] + b)[1..] == b;
    HistoryConfigsAppend(a, b);
  }

  /** Every configuration added comes from a listed file, dated by that file's name, with no `\` in its location. */
  lemma {:induction false} HistoryConfigsFromFiles(files: seq<HistoryFile>)
    ensures forall c :: c in HistoryConfigs(files) ==>
              (forall i :: 0 <= i < |c.location| ==> c.location[i] != '\\')
              && exists f :: f in files && DecodeHistoryName(f.name) == Stamp(c.date)
  {
    if files != [] {
      HistoryConfigsFromFiles(files[1..]);
      forall c | c in HistoryConfigs(files)
        ensures exists f :: f in files && DecodeHistoryName(f.name) == Stamp(c.date)
      {
        if c !in HistoryConfigs(files[1..]) {
          assert files[0] in files;
        } else {
          var f :| f in files[1..] && DecodeHistoryName(f.name) == Stamp(c.date);
          assert f in files;
        }
      }
    }
  }

  /** With every name numeric, there is exactly one configuration per `.xml` file. */
  lemma {:induction false} HistoryConfigsCount(files: seq<HistoryFile>)
    requires forall i :: 0 <= i < |files| ==> Numeric(files[i])
    ensures |HistoryConfigs(files)| == |XmlFiles(files)|
  {
    if files != [] {
      HistoryConfigsCount(files[1..]);
    }
  }

  function XmlFiles(files: seq<HistoryFile>): (r: seq<HistoryFile>)
    ensures |r| <= |files|
    ensures forall f :: f in r ==> f in files && EndsWith(f.name, HISTORY_SUFFIX)
  {
    if files == [] then []
    else if EndsWith(files[0].name, HISTORY_SUFFIX) then [files[0]] + XmlFiles(files[1..])
    else XmlFiles(files[1..])
  }

  /** The local site's list of install configurations. */
  class LocalSite {
    var configurations: seq<InstallConfiguration>
    const location: string

    constructor (location: string)
      ensures this.location == location && configurations == []
    {
      this.location := location;
      configurations := [];
    }

    /** `addConfiguration`: append. */
    method AddConfiguration(c: InstallConfiguration)
      modifies this`configurations
      ensures configurations == old(configurations) + [c]
    {
      configurations := configurations + [c];
    }
  }

  /**
   * The parser run against a local site: the current configuration,
   * located at the site and dated by the platform configuration, is added
   * first, then the history.
   */
  class SiteLocalParser {
    const site: LocalSite
    const date: int

    /** Runs `processConfig`, then `processHistory`. */
    constructor (date: int, site: LocalSite, listing: Option<seq<HistoryFile>>)
      modifies site`configurations
      ensures this.site == site && this.date == date
      ensures site.configurations ==
                old(site.configurations) + [InstallConfiguration(site.location, date)] + HistoryOf(listing)
    {
      this.site := site;
      this.date := date;
      new;
      ProcessConfig();
      ProcessHistory(listing);
    }

    /** `processConfig`: the current configuration. */
    method ProcessConfig()
      modifies site`configurations
      ensures site.configurations == old(site.configurations) + [InstallConfiguration(site.location, date)]
    {
      site.AddConfiguration(InstallConfiguration(site.location, date));
    }

    /** `processHistory` given the directory listing (`None`: no history directory). */
    method ProcessHistory(listing: Option<seq<HistoryFile>>)
      modifies site`configurations
      ensures site.configurations == old(site.configurations) + HistoryOf(listing)
    {
      if listing.None? {
        return;
      }
      var files := listing.value;
      ghost var added: seq<InstallConfiguration> := [];
      for i := 0 to |files|
        invariant site.configurations == old(site.configurations) + added
        invariant added + HistoryConfigs(files[i..]) == HistoryConfigs(files)
      {
        assert files[i..][1..] == files[i + 1..];
        var name := files[i].name;
        if !EndsWith(name, HISTORY_SUFFIX) {
          continue;
        }
        var stamp := ParseLong(name[..|name| - 4]);
        if stamp.None? {
          assert HistoryConfigs(files[i..]) == [];
          assert added == HistoryConfigs(files);
          return;
        }
        var config := HistoryConfig(files[i], stamp.value);
        site.AddConfiguration(config);
        added := added + [config];
      }
      assert files[|files|..] == [];
    }
  }
}
