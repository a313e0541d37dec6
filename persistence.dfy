/**
 * The configuration directory as a map from path to file, the three-stage load
 * of `platform.xml` (primary, then `.tmp`, then `.bak`) and the sequence of file
 * states `save(URL)` passes through on the file branch.  The central property is
 * that every intermediate state loads as either the configuration on disk before
 * the save or the one being saved.
 */
module Persistence {
  import opened Wrappers
  import opened JavaStrings
  import opened Registry

  const CONFIG_NAME: string := "platform.xml"
  const CONFIG_INI: string := "config.ini"
  const CONFIG_HISTORY: string := "history"
  const CONFIG_FILE_TEMP_SUFFIX: string := ".tmp"
  const CONFIG_FILE_BAK_SUFFIX: string := ".bak"

  /**
   * What a file holds: a complete configuration document, a document the parser
   * rejects (half written or half copied), or a file the configurator never parses.
   */
  datatype Content = Document(config: Configuration) | Garbled | Other

  datatype FileData = FileData(content: Content, lastModified: int)

  type Files = map<string, FileData>

  function ConfigFile(dir: string): string { dir + "/" + CONFIG_NAME }
  function TempFile(dir: string): string { ConfigFile(dir) + CONFIG_FILE_TEMP_SUFFIX }
  function BakFile(dir: string): string { ConfigFile(dir) + CONFIG_FILE_BAK_SUFFIX }
  function ConfigIniFile(dir: string): string { dir + "/" + CONFIG_INI }
  /** `history/<lastModified>.xml`, the name under which the previous file is preserved. */
  function HistoryFile(dir: string, stamp: int): string {
    dir + "/" + CONFIG_HISTORY + "/" + DecimalString(stamp) + ".xml"
  }

  /** The files a save touches are pairwise distinct. */
  lemma PathsDistinct(dir: string, stamp: int)
    ensures ConfigFile(dir) != TempFile(dir) && ConfigFile(dir) != BakFile(dir) && TempFile(dir) != BakFile(dir)
    ensures ConfigIniFile(dir) !in {ConfigFile(dir), TempFile(dir), BakFile(dir), HistoryFile(dir, stamp)}
    ensures HistoryFile(dir, stamp) !in {ConfigFile(dir), TempFile(dir), BakFile(dir)}
  {
    var n := |dir| + 1;
    assert ConfigFile(dir)[n] == 'p';
    assert TempFile(dir)[n] == 'p';
    assert BakFile(dir)[n] == 'p';
    assert ConfigIniFile(dir)[n] == 'c';
    assert HistoryFile(dir, stamp)[n] == 'h';
    assert |TempFile(dir)| == |BakFile(dir)| == |ConfigFile(dir)| + 4;
    assert TempFile(dir)[|ConfigFile(dir)| + 1] == 't';
    assert BakFile(dir)[|ConfigFile(dir)| + 1] == 'b';
  }

  // ---------------------------------------------------------------- loadConfig

  /** How `ConfigurationParser.parse` ends: a configuration, an `IOException`, or another exception. */
  datatype ParseOutcome = Parsed(config: Configuration) | IOFailure | FormatFailure

  /** The exception `loadConfig` throws: no URL, or the one raised while parsing `location`. */
  datatype LoadError = NoLocation | LoadFailed(location: string, ioException: bool)

  /**
   * `loadConfig(url)`: the primary file, then `.tmp`, then `.bak`.  When the
   * backup fails with an `IOException` the primary file's exception is rethrown;
   * any other backup failure propagates itself.
   */
  function LoadConfig(location: Option<string>, parse: string -> ParseOutcome): (r: Result<Configuration, LoadError>)
    ensures location.None? ==> r == Failure(NoLocation)
    ensures location.Some? && parse(location.value).Parsed? ==> r == Success(parse(location.value).config)
    ensures r.Success? ==>
              (location.Some? &&
               (parse(location.value) == Parsed(r.value) ||
                parse(location.value + CONFIG_FILE_TEMP_SUFFIX) == Parsed(r.value) ||
                parse(location.value + CONFIG_FILE_BAK_SUFFIX) == Parsed(r.value)))
    ensures location.Some? && !parse(location.value).Parsed? ==>
              var url := location.value;
              var temp, bak := parse(url + CONFIG_FILE_TEMP_SUFFIX), parse(url + CONFIG_FILE_BAK_SUFFIX);
              (temp.Parsed? ==> r == Success(temp.config))
              && (!temp.Parsed? && bak.IOFailure? ==> r == Failure(LoadFailed(url, parse(url).IOFailure?)))
              && (!temp.Parsed? && bak.FormatFailure? ==> r == Failure(LoadFailed(url + CONFIG_FILE_BAK_SUFFIX, false)))
  {
    if location.None? then Failure(NoLocation)
    else
      var url := location.value;
      var first := parse(url);
      if first.Parsed? then Success(first.config)
      else
        var temp := parse(url + CONFIG_FILE_TEMP_SUFFIX);
        if temp.Parsed? then Success(temp.config)
        else
          match parse(url + CONFIG_FILE_BAK_SUFFIX)
          case Parsed(c) => Success(c)
          case IOFailure => Failure(LoadFailed(url, first.IOFailure?))
          case FormatFailure => Failure(LoadFailed(url + CONFIG_FILE_BAK_SUFFIX, false))
  }

  /** Parsing a file on disk: a missing file is an `IOException`, a garbled one a parse error. */
  function ParseFile(fs: Files, path: string): ParseOutcome {
    if path !in fs then IOFailure
    else match fs[path].content
      case Document(c) => Parsed(c)
      case _ => FormatFailure
  }

  /** Loading the configuration of directory `dir` from the files `fs`. */
  function DiskLoad(fs: Files, dir: string): Result<Configuration, LoadError> {
    LoadConfig(Some(ConfigFile(dir)), p => ParseFile(fs, p))
  }

  /** With the primary file missing or unreadable, a complete `.tmp` file is what loads. */
  lemma TempFallback(fs: Files, dir: string, c: Configuration)
    requires !ParseFile(fs, ConfigFile(dir)).Parsed?
    requires TempFile(dir) in fs && fs[TempFile(dir)].content == Document(c)
    ensures DiskLoad(fs, dir) == Success(c)
  {
  }

  /** With neither primary nor `.tmp` readable, the `.bak` file is what loads. */
  lemma BackupFallback(fs: Files, dir: string, c: Configuration)
    requires !ParseFile(fs, ConfigFile(dir)).Parsed? && !ParseFile(fs, TempFile(dir)).Parsed?
    requires BakFile(dir) in fs && fs[BakFile(dir)].content == Document(c)
    ensures DiskLoad(fs, dir) == Success(c)
  {
  }

  /** Loading fails only when none of the three files holds a complete document. */
  lemma LoadFailsOnlyWithoutDocuments(fs: Files, dir: string)
    requires DiskLoad(fs, dir).Failure?
    ensures !ParseFile(fs, ConfigFile(dir)).Parsed? && !ParseFile(fs, TempFile(dir)).Parsed?
            && !ParseFile(fs, BakFile(dir)).Parsed?
  {
  }

  // ---------------------------------------------------------------- file operations

  /** `File.delete()`: a failed delete changes nothing. */
  function Delete(fs: Files, path: string, fails: bool): (r: Files)
    ensures fails ==> r == fs
    ensures !fails ==> r == fs - {path}
  {
    if fails then fs else fs - {path}
  }

  /** `File.renameTo(target)`: `false` and no change when it fails or the source is missing. */
  function Rename(fs: Files, from: string, to: string, fails: bool): (r: (Files, bool))
    ensures r.1 <==> !fails && from in fs
    ensures r.1 ==> r.0 == (fs - {from})[to := fs[from]]
    ensures !r.1 ==> r.0 == fs
  {
    if !fails && from in fs then ((fs - {from})[to := fs[from]], true) else (fs, false)
  }

  /**
   * How `copy` of the current file into `history/` ends: it copies the whole
   * file; it fails while moving bytes, leaving a partial target; or it fails
   * to open the source or the target stream (say after a failed `mkdir` of
   * `history/`), leaving no new target.  `copy` catches the `IOException` in
   * both failing cases.
   */
  datatype CopyOutcome = Copied | CopyPartial | CopyNotOpened

  /** The file system calls of one `save(URL)` that fail, as the environment decides. */
  datatype SaveFaults = SaveFaults(
    historyCopy: CopyOutcome,
    configIniFails: bool,
    openFails: bool,
    writeFails: bool,
    staleBakDeleteFails: bool,
    renameToBakFails: bool,
    renameToPrimaryFails: bool,
    cleanupFails: bool)

  /**
   * The exception `save(URL)` throws: no URL; "unable to save" naming a file or
   * URL; or an `IOException` of a stream opened on the file named.
   */
  datatype SaveError = NoSaveLocation | UnableToSave(location: string) | StreamFailed(path: string)

  /**
   * One run of the file branch of `save(URL)`: the file states it passes
   * through, how it ends, and whether the document was opened for writing (the
   * configuration's date is then set) and completely written (the change stamp
   * is then set).
   */
  datatype SaveRun = SaveRun(trace: seq<Files>, outcome: Outcome<SaveError>, started: bool, written: bool)

  /**
   * The current file copied to `history/<lastModified>.xml`, whose time stamp
   * is then set to the current file's.  The save goes on whatever the copy
   * does; `setLastModified` changes nothing when no target exists.
   */
  function Preserved(fs: Files, dir: string, copy: CopyOutcome): (r: Files)
    ensures ConfigFile(dir) !in fs ==> r == fs
    ensures ConfigFile(dir) in fs ==>
              var stamp := fs[ConfigFile(dir)].lastModified;
              var h := HistoryFile(dir, stamp);
              r.Keys == fs.Keys + (if copy == CopyNotOpened then {} else {h})
              && (h in r ==> r[h].lastModified == stamp)
              && (copy == Copied ==> r[h] == fs[ConfigFile(dir)])
              && (copy == CopyPartial ==> r[h].content == Garbled)
              && (copy == CopyNotOpened && h in fs ==> r[h].content == fs[h].content)
              && forall p :: p in fs && p != h ==> r[p] == fs[p]
  {
    var primary := ConfigFile(dir);
    if primary !in fs then fs
    else
      var stamp := fs[primary].lastModified;
      var h := HistoryFile(dir, stamp);
      match copy
        case Copied => fs[h := fs[primary]]
        case CopyPartial => fs[h := FileData(Garbled, stamp)]
        case CopyNotOpened => if h in fs then fs[h := fs[h].(lastModified := stamp)] else fs
  }

  /** `writeConfigIni`: a missing `config.ini` is created; failures are ignored. */
  function WithConfigIni(fs: Files, dir: string, now: int, fails: bool): Files {
    if ConfigIniFile(dir) in fs || fails then fs else fs[ConfigIniFile(dir) := FileData(Other, now)]
  }

  /**
   * Making the written `.tmp` file the active one: delete a stale `.bak`, move
   * the primary file to `.bak`, move `.tmp` to the primary name, then delete
   * `.bak`.  Returns the states after each step and whether the promotion succeeded.
   */
  function Promotion(fs: Files, dir: string, f: SaveFaults): (r: (seq<Files>, bool))
    ensures |r.0| == if r.1 then 4 else 3
  {
    var primary, tmp, bak := ConfigFile(dir), TempFile(dir), BakFile(dir);
    var s5 := Delete(fs, bak, f.staleBakDeleteFails);
    var s6 := if primary in s5 then Rename(s5, primary, bak, f.renameToBakFails).0 else s5;
    var (s7, ok) := Rename(s6, tmp, primary, f.renameToPrimaryFails);
    if ok then ([s5, s6, s7, Delete(s7, bak, f.cleanupFails)], true) else ([s5, s6, s7], false)
  }

  /**
   * The first half of the file branch of `save(URL)`: preserve the current file
   * under `history/`, create `config.ini`, write `saved` to `.tmp`.  A run that
   * is not `written` ended with the exception in `outcome`.
   */
  function WriteStage(fs: Files, dir: string, saved: Configuration, now: int, f: SaveFaults): (run: SaveRun)
    ensures |run.trace| >= 3 && run.trace[0] == fs
    ensures run.started <==> !f.openFails
    ensures run.written <==> !f.openFails && !f.writeFails
    ensures run.written <==> run.outcome.Pass?
    ensures !run.written ==> run.outcome == Fail(if f.openFails then StreamFailed(TempFile(dir)) else UnableToSave(TempFile(dir)))
    ensures run.written ==> |run.trace| == 5
  {
    var s1 := Preserved(fs, dir, f.historyCopy);
    TempStage([fs, s1], WithConfigIni(s1, dir, now, f.configIniFails), dir, saved, now, f)
  }

  /** Writing `.tmp` after the states `prefix`, starting from `s2`. */
  function TempStage(prefix: seq<Files>, s2: Files, dir: string, saved: Configuration, now: int, f: SaveFaults): (run: SaveRun)
    ensures |run.trace| > |prefix| && run.trace[..|prefix|] == prefix && run.trace[|prefix|] == s2
    ensures run.started <==> !f.openFails
    ensures run.written <==> !f.openFails && !f.writeFails
    ensures run.written <==> run.outcome.Pass?
    ensures !run.written ==> run.outcome == Fail(if f.openFails then StreamFailed(TempFile(dir)) else UnableToSave(TempFile(dir)))
    ensures run.written ==> |run.trace| == |prefix| + 3
  {
    var tmp := TempFile(dir);
    if f.openFails then SaveRun(prefix + [s2], Fail(StreamFailed(tmp)), false, false)
    else
      var s3 := s2[tmp := FileData(Garbled, now)];
      if f.writeFails then SaveRun(prefix + [s2, s3], Fail(UnableToSave(tmp)), true, false)
      else SaveRun(prefix + [s2, s3, s3[tmp := FileData(Document(saved), saved.date)]], Pass, true, true)
  }

  /**
   * The file branch of `save(URL)` into directory `dir`, starting from `fs`,
   * writing `saved` (the configuration with its date already set to `now`).
   */
  function SaveTrace(fs: Files, dir: string, saved: Configuration, now: int, f: SaveFaults): (run: SaveRun)
    ensures |run.trace| >= 2 && run.trace[0] == fs
    ensures run.outcome.Pass? ==> run.written
  {
    var w := WriteStage(fs, dir, saved, now, f);
    if !w.written then w
    else
      var (tail, ok) := Promotion(w.trace[4], dir, f);
      SaveRun(w.trace + tail, if ok then Pass else Fail(UnableToSave(TempFile(dir))), true, true)
  }

  /**
   * The one state the recovery cannot cover: the primary file is unreadable
   * while a complete `.tmp` file (left by an earlier interrupted save) is what
   * currently loads.
   */
  predicate StaleTemp(fs: Files, dir: string) {
    !ParseFile(fs, ConfigFile(dir)).Parsed? && ParseFile(fs, TempFile(dir)).Parsed?
  }

  /** A state loads as the configuration before the save or as the one being saved. */
  predicate Recovers(st: Files, fs: Files, dir: string, saved: Configuration) {
    DiskLoad(st, dir) == DiskLoad(fs, dir) || DiskLoad(st, dir) == Success(saved)
  }

  /** Only the three candidates affect loading, and of `.tmp` only whether it holds a document. */
  lemma LoadDependsOnThreeFiles(a: Files, b: Files, dir: string)
    requires ParseFile(a, ConfigFile(dir)) == ParseFile(b, ConfigFile(dir))
    requires ParseFile(a, TempFile(dir)) == ParseFile(b, TempFile(dir)) ||
             (!ParseFile(a, TempFile(dir)).Parsed? && !ParseFile(b, TempFile(dir)).Parsed?)
    requires ParseFile(a, BakFile(dir)) == ParseFile(b, BakFile(dir))
    ensures DiskLoad(a, dir) == DiskLoad(b, dir)
  {
  }

  /** While `.tmp` holds the new document and the primary file is the old one or gone, loading recovers. */
  lemma TempHoldsSaved(st: Files, fs: Files, dir: string, saved: Configuration)
    requires ParseFile(st, TempFile(dir)) == Parsed(saved)
    requires ParseFile(st, ConfigFile(dir)) == ParseFile(fs, ConfigFile(dir)) || ParseFile(st, ConfigFile(dir)) == IOFailure
    ensures Recovers(st, fs, dir, saved)
  {
  }

  /** Each promotion step keeps the directory recoverable, and a successful promotion loads the new document. */
  lemma PromotionRecovers(s4: Files, fs: Files, dir: string, saved: Configuration, f: SaveFaults)
    requires ParseFile(s4, TempFile(dir)) == Parsed(saved)
    requires ParseFile(s4, ConfigFile(dir)) == ParseFile(fs, ConfigFile(dir))
    ensures var (tail, ok) := Promotion(s4, dir, f);
            (forall i :: 0 <= i < |tail| ==> Recovers(tail[i], fs, dir, saved))
            && (ok ==> DiskLoad(tail[|tail| - 1], dir) == Success(saved))
  {
    var primary, tmp, bak := ConfigFile(dir), TempFile(dir), BakFile(dir);
    PathsDistinct(dir, 0);
    var s5 := Delete(s4, bak, f.staleBakDeleteFails);
    var s6 := if primary in s5 then Rename(s5, primary, bak, f.renameToBakFails).0 else s5;
    var (s7, ok) := Rename(s6, tmp, primary, f.renameToPrimaryFails);
    TempHoldsSaved(s5, fs, dir, saved);
    TempHoldsSaved(s6, fs, dir, saved);
    if ok {
      assert ParseFile(s7, primary) == Parsed(saved);
      assert ParseFile(Delete(s7, bak, f.cleanupFails), primary) == Parsed(saved);
    } else {
      assert s7 == s6;
    }
  }

  /** Writing `.tmp` over a state that loads like `fs` keeps the directory recoverable, and leaves the saved document in `.tmp`. */
  lemma TempStageRecovers(prefix: seq<Files>, s2: Files, fs: Files, dir: string, saved: Configuration, now: int, f: SaveFaults)
    requires !StaleTemp(fs, dir)
    requires ParseFile(s2, ConfigFile(dir)) == ParseFile(fs, ConfigFile(dir))
    requires ParseFile(s2, TempFile(dir)) == ParseFile(fs, TempFile(dir))
    requires ParseFile(s2, BakFile(dir)) == ParseFile(fs, BakFile(dir))
    ensures var run := TempStage(prefix, s2, dir, saved, now, f);
            (forall i :: |prefix| <= i < |run.trace| ==> Recovers(run.trace[i], fs, dir, saved))
            && (run.written ==> var s4 := run.trace[|run.trace| - 1];
                  ParseFile(s4, TempFile(dir)) == Parsed(saved) && ParseFile(s4, ConfigFile(dir)) == ParseFile(fs, ConfigFile(dir)))
  {
    var primary, tmp := ConfigFile(dir), TempFile(dir);
    PathsDistinct(dir, 0);
    LoadDependsOnThreeFiles(s2, fs, dir);
    var run := TempStage(prefix, s2, dir, saved, now, f);
    if !f.openFails {
      var s3 := s2[tmp := FileData(Garbled, now)];
      assert Recovers(s3, fs, dir, saved) by {
        if !ParseFile(fs, primary).Parsed? {
          LoadDependsOnThreeFiles(s3, fs, dir);
        }
      }
      if !f.writeFails {
        var s4 := s3[tmp := FileData(Document(saved), saved.date)];
        TempHoldsSaved(s4, fs, dir, saved);
        assert run.trace == prefix + [s2, s3, s4];
      } else {
        assert run.trace == prefix + [s2, s3];
      }
    }
  }

  /** The first half of a save keeps the directory recoverable, and a complete write leaves the saved document in `.tmp`. */
  lemma WriteStageRecovers(fs: Files, dir: string, saved: Configuration, now: int, f: SaveFaults)
    requires !StaleTemp(fs, dir)
    ensures var run := WriteStage(fs, dir, saved, now, f);
            (forall i :: 0 <= i < |run.trace| ==> Recovers(run.trace[i], fs, dir, saved))
            && (run.written ==> var s4 := run.trace[4];
                  ParseFile(s4, TempFile(dir)) == Parsed(saved) && ParseFile(s4, ConfigFile(dir)) == ParseFile(fs, ConfigFile(dir)))
  {
    var primary := ConfigFile(dir);
    var stamp := if primary in fs then fs[primary].lastModified else 0;
    PathsDistinct(dir, stamp);
    var s1 := Preserved(fs, dir, f.historyCopy);
    var s2 := WithConfigIni(s1, dir, now, f.configIniFails);
    LoadDependsOnThreeFiles(s1, fs, dir);
    TempStageRecovers([fs, s1], s2, fs, dir, saved, now, f);
  }

  /**
   * Crash safety: unless the save starts from a stale `.tmp` file, an
   * interruption at any point leaves a directory that loads as the old or the
   * new configuration, and a completed save loads as the new one.
   */
  lemma SaveIsCrashSafe(fs: Files, dir: string, saved: Configuration, now: int, f: SaveFaults)
    requires !StaleTemp(fs, dir)
    ensures var run := SaveTrace(fs, dir, saved, now, f);
            (forall i :: 0 <= i < |run.trace| ==> Recovers(run.trace[i], fs, dir, saved))
            && (run.outcome.Pass? ==> DiskLoad(run.trace[|run.trace| - 1], dir) == Success(saved))
  {
    var w := WriteStage(fs, dir, saved, now, f);
    WriteStageRecovers(fs, dir, saved, now, f);
    if w.written {
      PromotionRecovers(w.trace[4], fs, dir, saved, f);
      var tail := Promotion(w.trace[4], dir, f).0;
      var run := SaveTrace(fs, dir, saved, now, f);
      assert run.trace == w.trace + tail;
      forall i | 0 <= i < |run.trace|
        ensures Recovers(run.trace[i], fs, dir, saved)
      {
        if i >= |w.trace| {
          assert run.trace[i] == tail[i - |w.trace|];
        } else {
          assert run.trace[i] == w.trace[i];
        }
      }
    }
  }

  /**
   * How a save ends depends only on opening and writing `.tmp` and on the final
   * rename: a failed history copy, `config.ini`, the `.bak` juggling and the
   * clean-up are ignored.  A successful save leaves the new document as the
   * primary file, dated by the configuration, no `.tmp`, and no `.bak` unless
   * the clean-up failed.
   */
  lemma SaveOutcome(fs: Files, dir: string, saved: Configuration, now: int, f: SaveFaults)
    ensures var run := SaveTrace(fs, dir, saved, now, f);
            run.outcome == (if f.openFails then Fail(StreamFailed(TempFile(dir)))
                            else if f.writeFails || f.renameToPrimaryFails then Fail(UnableToSave(TempFile(dir)))
                            else Pass)
    ensures var run := SaveTrace(fs, dir, saved, now, f);
            run.outcome.Pass? ==>
              var last := run.trace[|run.trace| - 1];
              ConfigFile(dir) in last && last[ConfigFile(dir)] == FileData(Document(saved), saved.date)
              && TempFile(dir) !in last && (!f.cleanupFails ==> BakFile(dir) !in last)
  {
    var w := WriteStage(fs, dir, saved, now, f);
    if w.written {
      var primary, tmp, bak := ConfigFile(dir), TempFile(dir), BakFile(dir);
      PathsDistinct(dir, 0);
      var s4 := w.trace[4];
      assert s4[tmp] == FileData(Document(saved), saved.date);
      var s5 := Delete(s4, bak, f.staleBakDeleteFails);
      var s6 := if primary in s5 then Rename(s5, primary, bak, f.renameToBakFails).0 else s5;
      assert tmp in s6 && s6[tmp] == s4[tmp];
    }
  }

  /** Writing `.tmp` leaves every other file as it was. */
  lemma TempStageKeeps(prefix: seq<Files>, s2: Files, dir: string, saved: Configuration, now: int, f: SaveFaults, p: string)
    requires p in s2 && p != TempFile(dir)
    ensures var run := TempStage(prefix, s2, dir, saved, now, f);
            forall i :: |prefix| <= i < |run.trace| ==> p in run.trace[i] && run.trace[i][p] == s2[p]
  {
    var run := TempStage(prefix, s2, dir, saved, now, f);
    var tmp := TempFile(dir);
    if !f.openFails {
      var s3 := s2[tmp := FileData(Garbled, now)];
      if f.writeFails {
        assert run.trace == prefix + [s2, s3];
      } else {
        assert run.trace == prefix + [s2, s3, s3[tmp := FileData(Document(saved), saved.date)]];
      }
    }
  }

  /** The promotion touches only the primary file, `.tmp` and `.bak`. */
  lemma PromotionKeeps(s4: Files, dir: string, f: SaveFaults, p: string)
    requires p in s4 && p != ConfigFile(dir) && p != TempFile(dir) && p != BakFile(dir)
    ensures var tail := Promotion(s4, dir, f).0;
            forall i :: 0 <= i < |tail| ==> p in tail[i] && tail[i][p] == s4[p]
  {
  }

  /**
   * Whatever else happens, a save that copied the previous primary file leaves
   * it under `history/<lastModified>.xml`, where the site parser finds it.
   */
  lemma HistoryKeepsPrevious(fs: Files, dir: string, saved: Configuration, now: int, f: SaveFaults)
    requires ConfigFile(dir) in fs && f.historyCopy == Copied
    ensures var run := SaveTrace(fs, dir, saved, now, f);
            var h := HistoryFile(dir, fs[ConfigFile(dir)].lastModified);
            forall i :: 1 <= i < |run.trace| ==> h in run.trace[i] && run.trace[i][h] == fs[ConfigFile(dir)]
  {
    var h := HistoryFile(dir, fs[ConfigFile(dir)].lastModified);
    PathsDistinct(dir, fs[ConfigFile(dir)].lastModified);
    var s1 := Preserved(fs, dir, f.historyCopy);
    var s2 := WithConfigIni(s1, dir, now, f.configIniFails);
    assert s2[h] == fs[ConfigFile(dir)];
    TempStageKeeps([fs, s1], s2, dir, saved, now, f, h);
    var run := SaveTrace(fs, dir, saved, now, f);
    var w := WriteStage(fs, dir, saved, now, f);
    assert w == TempStage([fs, s1], s2, dir, saved, now, f);
    if w.written {
      PromotionKeeps(w.trace[4], dir, f, h);
      var tail := Promotion(w.trace[4], dir, f).0;
      assert run.trace == w.trace + tail;
      forall i | 1 <= i < |run.trace|
        ensures h in run.trace[i] && run.trace[i][h] == fs[ConfigFile(dir)]
      {
        if i >= |w.trace| {
          assert run.trace[i] == tail[i - |w.trace|];
        } else {
          assert run.trace[i] == w.trace[i];
        }
      }
    }
  }

  /**
   * The stale `.tmp` window: after an interrupted save left only `.tmp` and
   * `.bak`, an interruption while the next save writes `.tmp` loads the older
   * `.bak`, which is neither the state that was loaded nor the one being saved.
   */
  lemma StaleTempLosesState(dir: string, older: Configuration, loaded: Configuration, saved: Configuration, now: int)
    requires older != loaded && older != saved
    ensures var fs := map[TempFile(dir) := FileData(Document(loaded), 1000), BakFile(dir) := FileData(Document(older), 0)];
            var f := SaveFaults(Copied, false, false, true, false, false, false, false);
            var run := SaveTrace(fs, dir, saved, now, f);
            StaleTemp(fs, dir) && DiskLoad(fs, dir) == Success(loaded)
            && DiskLoad(run.trace[|run.trace| - 1], dir) == Success(older)
            && !Recovers(run.trace[|run.trace| - 1], fs, dir, saved)
  {
    var fs := map[TempFile(dir) := FileData(Document(loaded), 1000), BakFile(dir) := FileData(Document(older), 0)];
    var f := SaveFaults(Copied, false, false, true, false, false, false, false);
    PathsDistinct(dir, 0);
    var ini := ConfigIniFile(dir);
    var s2 := fs[ini := FileData(Other, now)];
    var s3 := s2[TempFile(dir) := FileData(Garbled, now)];
    assert WriteStage(fs, dir, saved, now, f).trace == [fs, fs, s2, s3];
    assert ParseFile(s3, ConfigFile(dir)) == IOFailure;
    assert ParseFile(s3, TempFile(dir)) == FormatFailure;
    assert ParseFile(s3, BakFile(dir)) == Parsed(older);
  }
}
