/**
 * Packaging one WordPress directory (`process_directory`, with the steps
 * `dump_sql` and `create_tarball` that it calls).
 *
 * A `Packager` carries the run's settings (the output directory, the date
 * stamp, the working directory and the dry-run switch) and the log of what it
 * has done: every shell command is printed and then, unless it is a dry run,
 * handed to `os.system`. The file system is given as the lines of each
 * readable file; the directory walk as the entries `os.walk` yields.
 */
module Packager {
  import opened Wrappers
  import opened Text
  import opened Config
  import opened Scan
  import opened Commands

  /** What the packager does that can be observed: a line printed, a command run. */
  datatype Event = Say(text: string) | Exec(command: string)

  /** How processing one directory ends. */
  datatype Outcome =
    | NoConfigs               // no `wp-config.php` below it: nothing is run
    | Packaged                // dumps, archive and clean-up all issued
    | Aborted(error: ConfigError)  // a configuration could not be read or parsed; the run stops there

  /** Printing a command and, unless it is a dry run, running it. */
  function Issued(command: string, dryRun: bool): seq<Event>
  {
    [Say(command)] + (if dryRun then [] else [Exec(command)])
  }

  /** Issuing each command of `commands` in turn. */
  function IssuedAll(commands: seq<string>, dryRun: bool): seq<Event>
  {
    if commands == [] then []
    else IssuedAll(commands[..|commands| - 1], dryRun) + Issued(commands[|commands| - 1], dryRun)
  }

  /** The lines printed, in order. */
  function Printed(events: seq<Event>): seq<string>
  {
    if events == [] then []
    else Printed(events[..|events| - 1]) + (match events[|events| - 1] case Say(t) => [t] case Exec(_) => [])
  }

  /** The commands run, in order. */
  function Executed(events: seq<Event>): seq<string>
  {
    if events == [] then []
    else Executed(events[..|events| - 1]) + (match events[|events| - 1] case Say(_) => [] case Exec(c) => [c])
  }

  const ProcessingPrefix: string := "Processing dir "

  /** The line announcing that `dir` holds no configuration. */
  function SkipNote(dir: string): string
  {
    "No wordpress configs found, skipping " + dir + "..."
  }

  /** `parse_config(path)` against the file system `fs`: a file missing from `fs` cannot be opened. */
  function Load(path: string, fs: map<string, seq<string>>): (r: Result<Database>)
    ensures r.Ok? <==> path in fs && AllRecorded(fs[path])
  {
    if path in fs then ParseOutcome(fs[path]); Build(Props(fs[path])) else Err(Unreadable(path))
  }

  /**
   * Loading the configurations in turn until one fails: the records of the
   * leading ones that load, and the error of the first that does not.
   */
  function LoadAll(paths: seq<string>, fs: map<string, seq<string>>): (r: (seq<Database>, Option<ConfigError>))
    ensures |r.0| <= |paths|
    ensures forall j :: 0 <= j < |r.0| ==> Load(paths[j], fs) == Ok(r.0[j])
    ensures r.1.None? ==> |r.0| == |paths|
    ensures r.1.Some? ==> |r.0| < |paths| && Load(paths[|r.0|], fs) == Err(r.1.value)
  {
    if paths == [] then ([], None)
    else
      match Load(paths[0], fs)
      case Err(e) => ([], Some(e))
      case Ok(db) =>
        var rest := LoadAll(paths[1..], fs);
        ([db] + rest.0, rest.1)
  }

  /** The dump files of `dbs`, in order. */
  function DumpFiles(output: string, dbs: seq<Database>, date: string): (r: seq<string>)
    ensures |r| == |dbs|
    ensures forall j :: 0 <= j < |r| ==> r[j] == DumpTarget(output, dbs[j], date)
  {
    if dbs == [] then []
    else DumpFiles(output, dbs[..|dbs| - 1], date) + [DumpTarget(output, dbs[|dbs| - 1], date)]
  }

  /** The `mysqldump` commands of `dbs`, in order. */
  function DumpCommands(output: string, dbs: seq<Database>, date: string): (r: seq<string>)
    ensures |r| == |dbs|
    ensures forall j :: 0 <= j < |r| ==> r[j] == DumpCommand(dbs[j], DumpTarget(output, dbs[j], date))
  {
    if dbs == [] then []
    else
      var init := dbs[..|dbs| - 1];
      var db := dbs[|dbs| - 1];
      assert forall j :: 0 <= j < |init| ==> init[j] == dbs[j];
      DumpCommands(output, init, date) + [DumpCommand(db, DumpTarget(output, db, date))]
  }

  /** The `rm` commands of `files`, in order. */
  function RmCommands(files: seq<string>): (r: seq<string>)
    ensures |r| == |files|
    ensures forall j :: 0 <= j < |r| ==> r[j] == RmCommand(files[j])
  {
    if files == [] then [] else RmCommands(files[..|files| - 1]) + [RmCommand(files[|files| - 1])]
  }

  /** The commands issued for `dir` with configurations `configs`, and how it ends. */
  function Plan(dir: string, configs: seq<string>, fs: map<string, seq<string>>, output: string, date: string, cwd: string)
    : (r: (seq<string>, Outcome))
    ensures r.1 == NoConfigs <==> configs == []
    ensures configs == [] ==> r.0 == []
    ensures r.1.Aborted? ==> |r.0| < |configs|
    ensures r.1 == Packaged ==> |r.0| == 2 * |configs| + 1
  {
    if configs == [] then ([], NoConfigs)
    else
      var loaded := LoadAll(configs, fs);
      var dumps := DumpCommands(output, loaded.0, date);
      if loaded.1.Some? then (dumps, Aborted(loaded.1.value))
      else
        var files := DumpFiles(output, loaded.0, date);
        (dumps + [TarCommand(output, dir, files, date, cwd)] + RmCommands(files), Packaged)
  }

  /** Everything observable while processing `dir`. */
  function Trace(dir: string, configs: seq<string>, fs: map<string, seq<string>>,
                 output: string, date: string, cwd: string, dryRun: bool): (r: seq<Event>)
    ensures |r| >= 1 && r[0] == Say(ProcessingPrefix + dir)
    ensures dryRun || configs == [] ==> Executed(r) == []
  {
    var rest := if configs == [] then [Say(SkipNote(dir))] else IssuedAll(Plan(dir, configs, fs, output, date, cwd).0, dryRun);
    SayFirst(ProcessingPrefix + dir, rest);
    if configs == [] then
      SayFirst(SkipNote(dir), []);
      assert rest == [Say(SkipNote(dir))] + [];
      [Say(ProcessingPrefix + dir)] + rest
    else
      ExecutedIssued(Plan(dir, configs, fs, output, date, cwd).0, dryRun);
      [Say(ProcessingPrefix + dir)] + rest
  }

  class Packager {
    const output: string
    const date: string
    const cwd: string
    const dryRun: bool
    var log: seq<Event>

    constructor(output: string, date: string, cwd: string, dryRun: bool)
      ensures this.output == output && this.date == date && this.cwd == cwd && this.dryRun == dryRun
      ensures log == []
    {
      this.output := output;
      this.date := date;
      this.cwd := cwd;
      this.dryRun := dryRun;
      log := [];
    }

    /** `print(text)`. */
    method Print(text: string)
      modifies this
      ensures log == old(log) + [Say(text)]
    {
      log := log + [Say(text)];
    }

    /** `print(command)`, then `os.system(command)` unless it is a dry run. */
    method Issue(command: string)
      modifies this
      ensures log == old(log) + Issued(command, dryRun)
    {
      log := log + [Say(command)];
      if !dryRun {
        log := log + [Exec(command)];
      }
    }

    /** `dump_sql(config)`: issues the `mysqldump` command and returns the dump file. */
    method DumpSql(db: Database) returns (file: string)
      modifies this
      ensures file == DumpTarget(output, db, date)
      ensures log == old(log) + Issued(DumpCommand(db, file), dryRun)
    {
      file := DumpTarget(output, db, date);
      Issue(DumpCommand(db, file));
    }

    /** `create_tarball(dir, files)`: issues the `tar` command. */
    method CreateTarball(dir: string, files: seq<string>)
      modifies this
      ensures log == old(log) + Issued(TarCommand(output, dir, files, date, cwd), dryRun)
    {
      Issue(TarCommand(output, dir, files, date, cwd));
    }

    /** One turn of the first loop of `process_directory`: `parse_config(path)`, then `dump_sql` of its record. */
    method ParseAndDump(path: string, fs: map<string, seq<string>>) returns (config: Result<Database>, file: string)
      modifies this
      ensures config == Load(path, fs)
      ensures config.Ok? ==> file == DumpTarget(output, config.value, date) &&
                             log == old(log) + Issued(DumpCommand(config.value, file), dryRun)
      ensures config.Err? ==> log == old(log)
    {
      if path !in fs {
        return Err(Unreadable(path)), "";
      }
      config := ParseConfig(fs[path]);
      if config.Ok? {
        file := DumpSql(config.value);
      } else {
        file := "";
      }
    }

    /**
     * The first loop of `process_directory`: parses each configuration and
     * dumps its database, stopping at the first configuration that cannot be
     * read or parsed (the exception ends the run).
     */
    method DumpConfigs(configs: seq<string>, fs: map<string, seq<string>>)
      returns (files: seq<string>, failure: Option<ConfigError>, ghost dbs: seq<Database>)
      modifies this
      ensures LoadAll(configs, fs) == (dbs, failure)
      ensures files == DumpFiles(output, dbs, date)
      ensures log == old(log) + IssuedAll(DumpCommands(output, dbs, date), dryRun)
    {
      dbs := [];
      files := [];
      var i := 0;
      while i < |configs|
        invariant i <= |configs| && |dbs| == i
        invariant LoadsAs(configs, fs, dbs)
        invariant files == DumpFiles(output, dbs, date)
        invariant log == old(log) + IssuedAll(DumpCommands(output, dbs, date), dryRun)
      {
        var config, file := ParseAndDump(configs[i], fs);
        if config.Err? {
          LoadAllFails(configs, fs, dbs, config.error);
          return files, Some(config.error), dbs;
        }
        SnocSteps(output, dbs, config.value, date, dryRun);
        AppendAssoc3(old(log), IssuedAll(DumpCommands(output, dbs, date), dryRun), Issued(DumpCommand(config.value, file), dryRun));
        LoadsAsSnoc(configs, fs, dbs, config.value);
        dbs := dbs + [config.value];
        files := files + [file];
        i := i + 1;
      }
      LoadAllLoads(configs, fs, dbs);
      failure := None;
    }

    /** The last loop of `process_directory`: issues `rm` for each dump file in turn. */
    method RemoveDumps(files: seq<string>)
      modifies this
      ensures log == old(log) + IssuedAll(RmCommands(files), dryRun)
    {
      var j := 0;
      while j < |files|
        invariant j <= |files|
        invariant log == old(log) + IssuedAll(RmCommands(files[..j]), dryRun)
      {
        Issue(RmCommand(files[j]));
        RmSnoc(files, j, dryRun);
        AppendAssoc3(old(log), IssuedAll(RmCommands(files[..j]), dryRun), Issued(RmCommand(files[j]), dryRun));
        j := j + 1;
      }
      assert files[..|files|] == files;
    }

    /**
     * The part of `process_directory` after configurations were found: dump
     * each database, archive the directory with the dumps, remove the dumps.
     */
    method PackageConfigs(dir: string, configs: seq<string>, fs: map<string, seq<string>>) returns (outcome: Outcome)
      requires configs != []
      modifies this
      ensures log == old(log) + IssuedAll(Plan(dir, configs, fs, output, date, cwd).0, dryRun)
      ensures outcome == Plan(dir, configs, fs, output, date, cwd).1
    {
      var files, failure, dbs := DumpConfigs(configs, fs);
      if failure.Some? {
        AbortedPlan(dir, configs, fs, output, date, cwd, dbs, failure.value);
        return Aborted(failure.value);
      }
      ghost var dumped := log;
      CreateTarball(dir, files);
      ghost var archived := log;
      RemoveDumps(files);
      PackagedLog(dir, configs, fs, output, date, cwd, dryRun, dbs, old(log), dumped, archived, log);
      return Packaged;
    }

    /** `process_directory(dir)`, given the walk of `dir` and the readable files. */
    method ProcessDirectory(dir: string, walk: seq<WalkEntry>, fs: map<string, seq<string>>) returns (outcome: Outcome)
      modifies this
      ensures log == old(log) + Trace(dir, ConfigsIn(walk), fs, output, date, cwd, dryRun)
      ensures outcome == Plan(dir, ConfigsIn(walk), fs, output, date, cwd).1
    {
      Print(ProcessingPrefix + dir);
      ghost var announced := log;
      var configs := FindConfigs(walk);
      if |configs| == 0 {
        Print(SkipNote(dir));
        outcome := NoConfigs;
      } else {
        outcome := PackageConfigs(dir, configs, fs);
      }
      TraceSteps(dir, configs, fs, output, date, cwd, dryRun, old(log), announced, log);
    }
  }

  /** The log of processing `dir`, assembled from the log after the announcement and the log at the end. */
  lemma TraceSteps(dir: string, configs: seq<string>, fs: map<string, seq<string>>, output: string, date: string, cwd: string,
                   dryRun: bool, before: seq<Event>, announced: seq<Event>, after: seq<Event>)
    requires announced == before + [Say(ProcessingPrefix + dir)]
    requires configs == [] ==> after == announced + [Say(SkipNote(dir))]
    requires configs != [] ==> after == announced + IssuedAll(Plan(dir, configs, fs, output, date, cwd).0, dryRun)
    ensures after == before + Trace(dir, configs, fs, output, date, cwd, dryRun)
  {
    if configs == [] {
      AppendAssoc3(before, [Say(ProcessingPrefix + dir)], [Say(SkipNote(dir))]);
    } else {
      AppendAssoc3(before, [Say(ProcessingPrefix + dir)], IssuedAll(Plan(dir, configs, fs, output, date, cwd).0, dryRun));
    }
  }

  /** The plan of a directory whose loading stops at error `e`, after the records `dbs`. */
  lemma AbortedPlan(dir: string, configs: seq<string>, fs: map<string, seq<string>>, output: string, date: string, cwd: string,
                    dbs: seq<Database>, e: ConfigError)
    requires configs != [] && LoadAll(configs, fs) == (dbs, Some(e))
    ensures Plan(dir, configs, fs, output, date, cwd) == (DumpCommands(output, dbs, date), Aborted(e))
  {
  }

  /** The plan of a directory whose configurations all load, as the records `dbs`. */
  lemma PackagedPlan(dir: string, configs: seq<string>, fs: map<string, seq<string>>, output: string, date: string, cwd: string,
                     dbs: seq<Database>)
    requires configs != [] && LoadAll(configs, fs) == (dbs, None)
    ensures var files := DumpFiles(output, dbs, date);
      Plan(dir, configs, fs, output, date, cwd) ==
        (DumpCommands(output, dbs, date) + [TarCommand(output, dir, files, date, cwd)] + RmCommands(files), Packaged)
  {
  }

  /** The step of the loading loop: one more record, one more dump file and one more `mysqldump` command. */
  lemma SnocSteps(output: string, dbs: seq<Database>, db: Database, date: string, dryRun: bool)
    ensures DumpFiles(output, dbs + [db], date) == DumpFiles(output, dbs, date) + [DumpTarget(output, db, date)]
    ensures IssuedAll(DumpCommands(output, dbs + [db], date), dryRun) ==
      IssuedAll(DumpCommands(output, dbs, date), dryRun) + Issued(DumpCommand(db, DumpTarget(output, db, date)), dryRun)
  {
    assert (dbs + [db])[..|dbs|] == dbs;
  }

  /** The log of a directory whose configurations all load, assembled from the logs after each step. */
  lemma PackagedLog(dir: string, configs: seq<string>, fs: map<string, seq<string>>, output: string, date: string, cwd: string,
                    dryRun: bool, dbs: seq<Database>, before: seq<Event>, dumped: seq<Event>, archived: seq<Event>, after: seq<Event>)
    requires configs != [] && LoadAll(configs, fs) == (dbs, None)
    requires dumped == before + IssuedAll(DumpCommands(output, dbs, date), dryRun)
    requires archived == dumped + Issued(TarCommand(output, dir, DumpFiles(output, dbs, date), date, cwd), dryRun)
    requires after == archived + IssuedAll(RmCommands(DumpFiles(output, dbs, date)), dryRun)
    ensures after == before + IssuedAll(Plan(dir, configs, fs, output, date, cwd).0, dryRun)
  {
    PackagedPlan(dir, configs, fs, output, date, cwd, dbs);
    var files := DumpFiles(output, dbs, date);
    var dumps := DumpCommands(output, dbs, date);
    var tar := TarCommand(output, dir, files, date, cwd);
    var rms := RmCommands(files);
    IssuedAllConcat(dumps, [tar], dryRun);
    IssuedAllConcat(dumps + [tar], rms, dryRun);
    assert IssuedAll([tar], dryRun) == Issued(tar, dryRun);
    AppendAssoc4(before, IssuedAll(dumps, dryRun), Issued(tar, dryRun), IssuedAll(rms, dryRun));
  }

  /** The step of the removal loop: one more dump file, one more `rm` command. */
  lemma RmSnoc(files: seq<string>, j: nat, dryRun: bool)
    requires j < |files|
    ensures IssuedAll(RmCommands(files[..j + 1]), dryRun) ==
      IssuedAll(RmCommands(files[..j]), dryRun) + Issued(RmCommand(files[j]), dryRun)
  {
    assert files[..j + 1][..j] == files[..j];
  }

  /** Issuing two lists of commands is issuing the first, then the second. */
  lemma {:induction false} IssuedAllConcat(a: seq<string>, b: seq<string>, dryRun: bool)
    ensures IssuedAll(a + b, dryRun) == IssuedAll(a, dryRun) + IssuedAll(b, dryRun)
  {
    if b == [] {
      assert a + b == a;
    } else {
      var b' := b[..|b| - 1];
      IssuedAllConcat(a, b', dryRun);
      assert (a + b)[..|a + b| - 1] == a + b';
    }
  }

  /** The leading configurations of `paths` load as the records `dbs`. */
  predicate LoadsAs(paths: seq<string>, fs: map<string, seq<string>>, dbs: seq<Database>)
  {
    |dbs| <= |paths| && forall j :: 0 <= j < |dbs| ==> Load(paths[j], fs) == Ok(dbs[j])
  }

  /** One more configuration that loads extends the records. */
  lemma LoadsAsSnoc(paths: seq<string>, fs: map<string, seq<string>>, dbs: seq<Database>, db: Database)
    requires LoadsAs(paths, fs, dbs) && |dbs| < |paths| && Load(paths[|dbs|], fs) == Ok(db)
    ensures LoadsAs(paths, fs, dbs + [db])
  {
    var more := dbs + [db];
    assert forall j :: 0 <= j < |dbs| ==> more[j] == dbs[j];
    assert more[|dbs|] == db;
  }

  /** When every configuration loads, `LoadAll` yields all their records and no error. */
  lemma {:induction false} LoadAllLoads(paths: seq<string>, fs: map<string, seq<string>>, dbs: seq<Database>)
    requires |dbs| == |paths| && LoadsAs(paths, fs, dbs)
    ensures LoadAll(paths, fs) == (dbs, None)
  {
    if paths != [] {
      LoadAllLoads(paths[1..], fs, dbs[1..]);
      assert dbs == [dbs[0]] + dbs[1..];
    }
  }

  /** When the configurations before position `|dbs|` load and the one there fails, `LoadAll` stops there with its error. */
  lemma {:induction false} LoadAllFails(paths: seq<string>, fs: map<string, seq<string>>, dbs: seq<Database>, e: ConfigError)
    requires |dbs| < |paths| && LoadsAs(paths, fs, dbs)
    requires Load(paths[|dbs|], fs) == Err(e)
    ensures LoadAll(paths, fs) == (dbs, Some(e))
  {
    if dbs != [] {
      LoadAllFails(paths[1..], fs, dbs[1..], e);
      assert dbs == [dbs[0]] + dbs[1..];
    }
  }

  /** A configuration fails to load only because the file cannot be opened or because fields are missing. */
  lemma LoadErrors(path: string, fs: map<string, seq<string>>)
    ensures Load(path, fs) == Err(Unreadable(path)) <==> path !in fs
    ensures path in fs && Load(path, fs).Err? ==>
      Load(path, fs).error == MissingFields(Missing(Props(fs[path]), FieldOrder)) && Missing(Props(fs[path]), FieldOrder) != []
  {
    if path in fs {
      if Load(path, fs).Err? {
        BuildFailure(Props(fs[path]));
      }
    }
  }

  /** A directory is packaged exactly when it has configurations and every one of them loads. */
  lemma PackagedIff(dir: string, configs: seq<string>, fs: map<string, seq<string>>, output: string, date: string, cwd: string)
    ensures Plan(dir, configs, fs, output, date, cwd).1 == Packaged <==>
      configs != [] && forall j :: 0 <= j < |configs| ==> Load(configs[j], fs).Ok?
  {
    if configs != [] {
      var r := LoadAll(configs, fs);
      if r.1.Some? {
        AbortedPlan(dir, configs, fs, output, date, cwd, r.0, r.1.value);
        assert !Load(configs[|r.0|], fs).Ok?;
      } else {
        PackagedPlan(dir, configs, fs, output, date, cwd, r.0);
      }
    }
  }

  /**
   * A packaged directory of N configurations issues 2N+1 commands: the dump of
   * each configuration's database in order, then one archive of the directory
   * with those dumps, then the removal of each dump in order.
   */
  lemma PackagedCommands(dir: string, configs: seq<string>, fs: map<string, seq<string>>, output: string, date: string, cwd: string)
    returns (dbs: seq<Database>)
    requires Plan(dir, configs, fs, output, date, cwd).1 == Packaged
    ensures var cmds := Plan(dir, configs, fs, output, date, cwd).0;
      var n := |configs|;
      var files := DumpFiles(output, dbs, date);
      |dbs| == n && |cmds| == 2 * n + 1 &&
      (forall j :: 0 <= j < n ==> Load(configs[j], fs) == Ok(dbs[j])) &&
      (forall j :: 0 <= j < n ==> cmds[j] == DumpCommand(dbs[j], files[j])) &&
      cmds[n] == TarCommand(output, dir, files, date, cwd) &&
      (forall j :: 0 <= j < n ==> cmds[n + 1 + j] == RmCommand(files[j]))
  {
    var loaded := LoadAll(configs, fs);
    dbs := loaded.0;
    var files := DumpFiles(output, dbs, date);
    var dumps := DumpCommands(output, dbs, date);
    var tar := TarCommand(output, dir, files, date, cwd);
    var rms := RmCommands(files);
    assert loaded.1.None? && |dbs| == |configs|;
    var cmds := Plan(dir, configs, fs, output, date, cwd).0;
    assert cmds == dumps + [tar] + rms;
    CommandsAt(dumps, tar, rms);
    assert |dumps| == |configs|;
    forall j | 0 <= j < |configs| ensures cmds[j] == DumpCommand(dbs[j], files[j]) {
      assert cmds[j] == dumps[j];
    }
    forall j | 0 <= j < |configs| ensures cmds[|configs| + 1 + j] == RmCommand(files[j]) {
      assert cmds[|dumps| + 1 + j] == rms[j];
    }
  }

  /** Indexing the dumps, the archive command and the removals laid end to end. */
  lemma CommandsAt(dumps: seq<string>, tar: string, rms: seq<string>)
    ensures var cmds := dumps + [tar] + rms;
      |cmds| == |dumps| + 1 + |rms| &&
      (forall j :: 0 <= j < |dumps| ==> cmds[j] == dumps[j]) &&
      cmds[|dumps|] == tar &&
      (forall j :: 0 <= j < |rms| ==> cmds[|dumps| + 1 + j] == rms[j])
  {
  }

  /**
   * An aborted directory issues only the dumps of the configurations before
   * the first that fails to load, and neither the archive nor any removal.
   */
  lemma AbortedCommands(dir: string, configs: seq<string>, fs: map<string, seq<string>>, output: string, date: string, cwd: string,
                        e: ConfigError)
    returns (dbs: seq<Database>)
    requires Plan(dir, configs, fs, output, date, cwd).1 == Aborted(e)
    ensures var cmds := Plan(dir, configs, fs, output, date, cwd).0;
      |dbs| == |cmds| < |configs| &&
      (forall j :: 0 <= j < |dbs| ==> Load(configs[j], fs) == Ok(dbs[j])) &&
      Load(configs[|dbs|], fs) == Err(e) &&
      (forall j :: 0 <= j < |cmds| ==> cmds[j] == DumpCommand(dbs[j], DumpTarget(output, dbs[j], date)))
  {
    dbs := LoadAll(configs, fs).0;
  }

  /** The lines printed by issuing commands are the commands themselves. */
  lemma {:induction false} PrintedIssued(commands: seq<string>, dryRun: bool)
    ensures Printed(IssuedAll(commands, dryRun)) == commands
  {
    if commands != [] {
      var init := commands[..|commands| - 1];
      var c := commands[|commands| - 1];
      PrintedIssued(init, dryRun);
      PrintedConcat(IssuedAll(init, dryRun), Issued(c, dryRun));
      IssuedObserved(c, dryRun);
      assert commands == init + [c];
    }
  }

  /** The commands run by issuing commands are those commands, and none in a dry run. */
  lemma {:induction false} ExecutedIssued(commands: seq<string>, dryRun: bool)
    ensures Executed(IssuedAll(commands, dryRun)) == if dryRun then [] else commands
  {
    if commands != [] {
      var init := commands[..|commands| - 1];
      var c := commands[|commands| - 1];
      ExecutedIssued(init, dryRun);
      ExecutedConcat(IssuedAll(init, dryRun), Issued(c, dryRun));
      IssuedObserved(c, dryRun);
      assert commands == init + [c];
    }
  }

  /**
   * Processing a directory prints the announcement, then either the skip note
   * or every planned command; it runs exactly the planned commands, and none
   * in a dry run.
   */
  lemma TraceObserved(dir: string, configs: seq<string>, fs: map<string, seq<string>>, output: string, date: string, cwd: string,
                      dryRun: bool)
    ensures var plan := Plan(dir, configs, fs, output, date, cwd).0;
      var t := Trace(dir, configs, fs, output, date, cwd, dryRun);
      Printed(t) == [ProcessingPrefix + dir] + (if configs == [] then [SkipNote(dir)] else plan) &&
      Executed(t) == if dryRun then [] else plan
  {
    var plan := Plan(dir, configs, fs, output, date, cwd).0;
    if configs == [] {
      SayFirst(ProcessingPrefix + dir, [Say(SkipNote(dir))]);
      SayFirst(SkipNote(dir), []);
    } else {
      SayFirst(ProcessingPrefix + dir, IssuedAll(plan, dryRun));
      PrintedIssued(plan, dryRun);
      ExecutedIssued(plan, dryRun);
    }
  }

  /** Issuing one command prints it and, unless it is a dry run, runs it. */
  lemma IssuedObserved(c: string, dryRun: bool)
    ensures Printed(Issued(c, dryRun)) == [c]
    ensures Executed(Issued(c, dryRun)) == if dryRun then [] else [c]
  {
    if dryRun {
      assert Issued(c, dryRun) == [Say(c)] + [];
      SayFirst(c, []);
    } else {
      assert Issued(c, dryRun) == [Say(c)] + [Exec(c)];
      SayFirst(c, [Exec(c)]);
      assert [Exec(c)][..0] == [];
    }
  }

  /** A printed line ahead of other events is printed first and runs nothing. */
  lemma SayFirst(text: string, rest: seq<Event>)
    ensures Printed([Say(text)] + rest) == [text] + Printed(rest)
    ensures Executed([Say(text)] + rest) == Executed(rest)
  {
    PrintedConcat([Say(text)], rest);
    ExecutedConcat([Say(text)], rest);
    assert Printed([Say(text)]) == [text] by {
      assert [Say(text)][..0] == [];
    }
    assert Executed([Say(text)]) == [] by {
      assert [Say(text)][..0] == [];
    }
  }

  lemma {:induction false} PrintedConcat(a: seq<Event>, b: seq<Event>)
    ensures Printed(a + b) == Printed(a) + Printed(b)
  {
    if b == [] {
      assert a + b == a;
    } else {
      PrintedConcat(a, b[..|b| - 1]);
      assert (a + b)[..|a + b| - 1] == a + b[..|b| - 1];
    }
  }

  lemma {:induction false} ExecutedConcat(a: seq<Event>, b: seq<Event>)
    ensures Executed(a + b) == Executed(a) + Executed(b)
  {
    if b == [] {
      assert a + b == a;
    } else {
      ExecutedConcat(a, b[..|b| - 1]);
      assert (a + b)[..|a + b| - 1] == a + b[..|b| - 1];
    }
  }
}
