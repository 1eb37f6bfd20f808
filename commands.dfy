/**
 * The shell commands the packager builds: the `mysqldump` command of
 * `dump_sql` with the file it writes, the `tar` command of `create_tarball`
 * with its `-C directory name` members, and the `rm` of a dump file.
 *
 * Each command is a string handed to the shell. Where no argument holds a
 * space, splitting the command on spaces gives back exactly the intended
 * argument words, which is how the lemmas below describe each command.
 */
module Commands {
  import opened Text
  import opened Paths
  import opened Config

  /** The dump file name: `{db_name}_{date}.dump.sql`. */
  function DumpFileName(db: Database, date: string): (r: string)
    ensures db.dbName <= r && EndsWith(r, "_" + date + ".dump.sql")
  {
    var suffix := "_" + date + ".dump.sql";
    ConcatEnds(db.dbName, suffix);
    db.dbName + suffix
  }

  /** `dump_file`: the dump file name under the output directory. */
  function DumpTarget(output: string, db: Database, date: string): (r: string)
    ensures JoinedUnder(output, DumpFileName(db, date), r)
  {
    JoinPath(output, DumpFileName(db, date))
  }

  /** The words of the `mysqldump` command: the user, the password and the database name; the host is not passed. */
  function DumpWords(db: Database, target: string): seq<string>
  {
    ["mysqldump", "-u", db.dbUser, "--no-tablespaces", "--password=" + db.dbPassword, db.dbName, ">", target]
  }

  /**
   * `sql_dump`: the `mysqldump` command writing the database `db` to `target`.
   * The format string puts exactly one space between consecutive words, so the
   * command is the words joined by single spaces.
   */
  function DumpCommand(db: Database, target: string): (r: string)
    ensures ' ' !in db.dbUser && ' ' !in db.dbPassword && ' ' !in db.dbName && ' ' !in target ==>
      SplitsInto(r, ' ', DumpWords(db, target))
  {
    DumpWordsSplit(db, target);
    JoinOn(DumpWords(db, target), ' ')
  }

  /** Without spaces in the values, the joined dump words split back into those words. */
  lemma DumpWordsSplit(db: Database, target: string)
    ensures ' ' !in db.dbUser && ' ' !in db.dbPassword && ' ' !in db.dbName && ' ' !in target ==>
      SplitsInto(JoinOn(DumpWords(db, target), ' '), ' ', DumpWords(db, target))
  {
    if ' ' !in db.dbUser && ' ' !in db.dbPassword && ' ' !in db.dbName && ' ' !in target {
      SplitJoin(DumpWords(db, target), ' ');
    }
  }

  /** A member of the archive: `tar` changes into `dir` and adds `name` from there. */
  datatype Member = Member(dir: string, name: string)

  /** The member for `path`: `path.parent.absolute()` and `path.name`. */
  function MemberOf(cwd: string, path: string): (r: Member)
    ensures '/' !in r.name
    ensures |cwd| > 0 && cwd[0] == '/' ==> |r.dir| > 0 && r.dir[0] == '/'
  {
    var p := Parse(path);
    Member(Str(Absolute(Parent(p), cwd)), Name(p))
  }

  /** `content(path)`: `-C {parent.absolute()} {name}`. */
  function Content(m: Member): (r: string)
    ensures r == JoinOn(["-C", m.dir, m.name], ' ')
  {
    var w := ["-C", m.dir, m.name];
    JoinCons(w[1], w[2..], ' ');
    JoinCons(w[0], w[1..], ' ');
    assert w == [w[0]] + w[1..] && w[1..] == [w[1]] + w[2..];
    "-C " + m.dir + " " + m.name
  }

  /** The members of `paths`, in order: `map(content, paths)` before formatting. */
  function Members(cwd: string, paths: seq<string>): (r: seq<Member>)
    ensures |r| == |paths|
    ensures forall j :: 0 <= j < |r| ==> r[j] == MemberOf(cwd, paths[j])
  {
    if paths == [] then [] else [MemberOf(cwd, paths[0])] + Members(cwd, paths[1..])
  }

  /** The formatted members. */
  function Contents(ms: seq<Member>): (r: seq<string>)
    ensures |r| == |ms|
    ensures forall j :: 0 <= j < |r| ==> r[j] == Content(ms[j])
  {
    if ms == [] then [] else [Content(ms[0])] + Contents(ms[1..])
  }

  /** The words of the members: `-C`, the directory and the name, for each member in turn. */
  function MemberWords(ms: seq<Member>): (r: seq<string>)
    ensures |r| == 3 * |ms|
  {
    if ms == [] then [] else ["-C", ms[0].dir, ms[0].name] + MemberWords(ms[1..])
  }

  /** The archive name: `{name(dir)}_{date}.tar.gz`. */
  function ArchiveName(dir: string, date: string): (r: string)
    ensures Name(Parse(dir)) <= r && EndsWith(r, "_" + date + ".tar.gz")
  {
    var suffix := "_" + date + ".tar.gz";
    ConcatEnds(Name(Parse(dir)), suffix);
    Name(Parse(dir)) + suffix
  }

  /** The archive path under the output directory. */
  function ArchiveTarget(output: string, dir: string, date: string): (r: string)
    ensures JoinedUnder(output, ArchiveName(dir, date), r)
    ensures output <= r
  {
    JoinPath(output, ArchiveName(dir, date))
  }

  /** `tar czf {archive}` followed by the formatted members, joined by spaces. */
  function TarLine(archive: string, ms: seq<Member>): string
  {
    JoinOn(["tar czf " + archive] + Contents(ms), ' ')
  }

  /** The words of a `tar` line. */
  function TarLineWords(archive: string, ms: seq<Member>): seq<string>
  {
    ["tar", "czf", archive] + MemberWords(ms)
  }

  /** `tar`: the `tar` command archiving the directory and the dumps, the directory first. */
  function TarCommand(output: string, dir: string, dumps: seq<string>, date: string, cwd: string): (r: string)
    ensures r == JoinOn(TarWords(output, dir, dumps, date, cwd), ' ')
  {
    TarLineJoinsWords(ArchiveTarget(output, dir, date), Members(cwd, [dir] + dumps));
    TarLine(ArchiveTarget(output, dir, date), Members(cwd, [dir] + dumps))
  }

  /** The words of the `tar` command. */
  function TarWords(output: string, dir: string, dumps: seq<string>, date: string, cwd: string): seq<string>
  {
    TarLineWords(ArchiveTarget(output, dir, date), Members(cwd, [dir] + dumps))
  }

  /** The `rm` command for a dump file. */
  function RmCommand(file: string): (r: string)
    ensures ' ' !in file ==> SplitsInto(r, ' ', ["rm", file])
  {
    RmWordsSplit(file);
    "rm " + file
  }

  /** `rm` and a file name joined by a space; without a space in the name, they split back. */
  lemma RmWordsSplit(file: string)
    ensures JoinOn(["rm", file], ' ') == "rm " + file
    ensures ' ' !in file ==> SplitsInto("rm " + file, ' ', ["rm", file])
  {
    JoinCons("rm", [file], ' ');
    assert ["rm"] + [file] == ["rm", file] && JoinOn([file], ' ') == file;
    if ' ' !in file {
      SplitJoin(["rm", file], ' ');
    }
  }

  /** The host never reaches the `mysqldump` command. */
  lemma DumpIgnoresHost(db: Database, host: string, target: string)
    ensures DumpCommand(db.(dbHost := host), target) == DumpCommand(db, target)
    ensures DumpWords(db.(dbHost := host), target) == DumpWords(db, target)
  {
  }

  /** A file name built from a name and a date without separators is one path component. */
  lemma SuffixedIsSegment(name: string, date: string, suffix: string)
    requires '/' !in name && '/' !in date && '/' !in suffix && |suffix| >= 2
    ensures IsSegment(name + "_" + date + suffix)
  {
    var f := name + "_" + date + suffix;
    assert |f| >= 3;
    assert forall c | c in f :: c in name || c == '_' || c in date || c in suffix;
  }

  /** The dump file is the file `DumpFileName` inside the output directory. */
  lemma DumpTargetPath(output: string, db: Database, date: string)
    requires '/' !in db.dbName && '/' !in date
    ensures Parse(DumpTarget(output, db, date)) == Path(Parse(output).rooted, Parse(output).parts + [DumpFileName(db, date)])
    ensures Name(Parse(DumpTarget(output, db, date))) == DumpFileName(db, date)
  {
    SuffixedIsSegment(db.dbName, date, ".dump.sql");
    ParseJoinPath(output, DumpFileName(db, date));
  }

  /**
   * A database name that starts with `/` makes the dump file name absolute,
   * and `os.path.join` then drops the output directory.
   */
  lemma DumpTargetAbsoluteName(output: string, db: Database, date: string)
    requires |db.dbName| > 0 && db.dbName[0] == '/'
    ensures DumpTarget(output, db, date) == DumpFileName(db, date)
  {
    assert DumpFileName(db, date)[0] == '/';
  }

  /** The archive is the file `ArchiveName` inside the output directory. */
  lemma ArchiveTargetPath(output: string, dir: string, date: string)
    requires '/' !in date
    ensures Parse(ArchiveTarget(output, dir, date)) == Path(Parse(output).rooted, Parse(output).parts + [ArchiveName(dir, date)])
    ensures Name(Parse(ArchiveTarget(output, dir, date))) == ArchiveName(dir, date)
  {
    SuffixedIsSegment(Name(Parse(dir)), date, ".tar.gz");
    ParseJoinPath(output, ArchiveName(dir, date));
  }

  /**
   * For a path with at least one component, a member names the path itself:
   * its directory is absolute, its name is one component, and the name under
   * the directory is the absolute form of the path.
   */
  lemma MemberDenotes(cwd: string, path: string)
    requires |cwd| > 0 && cwd[0] == '/'
    requires Parse(path).parts != []
    ensures var m := MemberOf(cwd, path);
      |m.dir| > 0 && m.dir[0] == '/' && IsSegment(m.name) &&
      Parse(JoinPath(m.dir, m.name)) == Absolute(Parse(path), cwd)
  {
    var p := Parse(path);
    var d := Absolute(Parent(p), cwd);
    assert d.rooted;
    assert p.parts[|p.parts| - 1] == Name(p);
    NameUnderParent(p, cwd);
  }

  /**
   * A path without components (`.`, `/` or the empty string) has an empty
   * name: its member's directory is the absolute path itself, its content
   * ends with the separator and names nothing, and its archive name starts
   * with `_`.
   */
  lemma MemberWithoutComponent(cwd: string, path: string, date: string)
    requires Parse(path).parts == []
    ensures MemberOf(cwd, path).name == ""
    ensures MemberOf(cwd, path).dir == Str(Absolute(Parse(path), cwd))
    ensures Content(MemberOf(cwd, path)) == "-C " + MemberOf(cwd, path).dir + " "
    ensures ArchiveName(path, date) == "_" + date + ".tar.gz"
  {
    var p := Parse(path);
    var m := MemberOf(cwd, path);
    assert Parent(p) == p && Name(p) == "" && m.name == "";
    assert Content(m) == "-C " + m.dir + " " + "" == "-C " + m.dir + " ";
    ArchiveNameWithoutComponent(path, date);
  }

  /** The archive of a directory without components is named by the date alone. */
  lemma ArchiveNameWithoutComponent(dir: string, date: string)
    requires Parse(dir).parts == []
    ensures ArchiveName(dir, date) == "_" + date + ".tar.gz"
  {
    var n := Name(Parse(dir));
    assert n == "";
    assert n + "_" == "_";
  }

  /** A dump file's member is its file name, taken from the absolute output directory. */
  lemma DumpMember(cwd: string, output: string, db: Database, date: string)
    requires '/' !in db.dbName && '/' !in date
    ensures MemberOf(cwd, DumpTarget(output, db, date)) == Member(Str(Absolute(Parse(output), cwd)), DumpFileName(db, date))
  {
    DumpTargetPath(output, db, date);
  }

  lemma {:induction false} ContentsJoinWords(ms: seq<Member>)
    ensures JoinOn(Contents(ms), ' ') == JoinOn(MemberWords(ms), ' ')
    decreases |ms|
  {
    if ms == [] {
      return;
    }
    var w := ["-C", ms[0].dir, ms[0].name];
    if |ms| > 1 {
      ContentsJoinWords(ms[1..]);
      JoinCons(Content(ms[0]), Contents(ms[1..]), ' ');
      JoinConcat(w, MemberWords(ms[1..]), ' ');
    } else {
      assert MemberWords(ms) == w;
    }
  }

  lemma TarHeadJoinsWords(archive: string)
    ensures "tar czf " + archive == JoinOn(["tar", "czf", archive], ' ')
  {
    var w := ["tar", "czf", archive];
    JoinCons(w[1], w[2..], ' ');
    JoinCons(w[0], w[1..], ' ');
    assert w == [w[0]] + w[1..] && w[1..] == [w[1]] + w[2..];
  }

  lemma TarLineJoinsWords(archive: string, ms: seq<Member>)
    ensures TarLine(archive, ms) == JoinOn(TarLineWords(archive, ms), ' ')
  {
    TarHeadJoinsWords(archive);
    if ms != [] {
      ContentsJoinWords(ms);
      JoinCons("tar czf " + archive, Contents(ms), ' ');
      JoinConcat(["tar", "czf", archive], MemberWords(ms), ' ');
    } else {
      assert ["tar czf " + archive] + Contents(ms) == ["tar czf " + archive];
      assert TarLineWords(archive, ms) == ["tar", "czf", archive];
    }
  }

  /** Without spaces in the archive path and the members, a `tar` line splits into exactly its words. */
  lemma TarLineSplits(archive: string, ms: seq<Member>)
    requires ' ' !in archive
    requires forall m | m in ms :: ' ' !in m.dir && ' ' !in m.name
    ensures SplitOn(TarLine(archive, ms), ' ') == TarLineWords(archive, ms)
  {
    TarLineJoinsWords(archive, ms);
    MemberWordsNoSpace(ms);
    var w := TarLineWords(archive, ms);
    forall j | 0 <= j < |w| ensures ' ' !in w[j] {
      if j >= 3 {
        assert w[j] == MemberWords(ms)[j - 3];
      }
    }
    SplitJoin(w, ' ');
  }

  /** Without spaces in the archive path and the members, the `tar` command splits into exactly its words. */
  lemma TarCommandSplits(output: string, dir: string, dumps: seq<string>, date: string, cwd: string)
    requires ' ' !in ArchiveTarget(output, dir, date)
    requires forall m | m in Members(cwd, [dir] + dumps) :: ' ' !in m.dir && ' ' !in m.name
    ensures SplitOn(TarCommand(output, dir, dumps, date, cwd), ' ') == TarWords(output, dir, dumps, date, cwd)
  {
    TarLineSplits(ArchiveTarget(output, dir, date), Members(cwd, [dir] + dumps));
  }

  lemma {:induction false} MemberWordsNoSpace(ms: seq<Member>)
    requires forall m | m in ms :: ' ' !in m.dir && ' ' !in m.name
    ensures forall j :: 0 <= j < |MemberWords(ms)| ==> ' ' !in MemberWords(ms)[j]
    decreases |ms|
  {
    if ms != [] {
      assert ms[0] in ms;
      forall m | m in ms[1..] ensures ' ' !in m.dir && ' ' !in m.name {
        assert m in ms;
      }
      MemberWordsNoSpace(ms[1..]);
    }
  }

  /** The words of member `j`: `-C`, its directory and its name, at positions `3j` to `3j + 2`. */
  lemma {:induction false} MemberWordsAt(ms: seq<Member>, j: nat)
    requires j < |ms|
    ensures MemberWords(ms)[3 * j..3 * j + 3] == ["-C", ms[j].dir, ms[j].name]
    decreases j
  {
    if j > 0 {
      MemberWordsAt(ms[1..], j - 1);
      assert MemberWords(ms)[3..] == MemberWords(ms[1..]);
    }
  }

  /** The words of a `tar` line: the archive, then the words of each member in order. */
  lemma TarLineMembers(archive: string, ms: seq<Member>, j: nat)
    requires j < |ms|
    ensures var w := TarLineWords(archive, ms);
      |w| == 3 + 3 * |ms| && w[..3] == ["tar", "czf", archive] &&
      w[3 + 3 * j..6 + 3 * j] == ["-C", ms[j].dir, ms[j].name]
  {
    MemberWordsAt(ms, j);
    var w := TarLineWords(archive, ms);
    assert w[3..] == MemberWords(ms);
    assert w[3 + 3 * j..6 + 3 * j] == MemberWords(ms)[3 * j..3 * j + 3];
  }

  /** The members of the `tar` command: the directory first, then each dump in order. */
  lemma TarMembers(output: string, dir: string, dumps: seq<string>, date: string, cwd: string, j: nat)
    requires j <= |dumps|
    ensures var w := TarWords(output, dir, dumps, date, cwd);
      |w| == 3 + 3 * (1 + |dumps|) &&
      w[..3] == ["tar", "czf", ArchiveTarget(output, dir, date)] &&
      w[3 + 3 * j..6 + 3 * j] == ["-C", MemberOf(cwd, ([dir] + dumps)[j]).dir, MemberOf(cwd, ([dir] + dumps)[j]).name]
  {
    TarLineMembers(ArchiveTarget(output, dir, date), Members(cwd, [dir] + dumps), j);
  }
}
