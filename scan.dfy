/**
 * Finding the WordPress configurations under a directory (`find_configs`).
 *
 * The directory walk is given as the list of entries `os.walk` yields, each a
 * directory name with its sub-directories and file names. Every file named
 * exactly `wp-config.php` is reported as the walk's directory name joined with
 * the file name, in walk order.
 */
module Scan {
  import opened Text
  import opened Paths

  /** One entry of `os.walk(root)`: `(dirname, subdirs, filenames)`. */
  datatype WalkEntry = WalkEntry(dirname: string, subdirs: seq<string>, filenames: seq<string>)

  const ConfigName: string := "wp-config.php"

  /** The paths reported for one walk entry's file names. */
  function Hits(dirname: string, filenames: seq<string>): seq<string>
  {
    if filenames == [] then []
    else
      var f := filenames[|filenames| - 1];
      Hits(dirname, filenames[..|filenames| - 1]) + (if f == ConfigName then [JoinPath(dirname, f)] else [])
  }

  /** The paths reported for a whole walk. */
  function ConfigsIn(walk: seq<WalkEntry>): (r: seq<string>)
    ensures forall x | x in r :: FromWalk(walk, x)
  {
    if walk == [] then []
    else
      var init := walk[..|walk| - 1];
      var e := walk[|walk| - 1];
      HitsSpec(e.dirname, e.filenames);
      assert forall x | FromWalk(init, x) :: FromWalk(walk, x);
      assert Hits(e.dirname, e.filenames) != [] ==> HasConfig(e);
      ConfigsIn(init) + Hits(e.dirname, e.filenames)
  }

  /** `find_configs(root)`, given the entries of `os.walk(root)`. */
  method FindConfigs(walk: seq<WalkEntry>) returns (found: seq<string>)
    ensures found == ConfigsIn(walk)
  {
    found := [];
    var i := 0;
    while i < |walk|
      invariant i <= |walk|
      invariant found == ConfigsIn(walk[..i])
    {
      var e := walk[i];
      var j := 0;
      while j < |e.filenames|
        invariant j <= |e.filenames|
        invariant found == ConfigsIn(walk[..i]) + Hits(e.dirname, e.filenames[..j])
      {
        assert e.filenames[..j + 1][..j] == e.filenames[..j];
        if e.filenames[j] == ConfigName {
          found := found + [JoinPath(e.dirname, e.filenames[j])];
        }
        j := j + 1;
      }
      assert e.filenames[..|e.filenames|] == e.filenames;
      assert walk[..i + 1][..i] == walk[..i];
      i := i + 1;
    }
    assert walk[..|walk|] == walk;
  }

  /** One entry yields one path per file named `wp-config.php`, each that file under the entry's directory. */
  lemma {:induction false} HitsSpec(dirname: string, filenames: seq<string>)
    ensures |Hits(dirname, filenames)| == multiset(filenames)[ConfigName]
    ensures forall x | x in Hits(dirname, filenames) :: x == JoinPath(dirname, ConfigName)
  {
    if filenames != [] {
      var init := filenames[..|filenames| - 1];
      var f := filenames[|filenames| - 1];
      HitsSpec(dirname, init);
      assert filenames == init + [f];
      assert multiset(filenames) == multiset(init) + multiset{f};
    }
  }

  /** The reports of a walk are those of its first part followed by those of its rest. */
  lemma {:induction false} ConfigsInConcat(a: seq<WalkEntry>, b: seq<WalkEntry>)
    ensures ConfigsIn(a + b) == ConfigsIn(a) + ConfigsIn(b)
  {
    if b == [] {
      assert a + b == a;
    } else {
      var b' := b[..|b| - 1];
      var e := b[|b| - 1];
      ConfigsInConcat(a, b');
      assert (a + b)[..|a + b| - 1] == a + b';
      assert (a + b)[|a + b| - 1] == e;
      AppendAssoc3(ConfigsIn(a), ConfigsIn(b'), Hits(e.dirname, e.filenames));
    }
  }

  /** The walk entry holds a file named `wp-config.php`. */
  predicate HasConfig(e: WalkEntry)
  {
    ConfigName in e.filenames
  }

  /** `x` is the `wp-config.php` of some walked directory that holds one. */
  predicate FromWalk(walk: seq<WalkEntry>, x: string)
  {
    exists e | e in walk :: HasConfig(e) && x == JoinPath(e.dirname, ConfigName)
  }

  /** A path is reported exactly when some walked directory holds `wp-config.php` and the path is that file. */
  lemma {:induction false} ConfigsInSpec(walk: seq<WalkEntry>, x: string)
    ensures x in ConfigsIn(walk) <==>
      exists i :: 0 <= i < |walk| && HasConfig(walk[i]) && x == JoinPath(walk[i].dirname, ConfigName)
  {
    if x in ConfigsIn(walk) {
      var e :| e in walk && HasConfig(e) && x == JoinPath(e.dirname, ConfigName);
      var i :| 0 <= i < |walk| && walk[i] == e;
    }
    if exists i :: 0 <= i < |walk| && HasConfig(walk[i]) && x == JoinPath(walk[i].dirname, ConfigName) {
      var i :| 0 <= i < |walk| && HasConfig(walk[i]) && x == JoinPath(walk[i].dirname, ConfigName);
      EntryReported(walk, i);
    }
  }

  /** A walked directory holding `wp-config.php` has that file reported. */
  lemma {:induction false} EntryReported(walk: seq<WalkEntry>, i: nat)
    requires i < |walk| && HasConfig(walk[i])
    ensures JoinPath(walk[i].dirname, ConfigName) in ConfigsIn(walk)
  {
    var init := walk[..|walk| - 1];
    var e := walk[|walk| - 1];
    if i < |init| {
      assert init[i] == walk[i];
      EntryReported(init, i);
    } else {
      HitsSpec(e.dirname, e.filenames);
      assert multiset(e.filenames)[ConfigName] > 0;
      assert Hits(e.dirname, e.filenames)[0] in Hits(e.dirname, e.filenames);
    }
  }

  /** The configuration file joined to a directory parses to that directory with the file name appended. */
  lemma ConfigUnder(d: string)
    ensures Parse(JoinPath(d, ConfigName)) == Path(Parse(d).rooted, Parse(d).parts + [ConfigName])
    ensures Name(Parse(JoinPath(d, ConfigName))) == ConfigName
  {
    assert IsSegment(ConfigName);
    ParseJoinPath(d, ConfigName);
  }

  /** Every reported path names the file `wp-config.php` inside some walked directory that holds it. */
  lemma FoundNamesConfig(walk: seq<WalkEntry>, x: string) returns (i: nat)
    requires x in ConfigsIn(walk)
    ensures i < |walk| && HasConfig(walk[i])
    ensures Parse(x) == Path(Parse(walk[i].dirname).rooted, Parse(walk[i].dirname).parts + [ConfigName])
    ensures Name(Parse(x)) == ConfigName
  {
    ConfigsInSpec(walk, x);
    i :| 0 <= i < |walk| && HasConfig(walk[i]) && x == JoinPath(walk[i].dirname, ConfigName);
    ConfigUnder(walk[i].dirname);
  }
}
