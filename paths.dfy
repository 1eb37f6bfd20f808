/**
 * POSIX path handling as the packager uses it: `os.path.join` on two strings,
 * and the parts of `pathlib.Path` it calls (`name`, `parent`, `absolute()`,
 * and the conversion back to a string).
 *
 * A `Path` is parsed into a flag saying whether it starts at the root and the
 * list of its non-empty components other than `.`; `..` is kept as written.
 */
module Paths {
  import opened Text

  /** `os.path.join(a, b)` for POSIX paths. */
  function JoinPath(a: string, b: string): (r: string)
    ensures JoinedUnder(a, b, r)
  {
    if |b| > 0 && b[0] == '/' then b
    else if a == "" || a[|a| - 1] == '/' then a + b
    else a + "/" + b
  }

  /**
   * `r` is `b` placed under `a`: it ends with `b`, and it starts with `a`
   * unless `b` is absolute, in which case it is `b` alone.
   */
  predicate JoinedUnder(a: string, b: string, r: string)
  {
    && EndsWith(r, b)
    && (if |b| > 0 && b[0] == '/' then r == b else a <= r)
  }

  /** A component that survives path parsing. */
  predicate IsSegment(x: string)
  {
    x != "" && x != "." && '/' !in x
  }

  /** Drops the empty and `.` components of a split path. */
  function Segments(xs: seq<string>): (r: seq<string>)
    ensures forall j :: 0 <= j < |r| ==> r[j] in xs && r[j] != "" && r[j] != "."
  {
    if xs == [] then []
    else (if xs[0] != "" && xs[0] != "." then [xs[0]] else []) + Segments(xs[1..])
  }

  datatype Path = Path(rooted: bool, parts: seq<string>)
  {
    predicate Valid()
    {
      forall j :: 0 <= j < |parts| ==> IsSegment(parts[j])
    }
  }

  /** `Path(s)`. */
  function Parse(s: string): (p: Path)
    ensures p.Valid()
    ensures p.rooted <==> |s| > 0 && s[0] == '/'
  {
    Path(|s| > 0 && s[0] == '/', Segments(SplitOn(s, '/')))
  }

  /** `str(p)`. */
  function Str(p: Path): (r: string)
    ensures p.Valid() ==> r != "" && (r[0] == '/' <==> p.rooted)
  {
    if p.rooted then "/" + JoinOn(p.parts, '/')
    else if p.parts == [] then "."
    else JoinOn(p.parts, '/')
  }

  /** `p.name`: the last component, or the empty string when there is none. */
  function Name(p: Path): (r: string)
    requires p.Valid()
    ensures '/' !in r
    ensures r == "" <==> p.parts == []
  {
    if p.parts == [] then "" else p.parts[|p.parts| - 1]
  }

  /** `p.parent`: the path without its last component; the root and `.` are their own parents. */
  function Parent(p: Path): (r: Path)
    requires p.Valid()
    ensures r.Valid() && r.rooted == p.rooted
    ensures p.parts != [] ==> r.parts + [Name(p)] == p.parts
    ensures p.parts == [] ==> r == p
  {
    if p.parts == [] then p else Path(p.rooted, p.parts[..|p.parts| - 1])
  }

  /** `p.absolute()` with the process's working directory `cwd` (as `os.getcwd()` returns it). */
  function Absolute(p: Path, cwd: string): (r: Path)
    requires p.Valid()
    ensures r.Valid()
    ensures |cwd| > 0 && cwd[0] == '/' ==> r.rooted
  {
    if p.rooted then p
    else
      var c := Parse(cwd);
      Path(c.rooted, c.parts + p.parts)
  }

  lemma {:induction false} SegmentsConcat(xs: seq<string>, ys: seq<string>)
    ensures Segments(xs + ys) == Segments(xs) + Segments(ys)
  {
    if xs == [] {
      assert xs + ys == ys;
    } else {
      assert (xs + ys)[1..] == xs[1..] + ys;
      SegmentsConcat(xs[1..], ys);
    }
  }

  lemma {:induction false} SegmentsKeepsSegments(xs: seq<string>)
    requires forall j :: 0 <= j < |xs| ==> IsSegment(xs[j])
    ensures Segments(xs) == xs
  {
    if xs != [] {
      SegmentsKeepsSegments(xs[1..]);
    }
  }

  lemma ParseRoot()
    ensures Parse("/") == Path(true, [])
  {
    assert "/"[1..] == "";
    assert SplitOn("/", '/') == ["", ""];
  }

  lemma ParseDot()
    ensures Parse(".") == Path(false, [])
  {
    var s := ".";
    assert s[0] == '.' && s[1..] == "";
    assert SplitOn(s[1..], '/') == [""];
    assert [s[0]] + "" == s;
  }

  /** `.`, `/` and the empty string are the paths without components. */
  lemma NoComponentPaths()
    ensures Parse(".").parts == [] && Parse("/").parts == [] && Parse("").parts == []
  {
    ParseDot();
    ParseRoot();
    assert SplitOn("", '/') == [""];
  }

  lemma ParseRootedJoin(parts: seq<string>)
    requires forall j :: 0 <= j < |parts| ==> IsSegment(parts[j])
    ensures Parse("/" + JoinOn(parts, '/')) == Path(true, parts)
  {
    if parts == [] {
      assert "/" + JoinOn(parts, '/') == "/";
      ParseRoot();
      return;
    }
    var s := "/" + JoinOn(parts, '/');
    assert s[0] == '/' && s[1..] == JoinOn(parts, '/');
    SplitJoin(parts, '/');
    assert SplitOn(s, '/') == [""] + parts;
    SegmentsKeepsSegments(parts);
  }

  lemma ParseRelativeJoin(parts: seq<string>)
    requires forall j :: 0 <= j < |parts| ==> IsSegment(parts[j])
    ensures Parse(JoinOn(parts, '/')) == Path(false, parts)
  {
    if parts == [] {
      assert SplitOn("", '/') == [""];
      return;
    }
    SegmentsKeepsSegments(parts);
    assert IsSegment(parts[0]) && parts[0][0] in parts[0];
    JoinHead(parts, '/');
    SplitJoin(parts, '/');
  }

  /** Printing a path and parsing it again gives the same path back. */
  lemma ParseStr(p: Path)
    requires p.Valid()
    ensures Parse(Str(p)) == p
  {
    if p.rooted && p.parts == [] {
      ParseRoot();
    } else if p.rooted {
      ParseRootedJoin(p.parts);
    } else if p.parts == [] {
      ParseDot();
    } else {
      ParseRelativeJoin(p.parts);
    }
  }

  /** A separator and a segment after `x` add that segment to `x`'s components. */
  lemma SegmentsAppend(x: string, f: string)
    requires IsSegment(f)
    ensures Segments(SplitOn(x + "/" + f, '/')) == Segments(SplitOn(x, '/')) + [f]
  {
    SplitNoSep(f, '/');
    SplitConcat(x, '/', f);
    SegmentsConcat(SplitOn(x, '/'), [f]);
  }

  /** A trailing separator adds no component. */
  lemma SegmentsTrailing(x: string)
    ensures Segments(SplitOn(x + "/", '/')) == Segments(SplitOn(x, '/'))
  {
    assert x + "/" == x + "/" + "";
    SplitConcat(x, '/', "");
    SegmentsConcat(SplitOn(x, '/'), [""]);
  }

  /** `os.path.join(a, f)` with a plain file name `f` parses to `a`'s path with `f` appended. */
  lemma ParseJoinPath(a: string, f: string)
    requires IsSegment(f)
    ensures Parse(JoinPath(a, f)) == Path(Parse(a).rooted, Parse(a).parts + [f])
  {
    var s := JoinPath(a, f);
    if a == "" {
      SplitNoSep(f, '/');
      assert s == f && f[0] in f;
    } else if a[|a| - 1] == '/' {
      var a' := a[..|a| - 1];
      assert a == a' + "/";
      assert s == a' + "/" + f && s[0] == a[0];
      SegmentsAppend(a', f);
      SegmentsTrailing(a');
    } else {
      assert s == a + "/" + f && s[0] == a[0];
      SegmentsAppend(a, f);
    }
  }

  /** The components of two texts joined by a separator are those of each, in turn. */
  lemma SegmentsAround(x: string, y: string)
    ensures Segments(SplitOn(x + "/" + y, '/')) == Segments(SplitOn(x, '/')) + Segments(SplitOn(y, '/'))
  {
    SplitConcat(x, '/', y);
    SegmentsConcat(SplitOn(x, '/'), SplitOn(y, '/'));
  }

  /** `p.absolute()` is the path joined under the working directory, as `os.path.join(cwd, p)`. */
  lemma AbsoluteIsJoin(s: string, cwd: string)
    ensures Absolute(Parse(s), cwd) == Parse(JoinPath(cwd, s))
  {
    var r := JoinPath(cwd, s);
    if |s| > 0 && s[0] == '/' {
    } else if cwd == "" {
      assert r == s;
      assert SplitOn(cwd, '/') == [""];
    } else if cwd[|cwd| - 1] == '/' {
      var c' := cwd[..|cwd| - 1];
      assert cwd == c' + "/";
      assert r == c' + "/" + s && r[0] == cwd[0];
      SegmentsAround(c', s);
      SegmentsTrailing(c');
    } else {
      assert r == cwd + "/" + s && r[0] == cwd[0];
      SegmentsAround(cwd, s);
    }
  }

  /** Joining an empty name to a non-empty path adds no component. */
  lemma JoinEmptyName(a: string)
    requires a != ""
    ensures Parse(JoinPath(a, "")) == Parse(a)
  {
    if a[|a| - 1] == '/' {
      assert JoinPath(a, "") == a + "" == a;
    } else {
      assert JoinPath(a, "") == a + "/" + "" == a + "/";
      SegmentsTrailing(a);
    }
  }

  /** The component `name` of a path, joined to the string form of its absolute parent, denotes the absolute path itself. */
  lemma NameUnderParent(p: Path, cwd: string)
    requires p.Valid()
    requires |cwd| > 0 && cwd[0] == '/'
    ensures Parse(JoinPath(Str(Absolute(Parent(p), cwd)), Name(p))) == Absolute(p, cwd)
  {
    var d := Absolute(Parent(p), cwd);
    ParseStr(d);
    if p.parts == [] {
      assert Parent(p) == p && Name(p) == "";
      JoinEmptyName(Str(d));
      return;
    }
    ParseJoinPath(Str(d), Name(p));
    if !p.rooted {
      assert Parse(cwd).parts + Parent(p).parts + [Name(p)] == Parse(cwd).parts + p.parts;
    }
  }
}
