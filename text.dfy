/**
 * Character and string helpers shared by the model: the whitespace class that
 * a `\s` in a Python `str` pattern matches, prefix tests at a position, and
 * `str.split`/`str.join` on a one-character separator.
 */
module Text {

  /** The characters for which Python's `str.isspace` holds; `\s` in a `str` pattern matches exactly these. */
  predicate IsSpace(c: char): (b: bool)
    ensures c == ' ' || c == '\t' || c == '\n' || c == '\r' ==> b
    ensures b ==> c != '\'' && c != ')' && c != ';'
  {
    var n := c as int;
    || 0x09 <= n <= 0x0d
    || 0x1c <= n <= 0x20
    || n == 0x85 || n == 0xa0 || n == 0x1680
    || 0x2000 <= n <= 0x200a
    || n == 0x2028 || n == 0x2029 || n == 0x202f || n == 0x205f || n == 0x3000
  }

  /** `t` occurs in `s` starting at index `i`. */
  predicate StartsAt(s: string, i: nat, t: string)
    decreases |t|
  {
    if t == [] then i <= |s|
    else i < |s| && s[i] == t[0] && StartsAt(s, i + 1, t[1..])
  }

  /** `StartsAt` is the comparison of a slice. */
  lemma {:induction false} StartsAtSlice(s: string, i: nat, t: string)
    ensures StartsAt(s, i, t) <==> i + |t| <= |s| && s[i..i + |t|] == t
    decreases |t|
  {
    if t != [] {
      StartsAtSlice(s, i + 1, t[1..]);
      if i + |t| <= |s| {
        assert s[i..i + |t|] == [s[i]] + s[i + 1..i + 1 + |t[1..]|];
        assert t == [t[0]] + t[1..];
      }
    }
  }

  /** The characters of an occurrence. */
  lemma {:induction false} StartsAtIndex(s: string, i: nat, t: string, j: nat)
    requires StartsAt(s, i, t)
    ensures i + |t| <= |s|
    ensures j < |t| ==> s[i + j] == t[j]
    decreases |t|
  {
    if t != [] {
      StartsAtIndex(s, i + 1, t[1..], if j == 0 then 0 else j - 1);
    }
  }

  lemma {:induction false} StartsAtConcat(s: string, i: nat, a: string, b: string)
    ensures StartsAt(s, i, a + b) <==> StartsAt(s, i, a) && StartsAt(s, i + |a|, b)
    decreases |a|
  {
    if a == [] {
      assert a + b == b;
      if StartsAt(s, i, b) {
        StartsAtIndex(s, i, b, 0);
      }
    } else {
      assert (a + b)[0] == a[0] && (a + b)[1..] == a[1..] + b;
      StartsAtConcat(s, i + 1, a[1..], b);
    }
  }

  /** Five strings laid end to end from `i` are their concatenation starting at `i`. */
  lemma StartsAtFive(s: string, i: nat, a: string, b: string, c: string, d: string, e: string)
    ensures StartsAt(s, i, a + (b + (c + (d + e)))) <==>
      && StartsAt(s, i, a)
      && StartsAt(s, i + |a|, b)
      && StartsAt(s, i + |a| + |b|, c)
      && StartsAt(s, i + |a| + |b| + |c|, d)
      && StartsAt(s, i + |a| + |b| + |c| + |d|, e)
  {
    StartsAtConcat(s, i, a, b + (c + (d + e)));
    StartsAtConcat(s, i + |a|, b, c + (d + e));
    StartsAtConcat(s, i + |a| + |b|, c, d + e);
    StartsAtConcat(s, i + |a| + |b| + |c|, d, e);
  }

  /** `s.split(sep)`: the pieces between the separators, including empty ones. */
  function SplitOn(s: string, sep: char): (r: seq<string>)
    ensures |r| >= 1
    ensures forall j :: 0 <= j < |r| ==> sep !in r[j]
  {
    if s == "" then [""]
    else if s[0] == sep then [""] + SplitOn(s[1..], sep)
    else
      var rest := SplitOn(s[1..], sep);
      [[s[0]] + rest[0]] + rest[1..]
  }

  /** `s` ends with `t`. */
  predicate EndsWith(s: string, t: string)
  {
    |t| <= |s| && s[|s| - |t|..] == t
  }

  /** A concatenation starts with its first part and ends with its second. */
  lemma ConcatEnds(a: string, b: string)
    ensures a <= a + b && EndsWith(a + b, b)
  {
    assert (a + b)[|a|..] == b;
  }

  /** Splitting `s` on `sep` gives exactly `words`. */
  predicate SplitsInto(s: string, sep: char, words: seq<string>)
  {
    SplitOn(s, sep) == words
  }

  /** `sep.join(parts)`. */
  function JoinOn(parts: seq<string>, sep: char): (r: string)
    ensures |parts| >= 1 ==> parts[0] <= r
    ensures |parts| >= 2 ==> sep in r
  {
    if |parts| == 0 then ""
    else if |parts| == 1 then parts[0]
    else parts[0] + [sep] + JoinOn(parts[1..], sep)
  }

  lemma {:induction false} SplitNoSep(s: string, sep: char)
    requires sep !in s
    ensures SplitOn(s, sep) == [s]
  {
    if s != "" {
      SplitNoSep(s[1..], sep);
      assert [s[0]] + s[1..] == s;
    }
  }

  lemma {:induction false} SplitConcat(x: string, sep: char, y: string)
    ensures SplitOn(x + [sep] + y, sep) == SplitOn(x, sep) + SplitOn(y, sep)
  {
    var s := x + [sep] + y;
    if x == "" {
      assert s[0] == sep && s[1..] == y;
    } else {
      assert s[0] == x[0] && s[1..] == x[1..] + [sep] + y;
      SplitConcat(x[1..], sep, y);
    }
  }

  /** Splitting undoes joining when no piece holds the separator. */
  lemma {:induction false} SplitJoin(parts: seq<string>, sep: char)
    requires |parts| >= 1
    requires forall j :: 0 <= j < |parts| ==> sep !in parts[j]
    ensures SplitOn(JoinOn(parts, sep), sep) == parts
  {
    SplitNoSep(parts[0], sep);
    if |parts| > 1 {
      SplitJoin(parts[1..], sep);
      SplitConcat(parts[0], sep, JoinOn(parts[1..], sep));
    }
  }

  /** Joining undoes splitting. */
  lemma {:induction false} JoinSplit(s: string, sep: char)
    ensures JoinOn(SplitOn(s, sep), sep) == s
  {
    if s != "" {
      var rest := SplitOn(s[1..], sep);
      JoinSplit(s[1..], sep);
      if s[0] == sep {
        JoinCons("", rest, sep);
        assert s == [sep] + s[1..];
      } else {
        JoinGrowHead(s[0], rest, sep);
        assert s == [s[0]] + s[1..];
      }
    }
  }

  /** Growing the first piece at its front grows the joined text at its front. */
  lemma JoinGrowHead(c: char, parts: seq<string>, sep: char)
    requires parts != []
    ensures JoinOn([[c] + parts[0]] + parts[1..], sep) == [c] + JoinOn(parts, sep)
  {
    if |parts| > 1 {
      JoinCons([c] + parts[0], parts[1..], sep);
      JoinCons(parts[0], parts[1..], sep);
      assert parts == [parts[0]] + parts[1..];
      AppendAssoc4([c], parts[0], [sep], JoinOn(parts[1..], sep));
    }
  }

  /** A join starts with the first character of its first piece. */
  lemma JoinHead(parts: seq<string>, sep: char)
    requires |parts| >= 1 && parts[0] != ""
    ensures |JoinOn(parts, sep)| > 0 && JoinOn(parts, sep)[0] == parts[0][0]
  {
  }

  lemma JoinCons(x: string, rest: seq<string>, sep: char)
    requires rest != []
    ensures JoinOn([x] + rest, sep) == x + [sep] + JoinOn(rest, sep)
  {
    assert ([x] + rest)[1..] == rest;
  }

  /** Joining two non-empty lists is joining each and putting a separator between. */
  lemma {:induction false} JoinConcat(a: seq<string>, b: seq<string>, sep: char)
    requires a != [] && b != []
    ensures JoinOn(a + b, sep) == JoinOn(a, sep) + [sep] + JoinOn(b, sep)
  {
    if |a| == 1 {
      assert a + b == [a[0]] + b;
      JoinCons(a[0], b, sep);
    } else {
      assert a + b == [a[0]] + (a[1..] + b);
      JoinCons(a[0], a[1..] + b, sep);
      JoinConcat(a[1..], b, sep);
      JoinCons(a[0], a[1..], sep);
      assert a == [a[0]] + a[1..];
    }
  }

  /** Regrouping a concatenation of three sequences. */
  lemma AppendAssoc3<T>(a: seq<T>, b: seq<T>, c: seq<T>)
    ensures a + b + c == a + (b + c)
  {
  }

  /** Regrouping a concatenation of four sequences. */
  lemma AppendAssoc4<T>(a: seq<T>, b: seq<T>, c: seq<T>, d: seq<T>)
    ensures a + b + c + d == a + (b + c + d)
  {
  }
}
