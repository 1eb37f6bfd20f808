/**
 * The one regular expression of the packager,
 *
 *     define\(\s{0,1}'(DB_USER|DB_HOST|DB_NAME|DB_PASSWORD)', '(.*)'\s{0,1}\);
 *
 * applied with `re.search` to one line of a configuration file.
 *
 * `PatternAt` says, declaratively, which text the pattern matches at a
 * position for a given choice of the two optional blanks, the key and the
 * value. `Search` computes what `re.search` returns: the leftmost position
 * where the pattern matches and, there, the longest value (`.*` is greedy;
 * the key alternatives cannot both match, and neither can the two choices of
 * the first optional blank).
 */
module Pattern {
  import opened Wrappers
  import opened Text

  datatype DbKey = DbUser | DbHost | DbName | DbPassword

  /** The alternatives of the first group. */
  function KeyName(k: DbKey): string
  {
    match k
    case DbUser => "DB_USER"
    case DbHost => "DB_HOST"
    case DbName => "DB_NAME"
    case DbPassword => "DB_PASSWORD"
  }

  /** A successful search: where the match starts and the two groups. */
  datatype Found = Found(start: nat, key: DbKey, value: string)

  const Opening: string := "define("

  /** The quoted key and the separator before the value: `'KEY', '`. */
  function Quoted(k: DbKey): string
  {
    "'" + KeyName(k) + "', '"
  }

  /** The text after the value: the closing quote, the optional blank `ws` and `);`. */
  function Closing(ws: string): string
  {
    "'" + ws + ");"
  }

  /** What `\s{0,1}` matches. */
  ghost predicate OptionalSpace(ws: string)
  {
    |ws| <= 1 && forall c | c in ws :: IsSpace(c)
  }

  /** The text the whole pattern matches for one choice of blanks, key and value. */
  function Matched(ws1: string, k: DbKey, v: string, ws2: string): string
  {
    Opening + (ws1 + (Quoted(k) + (v + Closing(ws2))))
  }

  /** The pattern matches `line` at `i` with these choices (`.` does not match a newline). */
  ghost predicate PatternAt(line: string, i: nat, ws1: string, k: DbKey, v: string, ws2: string)
  {
    OptionalSpace(ws1) && OptionalSpace(ws2) && '\n' !in v && StartsAt(line, i, Matched(ws1, k, v, ws2))
  }

  /** The pattern matches `line` at `i` with groups `k` and `v`. */
  ghost predicate Occurs(line: string, i: nat, k: DbKey, v: string)
  {
    exists ws1: string, ws2: string :: PatternAt(line, i, ws1, k, v, ws2)
  }

  /** The alternatives of the group, in the order the pattern lists them. */
  const Alternatives: seq<DbKey> := [DbUser, DbHost, DbName, DbPassword]

  /** The first of `keys` whose quoted form starts at `q`. */
  function FirstKeyAt(line: string, q: nat, keys: seq<DbKey>): Option<DbKey>
    decreases |keys|
  {
    if keys == [] then None
    else if StartsAt(line, q, Quoted(keys[0])) then Some(keys[0])
    else FirstKeyAt(line, q, keys[1..])
  }

  /** The key whose quoted form starts at `q`; at most one can. */
  function KeyAt(line: string, q: nat): Option<DbKey>
  {
    FirstKeyAt(line, q, Alternatives)
  }

  /** `FirstKeyAt` yields a key of the list whose quoted form starts at `q`, and yields nothing only when there is none. */
  lemma {:induction false} FirstKeyAtSpec(line: string, q: nat, keys: seq<DbKey>, k: DbKey)
    ensures FirstKeyAt(line, q, keys).Some? ==>
      FirstKeyAt(line, q, keys).value in keys && StartsAt(line, q, Quoted(FirstKeyAt(line, q, keys).value))
    ensures k in keys && StartsAt(line, q, Quoted(k)) ==> FirstKeyAt(line, q, keys).Some?
    decreases |keys|
  {
    if keys != [] && !StartsAt(line, q, Quoted(keys[0])) {
      FirstKeyAtSpec(line, q, keys[1..], k);
      if k in keys && k != keys[0] {
        assert k in keys[1..];
      }
    }
  }

  /** The quoted keys differ in their fifth character, so at most one starts at `q`. */
  lemma QuotedExclusive(line: string, q: nat)
    ensures forall k1, k2 :: StartsAt(line, q, Quoted(k1)) && StartsAt(line, q, Quoted(k2)) ==> k1 == k2
  {
    forall k1, k2 | StartsAt(line, q, Quoted(k1)) && StartsAt(line, q, Quoted(k2))
      ensures k1 == k2
    {
      StartsAtIndex(line, q, Quoted(k1), 4);
      StartsAtIndex(line, q, Quoted(k2), 4);
    }
  }

  /** `KeyAt` finds the key whose quoted form starts at `q`, and only that one. */
  lemma KeyAtSpec(line: string, q: nat, k: DbKey)
    ensures KeyAt(line, q) == Some(k) <==> StartsAt(line, q, Quoted(k))
  {
    QuotedExclusive(line, q);
    FirstKeyAtSpec(line, q, Alternatives, k);
  }

  /** The closing part of the pattern matches at `e`. */
  predicate TailAt(line: string, e: nat)
  {
    || StartsAt(line, e, Closing(""))
    || (e + 1 < |line| && IsSpace(line[e + 1]) && StartsAt(line, e, Closing([line[e + 1]])))
  }

  /** The end of the run of non-newline characters that starts at `p`. */
  function LineEnd(line: string, p: nat): (r: nat)
    requires p <= |line|
    ensures p <= r <= |line|
    decreases |line| - p
  {
    if p == |line| || line[p] == '\n' then p else LineEnd(line, p + 1)
  }

  /** The last position in `lo..hi` where the closing part matches, found by backing off from `hi`. */
  function LastTail(line: string, lo: nat, hi: nat): (r: Option<nat>)
    requires lo <= hi
    ensures r.Some? ==> lo <= r.value <= hi
    decreases hi - lo
  {
    if TailAt(line, hi) then Some(hi)
    else if hi == lo then None
    else LastTail(line, lo, hi - 1)
  }

  /** `LineEnd` stops at the first newline at or after `p`. */
  lemma {:induction false} LineEndSpec(line: string, p: nat, j: nat)
    requires p <= |line|
    ensures p <= j < LineEnd(line, p) ==> line[j] != '\n'
    ensures LineEnd(line, p) < |line| ==> line[LineEnd(line, p)] == '\n'
    decreases |line| - p
  {
    if !(p == |line| || line[p] == '\n') {
      LineEndSpec(line, p + 1, j);
    }
  }

  /** `LastTail` finds the last position of the range where the closing part matches. */
  lemma {:induction false} LastTailSpec(line: string, lo: nat, hi: nat, e: nat)
    requires lo <= hi
    ensures LastTail(line, lo, hi).Some? ==> TailAt(line, LastTail(line, lo, hi).value)
    ensures lo <= e <= hi && TailAt(line, e) ==> LastTail(line, lo, hi).Some? && e <= LastTail(line, lo, hi).value
    decreases hi - lo
  {
    if !TailAt(line, hi) && hi != lo {
      LastTailSpec(line, lo, hi - 1, e);
    }
  }

  /** Where the quoted key starts once `define(` has matched at `i`: after a blank if there is one. */
  function KeyStart(line: string, i: nat): nat
  {
    if i + 7 < |line| && IsSpace(line[i + 7]) then i + 8 else i + 7
  }

  /** The longest value starting at `v0` that the closing part follows within the line. */
  function ValueAt(line: string, v0: nat): Option<string>
  {
    if v0 > |line| then None
    else
      match LastTail(line, v0, LineEnd(line, v0))
      case None => None
      case Some(e) => Some(line[v0..e])
  }

  /** What the pattern yields when anchored at `i`: the key and the longest value. */
  function MatchAt(line: string, i: nat): (r: Option<(DbKey, string)>)
    ensures r.Some? ==> '\n' !in r.value.1
  {
    if !StartsAt(line, i, Opening) then None
    else
      var q := KeyStart(line, i);
      var key := KeyAt(line, q);
      if key.None? then None
      else
        var v0 := q + |Quoted(key.value)|;
        if ValueAt(line, v0).None? then None
        else
          ValueAtSound(line, v0);
          Some((key.value, ValueAt(line, v0).value))
  }

  function SearchFrom(line: string, i: nat): (r: Option<Found>)
    requires i <= |line|
    ensures r.Some? ==> '\n' !in r.value.value
    decreases |line| - i
  {
    match MatchAt(line, i)
    case Some((k, v)) => Some(Found(i, k, v))
    case None => if i == |line| then None else SearchFrom(line, i + 1)
  }

  /** `re.search(db_prop_exp, line)`. */
  function Search(line: string): (r: Option<Found>)
    ensures r.Some? ==> '\n' !in r.value.value
  {
    SearchFrom(line, 0)
  }

  /** The key `k` is what `line` records, if anything. */
  predicate KeyOn(line: string, k: DbKey)
  {
    Search(line).Some? && Search(line).value.key == k
  }

  /** The five pieces of `Matched`, laid end to end from `i`. */
  ghost predicate PiecesAt(line: string, i: nat, ws1: string, k: DbKey, v: string, ws2: string)
  {
    var q := i + 7 + |ws1|;
    var v0 := q + |Quoted(k)|;
    && StartsAt(line, i, Opening)
    && StartsAt(line, i + 7, ws1)
    && StartsAt(line, q, Quoted(k))
    && StartsAt(line, v0, v)
    && StartsAt(line, v0 + |v|, Closing(ws2))
  }

  lemma MatchedPieces(line: string, i: nat, ws1: string, k: DbKey, v: string, ws2: string)
    ensures StartsAt(line, i, Matched(ws1, k, v, ws2)) <==> PiecesAt(line, i, ws1, k, v, ws2)
  {
    StartsAtFive(line, i, Opening, ws1, Quoted(k), v, Closing(ws2));
  }

  /** A closing part with an optional blank is recognised by `TailAt`. */
  lemma ClosingIsTail(line: string, e: nat, ws2: string)
    requires OptionalSpace(ws2) && StartsAt(line, e, Closing(ws2))
    ensures TailAt(line, e)
  {
    if |ws2| == 1 {
      assert Closing(ws2)[1] == ws2[0];
      StartsAtIndex(line, e, Closing(ws2), 1);
      assert ws2 == [line[e + 1]];
      assert ws2[0] in ws2;
    } else {
      assert ws2 == "";
    }
  }

  /** The blank that `KeyStart` skips is one that `\s{0,1}` matches. */
  lemma KeyStartBlank(line: string, i: nat) returns (ws1: string)
    requires StartsAt(line, i, Opening)
    ensures OptionalSpace(ws1) && StartsAt(line, i + 7, ws1) && KeyStart(line, i) == i + 7 + |ws1|
  {
    StartsAtIndex(line, i, Opening, 0);
    ws1 := line[i + 7..KeyStart(line, i)];
    if KeyStart(line, i) == i + 8 {
      assert ws1 == [line[i + 7]];
    } else {
      assert ws1 == [];
    }
    StartsAtSlice(line, i + 7, ws1);
  }

  /** The closing part found by `TailAt`, with the blank it contains. */
  lemma TailBlank(line: string, e: nat) returns (ws2: string)
    requires TailAt(line, e)
    ensures OptionalSpace(ws2) && StartsAt(line, e, Closing(ws2))
  {
    ws2 := if StartsAt(line, e, Closing("")) then "" else [line[e + 1]];
  }

  /** A slice ending before `LineEnd` holds no newline. */
  lemma NoNewlineBefore(line: string, v0: nat, e: nat)
    requires v0 <= |line| && v0 <= e <= LineEnd(line, v0)
    ensures '\n' !in line[v0..e]
  {
    var v := line[v0..e];
    forall j | 0 <= j < |v| ensures v[j] != '\n' {
      assert v[j] == line[v0 + j];
      LineEndSpec(line, v0, v0 + j);
    }
  }

  /** Pieces laid end to end, with blanks that `\s{0,1}` matches and a value without newlines, are a match. */
  lemma PiecesOccur(line: string, i: nat, q: nat, v0: nat, ws1: string, k: DbKey, v: string, ws2: string)
    requires OptionalSpace(ws1) && OptionalSpace(ws2) && '\n' !in v
    requires q == i + 7 + |ws1| && v0 == q + |Quoted(k)|
    requires StartsAt(line, i, Opening) && StartsAt(line, i + 7, ws1) && StartsAt(line, q, Quoted(k))
    requires StartsAt(line, v0, v) && StartsAt(line, v0 + |v|, Closing(ws2))
    ensures PatternAt(line, i, ws1, k, v, ws2)
  {
    assert |Opening| == 7;
    assert PiecesAt(line, i, ws1, k, v, ws2);
    MatchedPieces(line, i, ws1, k, v, ws2);
  }

  /** A value found by `ValueAt` has no newline and is followed by the closing part. */
  lemma ValueAtSound(line: string, v0: nat)
    requires ValueAt(line, v0).Some?
    ensures var v := ValueAt(line, v0).value;
      StartsAt(line, v0, v) && '\n' !in v && TailAt(line, v0 + |v|)
  {
    var e := LastTail(line, v0, LineEnd(line, v0)).value;
    LastTailSpec(line, v0, LineEnd(line, v0), e);
    NoNewlineBefore(line, v0, e);
    StartsAtSlice(line, v0, line[v0..e]);
  }

  /** The steps of `MatchAt`, when they succeed, lay out a match of the pattern. */
  lemma StepsOccur(line: string, i: nat, q: nat, k: DbKey, v0: nat, v: string)
    requires StartsAt(line, i, Opening) && q == KeyStart(line, i)
    requires KeyAt(line, q) == Some(k) && v0 == q + |Quoted(k)| && ValueAt(line, v0) == Some(v)
    ensures Occurs(line, i, k, v)
  {
    var ws1 := KeyStartBlank(line, i);
    KeyAtSpec(line, q, k);
    ValueAtSound(line, v0);
    var ws2 := TailBlank(line, v0 + |v|);
    PiecesOccur(line, i, q, v0, ws1, k, v, ws2);
  }

  /** Whatever `MatchAt` yields is a match of the pattern. */
  lemma MatchAtSound(line: string, i: nat, k: DbKey, v: string)
    requires MatchAt(line, i) == Some((k, v))
    ensures Occurs(line, i, k, v)
  {
    var q := KeyStart(line, i);
    assert StartsAt(line, i, Opening) && KeyAt(line, q) == Some(k);
    StepsOccur(line, i, q, k, q + |Quoted(k)|, v);
  }

  /** When the pieces match, `KeyStart` lands on the quoted key. */
  lemma KeyStartOfPieces(line: string, i: nat, ws1: string, k: DbKey)
    requires OptionalSpace(ws1)
    requires StartsAt(line, i + 7, ws1) && StartsAt(line, i + 7 + |ws1|, Quoted(k))
    ensures KeyStart(line, i) == i + 7 + |ws1|
  {
    var q := i + 7 + |ws1|;
    if |ws1| == 1 {
      StartsAtIndex(line, i + 7, ws1, 0);
      assert ws1[0] in ws1;
    } else {
      assert Quoted(k)[0] == '\'';
      StartsAtIndex(line, q, Quoted(k), 0);
      assert !IsSpace('\'');
    }
  }

  /** A value without newlines that occurs at `v0` ends no later than `LineEnd`. */
  lemma ValueWithinLine(line: string, v0: nat, v: string)
    requires StartsAt(line, v0, v) && '\n' !in v
    ensures v0 + |v| <= LineEnd(line, v0)
  {
    var n := LineEnd(line, v0);
    LineEndSpec(line, v0, n);
    StartsAtIndex(line, v0, v, n - v0);
  }

  /** A value that the closing part follows within the line is no longer than the one `ValueAt` finds. */
  lemma ValueAtLongest(line: string, v0: nat, v: string, ws2: string)
    requires StartsAt(line, v0, v) && '\n' !in v
    requires OptionalSpace(ws2) && StartsAt(line, v0 + |v|, Closing(ws2))
    ensures ValueAt(line, v0).Some? && |v| <= |ValueAt(line, v0).value|
  {
    StartsAtIndex(line, v0, v, 0);
    ValueWithinLine(line, v0, v);
    ClosingIsTail(line, v0 + |v|, ws2);
    LastTailSpec(line, v0, LineEnd(line, v0), v0 + |v|);
  }

  /** `MatchAt` assembled from its steps. */
  lemma MatchAtSteps(line: string, i: nat, q: nat, k: DbKey, v0: nat)
    requires StartsAt(line, i, Opening) && KeyStart(line, i) == q
    requires KeyAt(line, q) == Some(k) && v0 == q + |Quoted(k)| && ValueAt(line, v0).Some?
    ensures MatchAt(line, i) == Some((k, ValueAt(line, v0).value))
  {
  }

  /** Any match of the pattern at `i` is found by `MatchAt`, with the same key and a value at least as long. */
  lemma MatchAtComplete(line: string, i: nat, ws1: string, k: DbKey, v: string, ws2: string)
    requires PatternAt(line, i, ws1, k, v, ws2)
    ensures MatchAt(line, i).Some?
    ensures MatchAt(line, i).value.0 == k && |v| <= |MatchAt(line, i).value.1|
  {
    MatchedPieces(line, i, ws1, k, v, ws2);
    var q := i + 7 + |ws1|;
    var v0 := q + |Quoted(k)|;
    KeyStartOfPieces(line, i, ws1, k);
    KeyAtSpec(line, q, k);
    ValueAtLongest(line, v0, v, ws2);
    MatchAtSteps(line, i, q, k, v0);
  }

  lemma {:induction false} SearchFromSound(line: string, i: nat)
    requires i <= |line|
    requires SearchFrom(line, i).Some?
    ensures var m := SearchFrom(line, i).value;
      i <= m.start && Occurs(line, m.start, m.key, m.value)
    decreases |line| - i
  {
    if MatchAt(line, i).Some? {
      MatchAtSound(line, i, MatchAt(line, i).value.0, MatchAt(line, i).value.1);
    } else {
      SearchFromSound(line, i + 1);
    }
  }

  lemma {:induction false} SearchFromLeftmost(line: string, i: nat, j: nat, k: DbKey, v: string)
    requires i <= j && Occurs(line, j, k, v)
    ensures SearchFrom(line, i).Some?
    ensures var m := SearchFrom(line, i).value;
      m.start <= j && (m.start == j ==> m.key == k && |v| <= |m.value|)
    decreases j - i
  {
    var ws1, ws2 :| PatternAt(line, j, ws1, k, v, ws2);
    assert j <= |line|;
    if MatchAt(line, i).None? {
      if i == j {
        MatchAtComplete(line, j, ws1, k, v, ws2);
      }
      SearchFromLeftmost(line, i + 1, j, k, v);
    } else if i == j {
      MatchAtComplete(line, j, ws1, k, v, ws2);
    }
  }

  /** `re.search` only reports a match of the pattern. */
  lemma SearchSound(line: string)
    requires Search(line).Some?
    ensures Occurs(line, Search(line).value.start, Search(line).value.key, Search(line).value.value)
  {
    SearchFromSound(line, 0);
  }

  /**
   * `re.search` finds a match whenever the pattern occurs, and the one it
   * reports starts leftmost and, at that start, has the same key and the
   * longest value.
   */
  lemma SearchLeftmostLongest(line: string, i: nat, k: DbKey, v: string)
    requires Occurs(line, i, k, v)
    ensures Search(line).Some?
    ensures Search(line).value.start <= i
    ensures Search(line).value.start == i ==> Search(line).value.key == k && |v| <= |Search(line).value.value|
  {
    SearchFromLeftmost(line, 0, i, k, v);
  }
}
