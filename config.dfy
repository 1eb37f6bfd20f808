/**
 * Reading the database credentials out of a `wp-config.php` (`parse_config`).
 *
 * Every line is searched for the credential pattern; a match stores its value
 * under the lower-cased key, replacing an earlier value for that key. The
 * record is then built from the collected fields and cannot be built when a
 * field is missing.
 */
module Config {
  import opened Wrappers
  import opened Pattern

  /** The `Database` record: its fields in declaration order are db_name, db_user, db_host, db_password. */
  datatype Database = Database(dbName: string, dbUser: string, dbHost: string, dbPassword: string)

  datatype ConfigError =
    | Unreadable(path: string)           // the file cannot be opened
    | MissingFields(names: seq<string>)  // building the record lacks these fields, in field order
    | UnexpectedFields(extra: set<string>)

  datatype Result<T> = Ok(value: T) | Err(error: ConfigError)

  /** The record's field names, in declaration order. */
  const FieldOrder: seq<string> := ["db_name", "db_user", "db_host", "db_password"]

  const Fields: set<string> := {"db_name", "db_user", "db_host", "db_password"}

  /** The key under which a match is stored: `db_prop.lower()` for each of the four alternatives. */
  function FieldName(k: DbKey): string
  {
    match k
    case DbUser => "db_user"
    case DbHost => "db_host"
    case DbName => "db_name"
    case DbPassword => "db_password"
  }

  /** Each key is stored under its own field of the record. */
  lemma FieldNameIsField(k: DbKey)
    ensures FieldName(k) in Fields
    ensures forall k' :: FieldName(k') == FieldName(k) ==> k' == k
  {
  }

  /**
   * The search result of some line of `lines` carries the key `k`. A line
   * whose first match has a greedy value that runs over a later `define` of
   * `k` on the same line does not count for `k`.
   */
  predicate Recorded(lines: seq<string>, k: DbKey)
  {
    exists j :: 0 <= j < |lines| && KeyOn(lines[j], k)
  }

  /** Every key is recorded by some line of `lines`. */
  predicate AllRecorded(lines: seq<string>)
  {
    forall k :: Recorded(lines, k)
  }

  /** The fields collected from `lines`: the dictionary `db_props` after the loop over them. */
  function Props(lines: seq<string>): (r: map<string, string>)
    ensures r.Keys <= Fields
  {
    if lines == [] then map[]
    else
      var before := Props(lines[..|lines| - 1]);
      match Search(lines[|lines| - 1])
      case None => before
      case Some(m) => before[FieldName(m.key) := m.value]
  }

  /** The names in `names` that `props` lacks, in order. */
  function Missing(props: map<string, string>, names: seq<string>): (r: seq<string>)
    ensures forall x :: x in r <==> x in names && x !in props
  {
    if names == [] then []
    else (if names[0] in props then [] else [names[0]]) + Missing(props, names[1..])
  }

  /** `Database(**props)`. */
  function Build(props: map<string, string>): (r: Result<Database>)
    ensures r.Ok? <==> props.Keys == Fields
    ensures r.Ok? ==> r.value == Database(props["db_name"], props["db_user"], props["db_host"], props["db_password"])
  {
    var unexpected := props.Keys - Fields;
    if unexpected != {} then Err(UnexpectedFields(unexpected))
    else
      var missing := Missing(props, FieldOrder);
      if missing != [] then assert missing[0] in missing; Err(MissingFields(missing))
      else
        assert FieldOrder[0] in props && FieldOrder[1] in props && FieldOrder[2] in props && FieldOrder[3] in props;
        Ok(Database(props["db_name"], props["db_user"], props["db_host"], props["db_password"]))
  }

  /** `parse_config` on the lines of the file. */
  method ParseConfig(lines: seq<string>) returns (r: Result<Database>)
    ensures r == Build(Props(lines))
  {
    var props: map<string, string> := map[];
    var i := 0;
    while i < |lines|
      invariant i <= |lines|
      invariant props == Props(lines[..i])
    {
      assert lines[..i + 1][..i] == lines[..i];
      var m := Search(lines[i]);
      if m.Some? {
        props := props[FieldName(m.value.key) := m.value.value];
      }
      i := i + 1;
    }
    assert lines[..|lines|] == lines;
    r := Build(props);
  }

  /** A field is collected exactly when some line records its key. */
  lemma {:induction false} PropsHasKey(lines: seq<string>, k: DbKey)
    ensures FieldName(k) in Props(lines) <==> Recorded(lines, k)
  {
    if lines != [] {
      var m := Search(lines[|lines| - 1]);
      if m.Some? {
        FieldNameIsField(m.value.key);
      }
      var init := lines[..|lines| - 1];
      PropsHasKey(init, k);
      if exists j :: 0 <= j < |lines| && KeyOn(lines[j], k) {
        var j :| 0 <= j < |lines| && KeyOn(lines[j], k);
        if j < |lines| - 1 {
          assert init[j] == lines[j];
        }
      }
      if exists j :: 0 <= j < |init| && KeyOn(init[j], k) {
        var j :| 0 <= j < |init| && KeyOn(init[j], k);
        assert lines[j] == init[j];
      }
    }
  }

  /** The value of a field is the one on the last line that records its key. */
  lemma {:induction false} LastWriteWins(lines: seq<string>, j: nat, k: DbKey)
    requires j < |lines| && KeyOn(lines[j], k)
    requires forall j' :: j < j' < |lines| ==> !KeyOn(lines[j'], k)
    ensures FieldName(k) in Props(lines)
    ensures Props(lines)[FieldName(k)] == Search(lines[j]).value.value
  {
    var m := Search(lines[|lines| - 1]);
    if m.Some? {
      FieldNameIsField(m.value.key);
    }
    var init := lines[..|lines| - 1];
    if j < |lines| - 1 {
      forall j' | j < j' < |init| ensures !KeyOn(init[j'], k) {
        assert init[j'] == lines[j'];
      }
      LastWriteWins(init, j, k);
    }
  }

  /** A line without a match can be inserted anywhere without changing what is collected. */
  lemma {:induction false} NonMatchingIgnored(a: seq<string>, x: string, b: seq<string>)
    requires Search(x).None?
    ensures Props(a + [x] + b) == Props(a + b)
  {
    if b == [] {
      assert (a + [x] + b)[..|a + [x] + b| - 1] == a;
      assert a + b == a;
    } else {
      var b' := b[..|b| - 1];
      NonMatchingIgnored(a, x, b');
      assert (a + [x] + b)[..|a + [x] + b| - 1] == a + [x] + b';
      assert (a + b)[..|a + b| - 1] == a + b';
    }
  }

  /** Adding `tail` after two prefixes that collect the same fields keeps them equal. */
  lemma {:induction false} PropsSameTail(a: seq<string>, a': seq<string>, tail: seq<string>)
    requires Props(a) == Props(a')
    ensures Props(a + tail) == Props(a' + tail)
  {
    if tail == [] {
      assert a + tail == a && a' + tail == a';
    } else {
      var t := tail[..|tail| - 1];
      PropsSameTail(a, a', t);
      assert (a + tail)[..|a + tail| - 1] == a + t;
      assert (a' + tail)[..|a' + tail| - 1] == a' + t;
    }
  }

  /** Two neighbouring lines that do not record the same key can be swapped. */
  lemma SwapDistinct(a: seq<string>, x: string, y: string, b: seq<string>)
    requires !(Search(x).Some? && Search(y).Some? && Search(x).value.key == Search(y).value.key)
    ensures Props(a + [x, y] + b) == Props(a + [y, x] + b)
  {
    if Search(x).Some? {
      FieldNameIsField(Search(x).value.key);
    }
    assert (a + [x, y])[..|a| + 1] == a + [x];
    assert (a + [y, x])[..|a| + 1] == a + [y];
    assert (a + [x])[..|a|] == a;
    assert (a + [y])[..|a|] == a;
    assert Props(a + [x, y]) == Props(a + [y, x]);
    PropsSameTail(a + [x, y], a + [y, x], b);
  }

  /** A set of field names that holds only record fields holds all of them exactly when it holds the field of every key. */
  lemma FieldsCovered(keys: set<string>)
    requires keys <= Fields
    ensures keys == Fields <==> forall k :: FieldName(k) in keys
  {
    if forall k :: FieldName(k) in keys {
      assert FieldName(DbName) in keys && FieldName(DbUser) in keys;
      assert FieldName(DbHost) in keys && FieldName(DbPassword) in keys;
    }
  }

  /** With only record fields collected, building fails only by reporting the missing ones, of which there is at least one. */
  lemma BuildFailure(props: map<string, string>)
    requires props.Keys <= Fields
    requires Build(props).Err?
    ensures Build(props).error == MissingFields(Missing(props, FieldOrder)) && Missing(props, FieldOrder) != []
  {
  }

  /** The record is built exactly when every key was found; otherwise the missing fields are reported, in field order. */
  lemma ParseOutcome(lines: seq<string>)
    ensures Build(Props(lines)).Ok? <==> forall k :: Recorded(lines, k)
    ensures Build(Props(lines)).Err? ==>
      Build(Props(lines)).error == MissingFields(Missing(Props(lines), FieldOrder)) && Missing(Props(lines), FieldOrder) != []
  {
    var props := Props(lines);
    forall k ensures FieldName(k) in props <==> Recorded(lines, k) {
      PropsHasKey(lines, k);
    }
    FieldsCovered(props.Keys);
    if Build(props).Err? {
      BuildFailure(props);
    }
  }
}
