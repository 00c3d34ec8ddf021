/** The SQL text and bound values that `Database::select`, `insert`, `insertBatch`,
    `update` and `delete` build from their array arguments, before anything reaches
    the driver. Every renderer here is a pure function of its inputs. */
module QueryBuilder {
  import opened PhpArray

  /** What a statement is executed with: `execute(null)`, an array of named values
      (`:name => value`), or a list of positional values for `?` placeholders. */
  datatype Bindings = NoBindings | Named(entries: seq<(string, string)>) | Positional(values: seq<string>)

  /** PDO's fetch modes as `select` chooses them. */
  datatype FetchStyle = Assoc | Num | Column

  /** How a result is fetched: the mode, and whether `fetch` (one row) or `fetchAll`. */
  datatype Fetch = Fetch(style: FetchStyle, singleRow: bool)

  /** The `$parameters` array of `select`. `single` and `singleRow` stand for "set and
      truthy"; the other entries are `None` when not set. */
  datatype SelectParams = SelectParams(
    where: Option<seq<(Key, string)>>,
    join: Option<string>,
    orderBy: Option<string>,
    groupBy: Option<string>,
    limit: Option<string>,
    single: bool,
    singleRow: bool,
    fetchStyle: Option<string>)

  // ----- select: the WHERE clause -----

  /** The values under numeric keys that are not `''`, in order: the raw conditions
      `select` inserts verbatim. */
  function RawFragments(w: seq<(Key, string)>): (r: seq<string>)
    ensures forall i :: 0 <= i < |r| ==> r[i] != ""
    ensures |r| <= |w|
  {
    if w == [] then []
    else (if IsNumeric(w[0].0) && w[0].1 != "" then [w[0].1] else []) + RawFragments(w[1..])
  }

  /** The entries under non-numeric keys, in order, with each key as text: what is left
      of the where array once the numeric keys are unset. */
  function NamedEntries(w: seq<(Key, string)>): (r: seq<(string, string)>)
    ensures forall i :: 0 <= i < |r| ==> !IsNumericString(r[i].0)
    ensures |r| <= |w|
  {
    if w == [] then []
    else (if IsNumeric(w[0].0) then [] else [(KeyText(w[0].0), w[0].1)]) + NamedEntries(w[1..])
  }

  /** `key = :key`, the placeholder named after the key with its dots stripped. */
  function Condition(key: string): string {
    key + " = :" + StripDots(key)
  }

  function NamedConditions(named: seq<(string, string)>): (r: seq<string>)
    ensures |r| == |named|
  {
    seq(|named|, i requires 0 <= i < |named| => Condition(named[i].0))
  }

  /** The WHERE clause the way `select` assembles it: the raw fragments joined, the named
      conditions joined, each kept only when its join is not `''`, the two joined again. */
  function WhereClause(w: seq<(Key, string)>): string {
    var parts := Group(" AND ", RawFragments(w)) + Group(" AND ", NamedConditions(NamedEntries(w)));
    if |parts| > 0 then " WHERE " + Join(" AND ", parts) else ""
  }

  /** Reference definition of the conditions of a where array: raw fragments first, then
      one `key = :key` per named key, all in the order given. */
  function Conditions(w: seq<(Key, string)>): seq<string> {
    RawFragments(w) + NamedConditions(NamedEntries(w))
  }

  /** The WHERE clause is one ` AND `-join of the conditions, raw ones first, and it is
      absent exactly when there is no condition at all. */
  lemma WhereClauseIsConditionJoin(w: seq<(Key, string)>)
    ensures WhereClause(w) == if |Conditions(w)| == 0 then "" else " WHERE " + Join(" AND ", Conditions(w))
  {
    var raw := RawFragments(w);
    var named := NamedConditions(NamedEntries(w));
    forall i | 0 <= i < |named| ensures named[i] != "" {
      assert |named[i]| >= |" = :"|;
    }
    assert |raw| == 1 ==> raw[0] != "";
    assert |named| == 1 ==> named[0] != "";
    JoinOfGroups(" AND ", raw, named);
    JoinEmptyIff(" AND ", raw);
    JoinEmptyIff(" AND ", named);
  }

  /** The filter part of the query: the WHERE clause, then the join fragment, which is
      preceded by ` AND ` only when there is a WHERE clause to extend. */
  function FilterText(p: SelectParams): string {
    var w := match p.where
      case None => ""
      case Some(w) => WhereClause(w);
    match p.join
    case None => w
    case Some(j) => w + (if |w| > 0 then " AND " else "") + j
  }

  /** An optional clause: the keyword and the fragment when the parameter is set. */
  function Clause(keyword: string, fragment: Option<string>): (r: string)
    ensures fragment.None? ==> r == ""
    ensures fragment.Some? ==> |r| == |keyword| + |fragment.value|
    ensures fragment.Some? ==> r[..|keyword|] == keyword && r[|keyword|..] == fragment.value
  {
    match fragment
    case None => ""
    case Some(f) => keyword + f
  }

  /** The query text of `select`. */
  function SelectSql(table: string, fields: seq<string>, p: SelectParams): string {
    "SELECT " + Join(",", fields) + " FROM " + table + FilterText(p)
      + Clause(" GROUP BY ", p.groupBy) + Clause(" ORDER BY ", p.orderBy) + Clause(" LIMIT ", p.limit)
  }

  /** The conditions of a select, none when no where array is given. */
  function SelectConditions(p: SelectParams): seq<string> {
    match p.where
    case None => []
    case Some(w) => Conditions(w)
  }

  /** Clause order of a select: fields, table, the conditions (raw first) after ` WHERE `,
      the join fragment (after ` AND ` exactly when there is a condition), then GROUP BY,
      ORDER BY and LIMIT, each only when set. */
  lemma SelectClauseOrder(table: string, fields: seq<string>, p: SelectParams)
    ensures var conds := SelectConditions(p);
      SelectSql(table, fields, p) ==
        "SELECT " + Join(",", fields) + " FROM " + table
        + (if |conds| > 0 then " WHERE " + Join(" AND ", conds) else "")
        + (match p.join case None => "" case Some(j) => (if |conds| > 0 then " AND " else "") + j)
        + Clause(" GROUP BY ", p.groupBy) + Clause(" ORDER BY ", p.orderBy) + Clause(" LIMIT ", p.limit)
  {
    var conds := SelectConditions(p);
    var w := if |conds| > 0 then " WHERE " + Join(" AND ", conds) else "";
    var j := match p.join case None => "" case Some(j) => (if |conds| > 0 then " AND " else "") + j;
    FilterTextOrder(p);
    AppendAssoc("SELECT " + Join(",", fields) + " FROM " + table, w, j);
  }

  /** The filter part alone: the conditions after ` WHERE `, then the join fragment. */
  lemma FilterTextOrder(p: SelectParams)
    ensures var conds := SelectConditions(p);
      FilterText(p) ==
        (if |conds| > 0 then " WHERE " + Join(" AND ", conds) else "")
        + (match p.join case None => "" case Some(j) => (if |conds| > 0 then " AND " else "") + j)
  {
    if p.where.Some? {
      WhereClauseIsConditionJoin(p.where.value);
    }
    var w := match p.where case None => "" case Some(w) => WhereClause(w);
    assert |w| > 0 <==> |SelectConditions(p)| > 0;
    if p.join.Some? {
      AppendAssoc(w, if |w| > 0 then " AND " else "", p.join.value);
    } else {
      assert w + "" == w;
    }
  }

  /** How the fetch is done. `single` forces one row in single-column mode; `num` and
      `singleColumn` are the only styles that are not the associative default. */
  function FetchOf(p: SelectParams): (f: Fetch)
    ensures f.singleRow <==> p.single || p.singleRow
    ensures f.style == Column <==> p.single || p.fetchStyle == Some("singleColumn")
    ensures f.style == Num <==> !p.single && p.fetchStyle == Some("num")
    ensures f.style == Assoc <==> !p.single && p.fetchStyle != Some("num") && p.fetchStyle != Some("singleColumn")
  {
    var style := if p.single then Some("singleColumn") else p.fetchStyle;
    Fetch(
      match style
      case Some("num") => Num
      case Some("singleColumn") => Column
      case _ => Assoc,
      p.single || p.singleRow)
  }

  // ----- select: the bound values -----

  /** The re-keying loop of `select`: for each named entry in order, unset it and store
      its value under the key with the dots stripped. `todo` is the copy being walked,
      `a` the array being changed. */
  function ReKeyFrom(a: seq<(string, string)>, todo: seq<(string, string)>): seq<(string, string)>
    decreases |todo|
  {
    if todo == [] then a
    else ReKeyFrom(Put(Unset(a, todo[0].0), StripDots(todo[0].0), todo[0].1), todo[1..])
  }

  function ReKey(named: seq<(string, string)>): seq<(string, string)> {
    ReKeyFrom(named, named)
  }

  /** The values `select` executes with. */
  function SelectBindings(p: SelectParams): Bindings {
    match p.where
    case None => NoBindings
    case Some(w) => Named(ReKey(NamedEntries(w)))
  }

  /** Each entry under its stripped key, in the same order. */
  function Stripped(named: seq<(string, string)>): (r: seq<(string, string)>)
    ensures |r| == |named|
    ensures forall i :: 0 <= i < |named| ==> r[i] == (StripDots(named[i].0), named[i].1)
  {
    seq(|named|, i requires 0 <= i < |named| => (StripDots(named[i].0), named[i].1))
  }

  /** No two keys give the same placeholder name once their dots are stripped. */
  predicate StripInjective(named: seq<(string, string)>) {
    forall i, j :: 0 <= i < |named| && 0 <= j < |named| && i != j ==>
      StripDots(named[i].0) != StripDots(named[j].0)
  }

  /** A later key neither equals the head key nor its stripped form. */
  lemma LaterKeyApart(done: seq<(string, string)>, rest: seq<(string, string)>, m: nat)
    requires StripInjective(done + rest)
    requires m + 1 < |rest|
    ensures rest[1 + m].0 != rest[0].0 && rest[1 + m].0 != StripDots(rest[0].0)
  {
    var all := done + rest;
    assert all[|done|] == rest[0];
    assert all[|done| + 1 + m] == rest[1 + m];
    assert StripDots(all[|done| + 1 + m].0) != StripDots(all[|done|].0);
    StripDotsIdempotent(rest[0].0);
  }

  /** An earlier key, once stripped, neither equals the head key nor its stripped form. */
  lemma EarlierKeyApart(done: seq<(string, string)>, rest: seq<(string, string)>, j: nat)
    requires StripInjective(done + rest)
    requires j < |done| && |rest| > 0
    ensures StripDots(done[j].0) != rest[0].0 && StripDots(done[j].0) != StripDots(rest[0].0)
  {
    var all := done + rest;
    assert all[|done|] == rest[0];
    assert all[j] == done[j];
    assert StripDots(all[j].0) != StripDots(all[|done|].0);
    StripDotsIdempotent(done[j].0);
  }

  /** Neither the head key nor its stripped form is a key of the rest of the state. */
  lemma HeadKeyFresh(done: seq<(string, string)>, rest: seq<(string, string)>)
    requires |rest| > 0
    requires StripInjective(done + rest)
    ensures rest[0].0 !in Names(rest[1..] + Stripped(done))
    ensures StripDots(rest[0].0) !in Names(rest[1..] + Stripped(done))
  {
    var x := rest[0];
    var t := rest[1..] + Stripped(done);
    forall m | 0 <= m < |t| ensures t[m].0 != x.0 && t[m].0 != StripDots(x.0) {
      if m < |rest| - 1 {
        assert t[m] == rest[1 + m];
        LaterKeyApart(done, rest, m);
      } else {
        var j := m - (|rest| - 1);
        assert t[m] == Stripped(done)[j];
        EarlierKeyApart(done, rest, j);
      }
    }
  }

  /** Unsetting the first key drops exactly the first entry when the key occurs once. */
  lemma UnsetHead<V>(x: (string, V), t: seq<(string, V)>)
    requires x.0 !in Names(t)
    ensures Unset([x] + t, x.0) == t
  {
    assert ([x] + t)[1..] == t;
    UnsetAbsent(t, x.0);
  }

  /** Assigning a key the array does not have appends one entry. */
  lemma PutFresh<V>(a: seq<(string, V)>, k: string, v: V)
    requires k !in Names(a)
    ensures Put(a, k, v) == a + [(k, v)]
  {
  }

  /** Splitting off the head of a concatenation. */
  lemma ConsSplit<V>(r: seq<V>, s: seq<V>)
    requires |r| > 0
    ensures r + s == [r[0]] + (r[1..] + s)
  {
    assert r == [r[0]] + r[1..];
  }

  /** Regrouping a concatenation; called where the solver would otherwise search for it. */
  lemma AppendAssoc<V>(a: seq<V>, b: seq<V>, c: seq<V>)
    ensures (a + b) + c == a + (b + c)
  {
  }

  /** One step of the loop: with `done` re-keyed and behind `rest`, handling the head of
      `rest` moves it, re-keyed, to the end. */
  lemma ReKeyStep(done: seq<(string, string)>, rest: seq<(string, string)>)
    requires |rest| > 0
    requires rest[0].0 !in Names(rest[1..] + Stripped(done))
    requires StripDots(rest[0].0) !in Names(rest[1..] + Stripped(done))
    ensures Put(Unset(rest + Stripped(done), rest[0].0), StripDots(rest[0].0), rest[0].1)
         == rest[1..] + Stripped(done + [rest[0]])
  {
    var x := rest[0];
    var t := rest[1..] + Stripped(done);
    var y := (StripDots(x.0), x.1);
    ConsSplit(rest, Stripped(done));
    UnsetHead(x, t);
    assert Unset(rest + Stripped(done), x.0) == t;
    PutFresh(t, y.0, y.1);
    StrippedAppend(done, [x]);
    assert Stripped([x]) == [y];
    AppendAssoc(rest[1..], Stripped(done), [y]);
  }

  lemma StrippedAppend(a: seq<(string, string)>, b: seq<(string, string)>)
    ensures Stripped(a + b) == Stripped(a) + Stripped(b)
  {
    var l, r := Stripped(a + b), Stripped(a) + Stripped(b);
    assert |l| == |r|;
    forall i | 0 <= i < |l| ensures l[i] == r[i] {
      if i < |a| {
        assert (a + b)[i] == a[i];
      } else {
        assert (a + b)[i] == b[i - |a|];
      }
    }
  }

  lemma {:induction false} ReKeyInvariant(done: seq<(string, string)>, rest: seq<(string, string)>)
    requires StripInjective(done + rest)
    ensures ReKeyFrom(rest + Stripped(done), rest) == Stripped(done + rest)
    decreases |rest|
  {
    if rest == [] {
      assert rest + Stripped(done) == Stripped(done);
      assert done + rest == done;
    } else {
      HeadKeyFresh(done, rest);
      ReKeyStep(done, rest);
      ShiftHead(done, rest);
      ReKeyInvariant(done + [rest[0]], rest[1..]);
    }
  }

  /** Moving the head of `rest` to the end of `done` leaves the whole list as it is. */
  lemma ShiftHead(done: seq<(string, string)>, rest: seq<(string, string)>)
    requires |rest| > 0
    ensures (done + [rest[0]]) + rest[1..] == done + rest
  {
  }

  /** Without collisions the bound values are the named entries, in the same order,
      each under its key with the dots stripped. */
  lemma ReKeyKeepsOrder(named: seq<(string, string)>)
    requires StripInjective(named)
    ensures ReKey(named) == Stripped(named)
  {
    assert [] + named == named;
    assert named + Stripped([]) == named;
    ReKeyInvariant([], named);
  }

  /** Placeholders and bound values line up: the i-th named condition of a select reads
      `key = :name`, where `name` is the key of the i-th bound value. */
  lemma SelectPlaceholdersMatchBindings(w: seq<(Key, string)>)
    requires StripInjective(NamedEntries(w))
    ensures var named := NamedEntries(w);
      var bound := ReKey(named);
      |bound| == |named| &&
      forall i :: 0 <= i < |named| ==>
        NamedConditions(named)[i] == named[i].0 + " = :" + bound[i].0 && bound[i].1 == named[i].1
  {
    ReKeyKeepsOrder(NamedEntries(w));
  }

  /** The placeholder names of the named conditions: each key with its dots stripped. */
  function PlaceholderNames(named: seq<(string, string)>): (r: set<string>)
    ensures forall x :: x in r <==> exists i :: 0 <= i < |named| && x == StripDots(named[i].0)
  {
    set i | 0 <= i < |named| :: StripDots(named[i].0)
  }

  /** The re-keying loop run over `todo` on an array whose keys are the stripped keys
      `done` and the keys of `todo`: the keys at the end are `done` and the stripped
      keys of `todo`, whether or not two of them collide. */
  lemma {:induction false} ReKeyFromKeys(a: seq<(string, string)>, todo: seq<(string, string)>, done: set<string>)
    requires UniqueNames(todo)
    requires forall y :: y in done ==> '.' !in y
    requires KeySet(a) == done + KeySet(todo)
    ensures KeySet(ReKeyFrom(a, todo)) == done + PlaceholderNames(todo)
    decreases |todo|
  {
    if todo == [] {
      assert KeySet(todo) == {} && PlaceholderNames(todo) == {};
    } else {
      var s := StripDots(todo[0].0);
      var a' := Put(Unset(a, todo[0].0), s, todo[0].1);
      UniqueTail(todo);
      ReKeyStepKeys(a, todo, done);
      ReKeyFromKeys(a', todo[1..], done + {s});
    }
  }

  /** The tail of a list of distinct keys: distinct keys, none of them the head's. */
  lemma UniqueTail(todo: seq<(string, string)>)
    requires |todo| > 0 && UniqueNames(todo)
    ensures UniqueNames(todo[1..])
    ensures KeySet(todo) == {todo[0].0} + KeySet(todo[1..])
    ensures todo[0].0 !in KeySet(todo[1..])
    ensures PlaceholderNames(todo) == {StripDots(todo[0].0)} + PlaceholderNames(todo[1..])
  {
    var rest := todo[1..];
    forall i, j | 0 <= i < j < |rest| ensures rest[i].0 != rest[j].0 {
      assert rest[i] == todo[i + 1] && rest[j] == todo[j + 1];
    }
    forall y | y in KeySet(todo) && y != todo[0].0 ensures y in KeySet(rest) {
      var i :| 0 <= i < |todo| && todo[i].0 == y;
      assert rest[i - 1] == todo[i];
    }
    forall y | y in PlaceholderNames(todo) && y != StripDots(todo[0].0) ensures y in PlaceholderNames(rest) {
      var i :| 0 <= i < |todo| && y == StripDots(todo[i].0);
      assert rest[i - 1] == todo[i];
    }
  }

  /** One iteration of the loop on key sets: the head key goes, its stripped form comes. */
  lemma ReKeyStepKeys(a: seq<(string, string)>, todo: seq<(string, string)>, done: set<string>)
    requires |todo| > 0 && UniqueNames(todo)
    requires forall y :: y in done ==> '.' !in y
    requires KeySet(a) == done + KeySet(todo)
    ensures KeySet(Put(Unset(a, todo[0].0), StripDots(todo[0].0), todo[0].1))
         == (done + {StripDots(todo[0].0)}) + KeySet(todo[1..])
  {
    var k := todo[0].0;
    UnsetKeys(a, k);
    PutKeys(Unset(a, k), StripDots(k), todo[0].1);
    UniqueTail(todo);
    if k in done {
      StripDotsNoDot(k);
    }
  }

  /** Whatever the keys, re-keying binds exactly the placeholder names. */
  lemma ReKeyBindsPlaceholders(named: seq<(string, string)>)
    requires UniqueNames(named)
    ensures KeySet(ReKey(named)) == PlaceholderNames(named)
  {
    ReKeyFromKeys(named, named, {});
  }

  /** The keys of a where array are distinct, as the keys of a PHP array are. */
  predicate UniqueKeys(w: seq<(Key, string)>) {
    forall i, j :: 0 <= i < j < |w| ==> w[i].0 != w[j].0
  }

  /** Each named key is the text of a string key of the where array further on. */
  lemma {:induction false} NamedEntriesFrom(w: seq<(Key, string)>, x: string)
    requires x in Names(NamedEntries(w))
    ensures exists i :: 0 <= i < |w| && w[i].0 == StrKey(x)
  {
    var h := if IsNumeric(w[0].0) then [] else [(KeyText(w[0].0), w[0].1)];
    NamesAppend(h, NamedEntries(w[1..]));
    if x in Names(NamedEntries(w[1..])) {
      NamedEntriesFrom(w[1..], x);
      var i :| 0 <= i < |w[1..]| && w[1..][i].0 == StrKey(x);
      assert w[i + 1] == w[1..][i];
    } else {
      assert w[0].0 == StrKey(x);
    }
  }

  lemma {:induction false} NamedEntriesUnique(w: seq<(Key, string)>)
    requires UniqueKeys(w)
    ensures UniqueNames(NamedEntries(w))
  {
    if w != [] {
      var t := w[1..];
      assert UniqueKeys(t) by {
        forall i, j | 0 <= i < j < |t| ensures t[i].0 != t[j].0 {
          assert t[i] == w[i + 1] && t[j] == w[j + 1];
        }
      }
      NamedEntriesUnique(t);
      if !IsNumeric(w[0].0) {
        var x := KeyText(w[0].0);
        if x in Names(NamedEntries(t)) {
          NamedEntriesFrom(t, x);
        }
        UniqueCons((x, w[0].1), NamedEntries(t));
      }
    }
  }

  /** A new key in front of distinct keys keeps them distinct. */
  lemma UniqueCons(e: (string, string), r: seq<(string, string)>)
    requires UniqueNames(r) && e.0 !in Names(r)
    ensures UniqueNames([e] + r)
  {
    var l := [e] + r;
    forall i, j | 0 <= i < j < |l| ensures l[i].0 != l[j].0 {
      assert l[j] == r[j - 1];
      if i == 0 {
        assert Names(r)[j - 1] == r[j - 1].0;
      } else {
        assert l[i] == r[i - 1];
      }
    }
  }

  /** Every `:name` placeholder of a select is bound and nothing else is, even when two
      keys collide once stripped. */
  lemma SelectPlaceholdersBound(w: seq<(Key, string)>)
    requires UniqueKeys(w)
    ensures KeySet(ReKey(NamedEntries(w))) == PlaceholderNames(NamedEntries(w))
  {
    NamedEntriesUnique(w);
    ReKeyBindsPlaceholders(NamedEntries(w));
  }

  /** Two keys that differ only by a dot are merged without notice: the later value wins. */
  lemma DottedKeysCollide()
    ensures ReKey([("a.b", "1"), ("ab", "2")]) == [("ab", "2")]
  {
    var a: seq<(string, string)> := [("a.b", "1"), ("ab", "2")];
    var s1: seq<(string, string)> := [("ab", "1")];
    assert StripDots("a.b") == "ab" by {
      assert "a.b"[1..] == ".b" && ".b"[1..] == "b" && "b"[1..] == [];
    }
    calc {
      ReKey(a);
      ReKeyFrom(Put(Unset(a, "a.b"), "ab", "1"), a[1..]);
      { assert a[1..] == [("ab", "2")];
        assert Unset(a, "a.b") == [("ab", "2")];
        assert Put([("ab", "2")], "ab", "1") == s1; }
      ReKeyFrom(s1, [("ab", "2")]);
      { assert StripDots("ab") == "ab";
        assert Unset(s1, "ab") == [];
        assert Put([], "ab", "2") == [("ab", "2")]; }
      ReKeyFrom([("ab", "2")], []);
    }
  }

  // ----- insert -----

  /** `array_keys($data)` as text. */
  function Columns(data: seq<(Key, string)>): (r: seq<string>)
    ensures |r| == |data|
    ensures forall i :: 0 <= i < |data| ==> r[i] == KeyText(data[i].0)
  {
    seq(|data|, i requires 0 <= i < |data| => KeyText(data[i].0))
  }

  /** `$data` handed to `execute`: every value under its key. */
  function DataBindings(data: seq<(Key, string)>): (b: Bindings)
    ensures b.Named? && Names(b.entries) == Columns(data)
  {
    Named(seq(|data|, i requires 0 <= i < |data| => (KeyText(data[i].0), data[i].1)))
  }

  /** The statement `insert` prepares: both lists come from the same keys. */
  function InsertSql(table: string, data: seq<(Key, string)>): string {
    "INSERT INTO " + table + " (" + Join(",", Columns(data)) + ") VALUES (:" + Join(",:", Columns(data)) + ")"
  }

  /** The i-th column pairs with the i-th placeholder `:column`, and the bound names are
      the columns; with no data the lists are `()` and `(:)`. */
  lemma InsertPlaceholdersAlign(table: string, data: seq<(Key, string)>)
    ensures |data| > 0 ==>
      InsertSql(table, data) ==
        "INSERT INTO " + table + " (" + Join(",", Columns(data)) + ") VALUES ("
        + Join(",", Prefixed(":", Columns(data))) + ")"
    ensures |data| == 0 ==> InsertSql(table, data) == "INSERT INTO " + table + " () VALUES (:)"
    ensures Names(DataBindings(data).entries) == Columns(data)
  {
    var cols := Columns(data);
    var t := "INSERT INTO " + table;
    if |data| > 0 {
      assert "," + ":" == ",:";
      JoinPrefixed(":", ",", cols);
      var h := t + " (" + Join(",", cols);
      assert ") VALUES (:" == ") VALUES (" + ":";
      AppendAssoc(h, ") VALUES (", ":");
      AppendAssoc(h + ") VALUES (", ":", Join(",:", cols));
    } else {
      assert Join(",", cols) == "" && Join(",:", cols) == "";
      assert t + " (" + "" == t + " (";
      AppendAssoc(t, " (", ") VALUES (:");
      assert " (" + ") VALUES (:" == " () VALUES (:";
      assert t + " () VALUES (:" + "" == t + " () VALUES (:";
      AppendAssoc(t, " () VALUES (:", ")");
      assert " () VALUES (:" + ")" == " () VALUES (:)";
    }
  }

  // ----- insertBatch -----

  /** `n` copies of `?`. */
  function QuestionMarks(n: nat): (r: seq<string>)
    ensures |r| == n
    ensures forall i :: 0 <= i < n ==> r[i] == "?"
  {
    seq(n, _ => "?")
  }

  /** One row's placeholder group: `(?,?,...)` with a `?` per value of the row. */
  function RowGroup(row: seq<string>): string {
    "(" + Join(",", QuestionMarks(|row|)) + ")"
  }

  function RowGroups(rows: seq<seq<string>>): (r: seq<string>)
    ensures |r| == |rows|
  {
    seq(|rows|, i requires 0 <= i < |rows| => RowGroup(rows[i]))
  }

  /** `array_merge` of the rows' values, row after row. */
  function Flatten(rows: seq<seq<string>>): seq<string> {
    if rows == [] then [] else rows[0] + Flatten(rows[1..])
  }

  /** The statement `insertBatch` prepares. */
  function InsertBatchSql(table: string, fields: seq<string>, rows: seq<seq<string>>): string {
    "INSERT INTO " + table + " (" + Join(",", fields) + ") VALUES " + Join(",", RowGroups(rows))
  }

  /** Occurrences of `c` in `s`. */
  function Count(c: char, s: string): nat {
    if s == [] then 0 else (if s[0] == c then 1 else 0) + Count(c, s[1..])
  }

  lemma {:induction false} CountAppend(c: char, a: string, b: string)
    ensures Count(c, a + b) == Count(c, a) + Count(c, b)
  {
    if a != [] {
      assert (a + b)[1..] == a[1..] + b;
      assert (a + b)[0] == a[0];
      CountAppend(c, a[1..], b);
    } else {
      assert a + b == b;
    }
  }

  /** A group holds exactly as many `?` as its row has values. */
  lemma {:induction false} RowGroupMarks(n: nat)
    ensures Count('?', Join(",", QuestionMarks(n))) == n
  {
    if n > 1 {
      assert QuestionMarks(n)[1..] == QuestionMarks(n - 1);
      RowGroupMarks(n - 1);
      CountAppend('?', "?" + ",", Join(",", QuestionMarks(n - 1)));
    }
  }

  /** The VALUES list carries exactly one `?` per bound value. */
  lemma {:induction false} InsertBatchMarksMatchValues(rows: seq<seq<string>>)
    ensures Count('?', Join(",", RowGroups(rows))) == |Flatten(rows)|
  {
    if rows != [] {
      var g := RowGroup(rows[0]);
      RowGroupMarks(|rows[0]|);
      CountAppend('?', "(" + Join(",", QuestionMarks(|rows[0]|)), ")");
      CountAppend('?', "(", Join(",", QuestionMarks(|rows[0]|)));
      assert Count('?', g) == |rows[0]|;
      if |rows| > 1 {
        assert RowGroups(rows)[1..] == RowGroups(rows[1..]);
        InsertBatchMarksMatchValues(rows[1..]);
        CountAppend('?', g + ",", Join(",", RowGroups(rows[1..])));
        CountAppend('?', g, ",");
      } else {
        assert rows[1..] == [];
      }
    }
  }

  /** The values are row-major: value `j` of row `i` sits after all values of the rows
      before it. */
  lemma {:induction false} FlattenRowMajor(rows: seq<seq<string>>, i: nat, j: nat)
    requires i < |rows| && j < |rows[i]|
    ensures |Flatten(rows[..i])| + j < |Flatten(rows)|
    ensures Flatten(rows)[|Flatten(rows[..i])| + j] == rows[i][j]
  {
    if i == 0 {
      assert rows[..0] == [];
    } else {
      FlattenRowMajor(rows[1..], i - 1, j);
      assert rows[..i][1..] == rows[1..][..i - 1];
      assert rows[..i] != [] && rows[..i][0] == rows[0];
    }
  }

  // ----- update -----

  /** `key = :key` for one data key. */
  function Assignment(key: Key): string {
    KeyText(key) + " = :" + KeyText(key)
  }

  function Assignments(data: seq<(Key, string)>): (r: seq<string>)
    ensures |r| == |data|
  {
    seq(|data|, i requires 0 <= i < |data| => Assignment(data[i].0))
  }

  /** The `$sql .=` loop of `update`: every assignment followed by a comma. */
  function SetList(data: seq<(Key, string)>): string {
    if data == [] then "" else Assignment(data[0].0) + "," + SetList(data[1..])
  }

  /** The WHERE clause of `update`: `id = :id` when the match list is `null` (or empty,
      which PHP's `== null` does not tell apart), else `name = :name` per listed name. */
  function MatchClause(matching: Option<seq<string>>): string {
    match matching
    case None => " WHERE id = :id"
    case Some(m) =>
      if m == [] then " WHERE id = :id"
      else " WHERE " + Join(" AND ", MatchConditions(m))
  }

  /** `name = :name` for every name of the match list. */
  function MatchConditions(m: seq<string>): (r: seq<string>)
    ensures |r| == |m|
    ensures forall i :: 0 <= i < |m| ==> r[i] == m[i] + " = :" + m[i]
  {
    seq(|m|, i requires 0 <= i < |m| => m[i] + " = :" + m[i])
  }

  /** The statement `update` prepares: the SET list with its last character cut off. */
  function UpdateSql(table: string, data: seq<(Key, string)>, matching: Option<seq<string>>): string {
    var s := "UPDATE " + table + " SET " + SetList(data);
    s[..|s| - 1] + MatchClause(matching)
  }

  lemma {:induction false} SetListIsJoin(data: seq<(Key, string)>)
    requires |data| > 0
    ensures SetList(data) == Join(",", Assignments(data)) + ","
  {
    if |data| > 1 {
      SetListIsJoin(data[1..]);
      assert Assignments(data)[1..] == Assignments(data[1..]);
    }
  }

  /** The SET list is the comma-join of `key = :key` over the data keys, the trailing comma
      removed; with no data the cut removes the space after SET instead. */
  lemma UpdateSetShape(table: string, data: seq<(Key, string)>, matching: Option<seq<string>>)
    ensures |data| > 0 ==>
      UpdateSql(table, data, matching) == "UPDATE " + table + " SET " + Join(",", Assignments(data)) + MatchClause(matching)
    ensures |data| == 0 ==>
      UpdateSql(table, data, matching) == "UPDATE " + table + " SET" + MatchClause(matching)
  {
    var s := "UPDATE " + table + " SET " + SetList(data);
    if |data| > 0 {
      SetListIsJoin(data);
      assert s == ("UPDATE " + table + " SET " + Join(",", Assignments(data))) + ",";
    } else {
      assert s == ("UPDATE " + table + " SET") + " ";
    }
  }

  /** No match list and the match list `['id']` give the same statement. */
  lemma UpdateDefaultMatchesId(table: string, data: seq<(Key, string)>)
    ensures UpdateSql(table, data, None) == UpdateSql(table, data, Some(["id"]))
    ensures UpdateSql(table, data, None) == UpdateSql(table, data, Some([]))
  {
    var c := MatchConditions(["id"]);
    assert c[0] == "id = :id";
    assert Join(" AND ", c) == "id = :id";
  }

  // ----- delete -----

  /** The values under numeric keys, `''` included. */
  function NumericValues(w: seq<(Key, string)>): (r: seq<string>)
    ensures |r| <= |w|
  {
    if w == [] then []
    else (if IsNumeric(w[0].0) then [w[0].1] else []) + NumericValues(w[1..])
  }

  /** `key=quoted value` for every named entry, in order. */
  function QuotedConditions(named: seq<(string, string)>, quote: string -> string): (r: seq<string>)
    ensures |r| == |named|
  {
    seq(|named|, i requires 0 <= i < |named| => named[i].0 + "=" + quote(named[i].1))
  }

  /** The statement `delete` executes; `quote` is the driver's literal quoting. */
  function DeleteSql(table: string, w: seq<(Key, string)>, quote: string -> string): string {
    var parts := Group(" AND ", NumericValues(w)) + Group(" AND ", QuotedConditions(NamedEntries(w), quote));
    "DELETE FROM " + table + " WHERE " + Join(" AND ", parts)
  }

  /** Unless the raw fragments are the single value `''`, a delete is one ` AND `-join of
      the raw fragments, `''` ones included, followed by the `key=quoted` conditions. */
  lemma DeleteShape(table: string, w: seq<(Key, string)>, quote: string -> string)
    requires NumericValues(w) != [""]
    ensures DeleteSql(table, w, quote) ==
      "DELETE FROM " + table + " WHERE " + Join(" AND ", NumericValues(w) + QuotedConditions(NamedEntries(w), quote))
  {
    var named := QuotedConditions(NamedEntries(w), quote);
    assert |named| == 1 ==> |named[0]| >= 1;
    JoinOfGroups(" AND ", NumericValues(w), named);
  }

  /** A single raw fragment `''` is dropped: only the `key=quoted` conditions remain. */
  lemma DeleteDropsLoneEmptyFragment(table: string, w: seq<(Key, string)>, quote: string -> string)
    requires NumericValues(w) == [""]
    ensures DeleteSql(table, w, quote) ==
      "DELETE FROM " + table + " WHERE " + Join(" AND ", QuotedConditions(NamedEntries(w), quote))
  {
    var named := QuotedConditions(NamedEntries(w), quote);
    assert Group(" AND ", NumericValues(w)) == [];
    assert [] + Group(" AND ", named) == Group(" AND ", named);
    JoinGroup(" AND ", named);
  }

  // ----- keys written as integers or as text -----

  /** Two where arrays whose keys print alike, are classified alike and hold the same
      values. */
  predicate SameKeyText(w: seq<(Key, string)>, v: seq<(Key, string)>) {
    |w| == |v| && forall i :: 0 <= i < |w| ==>
      KeyText(w[i].0) == KeyText(v[i].0) && IsNumeric(w[i].0) == IsNumeric(v[i].0) && w[i].1 == v[i].1
  }

  lemma {:induction false} SameKeyTextParts(w: seq<(Key, string)>, v: seq<(Key, string)>)
    requires SameKeyText(w, v)
    ensures RawFragments(w) == RawFragments(v)
    ensures NamedEntries(w) == NamedEntries(v)
    ensures NumericValues(w) == NumericValues(v)
  {
    if w != [] {
      assert SameKeyText(w[1..], v[1..]) by {
        forall i | 0 <= i < |w[1..]| ensures w[1..][i] == w[i + 1] && v[1..][i] == v[i + 1] { }
      }
      SameKeyTextParts(w[1..], v[1..]);
    }
  }

  /** PHP stores a decimal key such as `'5'` as the integer key 5. Which of the two a
      where array holds makes no difference to the conditions of `select` and `delete`. */
  lemma IntegerKeyAsText(a: seq<(Key, string)>, n: int, x: string, b: seq<(Key, string)>)
    ensures var w := a + [(IntKey(n), x)] + b;
      var v := a + [(StrKey(KeyText(IntKey(n))), x)] + b;
      RawFragments(w) == RawFragments(v) && NamedEntries(w) == NamedEntries(v) && NumericValues(w) == NumericValues(v)
  {
    var w := a + [(IntKey(n), x)] + b;
    var v := a + [(StrKey(KeyText(IntKey(n))), x)] + b;
    IntKeyTextIsNumeric(n);
    assert SameKeyText(w, v) by {
      forall i | 0 <= i < |w|
        ensures KeyText(w[i].0) == KeyText(v[i].0) && IsNumeric(w[i].0) == IsNumeric(v[i].0) && w[i].1 == v[i].1
      {
        if i != |a| {
          assert w[i] == v[i];
        }
      }
    }
    SameKeyTextParts(w, v);
  }
}
