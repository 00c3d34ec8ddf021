/** The `Database` facade: the per-kind query counters, the row count of the last
    select, the read-through cache of `select`, and the success and failure paths of
    the write operations. The PDO driver is a function argument of each operation,
    the memcache daemon an optional in-memory map. */
module Facade {
  import opened PhpArray
  import opened QueryBuilder
  import opened ErrorLog

  // ----- counters -----

  /** The counter kinds `initialize` sets up. */
  const Kinds: seq<string> := ["select", "sql", "insert", "update", "delete", "cache"]

  /** The counters right after `initialize`: every kind at zero, nothing else. */
  function ZeroCounters(): (m: map<string, int>)
    ensures forall k :: k in m <==> k in Kinds
    ensures forall k :: k in m ==> m[k] == 0
  {
    map["select" := 0, "sql" := 0, "insert" := 0, "update" := 0, "delete" := 0, "cache" := 0]
  }

  /** `$queryCount[$k]++`: the counter of `k` goes up by one (PHP starts a missing entry
      from `null`, which counts as 0) and no other counter moves. */
  function Bump(m: map<string, int>, k: string): (r: map<string, int>)
    ensures r.Keys == m.Keys + {k}
    ensures k in m ==> r[k] == m[k] + 1
    ensures k !in m ==> r[k] == 1
    ensures forall j :: j in m && j != k ==> r[j] == m[j]
  {
    m[k := (if k in m then m[k] else 0) + 1]
  }

  /** What `queryCounter` returns: the whole map, or one count. */
  datatype CounterView = All(counts: map<string, int>) | One(count: int)

  /** `queryCounter($key)`: the count under `key`, except that `'all'` and a key without
      a counter give the whole map. */
  function CounterOf(counts: map<string, int>, key: string): (v: CounterView)
    ensures v.One? <==> key != "all" && key in counts
    ensures v.One? ==> v.count == counts[key]
    ensures v.All? ==> v.counts == counts
  {
    if key == "all" || key !in counts then All(counts) else One(counts[key])
  }

  /** After `initialize` every kind reads zero, and any other key reads the whole map. */
  lemma FreshCounters(key: string)
    ensures key in Kinds ==> CounterOf(ZeroCounters(), key) == One(0)
    ensures key !in Kinds ==> CounterOf(ZeroCounters(), key) == All(ZeroCounters())
  {
    assert "all" !in Kinds;
  }

  /** A bump is seen by the next `queryCounter` of the same kind, and by no other kind. */
  lemma BumpIsCounted(m: map<string, int>, k: string, j: string)
    requires k in m && j in m && k != "all" && j != "all"
    ensures CounterOf(Bump(m, k), k) == One(m[k] + 1)
    ensures j != k ==> CounterOf(Bump(m, k), j) == CounterOf(m, j)
  {
  }

  // ----- the cache key -----

  /** A PHP value as `multi_implode` sees it: a scalar's text, or a nested array. */
  datatype PhpValue = Scalar(text: string) | List(items: seq<PhpValue>)

  /** `multi_implode($array, $glue)`: every item (nested arrays flattened the same way)
      followed by the glue, then the last `strlen($glue)` characters cut off with
      `substr($ret, 0, 0 - strlen($glue))`, which for the empty glue keeps nothing. */
  function MultiImplode(xs: seq<PhpValue>, glue: string): (r: string)
    ensures glue == "" ==> r == ""
    decreases xs, 1
  {
    Text(Substr(Pieces(xs, glue), 0, 0 - |glue|))
  }

  /** The `foreach` of `multi_implode`: each item's text and the glue, in order. */
  function Pieces(xs: seq<PhpValue>, glue: string): string
    decreases xs, 0
  {
    if xs == [] then ""
    else
      var head := match xs[0]
        case Scalar(t) => t
        case List(ys) => MultiImplode(ys, glue);
      head + glue + Pieces(xs[1..], glue)
  }

  /** What one item contributes: a scalar its text, a nested array its own
      `multi_implode` with the same glue. */
  function ItemText(x: PhpValue, glue: string): string {
    match x
    case Scalar(t) => t
    case List(ys) => MultiImplode(ys, glue)
  }

  function ItemTexts(xs: seq<PhpValue>, glue: string): (r: seq<string>)
    ensures |r| == |xs|
    ensures forall i :: 0 <= i < |xs| ==> r[i] == ItemText(xs[i], glue)
  {
    seq(|xs|, i requires 0 <= i < |xs| => ItemText(xs[i], glue))
  }

  /** The `foreach` leaves the items' texts glued together, plus one trailing glue. */
  lemma {:induction false} PiecesJoin(xs: seq<PhpValue>, glue: string)
    requires |xs| > 0
    ensures Pieces(xs, glue) == Join(glue, ItemTexts(xs, glue)) + glue
  {
    var h := ItemText(xs[0], glue);
    assert Pieces(xs, glue) == h + glue + Pieces(xs[1..], glue);
    if |xs| == 1 {
      assert xs[1..] == [];
    } else {
      PiecesJoin(xs[1..], glue);
      assert ItemTexts(xs, glue)[1..] == ItemTexts(xs[1..], glue);
      AppendAssoc(h + glue, Join(glue, ItemTexts(xs[1..], glue)), glue);
    }
  }

  /** With a non-empty glue, `multi_implode` is `implode` over the items' texts: the cut
      removes exactly the trailing glue, and a nested array is imploded the same way. */
  lemma MultiImplodeIsJoin(xs: seq<PhpValue>, glue: string)
    requires glue != ""
    ensures MultiImplode(xs, glue) == Join(glue, ItemTexts(xs, glue))
  {
    if |xs| > 0 {
      PiecesJoin(xs, glue);
      var j := Join(glue, ItemTexts(xs, glue));
      assert (j + glue)[..|j + glue| - |glue|] == j;
    }
  }

  /** A flat array of scalars is imploded with the glue. */
  lemma MultiImplodeFlat(xs: seq<string>, glue: string)
    requires glue != ""
    ensures MultiImplode(seq(|xs|, i requires 0 <= i < |xs| => Scalar(xs[i])), glue) == Join(glue, xs)
  {
    var v := seq(|xs|, i requires 0 <= i < |xs| => Scalar(xs[i]));
    MultiImplodeIsJoin(v, glue);
    assert ItemTexts(v, glue) == xs;
  }

  /** An example of the flattening: `[a, [b, c]]` glued with `,` is `a,b,c`. */
  lemma MultiImplodeGlues(a: string, b: string, c: string)
    ensures MultiImplode([Scalar(a), List([Scalar(b), Scalar(c)])], ",") == a + "," + b + "," + c
  {
    var one := [Scalar(c)];
    assert one[1..] == [];
    assert Pieces(one, ",") == c + ",";
    var inner := [Scalar(b), Scalar(c)];
    assert inner[1..] == one;
    assert Pieces(inner, ",") == b + "," + c + ",";
    assert MultiImplode(inner, ",") == b + "," + c;
    var outer := [Scalar(a), List(inner)];
    assert outer[1..] == [List(inner)];
    assert [List(inner)][1..] == [];
    assert Pieces([List(inner)], ",") == b + "," + c + ",";
    assert Pieces(outer, ",") == a + "," + b + "," + c + ",";
  }

  /** The original where values, `''` when there is none. */
  function WhereValues(p: SelectParams): (r: seq<string>)
    ensures p.where.Some? ==> |r| == |p.where.value|
    ensures p.where.Some? ==> forall i :: 0 <= i < |r| ==> r[i] == p.where.value[i].1
  {
    match p.where
    case None => []
    case Some(w) => seq(|w|, i requires 0 <= i < |w| => w[i].1)
  }

  /** `$parameters['where']` when `multi_implode` reads it: the re-keyed named values,
      or `null` (which prints as `''`) when no where array was given. */
  function WhereValue(b: Bindings): (r: PhpValue)
    ensures b.NoBindings? ==> r == Scalar("")
    ensures b.Named? ==> r.List? && |r.items| == |b.entries|
    ensures b.Named? ==> forall i :: 0 <= i < |b.entries| ==> r.items[i] == Scalar(b.entries[i].1)
  {
    match b
    case NoBindings => Scalar("")
    case Named(es) => List(seq(|es|, i requires 0 <= i < |es| => Scalar(es[i].1)))
    case Positional(vs) => List(seq(|vs|, i requires 0 <= i < |vs| => Scalar(vs[i])))
  }

  /** `$parameters` as a PHP value (after `single` has set `singleRow` and the fetch
      style, and the where array has been re-keyed): the argument `multi_implode`
      receives. */
  function ParamsValue(p: SelectParams): seq<PhpValue> {
    var flag := (b: bool) => Scalar(if b then "1" else "");
    var opt := (o: Option<string>) => Scalar(if o.Some? then o.value else "");
    [WhereValue(SelectBindings(p)),
     opt(p.join), opt(p.orderBy), opt(p.groupBy), opt(p.limit), flag(p.single), flag(p.single || p.singleRow),
     opt(if p.single then Some("singleColumn") else p.fetchStyle)]
  }

  /** The text `select` hashes into the cache key. */
  function CacheKeyText(query: string, p: SelectParams): string {
    "mysql_query_" + query + MultiImplode(ParamsValue(p), "") + Join("", WhereValues(p))
  }

  /** The parameters contribute nothing to the key: it is the query text and the where
      values glued together without a separator. */
  lemma CacheKeyIsTextAndValues(query: string, p: SelectParams)
    ensures CacheKeyText(query, p) == "mysql_query_" + query + Join("", WhereValues(p))
  {
    assert MultiImplode(ParamsValue(p), "") == "";
  }

  /** Two selects that differ only in how the rows are fetched get the same cache key,
      so a cached result of one is served to the other in the shape of the first. */
  lemma CacheKeyIgnoresFetchShape(table: string, fields: seq<string>, p: SelectParams, flags: (bool, bool, Option<string>))
    ensures var q := p.(single := flags.0, singleRow := flags.1, fetchStyle := flags.2);
      CacheKeyText(SelectSql(table, fields, p), p) == CacheKeyText(SelectSql(table, fields, q), q)
  {
    var q := p.(single := flags.0, singleRow := flags.1, fetchStyle := flags.2);
    CacheKeyIsTextAndValues(SelectSql(table, fields, p), p);
    CacheKeyIsTextAndValues(SelectSql(table, fields, q), q);
    assert WhereValues(p) == WhereValues(q);
  }

  /** Two where arrays with the same keys that agree on their raw fragments: only the
      values bound to named keys may differ. */
  predicate SameShape(w: seq<(Key, string)>, v: seq<(Key, string)>) {
    |w| == |v| && forall i :: 0 <= i < |w| ==> w[i].0 == v[i].0 && (IsNumeric(w[i].0) ==> w[i].1 == v[i].1)
  }

  lemma {:induction false} SameShapeParts(w: seq<(Key, string)>, v: seq<(Key, string)>)
    requires SameShape(w, v)
    ensures RawFragments(w) == RawFragments(v)
    ensures Names(NamedEntries(w)) == Names(NamedEntries(v))
  {
    if w != [] {
      assert SameShape(w[1..], v[1..]) by {
        forall i | 0 <= i < |w[1..]| ensures w[1..][i] == w[i + 1] && v[1..][i] == v[i + 1] { }
      }
      SameShapeParts(w[1..], v[1..]);
      var hw := if IsNumeric(w[0].0) then [] else [(KeyText(w[0].0), w[0].1)];
      var hv := if IsNumeric(v[0].0) then [] else [(KeyText(v[0].0), v[0].1)];
      assert Names(hw) == Names(hv);
      NamesAppend(hw, NamedEntries(w[1..]));
      NamesAppend(hv, NamedEntries(v[1..]));
    }
  }

  /** The named conditions depend on the names alone. */
  lemma NamedConditionsByNames(a: seq<(string, string)>, b: seq<(string, string)>)
    requires Names(a) == Names(b)
    ensures NamedConditions(a) == NamedConditions(b)
  {
    forall i | 0 <= i < |a| ensures a[i].0 == b[i].0 {
      assert Names(a)[i] == Names(b)[i];
    }
  }

  /** The query text of a select does not depend on the values bound to named keys. */
  lemma SelectSqlIgnoresBoundValues(table: string, fields: seq<string>, p: SelectParams, w: seq<(Key, string)>)
    requires p.where.Some? && SameShape(p.where.value, w)
    ensures SelectSql(table, fields, p) == SelectSql(table, fields, p.(where := Some(w)))
  {
    SameShapeParts(p.where.value, w);
    NamedConditionsByNames(NamedEntries(p.where.value), NamedEntries(w));
  }

  /** A where array of two named keys keeps both as they are. */
  lemma TwoNamedEntries(x: string, xv: string, y: string, yv: string)
    requires !IsNumericString(x) && !IsNumericString(y)
    ensures NamedEntries([(StrKey(x), xv), (StrKey(y), yv)]) == [(x, xv), (y, yv)]
  {
    var w := [(StrKey(x), xv), (StrKey(y), yv)];
    assert w[1..] == [(StrKey(y), yv)];
    assert w[1..][1..] == [];
  }

  const CollideLeft: seq<(Key, string)> := [(StrKey("a"), "xy"), (StrKey("b"), "z")]
  const CollideRight: seq<(Key, string)> := [(StrKey("a"), "x"), (StrKey("b"), "yz")]

  /** Two named keys without dots are bound as they are, in order. */
  lemma TwoKeyBindings(x: string, xv: string, y: string, yv: string)
    requires !IsNumericString(x) && !IsNumericString(y) && '.' !in x && '.' !in y && x != y
    ensures SelectBindings(SelectParams(Some([(StrKey(x), xv), (StrKey(y), yv)]), None, None, None, None, false, false, None))
         == Named([(x, xv), (y, yv)])
  {
    TwoNamedEntries(x, xv, y, yv);
    TwoNamesStripped(x, xv, y, yv);
    ReKeyKeepsOrder([(x, xv), (y, yv)]);
  }

  lemma TwoNamesStripped(x: string, xv: string, y: string, yv: string)
    requires '.' !in x && '.' !in y && x != y
    ensures StripInjective([(x, xv), (y, yv)])
    ensures Stripped([(x, xv), (y, yv)]) == [(x, xv), (y, yv)]
  {
    StripDotsNoDot(x);
    StripDotsNoDot(y);
  }

  /** The two where arrays bind different values to `a`. */
  lemma CollideBindingsDiffer()
    ensures SelectBindings(SelectParams(Some(CollideLeft), None, None, None, None, false, false, None))
         != SelectBindings(SelectParams(Some(CollideRight), None, None, None, None, false, false, None))
  {
    IdentifierIsNotNumeric("a");
    IdentifierIsNotNumeric("b");
    TwoKeyBindings("a", "xy", "b", "z");
    TwoKeyBindings("a", "x", "b", "yz");
  }

  /** Both where arrays glue their values to `xyz`. */
  lemma CollideValuesGlue()
    ensures Join("", WhereValues(SelectParams(Some(CollideLeft), None, None, None, None, false, false, None)))
         == Join("", WhereValues(SelectParams(Some(CollideRight), None, None, None, None, false, false, None)))
  {
    assert WhereValues(SelectParams(Some(CollideLeft), None, None, None, None, false, false, None)) == ["xy", "z"];
    assert WhereValues(SelectParams(Some(CollideRight), None, None, None, None, false, false, None)) == ["x", "yz"];
    assert Join("", ["xy", "z"]) == "xyz" == Join("", ["x", "yz"]);
  }

  /** Different filter values under the same query text can share a key: `a = 'xy'`,
      `b = 'z'` and `a = 'x'`, `b = 'yz'` bind differently, yet both glue to `xyz`. */
  lemma FilterValuesCollide(table: string, fields: seq<string>)
    ensures var p := SelectParams(Some(CollideLeft), None, None, None, None, false, false, None);
      var q := p.(where := Some(CollideRight));
      && SelectSql(table, fields, p) == SelectSql(table, fields, q)
      && SelectBindings(p) != SelectBindings(q)
      && CacheKeyText(SelectSql(table, fields, p), p) == CacheKeyText(SelectSql(table, fields, q), q)
  {
    var p := SelectParams(Some(CollideLeft), None, None, None, None, false, false, None);
    var q := p.(where := Some(CollideRight));
    IdentifierIsNotNumeric("a");
    IdentifierIsNotNumeric("b");
    assert SameShape(CollideLeft, CollideRight);
    SelectSqlIgnoresBoundValues(table, fields, p, CollideRight);
    CollideBindingsDiffer();
    var text := SelectSql(table, fields, p);
    CacheKeyIsTextAndValues(text, p);
    CacheKeyIsTextAndValues(text, q);
    CollideValuesGlue();
  }

  // ----- the driver -----

  /** A fetched result: the rows, each a list of column values (for `fetch`, at most one). */
  type Rows = seq<seq<string>>

  /** What `select` caches and returns: the driver's row count and the fetched result. */
  datatype CacheEntry = CacheEntry(numrows: int, result: Rows)

  /** A driver step that yields a value, or throws a `PDOException` with a message. */
  datatype Outcome<T> = Ok(value: T) | Fail(message: string)

  /** A driver step that yields nothing, or throws. */
  datatype Status = Done | Failed(message: string)

  /** The statement handed to the driver: its text and what it is executed with. */
  datatype Statement = Statement(sql: string, bindings: Bindings)

  /** The cache after `setCache`: the entry is stored only when memcache is connected
      and the timeout is positive. */
  function Stored(cache: Option<map<string, CacheEntry>>, key: string, v: CacheEntry, timeout: int): (c: Option<map<string, CacheEntry>>)
    ensures c.Some? <==> cache.Some?
    ensures c.Some? && timeout > 0 ==> c.value == cache.value[key := v]
    ensures timeout <= 0 ==> c == cache
  {
    if cache.Some? && timeout > 0 then Some(cache.value[key := v]) else cache
  }

  /** `getCache`: the entry under `key`, `false` (here `None`) when there is none or
      memcache is not connected. */
  function Lookup(cache: Option<map<string, CacheEntry>>, key: string): (r: Option<CacheEntry>)
    ensures r.Some? <==> cache.Some? && key in cache.value
    ensures r.Some? ==> r.value == cache.value[key]
  {
    if cache.Some? && key in cache.value then Some(cache.value[key]) else None
  }

  /** What was stored is found again under the same key, and nothing else changes. */
  lemma LookupAfterStore(cache: Option<map<string, CacheEntry>>, key: string, other: string, v: CacheEntry, timeout: int)
    requires cache.Some? && timeout > 0
    ensures Lookup(Stored(cache, key, v, timeout), key) == Some(v)
    ensures other != key ==> Lookup(Stored(cache, key, v, timeout), other) == Lookup(cache, other)
  {
  }

  /** `Database`'s static state. `md5` and `quote` stand for PHP's `md5` and the
      driver's `PDO::quote`; `errors` is the process-wide error stack. */
  class Database {
    var connected: bool
    var cache: Option<map<string, CacheEntry>>
    var numrows: int
    var queryCount: map<string, int>
    const errors: ErrorStack
    const md5: string -> string
    const quote: string -> string

    /** The state before `initialize`: no connection, no memcache, no counters. */
    constructor (errors: ErrorStack, md5: string -> string, quote: string -> string)
      ensures !connected && cache.None? && numrows == 0 && queryCount == map[]
      ensures this.errors == errors && this.md5 == md5 && this.quote == quote
    {
      connected := false;
      cache := None;
      numrows := 0;
      queryCount := map[];
      this.errors := errors;
      this.md5 := md5;
      this.quote := quote;
    }

    /** `initialize`: connects when there is no connection yet (`connect` is the outcome
      of that attempt), and on failure records the error and returns false. Otherwise
      it attaches to memcache unless already attached (`daemon` is the daemon's store,
      `None` when it cannot be reached), resets every counter and returns true. */
    method Initialize(connect: Status, daemon: Option<map<string, CacheEntry>>) returns (ok: bool)
      modifies this, errors
      ensures ok <==> old(connected) || connect == Done
      ensures ok ==> connected && queryCount == ZeroCounters()
      ensures ok ==> cache == if old(cache).Some? then old(cache) else daemon
      ensures ok ==> errors.entries == old(errors.entries)
      ensures !ok ==> connected == old(connected) && cache == old(cache) && queryCount == old(queryCount)
      ensures !ok ==> errors.entries == old(errors.entries) + [errors.Caught(connect.message, "initialize")]
      ensures numrows == old(numrows) && errors.context == old(errors.context)
    {
      if !connected {
        if connect.Failed? {
          errors.Add(connect.message, "Database", "initialize", [], "", 0, None);
          return false;
        }
        connected := true;
      }
      if cache.None? {
        cache := daemon;
      }
      queryCount := ZeroCounters();
      return true;
    }

    /** `getCache`. */
    function GetCache(key: string): Option<CacheEntry>
      reads this
    {
      Lookup(cache, key)
    }

    /** `setCache`: true when the entry was stored. */
    method SetCache(key: string, v: CacheEntry, timeout: int) returns (stored: bool)
      modifies this
      ensures stored <==> old(cache).Some? && timeout > 0
      ensures cache == Stored(old(cache), key, v, timeout)
      ensures connected == old(connected) && numrows == old(numrows) && queryCount == old(queryCount)
    {
      stored := cache.Some? && timeout > 0;
      if stored {
        cache := Some(cache.value[key := v]);
      }
    }

    /** `queryCounter`. */
    function QueryCounter(key: string): CounterView
      reads this
    {
      CounterOf(queryCount, key)
    }

    /** `numrows`: the row count of the last successful select. */
    function NumRows(): int
      reads this
    {
      numrows
    }

    /** `select`: renders the query, and when `timeout` is positive looks it up under
      `md5` of its cache key text. A hit bumps the `cache` counter and runs nothing.
      Otherwise `fetch` runs the statement: on success the `select` counter goes up
      and the entry is offered to the cache; on failure the error is recorded and
      `false` (here `None`) returned with nothing else changed. The row count of the
      entry returned becomes `numrows`. */
    method Select(table: string, fields: seq<string>, p: SelectParams, timeout: int,
                  fetch: (Statement, Fetch) -> Outcome<CacheEntry>) returns (r: Option<Rows>)
      modifies this, errors
      ensures var query := SelectSql(table, fields, p);
        var key := md5(CacheKeyText(query, p));
        var hit := if timeout > 0 then Lookup(old(cache), key) else None;
        var run := fetch(Statement(query, SelectBindings(p)), FetchOf(p));
        if hit.Some? then
          && r == Some(hit.value.result) && numrows == hit.value.numrows
          && queryCount == Bump(old(queryCount), "cache") && cache == old(cache)
          && errors.entries == old(errors.entries)
        else if run.Ok? then
          && r == Some(run.value.result) && numrows == run.value.numrows
          && queryCount == Bump(old(queryCount), "select") && cache == Stored(old(cache), key, run.value, timeout)
          && errors.entries == old(errors.entries)
        else
          && r.None? && numrows == old(numrows) && queryCount == old(queryCount) && cache == old(cache)
          && errors.entries == old(errors.entries) + [errors.Caught(run.message, "select")]
      ensures connected == old(connected) && errors.context == old(errors.context)
    {
      var query := SelectSql(table, fields, p);
      var key := md5(CacheKeyText(query, p));
      var hit: Option<CacheEntry> := None;
      if timeout > 0 {
        hit := GetCache(key);
        if hit.Some? {
          queryCount := Bump(queryCount, "cache");
        }
      }
      var entry: CacheEntry;
      if hit.Some? {
        entry := hit.value;
      } else {
        var run := fetch(Statement(query, SelectBindings(p)), FetchOf(p));
        if run.Fail? {
          errors.Add(run.message, "Database", "select", [], "", 0, None);
          return None;
        }
        entry := run.value;
        queryCount := Bump(queryCount, "select");
        var _ := SetCache(key, entry, timeout);
      }
      numrows := entry.numrows;
      r := Some(entry.result);
    }

    /** `sql`: bumps the `sql` counter, then hands the text to the driver unchecked and
      returns whatever it gives back. */
    method Sql<T>(query: string, run: string -> T) returns (r: T)
      modifies this
      ensures r == run(query)
      ensures queryCount == Bump(old(queryCount), "sql")
      ensures connected == old(connected) && cache == old(cache) && numrows == old(numrows)
    {
      queryCount := Bump(queryCount, "sql");
      r := run(query);
    }

    /** The common tail of the writes: run the statement; on success bump the counter of
      `kind`, on failure record the error under `kind` as the function name. */
    method Write(kind: string, st: Statement, exec: Statement -> Status) returns (ok: bool)
      modifies this, errors
      ensures ok <==> exec(st) == Done
      ensures queryCount == if ok then Bump(old(queryCount), kind) else old(queryCount)
      ensures errors.entries == old(errors.entries) + (if ok then [] else [errors.Caught(exec(st).message, kind)])
      ensures connected == old(connected) && cache == old(cache) && numrows == old(numrows)
      ensures errors.context == old(errors.context)
    {
      var status := exec(st);
      if status.Failed? {
        errors.Add(status.message, "Database", kind, [], "", 0, None);
        return false;
      }
      queryCount := Bump(queryCount, kind);
      return true;
    }

    /** `insert`: one row, its columns and `:column` placeholders from the keys of `data`,
      executed with `data`. */
    method Insert(table: string, data: seq<(Key, string)>, exec: Statement -> Status) returns (ok: bool)
      modifies this, errors
      ensures var st := Statement(InsertSql(table, data), DataBindings(data));
        && (ok <==> exec(st) == Done)
        && queryCount == (if ok then Bump(old(queryCount), "insert") else old(queryCount))
        && errors.entries == old(errors.entries) + (if ok then [] else [errors.Caught(exec(st).message, "insert")])
      ensures connected == old(connected) && cache == old(cache) && numrows == old(numrows)
      ensures errors.context == old(errors.context)
    {
      ok := Write("insert", Statement(InsertSql(table, data), DataBindings(data)), exec);
    }

    /** `insertBatch`: many rows in one statement, with a `?` group per row, executed with
      the row values flattened row after row. One success counts once. */
    method InsertBatch(table: string, fields: seq<string>, rows: seq<seq<string>>, exec: Statement -> Status) returns (ok: bool)
      modifies this, errors
      ensures var st := Statement(InsertBatchSql(table, fields, rows), Positional(Flatten(rows)));
        && (ok <==> exec(st) == Done)
        && queryCount == (if ok then Bump(old(queryCount), "insert") else old(queryCount))
        && errors.entries == old(errors.entries) + (if ok then [] else [errors.Caught(exec(st).message, "insertBatch")])
      ensures connected == old(connected) && cache == old(cache) && numrows == old(numrows)
      ensures errors.context == old(errors.context)
    {
      var st := Statement(InsertBatchSql(table, fields, rows), Positional(Flatten(rows)));
      var status := exec(st);
      if status.Failed? {
        errors.Add(status.message, "Database", "insertBatch", [], "", 0, None);
        return false;
      }
      queryCount := Bump(queryCount, "insert");
      return true;
    }

    /** `update`: the SET list from the keys of `data`, the WHERE clause from `matching`,
      executed with `data`. */
    method Update(table: string, data: seq<(Key, string)>, matching: Option<seq<string>>, exec: Statement -> Status) returns (ok: bool)
      modifies this, errors
      ensures var st := Statement(UpdateSql(table, data, matching), DataBindings(data));
        && (ok <==> exec(st) == Done)
        && queryCount == (if ok then Bump(old(queryCount), "update") else old(queryCount))
        && errors.entries == old(errors.entries) + (if ok then [] else [errors.Caught(exec(st).message, "update")])
      ensures connected == old(connected) && cache == old(cache) && numrows == old(numrows)
      ensures errors.context == old(errors.context)
    {
      ok := Write("update", Statement(UpdateSql(table, data, matching), DataBindings(data)), exec);
    }

    /** `delete`: the named values quoted into the text, executed without bindings. */
    method Delete(table: string, w: seq<(Key, string)>, exec: Statement -> Status) returns (ok: bool)
      modifies this, errors
      ensures var st := Statement(DeleteSql(table, w, quote), NoBindings);
        && (ok <==> exec(st) == Done)
        && queryCount == (if ok then Bump(old(queryCount), "delete") else old(queryCount))
        && errors.entries == old(errors.entries) + (if ok then [] else [errors.Caught(exec(st).message, "delete")])
      ensures connected == old(connected) && cache == old(cache) && numrows == old(numrows)
      ensures errors.context == old(errors.context)
    {
      ok := Write("delete", Statement(DeleteSql(table, w, quote), NoBindings), exec);
    }
  }

  /** A select repeated with a positive timeout while memcache is connected is served
      from the cache: the first call runs the statement and stores the entry, the second
      runs nothing and returns the same rows, so one select and one cache hit are counted. */
  method RepeatedSelectIsCached(db: Database, table: string, fields: seq<string>, p: SelectParams, timeout: int,
                                fetch: (Statement, Fetch) -> Outcome<CacheEntry>)
    returns (first: Option<Rows>, second: Option<Rows>)
    requires db.cache.Some? && timeout > 0
    requires db.md5(CacheKeyText(SelectSql(table, fields, p), p)) !in db.cache.value
    requires fetch(Statement(SelectSql(table, fields, p), SelectBindings(p)), FetchOf(p)).Ok?
    requires "select" in db.queryCount && "cache" in db.queryCount
    modifies db, db.errors
    ensures var run := fetch(Statement(SelectSql(table, fields, p), SelectBindings(p)), FetchOf(p));
      first == Some(run.value.result) && second == first && db.numrows == run.value.numrows
    ensures "select" in db.queryCount && "cache" in db.queryCount
    ensures db.queryCount["select"] == old(db.queryCount["select"]) + 1
    ensures db.queryCount["cache"] == old(db.queryCount["cache"]) + 1
    ensures db.errors.entries == old(db.errors.entries)
  {
    var key := db.md5(CacheKeyText(SelectSql(table, fields, p), p));
    first := db.Select(table, fields, p, timeout, fetch);
    assert db.GetCache(key).Some?;
    second := db.Select(table, fields, p, timeout, fetch);
  }
}
