/** `ErrorStack`: an append-only list of non-fatal errors with an ambient context, and
    the queries `stack`, `hasError` and `getMessage` over it. */
module ErrorLog {
  import opened PhpArray

  /** One error as `add` stores it. A `null` class or function is modelled as `''`. */
  datatype ErrorEntry = ErrorEntry(className: string, functionName: string, message: string, code: int, context: string)

  /** The four optional arguments of `stack`; a falsy one does not filter. */
  datatype Filter = Filter(className: string, functionName: string, context: string, code: int)

  /** An entry passes every truthy filter. */
  predicate Passes(e: ErrorEntry, q: Filter) {
    && (Truthy(q.className) ==> e.className == q.className)
    && (Truthy(q.functionName) ==> e.functionName == q.functionName)
    && (Truthy(q.context) ==> e.context == q.context)
    && (q.code != 0 ==> e.code == q.code)
  }

  /** The entries that pass, in their original order. */
  function Matching(s: seq<ErrorEntry>, q: Filter): (r: seq<ErrorEntry>)
    ensures |r| <= |s|
  {
    if s == [] then [] else Matching(s[..|s| - 1], q) + (if Passes(s[|s| - 1], q) then [s[|s| - 1]] else [])
  }

  /** Filtering distributes over concatenation: the matches keep the order of the log. */
  lemma {:induction false} MatchingConcat(a: seq<ErrorEntry>, b: seq<ErrorEntry>, q: Filter)
    ensures Matching(a + b, q) == Matching(a, q) + Matching(b, q)
    decreases |b|
  {
    if b == [] {
      assert a + b == a;
    } else {
      var b' := b[..|b| - 1];
      assert (a + b)[..|a + b| - 1] == a + b';
      assert (a + b)[|a + b| - 1] == b[|b| - 1];
      MatchingConcat(a, b', q);
    }
  }

  /** An entry is matched exactly when it is in the log and passes the filters. */
  lemma {:induction false} MatchingMembers(s: seq<ErrorEntry>, q: Filter, x: ErrorEntry)
    ensures x in Matching(s, q) <==> x in s && Passes(x, q)
  {
    if s != [] {
      var s' := s[..|s| - 1];
      assert s == s' + [s[|s| - 1]];
      MatchingMembers(s', q, x);
    }
  }

  /** Something matches exactly when some entry passes. */
  lemma MatchingNonEmpty(s: seq<ErrorEntry>, q: Filter)
    ensures |Matching(s, q)| > 0 <==> exists i :: 0 <= i < |s| && Passes(s[i], q)
  {
    if |Matching(s, q)| > 0 {
      MatchingMembers(s, q, Matching(s, q)[0]);
    }
    if i :| 0 <= i < |s| && Passes(s[i], q) {
      MatchingMembers(s, q, s[i]);
    }
  }

  /** The first match is the entry at the first index that passes. */
  lemma {:induction false} MatchingFirst(s: seq<ErrorEntry>, q: Filter)
    requires |Matching(s, q)| > 0
    ensures exists i :: (0 <= i < |s| && Passes(s[i], q) && Matching(s, q)[0] == s[i]
                         && forall j :: 0 <= j < i ==> !Passes(s[j], q))
  {
    var s' := s[..|s| - 1];
    if |Matching(s', q)| > 0 {
      MatchingFirst(s', q);
      var i :| 0 <= i < |s'| && Passes(s'[i], q) && Matching(s', q)[0] == s'[i]
        && forall j :: 0 <= j < i ==> !Passes(s'[j], q);
      assert s[i] == s'[i];
      assert forall j :: 0 <= j < i ==> s[j] == s'[j];
    } else {
      MatchingNonEmpty(s', q);
      assert forall j :: 0 <= j < |s| - 1 ==> s[j] == s'[j];
    }
  }

  /** With every filter falsy, nothing is filtered out. */
  lemma {:induction false} MatchingUnfiltered(s: seq<ErrorEntry>, q: Filter)
    requires !Truthy(q.className) && !Truthy(q.functionName) && !Truthy(q.context) && q.code == 0
    ensures Matching(s, q) == s
  {
    if s != [] {
      MatchingUnfiltered(s[..|s| - 1], q);
    }
  }

  /** Filtering by `a` and then by `b` is filtering once by a filter that passes exactly
      what both pass: why four successive loops equal one combined filter. */
  lemma {:induction false} MatchingCompose(s: seq<ErrorEntry>, a: Filter, b: Filter, c: Filter)
    requires forall e :: Passes(e, c) <==> Passes(e, a) && Passes(e, b)
    ensures Matching(Matching(s, a), b) == Matching(s, c)
  {
    if s != [] {
      var s' := s[..|s| - 1];
      var last := s[|s| - 1];
      MatchingCompose(s', a, b, c);
      MatchingConcat(Matching(s', a), if Passes(last, a) then [last] else [], b);
      if Passes(last, a) {
        assert [last][..0] == [];
      }
    }
  }

  /** The four one-field filters of `stack`, applied in turn, are the combined filter. */
  lemma FourFilters(s: seq<ErrorEntry>, className: string, functionName: string, contextFilter: string, code: int)
    ensures Matching(Matching(Matching(Matching(s, Filter(className, "", "", 0)), Filter("", functionName, "", 0)),
                              Filter("", "", contextFilter, 0)), Filter("", "", "", code))
         == Matching(s, Filter(className, functionName, contextFilter, code))
  {
    var s1 := Matching(s, Filter(className, "", "", 0));
    MatchingCompose(s, Filter(className, "", "", 0), Filter("", functionName, "", 0), Filter(className, functionName, "", 0));
    var s2 := Matching(s1, Filter("", functionName, "", 0));
    MatchingCompose(s, Filter(className, functionName, "", 0), Filter("", "", contextFilter, 0), Filter(className, functionName, contextFilter, 0));
    MatchingCompose(s, Filter(className, functionName, contextFilter, 0), Filter("", "", "", code), Filter(className, functionName, contextFilter, code));
  }

  /** What `add` contributes to any later query: the old matches, then the new entry
      when it passes. */
  lemma StackAfterAdd(s: seq<ErrorEntry>, e: ErrorEntry, q: Filter)
    ensures Matching(s + [e], q) == Matching(s, q) + (if Passes(e, q) then [e] else [])
  {
    assert (s + [e])[..|s|] == s;
  }

  /** The error stack. `generate` stands for `Messages::generateMessage`, which renders a
      message from its template and variables. */
  class ErrorStack {
    var entries: seq<ErrorEntry>
    var context: string
    const generate: (string, seq<(string, string)>) -> string

    constructor (generate: (string, seq<(string, string)>) -> string)
      ensures entries == [] && context == "" && this.generate == generate
    {
      entries := [];
      context := "";
      this.generate := generate;
    }

    /** The entry `Database` adds when it catches a driver error in `functionName`. */
    function Caught(message: string, functionName: string): ErrorEntry
      reads this
    {
      ErrorEntry("Database", functionName, generate(message, []), 0, context)
    }

    /** `add`: appends one entry. When class and function are both missing, the caller
        found by the backtrace (`caller`, absent when there is none) supplies them; a
        falsy context gives way to the current one. */
    method Add(message: string, className: string, functionName: string, variables: seq<(string, string)>,
               entryContext: string, code: int, caller: Option<(string, string)>)
      modifies this
      ensures var names := if className == "" && functionName == "" && caller.Some? then caller.value
                           else (className, functionName);
        entries == old(entries) + [ErrorEntry(names.0, names.1, generate(message, variables), code,
                                              if Truthy(entryContext) then entryContext else old(context))]
      ensures context == old(context)
    {
      var cls, fn := className, functionName;
      if cls == "" && fn == "" {
        if caller.Some? {
          cls, fn := caller.value.0, caller.value.1;
        }
      }
      var ctx := if Truthy(entryContext) then entryContext else context;
      entries := entries + [ErrorEntry(cls, fn, generate(message, variables), code, ctx)];
    }

    /** `setContext`. */
    method SetContext(c: string)
      modifies this
      ensures context == c && entries == old(entries)
    {
      context := c;
    }

    /** `clearContext`. */
    method ClearContext()
      modifies this
      ensures context == "" && entries == old(entries)
    {
      context := "";
    }

    /** One filtering loop of `stack`: walks `s` and keeps, in order, each entry that
        passes `f`. */
    static method Keep(s: seq<ErrorEntry>, f: Filter) returns (kept: seq<ErrorEntry>)
      ensures kept == Matching(s, f)
    {
      kept := [];
      var i := 0;
      while i < |s|
        invariant i <= |s|
        invariant kept == Matching(s[..i], f)
      {
        assert s[..i + 1][..i] == s[..i];
        if Passes(s[i], f) {
          kept := kept + [s[i]];
        }
        i := i + 1;
      }
      assert s[..|s|] == s;
    }

    /** `stack`: the entries that pass the truthy filters, class first, then function,
        then context, then code, each filter a loop over what the previous one kept. */
    method Stack(className: string, functionName: string, contextFilter: string, code: int)
      returns (errors4: seq<ErrorEntry>)
      ensures errors4 == Matching(entries, Filter(className, functionName, contextFilter, code))
    {
      var f1 := Filter(className, "", "", 0);
      var f2 := Filter("", functionName, "", 0);
      var f3 := Filter("", "", contextFilter, 0);
      var f4 := Filter("", "", "", code);

      var errors := entries;
      if Truthy(className) {
        errors := Keep(entries, f1);
      } else {
        MatchingUnfiltered(entries, f1);
      }
      var errors2 := errors;
      if Truthy(functionName) {
        errors2 := Keep(errors, f2);
      } else {
        MatchingUnfiltered(errors, f2);
      }
      var errors3 := errors2;
      if Truthy(contextFilter) {
        errors3 := Keep(errors2, f3);
      } else {
        MatchingUnfiltered(errors2, f3);
      }
      errors4 := errors3;
      if code != 0 {
        errors4 := Keep(errors3, f4);
      } else {
        MatchingUnfiltered(errors3, f4);
      }
      FourFilters(entries, className, functionName, contextFilter, code);
    }

    /** `hasError`: true exactly when some entry passes the filters. */
    method HasError(className: string, functionName: string, contextFilter: string, code: int) returns (b: bool)
      ensures b <==> exists i :: 0 <= i < |entries| && Passes(entries[i], Filter(className, functionName, contextFilter, code))
    {
      var errors := Stack(className, functionName, contextFilter, code);
      MatchingNonEmpty(entries, Filter(className, functionName, contextFilter, code));
      b := |errors| > 0;
    }

    /** `getMessage`: the message of the first entry that passes, `false` (here `None`)
        when none does. */
    method GetMessage(className: string, functionName: string, contextFilter: string, code: int) returns (m: Option<string>)
      ensures m.None? <==> forall i :: 0 <= i < |entries| ==> !Passes(entries[i], Filter(className, functionName, contextFilter, code))
      ensures m.Some? ==> exists i :: (0 <= i < |entries| && Passes(entries[i], Filter(className, functionName, contextFilter, code))
                                       && m.value == entries[i].message
                                       && forall j :: 0 <= j < i ==> !Passes(entries[j], Filter(className, functionName, contextFilter, code)))
    {
      var q := Filter(className, functionName, contextFilter, code);
      var errors := Stack(className, functionName, contextFilter, code);
      MatchingNonEmpty(entries, q);
      if |errors| > 0 {
        MatchingFirst(entries, q);
        m := Some(errors[0].message);
      } else {
        m := None;
      }
    }
  }
}
