/** PHP semantics the query builder relies on: array keys, `is_numeric`, truthiness,
    `implode`, `str_replace('.', '', ...)` and the insertion-ordered arrays that
    `unset` and `$a[$k] = $v` work on. */
module PhpArray {

  /** `null` (an unset parameter) versus a value. */
  datatype Option<T> = None | Some(value: T)

  /** A PHP array key: PHP keeps integer keys and string keys apart. */
  datatype Key = IntKey(i: int) | StrKey(s: string)

  /** PHP truthiness of a string: `''` and `'0'` are false, everything else is true.
      `null` is modelled as `''`, which PHP treats alike in every test made here. */
  predicate Truthy(s: string) {
    s != "" && s != "0"
  }

  predicate IsDigit(c: char) {
    '0' <= c <= '9'
  }

  /** The whitespace `is_numeric` allows around a number. */
  predicate IsSpace(c: char) {
    c == ' ' || c == '\t' || c == '\n' || c == '\r' || c == '\U{B}' || c == '\U{C}'
  }

  /** The first position at or after `i` that is not whitespace. */
  function SkipSpaces(s: string, i: nat): (j: nat)
    requires i <= |s|
    ensures i <= j <= |s|
    ensures forall k :: i <= k < j ==> IsSpace(s[k])
    ensures j == |s| || !IsSpace(s[j])
    decreases |s| - i
  {
    if i < |s| && IsSpace(s[i]) then SkipSpaces(s, i + 1) else i
  }

  /** The first position at or after `i` that is not a decimal digit. */
  function SkipDigits(s: string, i: nat): (j: nat)
    requires i <= |s|
    ensures i <= j <= |s|
    ensures forall k :: i <= k < j ==> IsDigit(s[k])
    ensures j == |s| || !IsDigit(s[j])
    decreases |s| - i
  {
    if i < |s| && IsDigit(s[i]) then SkipDigits(s, i + 1) else i
  }

  /** Where a mantissa (`12`, `12.`, `12.5` or `.5`, after an optional sign) that
      starts at `b` ends; `b` itself when there is none. */
  function MantissaEnd(s: string, b: nat): (e: nat)
    requires b <= |s|
    ensures b <= e <= |s|
  {
    var c := SkipDigits(s, b);
    var d := if c < |s| && s[c] == '.' then SkipDigits(s, c + 1) else c;
    if c > b || d > c + 1 then d else b
  }

  /** Where an optional exponent (`e5`, `E-3`) that may start at `d` ends;
      `d` itself when no well-formed exponent is there. */
  function ExponentEnd(s: string, d: nat): (e: nat)
    requires d <= |s|
    ensures d <= e <= |s|
  {
    if d < |s| && (s[d] == 'e' || s[d] == 'E') then
      var f := if d + 1 < |s| && (s[d + 1] == '+' || s[d + 1] == '-') then d + 2 else d + 1;
      var g := SkipDigits(s, f);
      if g > f then g else d
    else d
  }

  /** PHP 7 `is_numeric` on a string: optional leading whitespace, an optional sign, a
      decimal mantissa, an optional exponent, and nothing after it. (PHP 8 also allows
      trailing whitespace; the code calls `create_function`, which PHP 8 removed.) */
  predicate IsNumericString(s: string) {
    var a := SkipSpaces(s, 0);
    var b := if a < |s| && (s[a] == '+' || s[a] == '-') then a + 1 else a;
    var d := MantissaEnd(s, b);
    d > b && ExponentEnd(s, d) == |s|
  }

  /** Trailing whitespace makes a key non-numeric, leading whitespace does not. */
  lemma SpacedDigits()
    ensures !IsNumericString("5 ")
    ensures IsNumericString(" 5")
  {
    assert SkipSpaces("5 ", 0) == 0;
    assert SkipDigits("5 ", 1) == 1;
    assert SkipDigits("5 ", 0) == 1;
    assert SkipSpaces(" 5", 1) == 1;
    assert SkipSpaces(" 5", 0) == 1;
    assert SkipDigits(" 5", 2) == 2;
    assert SkipDigits(" 5", 1) == 2;
  }

  /** `is_numeric($key)` for an array key: every integer key is numeric. */
  predicate IsNumeric(k: Key) {
    match k
    case IntKey(_) => true
    case StrKey(s) => IsNumericString(s)
  }

  function DigitChar(d: nat): (c: char)
    requires d < 10
    ensures IsDigit(c)
  {
    "0123456789"[d]
  }

  /** Decimal text of a natural number, as PHP prints it. */
  function NatToString(n: nat): (s: string)
    ensures |s| > 0
    ensures forall i :: 0 <= i < |s| ==> IsDigit(s[i])
  {
    if n < 10 then [DigitChar(n)] else NatToString(n / 10) + [DigitChar(n % 10)]
  }

  /** A key as text, as string concatenation prints it: a string key is its own text, an
      integer key its decimal digits after a minus sign exactly when it is negative. */
  function KeyText(k: Key): (r: string)
    ensures k.StrKey? ==> r == k.s
    ensures k.IntKey? ==> |r| > 0 && (r[0] == '-' <==> k.i < 0)
    ensures k.IntKey? ==> forall j :: (if k.i < 0 then 1 else 0) <= j < |r| ==> IsDigit(r[j])
  {
    match k
    case IntKey(i) => if i < 0 then "-" + NatToString(-i) else NatToString(i)
    case StrKey(s) => s
  }

  /** A run of digits is numeric. */
  lemma DigitsAreNumeric(s: string)
    requires |s| > 0
    requires forall i :: 0 <= i < |s| ==> IsDigit(s[i])
    ensures IsNumericString(s)
  {
    assert SkipSpaces(s, 0) == 0;
    DigitsRun(s, 0);
    assert SkipDigits(s, 0) == |s|;
  }

  lemma {:induction false} DigitsRun(s: string, i: nat)
    requires i <= |s|
    requires forall k :: i <= k < |s| ==> IsDigit(s[k])
    ensures SkipDigits(s, i) == |s|
    decreases |s| - i
  {
    if i < |s| {
      DigitsRun(s, i + 1);
    }
  }

  /** The text of an integer key is numeric, so keys that print as integers are
      classified alike whichever kind PHP stored them as. */
  lemma IntKeyTextIsNumeric(i: int)
    ensures IsNumericString(KeyText(IntKey(i)))
  {
    var t := KeyText(IntKey(i));
    if i < 0 {
      var n := NatToString(-i);
      assert t == "-" + n;
      assert SkipSpaces(t, 0) == 0;
      DigitsRun(t, 1);
    } else {
      DigitsAreNumeric(t);
    }
  }

  /** A column name that starts with a letter or an underscore is never numeric. */
  lemma IdentifierIsNotNumeric(s: string)
    requires |s| > 0
    requires 'a' <= s[0] <= 'z' || 'A' <= s[0] <= 'Z' || s[0] == '_'
    ensures !IsNumericString(s)
  {
  }

  /** `implode($glue, $pieces)`. */
  function Join(sep: string, xs: seq<string>): string
    decreases |xs|
  {
    if |xs| == 0 then "" else if |xs| == 1 then xs[0] else xs[0] + sep + Join(sep, xs[1..])
  }

  /** Joining two non-empty lists puts one separator between their joins. */
  lemma {:induction false} JoinAppend(sep: string, a: seq<string>, b: seq<string>)
    requires |a| > 0 && |b| > 0
    ensures Join(sep, a + b) == Join(sep, a) + sep + Join(sep, b)
    decreases |a|
  {
    if |a| == 1 {
      assert (a + b)[1..] == b;
    } else {
      assert (a + b)[1..] == a[1..] + b;
      JoinAppend(sep, a[1..], b);
    }
  }

  /** A join begins with its first piece. */
  lemma JoinStartsWithFirst(sep: string, xs: seq<string>)
    requires |xs| > 0
    ensures xs[0] <= Join(sep, xs)
  {
  }

  /** A join of pieces that are all non-empty is empty exactly when there are no pieces. */
  lemma JoinEmptyIff(sep: string, xs: seq<string>)
    requires forall i :: 0 <= i < |xs| ==> xs[i] != ""
    ensures Join(sep, xs) == "" <==> |xs| == 0
  {
    if |xs| > 0 {
      JoinStartsWithFirst(sep, xs);
    }
  }

  /** `if (implode($sep, $a) != '') $parts[] = implode($sep, $a);` for two groups in a row,
      then `implode($sep, $parts)`: unless a group is the single piece `''`, whose join is
      dropped, this is one join over both groups, the first group first. */
  lemma JoinOfGroups(sep: string, a: seq<string>, b: seq<string>)
    requires sep != "" && a != [""] && b != [""]
    ensures Join(sep, Group(sep, a) + Group(sep, b)) == Join(sep, a + b)
  {
    JoinEmptyExactly(sep, a);
    JoinEmptyExactly(sep, b);
    if |a| > 0 && |b| > 0 {
      assert Join(sep, Group(sep, a) + Group(sep, b)) == Join(sep, a) + sep + Join(sep, b);
      JoinAppend(sep, a, b);
    } else if |a| > 0 {
      assert a + b == a;
    } else {
      assert a + b == b;
    }
  }

  /** The one-element list `[implode($sep, $xs)]` when that join is not `''`, else `[]`. */
  function Group(sep: string, xs: seq<string>): (g: seq<string>)
    ensures |g| <= 1
    ensures g == [] <==> Join(sep, xs) == ""
    ensures g != [] ==> g[0] == Join(sep, xs)
  {
    var j := Join(sep, xs);
    if j != "" then [j] else []
  }

  /** Each piece with `p` in front of it. */
  function Prefixed(p: string, xs: seq<string>): (r: seq<string>)
    ensures |r| == |xs|
    ensures forall i :: 0 <= i < |xs| ==> r[i] == p + xs[i]
  {
    seq(|xs|, i requires 0 <= i < |xs| => p + xs[i])
  }

  /** Writing `p` once in front and gluing with `sep + p` is the same as prefixing every
      piece with `p` and gluing with `sep`: the trick `implode(',:', $keys)` uses. */
  lemma {:induction false} JoinPrefixed(p: string, sep: string, xs: seq<string>)
    requires |xs| > 0
    ensures p + Join(sep + p, xs) == Join(sep, Prefixed(p, xs))
    decreases |xs|
  {
    if |xs| > 1 {
      JoinPrefixed(p, sep, xs[1..]);
      assert Prefixed(p, xs)[1..] == Prefixed(p, xs[1..]);
    }
  }

  /** `str_replace('.', '', $s)`. */
  function StripDots(s: string): (r: string)
    ensures '.' !in r
    ensures |r| <= |s|
    ensures forall c :: c in r ==> c in s
  {
    if s == [] then [] else (if s[0] == '.' then [] else [s[0]]) + StripDots(s[1..])
  }

  /** Text without a dot is left as it is. */
  lemma {:induction false} StripDotsNoDot(s: string)
    requires '.' !in s
    ensures StripDots(s) == s
  {
    if s != [] {
      assert '.' !in s[1..];
      StripDotsNoDot(s[1..]);
    }
  }

  /** Stripping twice is stripping once. */
  lemma StripDotsIdempotent(s: string)
    ensures StripDots(StripDots(s)) == StripDots(s)
  {
    StripDotsNoDot(StripDots(s));
  }

  /** `array_keys($a)` of an insertion-ordered array. */
  function Names<V>(a: seq<(string, V)>): (r: seq<string>)
    ensures |r| == |a|
    ensures forall i :: 0 <= i < |a| ==> r[i] == a[i].0
  {
    seq(|a|, i requires 0 <= i < |a| => a[i].0)
  }

  /** `unset($a[$k])`: the entry under `k` goes, the others keep their order. */
  function Unset<V>(a: seq<(string, V)>, k: string): (r: seq<(string, V)>)
    ensures k !in Names(r)
    ensures |r| <= |a|
    ensures forall j :: 0 <= j < |r| ==> r[j] in a && r[j].0 != k
    ensures forall i :: 0 <= i < |a| && a[i].0 != k ==> a[i] in r
  {
    if a == [] then []
    else (if a[0].0 == k then [] else [a[0]]) + Unset(a[1..], k)
  }

  /** `$a[$k] = $v`: an existing entry is overwritten where it stands, a new one goes last. */
  function Put<V>(a: seq<(string, V)>, k: string, v: V): (r: seq<(string, V)>)
    ensures k in Names(r)
    ensures |r| == if k in Names(a) then |a| else |a| + 1
    ensures forall i :: 0 <= i < |a| ==> r[i].0 == a[i].0 && r[i].1 == (if a[i].0 == k then v else a[i].1)
    ensures k !in Names(a) ==> r[|a|] == (k, v)
  {
    if k in Names(a) then Overwrite(a, k, v)
    else
      var r := a + [(k, v)];
      assert Names(r)[|a|] == k;
      r
  }

  /** Every entry under `k` now holds `v`; every key stays where it is and every other
      value is kept. */
  function Overwrite<V>(a: seq<(string, V)>, k: string, v: V): (r: seq<(string, V)>)
    ensures Names(r) == Names(a)
    ensures forall i :: 0 <= i < |a| ==> r[i].0 == a[i].0 && r[i].1 == (if a[i].0 == k then v else a[i].1)
  {
    seq(|a|, i requires 0 <= i < |a| => if a[i].0 == k then (k, v) else a[i])
  }

  lemma NamesAppend<V>(a: seq<(string, V)>, b: seq<(string, V)>)
    ensures Names(a + b) == Names(a) + Names(b)
  {
  }

  lemma {:induction false} UnsetAbsent<V>(a: seq<(string, V)>, k: string)
    requires k !in Names(a)
    ensures Unset(a, k) == a
  {
    if a != [] {
      assert a[0].0 == Names(a)[0];
      assert Names(a[1..]) == Names(a)[1..];
      UnsetAbsent(a[1..], k);
    }
  }

  /** `unset` works entry by entry, so it keeps the order of what remains. */
  lemma {:induction false} UnsetAppend<V>(a: seq<(string, V)>, b: seq<(string, V)>, k: string)
    ensures Unset(a + b, k) == Unset(a, k) + Unset(b, k)
  {
    if a == [] {
      assert a + b == b;
    } else {
      assert (a + b)[1..] == a[1..] + b;
      UnsetAppend(a[1..], b, k);
    }
  }

  /** The set of keys of an insertion-ordered array. */
  function KeySet<V>(a: seq<(string, V)>): (r: set<string>)
    ensures forall x :: x in r <==> x in Names(a)
  {
    set i | 0 <= i < |a| :: a[i].0
  }

  /** No key occurs twice, as in every PHP array. */
  predicate UniqueNames<V>(a: seq<(string, V)>) {
    forall i, j :: 0 <= i < j < |a| ==> a[i].0 != a[j].0
  }

  /** `unset` removes exactly its key from the key set. */
  lemma UnsetKeys<V>(a: seq<(string, V)>, k: string)
    ensures KeySet(Unset(a, k)) == KeySet(a) - {k}
  {
    var r := Unset(a, k);
    forall x | x in KeySet(a) && x != k ensures x in KeySet(r) {
      var i :| 0 <= i < |a| && a[i].0 == x;
      assert a[i] in r;
      var j :| 0 <= j < |r| && r[j] == a[i];
      assert Names(r)[j] == x;
    }
    forall x | x in KeySet(r) ensures x in KeySet(a) {
      var j :| 0 <= j < |r| && r[j].0 == x;
      assert r[j] in a;
      var i :| 0 <= i < |a| && a[i] == r[j];
      assert Names(a)[i] == x;
    }
  }

  /** An assignment adds exactly its key to the key set. */
  lemma PutKeys<V>(a: seq<(string, V)>, k: string, v: V)
    ensures KeySet(Put(a, k, v)) == KeySet(a) + {k}
  {
    var r := Put(a, k, v);
    forall x | x in KeySet(a) ensures x in KeySet(r) {
      var i :| 0 <= i < |a| && a[i].0 == x;
      assert Names(r)[i] == x;
    }
    forall x | x in KeySet(r) && x != k ensures x in KeySet(a) {
      var j :| 0 <= j < |r| && r[j].0 == x;
      assert Names(a)[j] == x;
    }
  }

  /** With a separator, a join is `''` only when there is no piece or one empty piece. */
  lemma JoinEmptyExactly(sep: string, xs: seq<string>)
    requires sep != ""
    ensures Join(sep, xs) == "" <==> xs == [] || xs == [""]
  {
    if |xs| == 1 {
      assert xs == [xs[0]];
    }
  }

  /** Keeping a join only when it is not `''` and joining the result again changes nothing. */
  lemma JoinGroup(sep: string, xs: seq<string>)
    ensures Join(sep, Group(sep, xs)) == Join(sep, xs)
  {
  }

  /** PHP 7 `substr($s, $start, $length)` for a start that is not negative: `false`
      (here `None`) when the start lies past the end or a negative length reaches back
      before the start; otherwise `length` characters from `start`, fewer at the end of
      the string, and a negative length stops that many characters before the end. */
  function Substr(s: string, start: nat, length: int): (r: Option<string>)
    ensures r.None? <==> start > |s| || (length < 0 && |s| - start + length < 0)
    ensures r.Some? && length >= 0 ==> r.value == s[start..if start + length <= |s| then start + length else |s|]
    ensures r.Some? && length < 0 ==> r.value == s[start..|s| + length]
  {
    if start > |s| then None
    else if length < 0 && |s| - start + length < 0 then None
    else
      var l := if length < 0 then |s| - start + length else if length > |s| - start then |s| - start else length;
      Some(s[start..start + l])
  }

  /** A string or `false` as concatenation prints it: `false` prints as `''`. */
  function Text(r: Option<string>): string {
    match r
    case None => ""
    case Some(t) => t
  }
}
