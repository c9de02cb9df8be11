/** Vocabulary shared by the services and components of the school dashboard:
    optional values and results, instants and calendar days, the JavaScript
    string operations the source relies on (toLowerCase, trim, includes),
    Array.prototype.filter and a stable sort by key, Math.round, and the
    list helpers behind the in-memory stores (max + 1 ids, findIndex,
    add-if-absent, remove-all). */
module Common {

  datatype Option<T> = None | Some(value: T) {
    function GetOr(default: T): T {
      if Some? then value else default
    }
  }

  /** The outcome of a call that can throw: Failure carries the Error's message. */
  datatype Result<T> = Success(value: T) | Failure(message: string)

  // ---------------------------------------------------------------------
  // Time. Instants are milliseconds since 1970-01-01T00:00 in local time;
  // calendar days are numbered from that day (day 0, a Thursday).

  const DAY_MS: int := 1000 * 60 * 60 * 24

  /** The calendar day an instant falls on. */
  function DayOf(instant: int): int {
    instant / DAY_MS
  }

  /** Local midnight at the start of a calendar day. */
  function StartOfDay(day: int): int {
    day * DAY_MS
  }

  lemma DayOfShift(instant: int, k: int)
    ensures DayOf(instant + k * DAY_MS) == DayOf(instant) + k
  {
    var q, r := instant / DAY_MS, instant % DAY_MS;
    assert instant + k * DAY_MS == (q + k) * DAY_MS + r;
  }

  /** An instant lies between the midnight of its day and the next midnight. */
  lemma DayOfBounds(instant: int)
    ensures StartOfDay(DayOf(instant)) <= instant < StartOfDay(DayOf(instant) + 1)
  {
  }

  lemma DayOfStartOfDay(day: int)
    ensures DayOf(StartOfDay(day)) == day
  {
    DayOfShift(0, day);
  }

  /** Day of the week, 0 = Sunday through 6 = Saturday. */
  function Weekday(day: int): (w: int)
    ensures 0 <= w < 7
  {
    (day + 4) % 7
  }

  // ---------------------------------------------------------------------
  // Strings.

  /** The characters JavaScript's String.prototype.trim removes and the
      regular-expression class \s matches (WhiteSpace and LineTerminator). */
  predicate IsJsWhitespace(c: char) {
    || c == ' ' || c == '\t' || c == '\n' || c == '\r'
    || c == '\U{B}' || c == '\U{C}' || c == '\U{A0}' || c == '\U{1680}'
    || ('\U{2000}' <= c <= '\U{200A}')
    || c == '\U{2028}' || c == '\U{2029}' || c == '\U{202F}'
    || c == '\U{205F}' || c == '\U{3000}' || c == '\U{FEFF}'
  }

  function LowerChar(c: char): char {
    if 'A' <= c <= 'Z' then (c as int + 32) as char else c
  }

  /** String.prototype.toLowerCase, for the ASCII letters. */
  function Lower(s: string): (r: string)
    ensures |r| == |s|
    ensures forall i :: 0 <= i < |s| ==> r[i] == LowerChar(s[i])
  {
    seq(|s|, i requires 0 <= i < |s| => LowerChar(s[i]))
  }

  function TrimStart(s: string): string {
    if s != [] && IsJsWhitespace(s[0]) then TrimStart(s[1..]) else s
  }

  function TrimEnd(s: string): string {
    if s != [] && IsJsWhitespace(s[|s| - 1]) then TrimEnd(s[..|s| - 1]) else s
  }

  /** String.prototype.trim. */
  function Trim(s: string): string {
    TrimEnd(TrimStart(s))
  }

  /** `!s.trim()`: the text is empty once trimmed. */
  predicate IsBlank(s: string) {
    Trim(s) == ""
  }

  predicate AllWhitespace(s: string) {
    forall i :: 0 <= i < |s| ==> IsJsWhitespace(s[i])
  }

  lemma {:induction false} TrimStartEmpty(s: string)
    ensures TrimStart(s) == "" <==> AllWhitespace(s)
  {
    if s != [] && IsJsWhitespace(s[0]) {
      TrimStartEmpty(s[1..]);
      assert AllWhitespace(s[1..]) ==> AllWhitespace(s) by {
        if AllWhitespace(s[1..]) {
          forall i | 0 <= i < |s| ensures IsJsWhitespace(s[i]) {
            if i > 0 { assert s[i] == s[1..][i - 1]; }
          }
        }
      }
    }
  }

  lemma {:induction false} TrimEndEmpty(s: string)
    requires s == [] || !IsJsWhitespace(s[0])
    ensures TrimEnd(s) == "" <==> s == ""
  {
    if s != [] && IsJsWhitespace(s[|s| - 1]) {
      assert |s| > 1;
      TrimEndEmpty(s[..|s| - 1]);
    }
  }

  /** A text is blank for `!s.trim()` exactly when every character is whitespace. */
  lemma BlankIffAllWhitespace(s: string)
    ensures IsBlank(s) <==> AllWhitespace(s)
  {
    TrimStartEmpty(s);
    var t := TrimStart(s);
    if t != "" {
      assert !IsJsWhitespace(t[0]) by { TrimStartHead(s); }
    }
    TrimEndEmpty(t);
  }

  lemma {:induction false} TrimStartHead(s: string)
    requires TrimStart(s) != ""
    ensures !IsJsWhitespace(TrimStart(s)[0])
  {
    if s != [] && IsJsWhitespace(s[0]) {
      TrimStartHead(s[1..]);
    }
  }

  /** String.prototype.includes: `sub` occurs in `s` at some position. */
  predicate Contains(s: string, sub: string) {
    exists i | 0 <= i <= |s| - |sub| :: OccursAt(s, sub, i)
  }

  predicate OccursAt(s: string, sub: string, i: int) {
    0 <= i <= |s| - |sub| && s[i..i + |sub|] == sub
  }

  lemma ContainsEmpty(s: string)
    ensures Contains(s, "")
  {
    assert OccursAt(s, "", 0);
  }

  lemma NothingInEmpty(sub: string)
    requires sub != ""
    ensures !Contains("", sub)
  {
  }

  // ---------------------------------------------------------------------
  // Sequences.

  /** Array.prototype.filter. */
  function Filter<T>(s: seq<T>, p: T -> bool): (r: seq<T>)
    ensures |r| <= |s|
    ensures forall x :: x in r ==> x in s && p(x)
    ensures forall x :: x in s && p(x) ==> x in r
  {
    if s == [] then []
    else if p(s[0]) then [s[0]] + Filter(s[1..], p)
    else Filter(s[1..], p)
  }

  /** `a` is `b` with some elements left out, the rest in their order. */
  predicate IsSubsequence<T(==)>(a: seq<T>, b: seq<T>) {
    if a == [] then true
    else if b == [] then false
    else if a[0] == b[0] then IsSubsequence(a[1..], b[1..])
    else IsSubsequence(a, b[1..])
  }

  lemma {:induction false} FilterIsSubsequence<T>(s: seq<T>, p: T -> bool)
    ensures IsSubsequence(Filter(s, p), s)
  {
    if s != [] {
      FilterIsSubsequence(s[1..], p);
      if p(s[0]) {
        assert Filter(s, p)[1..] == Filter(s[1..], p);
      } else {
        var r := Filter(s, p);
        if r != [] {
          SubsequenceSkip(r, s[1..], s[0]);
        }
      }
    }
  }

  lemma {:induction false} SubsequenceSkip<T>(a: seq<T>, b: seq<T>, x: T)
    requires IsSubsequence(a, b)
    decreases |a| + |b| + 1
    ensures IsSubsequence(a, [x] + b)
  {
    if a != [] {
      var b' := [x] + b;
      assert b'[1..] == b;
      if a[0] == x {
        SubsequenceDropHead(a, b);
      }
    }
  }

  lemma {:induction false} SubsequenceDropHead<T>(a: seq<T>, b: seq<T>)
    requires a != [] && IsSubsequence(a, b)
    decreases |a| + |b|
    ensures IsSubsequence(a[1..], b)
  {
    if b != [] && a[0] != b[0] {
      SubsequenceDropHead(a, b[1..]);
      SubsequenceSkip(a[1..], b[1..], b[0]);
      assert [b[0]] + b[1..] == b;
    } else if b != [] {
      SubsequenceSkip(a[1..], b[1..], b[0]);
      assert [b[0]] + b[1..] == b;
    }
  }

  /** Filtering keeps everything when every element passes. */
  lemma {:induction false} FilterAll<T>(s: seq<T>, p: T -> bool)
    requires forall x :: x in s ==> p(x)
    ensures Filter(s, p) == s
  {
    if s != [] {
      FilterAll(s[1..], p);
    }
  }

  /** Filtering by a weaker predicate keeps at least as many elements. */
  lemma {:induction false} FilterCountMonotone<T>(s: seq<T>, p: T -> bool, q: T -> bool)
    requires forall x :: p(x) ==> q(x)
    ensures |Filter(s, p)| <= |Filter(s, q)|
  {
    if s != [] {
      FilterCountMonotone(s[1..], p, q);
    }
  }

  /** Filtering twice is filtering once by both conditions. */
  lemma {:induction false} FilterAnd<T>(s: seq<T>, p: T -> bool, q: T -> bool, both: T -> bool)
    requires forall x :: both(x) == (p(x) && q(x))
    ensures Filter(Filter(s, p), q) == Filter(s, both)
  {
    if s != [] {
      FilterAnd(s[1..], p, q, both);
      if p(s[0]) {
        assert Filter(s, p) == [s[0]] + Filter(s[1..], p);
        assert ([s[0]] + Filter(s[1..], p))[1..] == Filter(s[1..], p);
      }
    }
  }

  /** Filters by pointwise equal predicates agree. */
  lemma {:induction false} FilterSame<T>(s: seq<T>, p: T -> bool, q: T -> bool)
    requires forall x :: p(x) == q(x)
    ensures Filter(s, p) == Filter(s, q)
  {
    if s != [] {
      FilterSame(s[1..], p, q);
    }
  }

  /** Three pairwise exclusive predicates together select at most every element. */
  lemma {:induction false} FilterCountDisjoint3<T>(s: seq<T>, p: T -> bool, q: T -> bool, r: T -> bool)
    requires forall x :: !(p(x) && q(x)) && !(p(x) && r(x)) && !(q(x) && r(x))
    ensures |Filter(s, p)| + |Filter(s, q)| + |Filter(s, r)| <= |s|
  {
    if s != [] {
      FilterCountDisjoint3(s[1..], p, q, r);
    }
  }

  /** No value occurs twice. */
  predicate Distinct<T(==)>(s: seq<T>) {
    forall i, j :: 0 <= i < j < |s| ==> s[i] != s[j]
  }

  // ---------------------------------------------------------------------
  // Record ids.

  /** The ids of a list of records, in list order; `id` reads a record's Id. */
  function Ids<T>(s: seq<T>, id: T -> int): (ids: seq<int>)
    ensures |ids| == |s| && forall i :: 0 <= i < |s| ==> ids[i] == id(s[i])
  {
    seq(|s|, i requires 0 <= i < |s| => id(s[i]))
  }

  lemma IdsAppend<T>(s: seq<T>, x: T, id: T -> int)
    ensures Ids(s + [x], id) == Ids(s, id) + [id(x)]
  {
  }

  /** Splicing out one record splices out its id, and keeps distinct ids distinct. */
  lemma IdsSplice<T>(s: seq<T>, k: int, id: T -> int)
    requires 0 <= k < |s|
    ensures Ids(s[..k] + s[k + 1..], id) == Ids(s, id)[..k] + Ids(s, id)[k + 1..]
    ensures |s[..k] + s[k + 1..]| == |s| - 1
    ensures Distinct(Ids(s, id)) ==> Distinct(Ids(s[..k] + s[k + 1..], id))
  {
    assert Ids(s[..k] + s[k + 1..], id) == Ids(s, id)[..k] + Ids(s, id)[k + 1..];
    if Distinct(Ids(s, id)) {
      DistinctRemove(Ids(s, id), k);
    }
  }

  /** Replacing a record by one with the same Id keeps the ids. */
  lemma IdsReplace<T>(s: seq<T>, k: int, x: T, id: T -> int)
    requires 0 <= k < |s| && id(x) == id(s[k])
    ensures Ids(s[k := x], id) == Ids(s, id)
  {
  }

  /** `Math.max(...ids, 0)`. */
  function MaxOrZero(ids: seq<int>): (m: int)
    ensures m >= 0
    ensures forall i :: 0 <= i < |ids| ==> ids[i] <= m
    ensures m == 0 || m in ids
  {
    if ids == [] then 0
    else
      var rest := MaxOrZero(ids[1..]);
      if ids[0] > rest then ids[0] else rest
  }

  /** `Math.max(...ids)` of a non-empty list. */
  function Max(ids: seq<int>): (m: int)
    requires ids != []
    ensures forall i :: 0 <= i < |ids| ==> ids[i] <= m
    ensures m in ids
  {
    if |ids| == 1 then ids[0]
    else
      var rest := Max(ids[1..]);
      if ids[0] > rest then ids[0] else rest
  }

  /** Array.prototype.findIndex on the ids: the first position holding `id`, or -1. */
  function FirstIndex(ids: seq<int>, id: int): (k: int)
    ensures -1 <= k < |ids|
    ensures k == -1 <==> id !in ids
    ensures k >= 0 ==> ids[k] == id && forall j :: 0 <= j < k ==> ids[j] != id
  {
    if ids == [] then -1
    else if ids[0] == id then 0
    else
      var k := FirstIndex(ids[1..], id);
      if k == -1 then -1 else k + 1
  }

  /** With distinct ids, the first position holding an id is the only one. */
  lemma FirstIndexUnique(ids: seq<int>, id: int, j: int)
    requires Distinct(ids) && 0 <= j < |ids| && ids[j] == id
    ensures FirstIndex(ids, id) == j
  {
  }

  /** Removing the element at one position keeps the others distinct. */
  lemma DistinctRemove(ids: seq<int>, k: int)
    requires Distinct(ids) && 0 <= k < |ids|
    ensures Distinct(ids[..k] + ids[k + 1..])
  {
    var r := ids[..k] + ids[k + 1..];
    forall i, j | 0 <= i < j < |r| ensures r[i] != r[j] {
      var i' := if i < k then i else i + 1;
      var j' := if j < k then j else j + 1;
      assert r[i] == ids[i'] && r[j] == ids[j'];
    }
  }

  // ---------------------------------------------------------------------
  // Membership lists (`if (!xs.includes(x)) xs.push(x)` and `xs.filter(y => y !== x)`).

  function AddIfAbsent(s: seq<int>, x: int): seq<int> {
    if x in s then s else s + [x]
  }

  /** Adding a member is idempotent, keeps the list free of duplicates and
      keeps every earlier member in its place. */
  lemma AddIfAbsentProperties(s: seq<int>, x: int)
    ensures x in AddIfAbsent(s, x)
    ensures AddIfAbsent(AddIfAbsent(s, x), x) == AddIfAbsent(s, x)
    ensures forall y :: y in AddIfAbsent(s, x) <==> y in s || y == x
    ensures |s| <= |AddIfAbsent(s, x)| <= |s| + 1
    ensures AddIfAbsent(s, x)[..|s|] == s
    ensures Distinct(s) ==> Distinct(AddIfAbsent(s, x))
  {
  }

  function RemoveAll(s: seq<int>, x: int): seq<int> {
    Filter(s, (y: int) => y != x)
  }

  /** Removing a member drops every occurrence of it and keeps the others in order. */
  lemma RemoveAllProperties(s: seq<int>, x: int)
    ensures x !in RemoveAll(s, x)
    ensures forall y :: y in RemoveAll(s, x) <==> y in s && y != x
    ensures IsSubsequence(RemoveAll(s, x), s)
    ensures x !in s ==> RemoveAll(s, x) == s
  {
    FilterIsSubsequence(s, (y: int) => y != x);
    if x !in s {
      FilterAll(s, (y: int) => y != x);
    }
  }

  // ---------------------------------------------------------------------
  // Stable sort by an integer key (Array.prototype.sort with a comparator
  // that subtracts keys; the sort is stable).

  predicate SortedByKey<T>(s: seq<T>, key: T -> int) {
    forall i, j :: 0 <= i < j < |s| ==> key(s[i]) <= key(s[j])
  }

  /** Puts `x` before the first element whose key is not smaller than its own. */
  function InsertByKey<T>(x: T, s: seq<T>, key: T -> int): seq<T> {
    if s == [] || key(x) <= key(s[0]) then [x] + s
    else [s[0]] + InsertByKey(x, s[1..], key)
  }

  function SortByKey<T>(s: seq<T>, key: T -> int): seq<T> {
    if s == [] then [] else InsertByKey(s[0], SortByKey(s[1..], key), key)
  }

  /** The elements of `s` whose key is `k`, in their order in `s`. */
  function WithKey<T>(s: seq<T>, key: T -> int, k: int): seq<T> {
    if s == [] then []
    else (if key(s[0]) == k then [s[0]] else []) + WithKey(s[1..], key, k)
  }

  lemma {:induction false} InsertByKeyAbove<T>(x: T, s: seq<T>, key: T -> int, b: int)
    requires b <= key(x)
    requires forall i :: 0 <= i < |s| ==> b <= key(s[i])
    ensures forall i :: 0 <= i < |InsertByKey(x, s, key)| ==> b <= key(InsertByKey(x, s, key)[i])
  {
    if s != [] && key(x) > key(s[0]) {
      InsertByKeyAbove(x, s[1..], key, b);
    }
  }

  lemma {:induction false} InsertByKeySorted<T>(x: T, s: seq<T>, key: T -> int)
    requires SortedByKey(s, key)
    ensures SortedByKey(InsertByKey(x, s, key), key)
  {
    if s != [] && key(x) > key(s[0]) {
      var t := InsertByKey(x, s[1..], key);
      InsertByKeySorted(x, s[1..], key);
      InsertByKeyAbove(x, s[1..], key, key(s[0]));
      var r := [s[0]] + t;
      forall i, j | 0 <= i < j < |r| ensures key(r[i]) <= key(r[j]) {
        assert r[j] == t[j - 1];
        if i > 0 { assert r[i] == t[i - 1]; }
      }
    }
  }

  lemma {:induction false} InsertByKeyMultiset<T>(x: T, s: seq<T>, key: T -> int)
    ensures multiset(InsertByKey(x, s, key)) == multiset{x} + multiset(s)
    ensures |InsertByKey(x, s, key)| == |s| + 1
  {
    if s != [] && key(x) > key(s[0]) {
      InsertByKeyMultiset(x, s[1..], key);
      assert s == [s[0]] + s[1..];
    }
  }

  lemma {:induction false} InsertByKeyWithKey<T>(x: T, s: seq<T>, key: T -> int, k: int)
    ensures WithKey(InsertByKey(x, s, key), key, k)
         == (if key(x) == k then [x] else []) + WithKey(s, key, k)
  {
    if s == [] || key(x) <= key(s[0]) {
      assert ([x] + s)[1..] == s;
    } else {
      InsertByKeyWithKey(x, s[1..], key, k);
      var rest := InsertByKey(x, s[1..], key);
      var t := [s[0]] + rest;
      assert t[1..] == rest;
      if key(x) == k {
        // s[0] has a smaller key, so only x can be selected here
        assert WithKey(t, key, k) == WithKey(rest, key, k);
        assert WithKey(s, key, k) == WithKey(s[1..], key, k);
      } else {
        assert WithKey(rest, key, k) == WithKey(s[1..], key, k);
      }
    }
  }

  /** The sort orders by key, is a permutation, and keeps elements with equal
      keys in their original order. */
  lemma {:induction false} SortByKeyCorrect<T>(s: seq<T>, key: T -> int)
    ensures SortedByKey(SortByKey(s, key), key)
    ensures multiset(SortByKey(s, key)) == multiset(s)
    ensures |SortByKey(s, key)| == |s|
    ensures forall x :: x in SortByKey(s, key) <==> x in s
    ensures forall k :: WithKey(SortByKey(s, key), key, k) == WithKey(s, key, k)
  {
    if s != [] {
      SortByKeyCorrect(s[1..], key);
      InsertByKeySorted(s[0], SortByKey(s[1..], key), key);
      InsertByKeyMultiset(s[0], SortByKey(s[1..], key), key);
      assert s == [s[0]] + s[1..];
      forall k ensures WithKey(SortByKey(s, key), key, k) == WithKey(s, key, k) {
        InsertByKeyWithKey(s[0], SortByKey(s[1..], key), key, k);
      }
    }
    forall x ensures x in SortByKey(s, key) <==> x in s {
      assert x in SortByKey(s, key) <==> x in multiset(SortByKey(s, key));
      assert x in s <==> x in multiset(s);
    }
  }

  // ---------------------------------------------------------------------
  // Form errors.

  /** An errors object with `f`'s message added when there is one. */
  function RecordError<F>(errors: map<F, string>, f: F, message: Option<string>): map<F, string> {
    if message.Some? then errors[f := message.value] else errors
  }

  // ---------------------------------------------------------------------
  // Rounding.

  /** Math.round: the nearest integer, halves rounded up. */
  function Round(x: real): int {
    (x + 0.5).Floor
  }

  lemma RoundBounds(x: real)
    ensures x - 0.5 < Round(x) as real <= x + 0.5
  {
  }

  lemma RoundMonotone(x: real, y: real)
    requires x <= y
    ensures Round(x) <= Round(y)
  {
  }

  /** Dividing by a positive number keeps the order. */
  lemma DivideMonotone(x: real, y: real, t: real)
    requires x <= y && t > 0.0
    ensures x / t <= y / t
  {
    var d := y / t - x / t;
    assert d * t == y - x;
  }

  /** Rounding a value between two integers stays between them. */
  lemma RoundBetween(x: real, lo: int, hi: int)
    requires lo as real <= x <= hi as real
    ensures lo <= Round(x) <= hi
  {
  }
}
