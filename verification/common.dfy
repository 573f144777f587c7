/** Sequence and dictionary idioms shared by the four ingestion scripts: list
    comprehension filters, counting, Python's `s[:k]` slice, the truthiness of an
    optional `--limit`, and `defaultdict(int)` counters. */
module Common {

  datatype Option<+T> = None | Some(value: T) {
    function GetOr(default: T): T {
      match this
      case Some(v) => v
      case None => default
    }
  }

  function Min(a: int, b: int): int { if a <= b then a else b }

  function Max(a: int, b: int): int { if a <= b then b else a }

  // ---------------------------------------------------------------------------
  // Filtering and counting

  /** The elements of `s` that `keep` accepts, in their original order. */
  function Filter<T>(s: seq<T>, keep: T -> bool): (r: seq<T>)
    ensures |r| <= |s|
  {
    if s == [] then []
    else Filter(s[..|s| - 1], keep) + (if keep(s[|s| - 1]) then [s[|s| - 1]] else [])
  }

  /** How many elements of `s` satisfy `p`. */
  function Count<T>(s: seq<T>, p: T -> bool): (n: nat)
    ensures n <= |s|
  {
    if s == [] then 0 else Count(s[..|s| - 1], p) + (if p(s[|s| - 1]) then 1 else 0)
  }

  /** A cache that only ever gains new elements: it keeps everything it held
      at the start, and grows by one exactly when an element was added. */
  lemma CacheStep<T>(start: set<T>, before: set<T>, after: set<T>, x: T, added: bool)
    requires start <= before
    requires after == before + (if added then {x} else {})
    requires added ==> x !in before
    ensures start <= after
    ensures |after| == |before| + (if added then 1 else 0)
  {
  }

  /** An element is in the filtered list exactly when it is in the input and accepted. */
  lemma {:induction false} FilterMembers<T>(s: seq<T>, keep: T -> bool, x: T)
    ensures x in Filter(s, keep) <==> x in s && keep(x)
  {
    if s != [] {
      FilterMembers(s[..|s| - 1], keep, x);
      assert s == s[..|s| - 1] + [s[|s| - 1]];
    }
  }

  /** The filtered list is exactly as long as the number of accepted elements. */
  lemma {:induction false} FilterLength<T>(s: seq<T>, keep: T -> bool)
    ensures |Filter(s, keep)| == Count(s, keep)
  {
    if s != [] {
      FilterLength(s[..|s| - 1], keep);
    }
  }

  /** Filtering commutes with concatenation: what is kept from `a` comes before
      what is kept from `b`, so the input order is preserved. */
  lemma {:induction false} FilterConcat<T>(a: seq<T>, b: seq<T>, keep: T -> bool)
    ensures Filter(a + b, keep) == Filter(a, keep) + Filter(b, keep)
  {
    if b != [] {
      assert (a + b)[..|a + b| - 1] == a + b[..|b| - 1];
      FilterConcat(a, b[..|b| - 1], keep);
    } else {
      assert a + b == a;
    }
  }

  /** Two properties no element has at once are counted at most once per element. */
  lemma {:induction false} CountDisjoint<T>(s: seq<T>, p: T -> bool, q: T -> bool)
    requires forall x :: !(p(x) && q(x))
    ensures Count(s, p) + Count(s, q) <= |s|
  {
    if s != [] {
      CountDisjoint(s[..|s| - 1], p, q);
    }
  }

  // ---------------------------------------------------------------------------
  // Python slicing and the optional limit

  /** Python's `s[:k]`, negative `k` counting from the end. */
  function PyPrefix<T>(s: seq<T>, k: int): (r: seq<T>)
    ensures |r| <= |s| && r == s[..|r|]
  {
    if k >= 0 then s[..Min(k, |s|)] else s[..Max(0, |s| + k)]
  }

  /** `if limit:` on an optional integer: neither `None` nor `0`. */
  predicate LimitGiven(limit: Option<int>) {
    limit.Some? && limit.value != 0
  }

  /** `if limit: items = items[:limit]`. */
  function ApplyLimit<T>(s: seq<T>, limit: Option<int>): seq<T> {
    if LimitGiven(limit) then PyPrefix(s, limit.value) else s
  }

  /** The limited list is a prefix of the input: its first `limit` elements for a
      positive limit, everything but the last `-limit` for a negative one, and the
      whole input when no limit (or `0`) is given. */
  lemma ApplyLimitPrefix<T>(s: seq<T>, limit: Option<int>)
    ensures var r := ApplyLimit(s, limit);
      && r == s[..|r|]
      && (!LimitGiven(limit) ==> r == s)
      && (LimitGiven(limit) && limit.value > 0 ==> |r| == Min(limit.value, |s|))
      && (LimitGiven(limit) && limit.value < 0 ==> |r| == Max(0, |s| + limit.value))
  {
  }

  // ---------------------------------------------------------------------------
  // defaultdict(int) counters

  /** How many elements of `s` have key `k`. */
  function CountKey<T>(s: seq<T>, key: T -> string, k: string): nat {
    if s == [] then 0
    else CountKey(s[..|s| - 1], key, k) + (if key(s[|s| - 1]) == k then 1 else 0)
  }

  /** The counter after `counts[key(x)] += 1` for every `x` of `s`, in order. */
  function TallyOf<T>(s: seq<T>, key: T -> string): map<string, nat> {
    if s == [] then map[]
    else Bump(TallyOf(s[..|s| - 1], key), key(s[|s| - 1]))
  }

  /** `counts[k] += 1` on a `defaultdict(int)`. */
  function Bump(m: map<string, nat>, k: string): map<string, nat> {
    m[k := (if k in m then m[k] else 0) + 1]
  }

  /** The sum of all counters. */
  ghost function SumValues(m: map<string, nat>): nat
    decreases |m|
  {
    if m == map[] then 0
    else
      var k := PickKey(m);
      m[k] + SumValues(m - {k})
  }

  ghost function PickKey(m: map<string, nat>): (k: string)
    requires m != map[]
    ensures k in m
  {
    var k :| k in m.Keys; k
  }

  /** The sum does not depend on which key is taken out first. */
  lemma {:induction false} SumValuesRemove(m: map<string, nat>, k: string)
    requires k in m
    ensures SumValues(m) == m[k] + SumValues(m - {k})
    decreases |m|
  {
    var j := PickKey(m);
    if j != k {
      var m' := m - {j};
      assert k in m';
      SumValuesRemove(m', k);
      assert m' - {k} == m - {k} - {j};
      SumValuesRemove(m - {k}, j);
    }
  }

  lemma BumpSum(m: map<string, nat>, k: string)
    ensures SumValues(Bump(m, k)) == SumValues(m) + 1
  {
    var b := Bump(m, k);
    SumValuesRemove(b, k);
    assert b - {k} == m - {k};
    if k in m {
      SumValuesRemove(m, k);
    } else {
      assert m - {k} == m;
    }
  }

  /** Every key of the counter counts its elements, the keys are exactly the keys
      that occur, and the counters add up to the number of elements counted. */
  lemma {:induction false} TallyOfCounts<T>(s: seq<T>, key: T -> string)
    ensures forall k :: k in TallyOf(s, key) <==> CountKey(s, key, k) > 0
    ensures forall k :: k in TallyOf(s, key) ==> TallyOf(s, key)[k] == CountKey(s, key, k)
    ensures SumValues(TallyOf(s, key)) == |s|
  {
    if s != [] {
      TallyOfCounts(s[..|s| - 1], key);
      BumpSum(TallyOf(s[..|s| - 1], key), key(s[|s| - 1]));
    }
  }
}
