/** The list idioms the crawler is written with: comprehension filters,
    `next(...)` over a generator, and a loop that breaks at the first hit. */
module Seqs {
  import opened Wrappers

  /** `[x for x in s if p(x)]`. */
  function Filter<T>(s: seq<T>, p: T -> bool): (r: seq<T>)
    ensures |r| <= |s|
  {
    if s == [] then []
    else (if p(s[0]) then [s[0]] else []) + Filter(s[1..], p)
  }

  /** The filter keeps exactly the elements that pass. */
  lemma {:induction false} FilterMembers<T>(s: seq<T>, p: T -> bool)
    ensures forall x | x in Filter(s, p) :: x in s && p(x)
    ensures forall x | x in s && p(x) :: x in Filter(s, p)
  {
    if s != [] {
      FilterMembers(s[1..], p);
      assert s == [s[0]] + s[1..];
    }
  }

  /** The keys of the elements rise strictly along the sequence (so no key repeats). */
  predicate StrictlyIncreasing<T>(s: seq<T>, key: T -> int) {
    forall i, j | 0 <= i < j < |s| :: key(s[i]) < key(s[j])
  }

  /** Filtering keeps the relative order of what it keeps. */
  lemma {:induction false} FilterKeepsIncreasing<T>(s: seq<T>, p: T -> bool, key: T -> int)
    requires StrictlyIncreasing(s, key)
    ensures StrictlyIncreasing(Filter(s, p), key)
  {
    if s != [] {
      FilterKeepsIncreasing(s[1..], p, key);
      var tail := Filter(s[1..], p);
      FilterMembers(s[1..], p);
      forall x | x in tail ensures key(s[0]) < key(x) {
        var k :| 0 <= k < |s[1..]| && s[1..][k] == x;
        assert s[k + 1] == x;
      }
    }
  }

  /** Index of the first element satisfying `p`. */
  function FirstIndex<T>(s: seq<T>, p: T -> bool): (r: Option<nat>)
    ensures r.Some? ==> r.value < |s| && p(s[r.value])
    ensures r.Some? ==> forall j | 0 <= j < r.value :: !p(s[j])
    ensures r.None? <==> forall j | 0 <= j < |s| :: !p(s[j])
  {
    if s == [] then None
    else if p(s[0]) then Some(0)
    else match FirstIndex(s[1..], p)
      case None => None
      case Some(k) => Some(k + 1)
  }

  /** `next((x for x in s if p(x)), None)`. */
  function FirstWhere<T>(s: seq<T>, p: T -> bool): (r: Option<T>)
    ensures r.Some? ==> r.value in s && p(r.value)
    ensures r.Some? ==> exists k | 0 <= k < |s| :: s[k] == r.value && forall j | 0 <= j < k :: !p(s[j])
    ensures r.None? <==> forall x | x in s :: !p(x)
  {
    match FirstIndex(s, p)
    case None => None
    case Some(k) => Some(s[k])
  }

  /** The first position from `i` up to `n` where `p` holds, trying each in turn. */
  function FirstFrom(p: nat -> bool, i: nat, n: nat): (r: Option<nat>)
    requires i <= n
    ensures r.Some? ==> i <= r.value <= n && p(r.value)
    ensures r.Some? ==> forall k | i <= k < r.value :: !p(k)
    ensures r.None? ==> forall k | i <= k <= n :: !p(k)
    decreases n - i
  {
    if p(i) then Some(i) else if i == n then None else FirstFrom(p, i + 1, n)
  }

  /** The elements before the first one failing `p` (a loop that appends and breaks). */
  function TakeWhile<T>(s: seq<T>, p: T -> bool): (r: seq<T>)
    ensures r <= s
    ensures forall x | x in r :: p(x)
    ensures |r| < |s| ==> !p(s[|r|])
  {
    if s == [] || !p(s[0]) then []
    else [s[0]] + TakeWhile(s[1..], p)
  }

  /** Python's slice `s[lo:hi]` with both bounds clamped to the length. */
  function Slice<T>(s: seq<T>, lo: nat, hi: nat): (r: seq<T>)
    ensures |s| <= lo ==> r == []
    ensures lo <= hi <= |s| ==> r == s[lo..hi]
    ensures lo <= |s| <= hi ==> r == s[lo..]
    ensures hi <= lo ==> r == []
  {
    var a := if lo < |s| then lo else |s|;
    var b := if hi < |s| then hi else |s|;
    if a <= b then s[a..b] else []
  }

  /** A filter that every element passes keeps the sequence whole. */
  lemma {:induction false} FilterAllPass<T>(s: seq<T>, p: T -> bool)
    requires forall k | 0 <= k < |s| :: p(s[k])
    ensures Filter(s, p) == s
  {
    if s != [] {
      assert forall k | 0 <= k < |s[1..]| :: s[1..][k] == s[k + 1];
      FilterAllPass(s[1..], p);
      assert s == [s[0]] + s[1..];
    }
  }

  /** `any(p(x) for x in s)`. */
  function Any<T>(s: seq<T>, p: T -> bool): (b: bool)
    ensures b <==> exists k | 0 <= k < |s| :: p(s[k])
  {
    if s == [] then false
    else if p(s[0]) then true
    else
      assert forall k | 1 <= k < |s| :: s[k] == s[1..][k - 1];
      Any(s[1..], p)
  }

  /** `[f(x) for x in xs]`. */
  function Map<A, B>(xs: seq<A>, f: A -> B): (ys: seq<B>)
    ensures |ys| == |xs|
    ensures forall k | 0 <= k < |xs| :: ys[k] == f(xs[k])
  {
    if xs == [] then [] else [f(xs[0])] + Map(xs[1..], f)
  }

  /** A loop that appends `f(x)` for each `x` in order. */
  method MapEach<A, B>(xs: seq<A>, f: A -> B) returns (ys: seq<B>)
    ensures ys == Map(xs, f)
  {
    ys := [];
    var j := 0;
    while j < |xs|
      invariant 0 <= j <= |xs|
      invariant |ys| == j
      invariant forall k | 0 <= k < j :: ys[k] == f(xs[k])
    {
      ys := ys + [f(xs[j])];
      j := j + 1;
    }
  }

  /** `"".join(parts)` for strings; the concatenation of the parts in order. */
  function Concat<T>(parts: seq<seq<T>>): seq<T> {
    if parts == [] then [] else parts[0] + Concat(parts[1..])
  }

  lemma {:induction false} ConcatAppend<T>(a: seq<seq<T>>, b: seq<seq<T>>)
    ensures Concat(a + b) == Concat(a) + Concat(b)
    decreases |a|
  {
    if a == [] {
      assert a + b == b;
    } else {
      assert (a + b)[1..] == a[1..] + b;
      ConcatAppend(a[1..], b);
    }
  }

  lemma {:induction false} MapAppend<A, B>(a: seq<A>, b: seq<A>, f: A -> B)
    ensures Map(a + b, f) == Map(a, f) + Map(b, f)
    decreases |a|
  {
    if a == [] {
      assert a + b == b;
    } else {
      assert (a + b)[1..] == a[1..] + b;
      MapAppend(a[1..], b, f);
    }
  }

  lemma {:induction false} FilterAppend<T>(a: seq<T>, b: seq<T>, p: T -> bool)
    ensures Filter(a + b, p) == Filter(a, p) + Filter(b, p)
    decreases |a|
  {
    if a == [] {
      assert a + b == b;
    } else {
      var head := if p(a[0]) then [a[0]] else [];
      assert (a + b)[0] == a[0];
      assert (a + b)[1..] == a[1..] + b;
      FilterAppend(a[1..], b, p);
      calc {
        Filter(a + b, p);
        head + Filter(a[1..] + b, p);
        head + (Filter(a[1..], p) + Filter(b, p));
        (head + Filter(a[1..], p)) + Filter(b, p);
      }
    }
  }

  /** Filtering a block whose every element passes keeps the block whole. */
  lemma FilterKeepsPassingPrefix<T>(a: seq<T>, b: seq<T>, p: T -> bool)
    requires forall k | 0 <= k < |a| :: p(a[k])
    ensures Filter(a + b, p) == a + Filter(b, p)
  {
    FilterAppend(a, b, p);
    FilterAllPass(a, p);
  }

  /** Filtering keeps a leading run of passing elements whole. */
  lemma FilterPassingPrefix<T>(s: seq<T>, n: nat, p: T -> bool)
    requires n <= |s| && forall k | 0 <= k < n :: p(s[k])
    ensures Filter(s, p) == s[..n] + Filter(s[n..], p)
  {
    FilterKeepsPassingPrefix(s[..n], s[n..], p);
    assert s[..n] + s[n..] == s;
  }

  /** Something in a concatenation sits in one of the parts. */
  lemma {:induction false} ConcatMember<T>(parts: seq<seq<T>>, x: T)
    requires x in Concat(parts)
    ensures exists i | 0 <= i < |parts| :: x in parts[i]
  {
    if x in parts[0] {
    } else {
      ConcatMember(parts[1..], x);
      var i :| 0 <= i < |parts[1..]| && x in parts[1..][i];
      assert x in parts[i + 1];
    }
  }

  /** No element occurs twice. */
  predicate NoDuplicates<T(==)>(s: seq<T>) {
    forall i, j | 0 <= i < j < |s| :: s[i] != s[j]
  }

  /** The first occurrence of each element, in order. */
  function Dedup<T(==)>(s: seq<T>): (r: seq<T>)
    ensures NoDuplicates(r)
    ensures forall x | x in r :: x in s
    ensures forall x | x in s :: x in r
  {
    if s == [] then []
    else
      var init := Dedup(s[..|s| - 1]);
      var last := s[|s| - 1];
      assert s == s[..|s| - 1] + [last];
      if last in init then init else init + [last]
  }

  /** Appending never disturbs what deduplication has already kept. */
  lemma {:induction false} DedupPrefix<T>(a: seq<T>, b: seq<T>)
    ensures Dedup(a) <= Dedup(a + b)
    decreases |b|
  {
    if b == [] {
      assert a + b == a;
    } else {
      var ab := a + b;
      assert ab[..|ab| - 1] == a + b[..|b| - 1];
      DedupPrefix(a, b[..|b| - 1]);
    }
  }

  lemma ConcatOne<T>(x: seq<T>)
    ensures Concat([x]) == x
  {
    assert [x][1..] == [];
  }

  lemma DedupSnoc<T>(s: seq<T>, x: T)
    ensures Dedup(s + [x]) == if x in Dedup(s) then Dedup(s) else Dedup(s) + [x]
  {
    assert (s + [x])[..|s|] == s;
  }

  /** Appending elements numbered on from `next` keeps the keys strictly rising
      and bounded by the advanced counter. */
  lemma AppendNumbered<T>(s: seq<T>, extra: seq<T>, key: T -> int, next: int)
    requires StrictlyIncreasing(s, key)
    requires forall x | x in s :: 1 <= key(x) < next
    requires 1 <= next
    requires forall k | 0 <= k < |extra| :: key(extra[k]) == next + k
    ensures StrictlyIncreasing(s + extra, key)
    ensures forall x | x in s + extra :: 1 <= key(x) < next + |extra|
  {
    var r := s + extra;
    forall i, j | 0 <= i < j < |r| ensures key(r[i]) < key(r[j]) {
      if j < |s| {
        assert r[i] == s[i] && r[j] == s[j];
      } else if i < |s| {
        assert r[i] == s[i] && s[i] in s;
        assert r[j] == extra[j - |s|];
      } else {
        assert r[i] == extra[i - |s|] && r[j] == extra[j - |s|];
      }
    }
    forall x | x in r ensures 1 <= key(x) < next + |extra| {
      if x !in s {
        var k :| 0 <= k < |extra| && extra[k] == x;
      }
    }
  }
}
