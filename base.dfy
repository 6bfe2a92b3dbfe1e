/** Small value types and sequence helpers shared by the rest of the model. */
module Base {

  datatype Option<T> = None | Some(value: T)

  function Min(a: int, b: int): int { if a <= b then a else b }

  function Max(a: int, b: int): int { if a <= b then b else a }

  /** `s.slice(0, n)` of JavaScript for a non-negative `n`: the first `n`
      elements, or all of them when there are fewer. */
  function Take<T>(s: seq<T>, n: nat): (r: seq<T>)
    ensures |r| == Min(n, |s|)
    ensures r == s[..|r|]
  {
    if n < |s| then s[..n] else s
  }

  /** `s.slice(lo, hi)` of JavaScript for `0 <= lo <= hi`: indices are
      clamped to the length instead of being rejected. */
  function Slice<T>(s: seq<T>, lo: nat, hi: nat): (r: seq<T>)
    requires lo <= hi
    ensures |r| == Max(0, Min(hi, |s|) - lo)
    ensures lo < |s| ==> r == s[lo..Min(hi, |s|)]
    ensures lo >= |s| ==> r == []
  {
    if lo >= |s| then [] else s[lo..Min(hi, |s|)]
  }

  /** Extending a slice by one element, behind a fixed prefix. */
  lemma SnocSlice<T>(a: seq<T>, s: seq<T>, j: nat)
    requires j < |s|
    ensures a + s[..j + 1] == (a + s[..j]) + [s[j]]
  {
    assert s[..j + 1] == s[..j] + [s[j]];
  }

  /** `a` is obtained from `b` by deleting elements, keeping the order. */
  predicate IsSubsequence<T(==)>(a: seq<T>, b: seq<T>)
    decreases |b|
  {
    if a == [] then true
    else if b == [] then false
    else if a[0] == b[0] then IsSubsequence(a[1..], b[1..])
    else IsSubsequence(a, b[1..])
  }

  lemma {:induction false} PrefixOfSubsequence<T>(a: seq<T>, b: seq<T>, n: nat)
    requires IsSubsequence(a, b) && n <= |a|
    ensures IsSubsequence(a[..n], b)
    decreases |b|
  {
    if n == 0 || a == [] {
    } else {
      if a[0] == b[0] {
        PrefixOfSubsequence(a[1..], b[1..], n - 1);
        assert a[..n][1..] == a[1..][..n - 1];
      } else {
        PrefixOfSubsequence(a, b[1..], n);
      }
    }
  }

  /** `s.filter(keep)` of JavaScript. */
  function Filter<T(!new)>(s: seq<T>, keep: T -> bool): (r: seq<T>)
    ensures |r| <= |s|
    ensures IsSubsequence(r, s)
    ensures forall i :: 0 <= i < |r| ==> keep(r[i])
  {
    if s == [] then []
    else
      var rest := Filter(s[1..], keep);
      assert s == [s[0]] + s[1..];
      if keep(s[0]) then [s[0]] + rest else rest
  }

  /** Filtering keeps every occurrence of a kept value and none of the others. */
  lemma {:induction false} FilterCounts<T(!new)>(s: seq<T>, keep: T -> bool)
    ensures forall x :: keep(x) ==> multiset(Filter(s, keep))[x] == multiset(s)[x]
    ensures forall x :: !keep(x) ==> multiset(Filter(s, keep))[x] == 0
  {
    if s != [] {
      FilterCounts(s[1..], keep);
      assert s == [s[0]] + s[1..];
    }
  }

  lemma {:induction false} FilterAppend<T(!new)>(a: seq<T>, b: seq<T>, keep: T -> bool)
    ensures Filter(a + b, keep) == Filter(a, keep) + Filter(b, keep)
  {
    if a == [] {
      assert a + b == b;
    } else {
      assert (a + b)[1..] == a[1..] + b;
      FilterAppend(a[1..], b, keep);
    }
  }

  lemma {:induction false} FilterAll<T(!new)>(s: seq<T>, keep: T -> bool)
    requires forall i :: 0 <= i < |s| ==> keep(s[i])
    ensures Filter(s, keep) == s
  {
    if s != [] {
      FilterAll(s[1..], keep);
    }
  }

  lemma {:induction false} FilterNone<T(!new)>(s: seq<T>, keep: T -> bool)
    requires forall i :: 0 <= i < |s| ==> !keep(s[i])
    ensures Filter(s, keep) == []
  {
    if s != [] {
      FilterNone(s[1..], keep);
    }
  }

  /** Filtering with a test that holds exactly on the first `n` elements
      keeps those. */
  lemma {:induction false} FilterKeepsPrefix<T(!new)>(s: seq<T>, n: nat, keep: T -> bool)
    requires n <= |s|
    requires forall i :: 0 <= i < n ==> keep(s[i])
    requires forall i :: n <= i < |s| ==> !keep(s[i])
    ensures Filter(s, keep) == s[..n]
  {
    if n == 0 {
      FilterNone(s, keep);
    } else {
      var rest := s[1..];
      assert forall i :: 0 <= i < |rest| ==> rest[i] == s[i + 1];
      FilterKeepsPrefix(rest, n - 1, keep);
      assert s == [s[0]] + rest;
      assert s[..n] == [s[0]] + rest[..n - 1];
    }
  }

  /** The dictionary a JavaScript counting loop builds from the occurrences
      in `ms`: one key per value that occurs, mapped to how often it does. */
  function CountMap<K(!new)>(ms: multiset<K>): (m: map<K, nat>)
  {
    map k | k in ms :: ms[k]
  }

  lemma CountMapAt<K(!new)>(ms: multiset<K>, k: K)
    ensures k in CountMap(ms) <==> ms[k] > 0
    ensures k in CountMap(ms) ==> CountMap(ms)[k] == ms[k]
  {
  }

  /** The value a counting loop reads with `(m[k] || 0)`. */
  function CountOr0<K>(m: map<K, nat>, k: K): nat
  {
    if k in m then m[k] else 0
  }

  /** One more occurrence of `k`: the counting loop's `m[k] = (m[k] || 0) + 1`. */
  lemma CountMapAdd<K(!new)>(ms: multiset<K>, k: K)
    ensures CountMap(ms + multiset{k}) == CountMap(ms)[k := CountOr0(CountMap(ms), k) + 1]
  {
    var l := CountMap(ms + multiset{k});
    var r := CountMap(ms)[k := CountOr0(CountMap(ms), k) + 1];
    assert l.Keys == r.Keys;
    forall x | x in l ensures l[x] == r[x] {}
  }

  predicate Distinct<T(==)>(s: seq<T>)
  {
    forall i, j :: 0 <= i < j < |s| ==> s[i] != s[j]
  }

  /** The index of the first element satisfying `p` (`s.findIndex(p)`,
      with `None` for `-1`); `s.find(p)` is the element at that index. */
  function FindIndex<T>(s: seq<T>, p: T -> bool): (r: Option<nat>)
    ensures r.Some? ==> r.value < |s| && p(s[r.value])
    ensures r.Some? ==> forall j :: 0 <= j < r.value ==> !p(s[j])
    ensures r.None? ==> forall j :: 0 <= j < |s| ==> !p(s[j])
  {
    if s == [] then None
    else if p(s[0]) then Some(0)
    else match FindIndex(s[1..], p)
      case None => None
      case Some(k) => Some(k + 1)
  }

  /** The contract of `FindIndex` pins its result down. */
  lemma FindIndexAt<T>(s: seq<T>, p: T -> bool, i: nat)
    requires i < |s| && p(s[i])
    requires forall j :: 0 <= j < i ==> !p(s[j])
    ensures FindIndex(s, p) == Some(i)
  {
  }
}
