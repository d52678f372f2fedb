/** The JavaScript array built-ins the core relies on (`filter`, `filter(..).length`,
    `find`, `findIndex`, `Math.max(0, ...keys)`, `Array.from(new Set(..))`),
    stated over Dafny sequences with the guarantees the core depends on. */
module ArrayOps {
  import opened Wrappers

  /** `r` can be obtained from `s` by deleting elements, keeping the order
      of the rest. */
  predicate IsSubsequence<T(==)>(r: seq<T>, s: seq<T>)
  {
    r == [] ||
    (s != [] &&
     ((r[0] == s[0] && IsSubsequence(r[1..], s[1..])) || IsSubsequence(r, s[1..])))
  }

  /** No element occurs twice. */
  predicate NoDuplicates<T(==)>(s: seq<T>)
  {
    forall i, j :: 0 <= i < j < |s| ==> s[i] != s[j]
  }

  /** `Array.prototype.map`. */
  function Map<T, U>(s: seq<T>, f: T -> U): (r: seq<U>)
    ensures |r| == |s|
    ensures forall i :: 0 <= i < |s| ==> r[i] == f(s[i])
  {
    seq(|s|, i requires 0 <= i < |s| => f(s[i]))
  }

  /** `Array.prototype.filter`: the elements that satisfy `p`, in order. */
  function Filter<T(!new)>(s: seq<T>, p: T -> bool): (r: seq<T>)
    ensures |r| <= |s|
    ensures forall x :: x in r <==> x in s && p(x)
  {
    if s == [] then []
    else if p(s[0]) then [s[0]] + Filter(s[1..], p)
    else Filter(s[1..], p)
  }

  /** `s.filter(p).length`. */
  function Count<T(!new)>(s: seq<T>, p: T -> bool): (n: nat)
    ensures n <= |s|
  {
    |Filter(s, p)|
  }

  /** Filtering a list with one more element at the end keeps the filtered
      list and adds that element exactly when it passes. */
  lemma {:induction false} FilterSnoc<T(!new)>(s: seq<T>, x: T, p: T -> bool)
    ensures Filter(s + [x], p) == Filter(s, p) + (if p(x) then [x] else [])
  {
    if s == [] {
      assert [x][1..] == [];
    } else {
      assert (s + [x])[1..] == s[1..] + [x];
      FilterSnoc(s[1..], x, p);
    }
  }

  /** The filtered sequence keeps the relative order of `s`. */
  lemma {:induction false} FilterIsSubsequence<T(!new)>(s: seq<T>, p: T -> bool)
    ensures IsSubsequence(Filter(s, p), s)
  {
    if s != [] {
      FilterIsSubsequence(s[1..], p);
    }
  }

  /** Filtering with a predicate every element passes changes nothing. */
  lemma {:induction false} FilterKeepsAll<T(!new)>(s: seq<T>, p: T -> bool)
    requires forall i :: 0 <= i < |s| ==> p(s[i])
    ensures Filter(s, p) == s
  {
    if s != [] {
      FilterKeepsAll(s[1..], p);
    }
  }

  /** Two successive filters are one filter by the conjunction. */
  lemma {:induction false} FilterFuse<T(!new)>(s: seq<T>, p: T -> bool, q: T -> bool, pq: T -> bool)
    requires forall x :: pq(x) == (p(x) && q(x))
    ensures Filter(Filter(s, p), q) == Filter(s, pq)
  {
    if s != [] {
      FilterFuse(s[1..], p, q, pq);
    }
  }

  /** Successive filters may be applied in either order. */
  lemma {:induction false} FilterCommute<T(!new)>(s: seq<T>, p: T -> bool, q: T -> bool)
    ensures Filter(Filter(s, p), q) == Filter(Filter(s, q), p)
  {
    var pq := x => p(x) && q(x);
    FilterFuse(s, p, q, pq);
    FilterFuse(s, q, p, pq);
  }

  /** Counting by a predicate and by its negation splits the whole. */
  lemma {:induction false} CountComplement<T(!new)>(s: seq<T>, p: T -> bool, q: T -> bool)
    requires forall x :: q(x) == !p(x)
    ensures Count(s, p) + Count(s, q) == |s|
  {
    if s != [] {
      CountComplement(s[1..], p, q);
    }
  }

  /** `Array.prototype.findIndex`, with `None` for the source's `-1`: the
      first position whose element satisfies `p`. */
  function FindIndex<T>(s: seq<T>, p: T -> bool): (r: Option<nat>)
    ensures r.None? <==> forall i :: 0 <= i < |s| ==> !p(s[i])
    ensures r.Some? ==> r.value < |s| && p(s[r.value]) &&
                        forall j :: 0 <= j < r.value ==> !p(s[j])
  {
    if s == [] then None
    else if p(s[0]) then Some(0)
    else match FindIndex(s[1..], p)
      case None => None
      case Some(i) => Some(i + 1)
  }

  /** `Array.prototype.find`: the first element satisfying `p`, if any. */
  function Find<T>(s: seq<T>, p: T -> bool): (r: Option<T>)
    ensures r.None? <==> forall i :: 0 <= i < |s| ==> !p(s[i])
    ensures r.Some? ==> exists i :: 0 <= i < |s| && s[i] == r.value && p(s[i]) &&
                                    forall j :: 0 <= j < i ==> !p(s[j])
  {
    match FindIndex(s, p)
    case None => None
    case Some(i) => Some(s[i])
  }

  /** `Math.max(0, ...keys)`: the largest key, or 0 when there is none or
      all are negative. */
  function MaxOrZero(keys: seq<int>): (m: int)
    ensures m >= 0
    ensures forall i :: 0 <= i < |keys| ==> keys[i] <= m
    ensures m == 0 || m in keys
  {
    if keys == [] then 0
    else
      var rest := MaxOrZero(keys[1..]);
      if keys[0] > rest then keys[0] else rest
  }

  /** Appending a key no larger than the current maximum leaves it alone, and
      appending one above it makes that key the maximum. */
  lemma {:induction false} MaxOrZeroAppend(keys: seq<int>, k: int)
    ensures MaxOrZero(keys + [k]) == if k > MaxOrZero(keys) then k else MaxOrZero(keys)
  {
    if keys == [] {
      assert keys + [k] == [k];
    } else {
      assert (keys + [k])[1..] == keys[1..] + [k];
      MaxOrZeroAppend(keys[1..], k);
    }
  }

  /** `Array.from(new Set(s))`: each distinct element once, in the order of
      its first occurrence. */
  function Distinct<T(==,!new)>(s: seq<T>): (r: seq<T>)
    ensures forall x :: x in r <==> x in s
    ensures NoDuplicates(r)
  {
    if s == [] then []
    else
      var d := Distinct(s[..|s| - 1]);
      if s[|s| - 1] in d then d else d + [s[|s| - 1]]
  }

  /** The distinct elements of a prefix come first, in the same order: an
      element is listed before every element first seen after it. */
  lemma {:induction false} DistinctOfPrefix<T(!new)>(s: seq<T>, k: nat)
    requires k <= |s|
    ensures Distinct(s[..k]) <= Distinct(s)
  {
    if k < |s| {
      assert s[..|s|][..k] == s[..k];
      assert s[..|s| - 1][..k] == s[..k];
      DistinctOfPrefix(s[..|s| - 1], k);
      assert s[..|s|] == s;
    } else {
      assert s[..k] == s;
    }
  }

  lemma NoDuplicatesCons<T>(h: T, t: seq<T>)
    requires h !in t && NoDuplicates(t)
    ensures NoDuplicates([h] + t)
  {
    var r := [h] + t;
    forall i, j | 0 <= i < j < |r|
      ensures r[i] != r[j]
    {
      if i == 0 {
        assert r[j] == t[j - 1];
      } else {
        assert r[i] == t[i - 1] && r[j] == t[j - 1];
      }
    }
  }

  /** Filtering cannot make a key repeat: a collection whose records have
      pairwise distinct keys keeps that property after any filter. */
  lemma {:induction false} FilterKeepsKeysUnique<T(!new), K>(s: seq<T>, p: T -> bool, key: T -> K)
    requires NoDuplicates(Map(s, key))
    ensures NoDuplicates(Map(Filter(s, p), key))
  {
    if s != [] {
      assert Map(s[1..], key) == Map(s, key)[1..];
      FilterKeepsKeysUnique(s[1..], p, key);
      if p(s[0]) {
        var rest := Filter(s[1..], p);
        assert Map(Filter(s, p), key) == [key(s[0])] + Map(rest, key);
        HeadKeyNotInFilteredTail(s, p, key);
        NoDuplicatesCons(key(s[0]), Map(rest, key));
      }
    }
  }

  lemma HeadKeyNotInFilteredTail<T(!new), K>(s: seq<T>, p: T -> bool, key: T -> K)
    requires s != [] && NoDuplicates(Map(s, key))
    ensures key(s[0]) !in Map(Filter(s[1..], p), key)
  {
    var rest := Filter(s[1..], p);
    var ks := Map(s, key);
    forall i | 0 <= i < |rest|
      ensures key(rest[i]) != key(s[0])
    {
      assert rest[i] in s[1..];
      var k :| 0 <= k < |s[1..]| && s[1..][k] == rest[i];
      assert ks[k + 1] == key(rest[i]);
    }
  }
}
