/** The parts of the JavaScript Array API that the layout shell relies on:
    `filter`, `find`/`findIndex` and `filter(...).length`, written as total
    functions over sequences together with the facts the shell needs about them. */
module ArrayOps {

  /** JavaScript's `undefined` versus a found value. */
  datatype Option<T> = None | Some(value: T)

  /** `s.filter(p)`: the elements that satisfy `p`. */
  function Filter<T>(s: seq<T>, p: T -> bool): (r: seq<T>)
    ensures |r| <= |s|
    ensures forall i :: 0 <= i < |r| ==> r[i] in s && p(r[i])
    ensures forall i :: 0 <= i < |s| && p(s[i]) ==> s[i] in r
  {
    if s == [] then [] else (if p(s[0]) then [s[0]] else []) + Filter(s[1..], p)
  }

  /** Filtering distributes over concatenation: together with the behaviour
      on a one-element sequence this pins down that `Filter` keeps the
      original order. */
  lemma {:induction false} FilterAppend<T>(s: seq<T>, t: seq<T>, p: T -> bool)
    ensures Filter(s + t, p) == Filter(s, p) + Filter(t, p)
  {
    if s == [] {
      assert s + t == t;
    } else {
      assert (s + t)[1..] == s[1..] + t;
      FilterAppend(s[1..], t, p);
    }
  }

  /** No two elements of `s` share a `key`. */
  predicate DistinctBy<T, K(==)>(s: seq<T>, key: T -> K) {
    forall i, j :: 0 <= i < j < |s| ==> key(s[i]) != key(s[j])
  }

  /** A sequence whose elements are pairwise distinct under `key` stays so
      after filtering. */
  lemma {:induction false} FilterKeepsDistinct<T, K>(s: seq<T>, p: T -> bool, key: T -> K)
    requires DistinctBy(s, key)
    ensures DistinctBy(Filter(s, p), key)
  {
    if s != [] {
      var tail := s[1..];
      assert DistinctBy(tail, key) by {
        forall i, j | 0 <= i < j < |tail| ensures key(tail[i]) != key(tail[j]) {
          assert tail[i] == s[i + 1] && tail[j] == s[j + 1];
        }
      }
      FilterKeepsDistinct(tail, p, key);
      var rest := Filter(tail, p);
      assert forall k :: 0 <= k < |rest| ==> key(rest[k]) != key(s[0]) by {
        forall k | 0 <= k < |rest| ensures key(rest[k]) != key(s[0]) {
          assert rest[k] in tail;
          var m :| 0 <= m < |tail| && tail[m] == rest[k];
          assert tail[m] == s[m + 1];
        }
      }
      var r := Filter(s, p);
      assert DistinctBy(rest, key);
      forall i, j | 0 <= i < j < |r| ensures key(r[i]) != key(r[j]) {
        if p(s[0]) {
          assert r == [s[0]] + rest;
          assert r[j] == rest[j - 1];
          if i == 0 {
            assert r[i] == s[0] && key(rest[j - 1]) != key(s[0]);
          } else {
            assert r[i] == rest[i - 1] && key(rest[i - 1]) != key(rest[j - 1]);
          }
        } else {
          assert r == rest && key(rest[i]) != key(rest[j]);
        }
      }
    }
  }

  /** The number of elements that satisfy `p`, i.e. `s.filter(p).length`. */
  function Count<T>(s: seq<T>, p: T -> bool): (n: nat)
    ensures n <= |s|
  {
    if s == [] then 0 else (if p(s[0]) then 1 else 0) + Count(s[1..], p)
  }

  lemma {:induction false} CountIsFilterLength<T>(s: seq<T>, p: T -> bool)
    ensures Count(s, p) == |Filter(s, p)|
  {
    if s != [] {
      CountIsFilterLength(s[1..], p);
    }
  }

  lemma {:induction false} CountAppend<T>(s: seq<T>, t: seq<T>, p: T -> bool)
    ensures Count(s + t, p) == Count(s, p) + Count(t, p)
  {
    if s == [] {
      assert s + t == t;
    } else {
      assert (s + t)[1..] == s[1..] + t;
      CountAppend(s[1..], t, p);
    }
  }

  /** Splitting a predicate into two disjoint cases splits its count. */
  lemma {:induction false} CountPartition<T>(s: seq<T>, p: T -> bool, q: T -> bool, r: T -> bool)
    requires forall i :: 0 <= i < |s| ==> (p(s[i]) <==> q(s[i]) || r(s[i])) && !(q(s[i]) && r(s[i]))
    ensures Count(s, p) == Count(s, q) + Count(s, r)
  {
    if s != [] {
      CountPartition(s[1..], p, q, r);
    }
  }

  /** A predicate that can hold only at position `k` counts one exactly
      when it holds there. */
  lemma {:induction false} CountSingle<T>(s: seq<T>, p: T -> bool, k: nat)
    requires k < |s|
    requires forall i :: 0 <= i < |s| && i != k ==> !p(s[i])
    ensures Count(s, p) == if p(s[k]) then 1 else 0
  {
    if k == 0 {
      CountNone(s[1..], p);
    } else {
      CountSingle(s[1..], p, k - 1);
    }
  }

  /** A predicate that holds nowhere counts zero. */
  lemma {:induction false} CountNone<T>(s: seq<T>, p: T -> bool)
    requires forall i :: 0 <= i < |s| ==> !p(s[i])
    ensures Count(s, p) == 0
  {
    if s != [] {
      CountNone(s[1..], p);
    }
  }

  /** Counting inside a filtered sequence is counting the conjunction
      (`both` is any predicate that is the conjunction on `s`). */
  lemma {:induction false} CountOfFilter<T>(s: seq<T>, p: T -> bool, q: T -> bool, both: T -> bool)
    requires forall i :: 0 <= i < |s| ==> (both(s[i]) <==> p(s[i]) && q(s[i]))
    ensures Count(Filter(s, p), q) == Count(s, both)
  {
    if s != [] {
      CountOfFilter(s[1..], p, q, both);
      var head := if p(s[0]) then [s[0]] else [];
      CountAppend(head, Filter(s[1..], p), q);
    }
  }

  /** `s.findIndex(p)`: the position of the first element satisfying `p`. */
  function FindIndex<T>(s: seq<T>, p: T -> bool): (r: Option<nat>)
    ensures r.Some? ==> r.value < |s| && p(s[r.value]) && forall j :: 0 <= j < r.value ==> !p(s[j])
    ensures r.None? ==> forall j :: 0 <= j < |s| ==> !p(s[j])
  {
    if s == [] then None
    else if p(s[0]) then Some(0)
    else match FindIndex(s[1..], p)
      case None => None
      case Some(k) => Some(k + 1)
  }

  /** `s.find(p)`: the first element satisfying `p`, if any. */
  function Find<T>(s: seq<T>, p: T -> bool): (r: Option<T>)
    ensures r.Some? ==> r.value in s && p(r.value)
    ensures r.None? <==> forall i :: 0 <= i < |s| ==> !p(s[i])
  {
    match FindIndex(s, p)
    case None => None
    case Some(i) => Some(s[i])
  }

  /** `find` returns the FIRST match: whatever comes later is ignored. */
  lemma FindIsFirst<T>(s: seq<T>, p: T -> bool, i: nat)
    requires i < |s| && p(s[i])
    requires forall j :: 0 <= j < i ==> !p(s[j])
    ensures FindIndex(s, p) == Some(i)
    ensures Find(s, p) == Some(s[i])
  {
  }
}
