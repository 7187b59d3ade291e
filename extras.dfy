/**
 * Small collection utilities: an order-preserving list-backed set, the
 * wrap-around list of adjacent pairs, and in-place re-zeroing of an array.
 */
module Extras {
  import opened Results
  import opened Rezero

  /** The elements kept when a list is scanned left to right, appending each value not yet kept. */
  function Dedup<T(==)>(s: seq<T>): seq<T> {
    if s == [] then []
    else
      var kept := Dedup(s[..|s| - 1]);
      if s[|s| - 1] in kept then kept else kept + [s[|s| - 1]]
  }

  predicate NoDuplicates<T(==)>(s: seq<T>) {
    forall i, j :: 0 <= i < j < |s| ==> s[i] != s[j]
  }

  /** The set of values a list holds. */
  ghost function Values<T>(s: seq<T>): set<T> {
    set x | x in s
  }

  /** Position of the first occurrence of `x` in `s`. */
  function FirstIndex<T(==)>(s: seq<T>, x: T): (k: nat)
    requires x in s
    ensures k < |s| && s[k] == x && x !in s[..k]
  {
    if x in s[..|s| - 1] then FirstIndex(s[..|s| - 1], x) else |s| - 1
  }

  /** A value is kept exactly when it occurs in the input. */
  lemma {:induction false} DedupMembers<T>(s: seq<T>, x: T)
    ensures x in Dedup(s) <==> x in s
  {
    if s != [] {
      DedupMembers(s[..|s| - 1], x);
      assert s == s[..|s| - 1] + [s[|s| - 1]];
    }
  }

  /** No value is kept twice. */
  lemma {:induction false} DedupNoDuplicates<T>(s: seq<T>)
    ensures NoDuplicates(Dedup(s))
  {
    if s != [] {
      DedupNoDuplicates(s[..|s| - 1]);
    }
  }

  /** Kept values appear in the order of their first occurrences in the input. */
  lemma {:induction false} DedupFirstOccurrenceOrder<T>(s: seq<T>, i: nat, j: nat)
    requires i < j < |Dedup(s)|
    ensures Dedup(s)[i] in s && Dedup(s)[j] in s
    ensures FirstIndex(s, Dedup(s)[i]) < FirstIndex(s, Dedup(s)[j])
  {
    var init, last := s[..|s| - 1], s[|s| - 1];
    var kept := Dedup(init);
    DedupMembers(init, Dedup(s)[i]);
    DedupMembers(init, Dedup(s)[j]);
    DedupMembers(s, Dedup(s)[i]);
    DedupMembers(s, Dedup(s)[j]);
    if j < |kept| {
      DedupFirstOccurrenceOrder(init, i, j);
    } else {
      assert Dedup(s)[j] == last && last !in kept;
      assert Dedup(s)[i] in init;
    }
  }

  /** As many values are kept as the input has distinct values, never more than its length. */
  lemma {:induction false} DedupLength<T>(s: seq<T>)
    ensures |Dedup(s)| == |Values(s)| <= |s|
  {
    if s != [] {
      var init, last := s[..|s| - 1], s[|s| - 1];
      DedupLength(init);
      DedupMembers(init, last);
      assert s == init + [last];
      assert Values(s) == Values(init) + {last};
    }
  }

  /** `ListBasedSet(iterable)`: a set backed by a list, for values that need not be hashable. */
  class ListBasedSet<T(==)> {
    var elements: seq<T>
    /** The iterable the set was built from. */
    ghost const source: seq<T>

    ghost predicate Valid()
      reads this
    {
      elements == Dedup(source)
    }

    /** Scans the iterable and appends each value not yet in `elements`. */
    constructor (iterable: seq<T>)
      ensures Valid() && source == iterable
      ensures NoDuplicates(elements) && Values(elements) == Values(iterable)
    {
      source := iterable;
      elements := [];
      new;
      for i := 0 to |iterable|
        invariant elements == Dedup(iterable[..i])
      {
        assert iterable[..i + 1][..i] == iterable[..i];
        if iterable[i] !in elements {
          elements := elements + [iterable[i]];
        }
      }
      assert iterable[..|iterable|] == iterable;
      DedupNoDuplicates(iterable);
      forall x ensures x in elements <==> x in iterable {
        DedupMembers(iterable, x);
      }
    }

    /** `value in s`: exactly the values that occur in the iterable. */
    function Contains(value: T): (b: bool)
      requires Valid()
      reads this
      ensures b <==> value in source
    {
      DedupMembers(source, value);
      value in elements
    }

    /** `len(s)`: the number of distinct values of the iterable. */
    function Length(): (n: nat)
      requires Valid()
      reads this
      ensures n == |Values(source)| && n <= |source|
    {
      DedupLength(source);
      |elements|
    }
  }

  /** Python's `zip`: pairs up to the shorter length. */
  function Zip<A, B>(a: seq<A>, b: seq<B>): (r: seq<(A, B)>)
    ensures |r| == if |a| <= |b| then |a| else |b|
    ensures forall i :: 0 <= i < |r| ==> r[i] == (a[i], b[i])
  {
    if a == [] || b == [] then [] else [(a[0], b[0])] + Zip(a[1..], b[1..])
  }

  /** The second copy after its first element is moved to its end: `a` rotated left by one. */
  lemma RotatedAt<T>(a: seq<T>)
    requires a != []
    ensures |a[1..] + [a[0]]| == |a|
    ensures forall i :: 0 <= i < |a| ==> (a[1..] + [a[0]])[i] == a[(i + 1) % |a|]
  {
    forall i | 0 <= i < |a| ensures (a[1..] + [a[0]])[i] == a[(i + 1) % |a|] {
      if i < |a| - 1 {
        assert (i + 1) % |a| == i + 1;
      } else {
        assert (i + 1) % |a| == 0;
      }
    }
  }

  /**
   * `cyclic_pairs(iterable)`: `next(b)` takes the first element off the
   * second copy, which is then chained back on its end, so the pairs wrap
   * around; with no first element `next` raises `StopIteration`.
   */
  function CyclicPairs<T>(a: seq<T>): (r: Result<seq<(T, T)>>)
    ensures r.Err? <==> a == []
    ensures r.Err? ==> r.error == StopIteration
    ensures r.Ok? ==> |r.value| == |a|
    ensures r.Ok? ==> forall i :: 0 <= i < |a| ==> r.value[i] == (a[i], a[(i + 1) % |a|])
  {
    if a == [] then Err(StopIteration)
    else
      var first := a[0];
      var rest := a[1..];
      RotatedAt(a);
      Ok(Zip(a, rest + [first]))
  }

  /** Consecutive pairs share an element and the last pair closes the cycle. */
  lemma CyclicPairsChain<T>(a: seq<T>, i: nat)
    requires i < |a|
    ensures CyclicPairs(a).Ok?
    ensures CyclicPairs(a).value[i].1 == CyclicPairs(a).value[(i + 1) % |a|].0
  {
  }

  /** A one-element sequence pairs its element with itself. */
  lemma CyclicPairsSingleton<T>(x: T)
    ensures CyclicPairs([x]) == Ok([(x, x)])
  {
    var r := CyclicPairs([x]);
    assert |r.value| == 1 && r.value[0] == (x, x);
    assert r.value == [(x, x)];
  }

  /** The argument of `rezero_array`: a numpy array or any other object. */
  datatype ArrayArg = NdArray(arr: array<real>) | NotAnArray

  /** Default tolerance of `rezero_array`: five times the double-precision machine epsilon. */
  const ArrayEps: real := 5.0 / 4503599627370496.0

  /**
   * `rezero_array(a, epsilon)`: `TypeError` for a non-array; otherwise snaps
   * in place the elements with `|x| <= epsilon` (by default `ArrayEps`) and
   * returns the same array.
   */
  method RezeroArray(a: ArrayArg, eps: Option<real>) returns (r: Result<array<real>>)
    modifies if a.NdArray? then {a.arr} else {}
    ensures a.NotAnArray? ==> r == Err(TypeError)
    ensures a.NdArray? ==> r == Ok(a.arr) && a.arr[..] == RezeroSeq(old(a.arr[..]), eps.GetOr(ArrayEps))
  {
    match a
    case NotAnArray =>
      r := Err(TypeError);
    case NdArray(arr) =>
      RezeroInPlace(arr, eps.GetOr(ArrayEps));
      r := Ok(arr);
  }
}
