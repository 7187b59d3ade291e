/**
 * Snapping near-zero numbers to exactly zero: the one expression
 * `a[np.where(np.abs(a) <= epsilon)] = 0.0` that `Point.rezero_coords`,
 * `Vector.rezero_components` and `rezero_array` all run on their buffers.
 */
module Rezero {

  /** Default tolerance of `rezero_coords` and `rezero_components`. */
  const PointEps: real := 1.0e-10

  function Abs(x: real): real {
    if x < 0.0 then -x else x
  }

  /** One component after re-zeroing. */
  function RezeroValue(x: real, eps: real): real {
    if Abs(x) <= eps then 0.0 else x
  }

  /** Every component after re-zeroing, component by component. */
  function RezeroSeq(s: seq<real>, eps: real): (r: seq<real>)
    ensures |r| == |s|
    ensures forall i :: 0 <= i < |s| && Abs(s[i]) <= eps ==> r[i] == 0.0
    ensures forall i :: 0 <= i < |s| && Abs(s[i]) > eps ==> r[i] == s[i]
  {
    if s == [] then [] else [RezeroValue(s[0], eps)] + RezeroSeq(s[1..], eps)
  }

  /** No component lies in the band that re-zeroing would snap. */
  ghost predicate Snapped(s: seq<real>, eps: real) {
    forall i :: 0 <= i < |s| ==> s[i] == 0.0 || Abs(s[i]) > eps
  }

  /** Re-zeroing leaves no component with `0 < |c| <= eps` behind. */
  lemma RezeroSnaps(s: seq<real>, eps: real)
    ensures Snapped(RezeroSeq(s, eps), eps)
  {
  }

  /** Re-zeroing changes nothing exactly when nothing is left to snap. */
  lemma {:induction false} RezeroFixedPoint(s: seq<real>, eps: real)
    ensures RezeroSeq(s, eps) == s <==> Snapped(s, eps)
  {
    if s != [] {
      RezeroFixedPoint(s[1..], eps);
      assert s == [s[0]] + s[1..];
      if Snapped(s, eps) {
        assert Snapped(s[1..], eps) by {
          forall i | 0 <= i < |s[1..]| ensures s[1..][i] == 0.0 || Abs(s[1..][i]) > eps {
            assert s[1..][i] == s[i + 1];
          }
        }
      }
      if RezeroSeq(s, eps) == s {
        assert RezeroSeq(s[1..], eps) == s[1..] by {
          assert RezeroSeq(s, eps)[1..] == RezeroSeq(s[1..], eps);
        }
      }
    }
  }

  /** Re-zeroing twice gives what re-zeroing once gives. */
  lemma RezeroIdempotent(s: seq<real>, eps: real)
    ensures RezeroSeq(RezeroSeq(s, eps), eps) == RezeroSeq(s, eps)
  {
    RezeroSnaps(s, eps);
    RezeroFixedPoint(RezeroSeq(s, eps), eps);
  }

  /** The buffer update itself, element by element and in place. */
  method RezeroInPlace(a: array<real>, eps: real)
    modifies a
    ensures a[..] == RezeroSeq(old(a[..]), eps)
  {
    for i := 0 to a.Length
      invariant forall k :: 0 <= k < i ==> a[k] == RezeroValue(old(a[k]), eps)
      invariant forall k :: i <= k < a.Length ==> a[k] == old(a[k])
    {
      if Abs(a[i]) <= eps {
        a[i] := 0.0;
      }
    }
  }
}
