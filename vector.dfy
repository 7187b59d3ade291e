/**
 * `Vector`: a displacement `v` bound to an origin point `p0` and a terminal
 * point `p`, kept in the relation `v = p - p0` by every setter.
 */
module Vectors {
  import opened Results
  import opened Rezero
  import opened Points

  /** Componentwise `a + b`. */
  function Add(a: seq<real>, b: seq<real>): (r: seq<real>)
    requires |a| == |b|
    ensures |r| == |a| && forall i :: 0 <= i < |a| ==> r[i] == a[i] + b[i]
  {
    seq(|a|, i requires 0 <= i < |a| => a[i] + b[i])
  }

  /** Componentwise `a - b`. */
  function Sub(a: seq<real>, b: seq<real>): (r: seq<real>)
    requires |a| == |b|
    ensures |r| == |a| && forall i :: 0 <= i < |a| ==> r[i] == a[i] - b[i]
  {
    seq(|a|, i requires 0 <= i < |a| => a[i] - b[i])
  }

  /** A displacement is the difference of its end points exactly when the terminal point is origin plus displacement. */
  lemma SubAddInverse(v: seq<real>, p: seq<real>, p0: seq<real>)
    requires |v| == |p| == |p0|
    ensures v == Sub(p, p0) <==> p == Add(p0, v)
  {
    if v == Sub(p, p0) {
      assert p == Add(p0, v);
    }
    if p == Add(p0, v) {
      assert v == Sub(p, p0);
    }
  }

  class Vector {
    /** Dimensionality, fixed at construction. */
    const nd: nat
    /** The components of `v`. */
    const data: array<real>
    /** Terminal point. */
    const p: Point
    /** Origin point. */
    const p0: Point
    /** Plain attributes stored under an axis name that is not an alias. */
    var attrs: map<Axis, real>

    /** The buffers have the vector's dimensionality and are three distinct arrays. */
    ghost predicate Shape() {
      && data.Length == nd && p.Valid() && p0.Valid() && p.nd == nd && p0.nd == nd
      && p != p0 && data != p.coords && data != p0.coords && p.coords != p0.coords
    }

    /** The vector invariant `v = p - p0`. */
    ghost predicate Valid()
      reads data, p.coords, p0.coords
    {
      Shape() && Components() == Sub(p.Coords(), p0.Coords())
    }

    function Components(): seq<real>
      reads data
    {
      data[..]
    }

    /**
     * `Vector(v, p=p, p0=p0)` for a coordinate sequence `v`: `nd = len(v)`,
     * `p0` defaults to the origin and `p` is recomputed as `p0 + v` whatever
     * `p` was passed.
     */
    constructor FromComponents(v: seq<real>, p: Option<seq<real>>, p0: Option<seq<real>>)
      requires p0.Some? ==> |p0.value| == |v|
      ensures Valid() && nd == |v| && Components() == v
      ensures p0.Some? ==> this.p0.Coords() == p0.value
      ensures p0.None? ==> this.p0.Coords() == Zeros(|v|)
      ensures this.p.Coords() == Add(this.p0.Coords(), v)
      ensures fresh(data) && fresh(this.p) && fresh(this.p0) && fresh(this.p.coords) && fresh(this.p0.coords)
      ensures attrs == map[] && this.p.attrs == map[] && this.p0.attrs == map[]
    {
      var origin := p0.GetOr(Zeros(|v|));
      nd := |v|;
      data := new real[|v|](i requires 0 <= i < |v| => v[i]);
      this.p0 := new Point(origin);
      this.p := new Point(Add(origin, v));
      attrs := map[];
      new;
      SubAddInverse(v, Add(origin, v), origin);
    }

    /**
     * `Vector(nd=nd, p=p, p0=p0)` without a coordinate sequence: `v = p - p0`,
     * a missing point is the origin and a missing `nd` is 3.
     */
    constructor FromPoints(nd: NdArg, p: Option<seq<real>>, p0: Option<seq<real>>)
      requires ResolveNd(nd).Ok?
      requires nd.NdNumber? ==> nd.value == nd.value.Floor as real
      requires p.Some? ==> |p.value| == ResolveNd(nd).value
      requires p0.Some? ==> |p0.value| == ResolveNd(nd).value
      ensures Valid() && this.nd == ResolveNd(nd).value
      ensures this.p.Coords() == p.GetOr(Zeros(this.nd))
      ensures this.p0.Coords() == p0.GetOr(Zeros(this.nd))
      ensures Components() == Sub(this.p.Coords(), this.p0.Coords())
      ensures fresh(data) && fresh(this.p) && fresh(this.p0) && fresh(this.p.coords) && fresh(this.p0.coords)
      ensures attrs == map[] && this.p.attrs == map[] && this.p0.attrs == map[]
    {
      var n := ResolveNd(nd).value;
      var terminal := p.GetOr(Zeros(n));
      var origin := p0.GetOr(Zeros(n));
      var v := Sub(terminal, origin);
      this.nd := n;
      data := new real[n](i requires 0 <= i < n => v[i]);
      this.p := new Point(terminal);
      this.p0 := new Point(origin);
      attrs := map[];
    }

    /**
     * A copy made by `Vector(w)` (`copy=True`): numpy's copy runs
     * `__array_finalize__`, which binds the copy to the very `p` and `p0`
     * objects of `w`; only the components are a new buffer.
     */
    constructor CopyOf(w: Vector)
      requires w.Shape()
      ensures Shape() && nd == w.nd && Components() == w.Components()
      ensures p == w.p && p0 == w.p0 && fresh(data) && attrs == map[]
      ensures w.Valid() ==> Valid()
    {
      nd := w.nd;
      data := new real[w.nd](i requires 0 <= i < w.nd reads w.data => w.data[i]);
      p := w.p;
      p0 := w.p0;
      attrs := map[];
    }

    /**
     * `w.view(Vector)`: a new vector over the very component buffer of `w`;
     * `__array_finalize__` binds it to the `p` and `p0` objects of `w` and
     * carries no plain attributes over.
     */
    constructor ViewOf(w: Vector)
      requires w.Shape()
      ensures Shape() && nd == w.nd && data == w.data
      ensures p == w.p && p0 == w.p0 && attrs == map[]
      ensures w.Valid() ==> Valid()
    {
      nd := w.nd;
      data := w.data;
      p := w.p;
      p0 := w.p0;
      attrs := map[];
    }

    /** `getattr(vec, 'x' | 'y' | 'z')`. */
    function Get(a: Axis): (r: Result<real>)
      requires Shape()
      reads this, data
      ensures Aliased(nd, a) ==> r == Ok(Components()[AxisIndex(a)])
    {
      AxisValue(nd, data[..], attrs, a)
    }

    /**
     * `setattr(vec, 'x' | 'y' | 'z', value)`: sets `v[i] = value` and
     * `p[i] = p0[i] + value`; `p0` and every other component stay as they were.
     */
    method Set(a: Axis, value: real)
      requires Shape()
      modifies this, data, p, p.coords
      ensures Shape() && (old(Valid()) ==> Valid())
      ensures Aliased(nd, a) ==>
        && Components() == old(Components())[AxisIndex(a) := value]
        && p.Coords() == old(p.Coords())[AxisIndex(a) := p0.Coords()[AxisIndex(a)] + value]
        && attrs == old(attrs)
      ensures !Aliased(nd, a) ==>
        && Components() == old(Components()) && p.Coords() == old(p.Coords())
        && attrs == old(attrs)[a := value]
      ensures p0.Coords() == old(p0.Coords()) && p.attrs == old(p.attrs)
      ensures (Components(), attrs) == AxisWrite(nd, old(Components()), old(attrs), a, value)
      ensures Get(a) == Ok(value)
    {
      if Aliased(nd, a) {
        var i := AxisIndex(a);
        data[i] := value;
        var origin := p0.Get(a);
        p.Set(a, origin.value + value);
      } else {
        attrs := attrs[a := value];
      }
    }

    /**
     * The `p` setter: copies `value` into `p`, keeps `p0`, recomputes
     * `v = p - p0`, which restores the invariant even where it was broken.
     */
    method SetP(value: seq<real>)
      requires Shape() && |value| == nd
      modifies data, p.coords
      ensures Valid()
      ensures p.Coords() == value && p0.Coords() == old(p0.Coords())
      ensures Components() == Sub(value, p0.Coords())
    {
      for i := 0 to nd
        invariant forall k :: 0 <= k < i ==> p.coords[k] == value[k]
        invariant forall k :: i <= k < nd ==> p.coords[k] == old(p.coords[k])
      {
        p.coords[i] := value[i];
      }
      for i := 0 to nd
        invariant p.Coords() == value
        invariant forall k :: 0 <= k < i ==> data[k] == value[k] - p0.coords[k]
      {
        data[i] := p.coords[i] - p0.coords[i];
      }
    }

    /**
     * The `p0` setter: copies `value` into `p0`, keeps `p`, recomputes
     * `v = p - p0`, which restores the invariant even where it was broken.
     */
    method SetP0(value: seq<real>)
      requires Shape() && |value| == nd
      modifies data, p0.coords
      ensures Valid()
      ensures p0.Coords() == value && p.Coords() == old(p.Coords())
      ensures Components() == Sub(p.Coords(), value)
    {
      for i := 0 to nd
        invariant forall k :: 0 <= k < i ==> p0.coords[k] == value[k]
        invariant forall k :: i <= k < nd ==> p0.coords[k] == old(p0.coords[k])
      {
        p0.coords[i] := value[i];
      }
      for i := 0 to nd
        invariant p0.Coords() == value
        invariant forall k :: 0 <= k < i ==> data[k] == p.coords[k] - value[k]
      {
        data[i] := p.coords[i] - p0.coords[i];
      }
    }

    /**
     * `rezero_components(epsilon)`, by default `PointEps`: snaps the components of `v` only; `p`
     * and `p0` are not touched, so `v = p - p0` need not survive (see
     * `RezeroComponentsCanBreakInvariant`).
     */
    method RezeroComponents(eps: Option<real>)
      requires Shape()
      modifies data
      ensures Shape()
      ensures Components() == RezeroSeq(old(Components()), eps.GetOr(PointEps))
      ensures p.Coords() == old(p.Coords()) && p0.Coords() == old(p0.Coords())
    {
      RezeroInPlace(data, eps.GetOr(PointEps));
    }
  }

  /**
   * A vector `v = p - p0` with one component inside the default tolerance:
   * after `rezero_components` its components no longer equal `p - p0`.
   */
  lemma RezeroComponentsCanBreakInvariant()
    ensures var v, p, p0 := [5.0e-11], [5.0e-11], [0.0];
      v == Sub(p, p0) && RezeroSeq(v, PointEps) != Sub(p, p0)
  {
    var v, p, p0 := [5.0e-11], [5.0e-11], [0.0];
    assert RezeroSeq(v, PointEps)[0] == 0.0;
    assert Sub(p, p0)[0] == 5.0e-11;
  }

  /**
   * `Vector(w, copy=copy)` for an existing vector `w`: a new vector bound to
   * the `p` and `p0` objects of `w`, over a copy of its components or, with
   * `copy=False`, over the component buffer of `w` itself.
   */
  method FromVector(w: Vector, copy: bool) returns (vec: Vector)
    requires w.Shape()
    ensures fresh(vec) && vec.Shape() && vec.nd == w.nd && vec.Components() == w.Components()
    ensures vec.p == w.p && vec.p0 == w.p0 && vec.attrs == map[]
    ensures w.Valid() ==> vec.Valid()
    ensures copy ==> fresh(vec.data)
    ensures !copy ==> vec.data == w.data
  {
    if copy {
      vec := new Vector.CopyOf(w);
    } else {
      vec := new Vector.ViewOf(w);
    }
  }
}
