/**
 * `Point`: a coordinate buffer of fixed dimensionality `nd` whose first
 * components can also be read and written under the names `x`, `y`, `z`.
 */
module Points {
  import opened Results
  import opened Rezero

  /** The axis names `x`, `y`, `z`. */
  datatype Axis = X | Y | Z

  function AxisIndex(a: Axis): nat {
    match a
    case X => 0
    case Y => 1
    case Z => 2
  }

  /**
   * An axis name is an alias of a component only for 2-D points (`x`, `y`)
   * and 3-D points (`x`, `y`, `z`); any other write of that name stores a
   * plain attribute.
   */
  predicate Aliased(nd: nat, a: Axis) {
    (nd == 2 || nd == 3) && AxisIndex(a) < nd
  }

  /**
   * Reading a named axis: the aliased component, else the plain attribute of
   * that name, else `AttributeError`. Shared by `Point` and `Vector`.
   */
  function AxisValue(nd: nat, coords: seq<real>, attrs: map<Axis, real>, a: Axis): (r: Result<real>)
    requires |coords| == nd
    ensures Aliased(nd, a) ==> r == Ok(coords[AxisIndex(a)])
    ensures !Aliased(nd, a) ==> (r.Ok? <==> a in attrs)
    ensures !Aliased(nd, a) && a in attrs ==> r.value == attrs[a]
  {
    if Aliased(nd, a) then Ok(coords[AxisIndex(a)])
    else if a in attrs then Ok(attrs[a])
    else Err(AttributeError)
  }

  /** The buffer and plain attributes after `setattr(obj, a, value)`. */
  function AxisWrite(nd: nat, coords: seq<real>, attrs: map<Axis, real>, a: Axis, value: real): (seq<real>, map<Axis, real>)
    requires |coords| == nd
  {
    if Aliased(nd, a) then (coords[AxisIndex(a) := value], attrs) else (coords, attrs[a := value])
  }

  /**
   * Writing one axis name and reading any name back: the value written for
   * the same name, and the old reading for every other name, since distinct
   * names alias distinct components.
   */
  lemma AxisReadAfterWrite(nd: nat, coords: seq<real>, attrs: map<Axis, real>, a: Axis, b: Axis, value: real)
    requires |coords| == nd
    ensures var (c, m) := AxisWrite(nd, coords, attrs, a, value);
      |c| == nd && AxisValue(nd, c, m, b) == if a == b then Ok(value) else AxisValue(nd, coords, attrs, b)
  {
    assert a != b ==> AxisIndex(a) != AxisIndex(b);
  }

  /**
   * An object with no plain attributes raises `AttributeError` for exactly
   * the names that are not aliases: every name when `nd` is neither 2 nor 3,
   * and `z` when `nd` is 2.
   */
  lemma AxisValueWithoutAttributes(nd: nat, coords: seq<real>, a: Axis)
    requires |coords| == nd
    ensures AxisValue(nd, coords, map[], a) == Err(AttributeError) <==> nd !in {2, 3} || (nd == 2 && a == Z)
  {
  }

  /** The `nd` argument of the constructor. */
  datatype NdArg = NdMissing | NdNonNumeric | NdNumber(value: real)

  /** Python's `int(x)`: truncation toward zero. */
  function Truncate(x: real): (r: int)
    ensures Abs(r as real) <= Abs(x) < Abs(r as real) + 1.0
    ensures (r < 0 ==> x < 0.0) && (x < 0.0 ==> r <= 0)
  {
    if x >= 0.0 then x.Floor else -((-x).Floor)
  }

  /**
   * Dimensionality for a point built without coordinates: 3 unless a number
   * was given, then `int(nd)`; `np.zeros` rejects a negative one.
   */
  function ResolveNd(nd: NdArg): (r: Result<nat>)
    ensures !nd.NdNumber? ==> r == Ok(3)
    ensures nd.NdNumber? ==> (r.Ok? <==> nd.value > -1.0)
    ensures nd.NdNumber? && nd.value >= 0.0 ==> r.Ok? && r.value as real <= nd.value < r.value as real + 1.0
    ensures nd.NdNumber? && -1.0 < nd.value < 0.0 ==> r == Ok(0)
    ensures r.Err? ==> r.error == ValueError
  {
    match nd
    case NdNumber(x) =>
      var k := Truncate(x);
      if k < 0 then Err(ValueError) else Ok(k)
    case _ => Ok(3)
  }

  /** A list entry: a number or `None`. */
  type Entry = Option<real>

  /** The list after every `None` has been overwritten with `0.0`. */
  function FillNoneEntries(s: seq<Entry>): (r: seq<Entry>)
    ensures |r| == |s|
    ensures forall i :: 0 <= i < |s| ==> r[i] == Some(s[i].GetOr(0.0))
  {
    if s == [] then [] else [Some(s[0].GetOr(0.0))] + FillNoneEntries(s[1..])
  }

  /** The coordinates a list stands for: `None` read as 0.0, numbers kept. */
  function FillNone(s: seq<Entry>): (r: seq<real>)
    ensures |r| == |s|
    ensures forall i :: 0 <= i < |s| ==> (s[i].None? ==> r[i] == 0.0) && (s[i].Some? ==> r[i] == s[i].value)
  {
    var filled := FillNoneEntries(s);
    seq(|s|, i requires 0 <= i < |s| => filled[i].value)
  }

  function Zeros(n: nat): (r: seq<real>)
    ensures |r| == n && forall i :: 0 <= i < n ==> r[i] == 0.0
  {
    seq(n, _ => 0.0)
  }

  predicate HasNone(s: seq<Entry>) {
    exists i :: 0 <= i < |s| && s[i].None?
  }

  /** A point in R^nd. */
  class Point {
    /** Dimensionality, fixed at construction. */
    const nd: nat
    /** The component buffer. */
    const coords: array<real>
    /** Plain attributes stored under an axis name that is not an alias. */
    var attrs: map<Axis, real>

    ghost predicate Valid() {
      coords.Length == nd
    }

    function Coords(): seq<real>
      reads coords
    {
      coords[..]
    }

    /** A fresh point holding `values`, with `nd == |values|`. */
    constructor (values: seq<real>)
      ensures Valid() && nd == |values| && Coords() == values
      ensures attrs == map[] && fresh(coords)
    {
      nd := |values|;
      coords := new real[|values|](i requires 0 <= i < |values| => values[i]);
      attrs := map[];
    }

    /**
     * `q.view(Point)`: a new point over the very buffer of `q`; the view
     * re-derives `nd` and the axis aliases from the buffer, so none of the
     * plain attributes of `q` are carried over.
     */
    constructor ViewOf(q: Point)
      requires q.Valid()
      ensures Valid() && nd == q.nd && coords == q.coords && attrs == map[]
    {
      nd := q.nd;
      coords := q.coords;
      attrs := map[];
    }

    /** `getattr(pt, 'x' | 'y' | 'z')`. */
    function Get(a: Axis): (r: Result<real>)
      requires Valid()
      reads this, coords
      ensures Aliased(nd, a) ==> r == Ok(Coords()[AxisIndex(a)])
    {
      AxisValue(nd, coords[..], attrs, a)
    }

    /**
     * `setattr(pt, 'x' | 'y' | 'z', value)`: writes exactly the aliased
     * component and nothing else; otherwise stores a plain attribute.
     */
    method Set(a: Axis, value: real)
      requires Valid()
      modifies this, coords
      ensures Valid()
      ensures Aliased(nd, a) ==> Coords() == old(Coords())[AxisIndex(a) := value] && attrs == old(attrs)
      ensures !Aliased(nd, a) ==> Coords() == old(Coords()) && attrs == old(attrs)[a := value]
      ensures (Coords(), attrs) == AxisWrite(nd, old(Coords()), old(attrs), a, value)
      ensures Get(a) == Ok(value)
    {
      if Aliased(nd, a) {
        coords[AxisIndex(a)] := value;
      } else {
        attrs := attrs[a := value];
      }
    }

    /** `rezero_coords(epsilon)`: snaps components with `|c| <= epsilon` (by default `PointEps`) to zero, in place. */
    method RezeroCoords(eps: Option<real>)
      requires Valid()
      modifies coords
      ensures Valid()
      ensures Coords() == RezeroSeq(old(Coords()), eps.GetOr(PointEps))
    {
      RezeroInPlace(coords, eps.GetOr(PointEps));
    }
  }

  /**
   * `Point(q, copy=copy)` for an existing point `q`: a new point without the
   * plain attributes of `q`, over an independent copy of the buffer, or,
   * with `copy=False`, over the buffer of `q` itself, so that writes through
   * either one reach the other.
   */
  method FromPoint(q: Point, copy: bool) returns (pt: Point)
    requires q.Valid()
    ensures fresh(pt) && pt.Valid() && pt.nd == q.nd && pt.Coords() == q.Coords() && pt.attrs == map[]
    ensures copy ==> fresh(pt.coords)
    ensures !copy ==> pt.coords == q.coords
  {
    if copy {
      pt := new Point(q.coords[..]);
    } else {
      pt := new Point.ViewOf(q);
    }
  }

  /**
   * `Point(p)` for a list (or array) `p`: every `None` entry of the caller's
   * list is overwritten with 0.0 in place, and the point holds the result.
   */
  method FromList(p: array<Entry>) returns (pt: Point)
    modifies p
    ensures p[..] == FillNoneEntries(old(p[..]))
    ensures fresh(pt) && fresh(pt.coords) && pt.Valid() && pt.attrs == map[]
    ensures pt.nd == p.Length && pt.Coords() == FillNone(old(p[..]))
  {
    for i := 0 to p.Length
      invariant forall k :: 0 <= k < i ==> p[k] == Some(old(p[k]).GetOr(0.0))
      invariant forall k :: i <= k < p.Length ==> p[k] == old(p[k])
    {
      if p[i].None? {
        p[i] := Some(0.0);
      }
    }
    var values := seq(p.Length, i requires 0 <= i < p.Length reads p => p[i].GetOr(0.0));
    pt := new Point(values);
  }

  /**
   * `Point(t)` for a tuple `t`: a tuple cannot be assigned into, so one
   * `None` entry turns the whole point into zeros of the same length.
   */
  method FromTuple(t: seq<Entry>) returns (pt: Point)
    ensures fresh(pt) && fresh(pt.coords) && pt.Valid() && pt.attrs == map[]
    ensures pt.nd == |t|
    ensures HasNone(t) ==> pt.Coords() == Zeros(|t|)
    ensures !HasNone(t) ==> pt.Coords() == FillNone(t)
  {
    var i := 0;
    var failed := false;
    while i < |t| && !failed
      invariant 0 <= i <= |t|
      invariant failed <==> exists k :: 0 <= k < i && t[k].None?
    {
      if t[i].None? {
        failed := true;
      }
      i := i + 1;
    }
    if failed {
      pt := new Point(Zeros(|t|));
    } else {
      pt := new Point(FillNone(t));
    }
  }

  /** `Point(nd=nd)` with no coordinates: all zeros, 3-D unless a number is given. */
  method FromNd(nd: NdArg) returns (r: Result<Point>)
    ensures r.Err? <==> ResolveNd(nd).Err?
    ensures r.Err? ==> r.error == ValueError
    ensures r.Ok? ==> fresh(r.value) && fresh(r.value.coords) && r.value.Valid() && r.value.attrs == map[]
    ensures r.Ok? ==> r.value.nd == ResolveNd(nd).value && r.value.Coords() == Zeros(r.value.nd)
  {
    match ResolveNd(nd)
    case Err(e) =>
      r := Err(e);
    case Ok(n) =>
      var pt := new Point(Zeros(n));
      r := Ok(pt);
  }
}
