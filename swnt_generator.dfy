/**
 * The single-walled nanotube generator: the unit cell of `2N` basis atoms
 * with their axial coordinates wrapped into one period `T`, its replication
 * along the tube axis, and the clip-then-centre-then-rotate order of saving.
 */
module SwntGenerators {
  import opened Results
  import opened Rezero
  import opened Text
  import opened GeneratorBase

  /** Tolerance of the axial wrap-around, in the length unit of `T`. */
  const WrapEps: real := 0.01

  /** `np.cos`, `np.sin` and `np.pi`, which the model takes as given. */
  datatype Trig = Trig(pi: real, cos: real -> real, sin: real -> real)

  /**
   * The nanotube scalars the generator reads from itself: chiral indices,
   * bond length, the symmetry numbers `N` and `M`, the period `T`, the tube
   * radius `rt`, the chiral angle, the two basis elements, the cell count
   * `nz`, the target length `L0` and the two length flags.
   */
  datatype SwntParams = SwntParams(
    n: nat, m: nat, bond: real, N: nat, M: int, T: real, rt: real, chiralAngle: real,
    element1: string, element2: string, nz: real, L0: Option<real>, fixLz: bool,
    assumeIntegerUnitCells: bool)

  /** What the unit-cell formulas need: at least one hexagon, a positive period, a non-zero radius. */
  predicate CellReady(p: SwntParams) {
    p.N >= 1 && p.T > 0.0 && p.rt != 0.0
  }

  /** The least integer not below `x`. */
  function Ceil(x: real): (c: int)
    ensures c as real >= x && (c - 1) as real < x
  {
    -((-x).Floor)
  }

  /** Number of subtractions of `T` the wrap loop performs on `z`. */
  function WrapSteps(z: real, T: real): nat
    requires T > 0.0
  {
    if z > T - WrapEps then
      var c := Ceil((z - (T - WrapEps)) / T);
      assert c as real >= (z - (T - WrapEps)) / T > 0.0;
      c
    else 0
  }

  /** `z` after subtracting `T` for as long as it exceeds `T - eps`. */
  function Wrap(z: real, T: real): real
    requires T > 0.0
  {
    z - WrapSteps(z, T) as real * T
  }

  /**
   * Without a positive period the wrap loop never ends: once `z` exceeds
   * `T - eps`, subtracting a `T <= 0` any number of times leaves it above.
   */
  lemma WrapDivergesWithoutPeriod(z: real, T: real, k: nat)
    requires T <= 0.0 && z > T - WrapEps
    ensures z - k as real * T > T - WrapEps
  {
    assert k as real * T <= 0.0 by {
      assert k as real * (-T) >= 0.0;
    }
  }

  /** Scaling by a positive `T` keeps a strict order and a non-strict one. */
  lemma ScalePositive(a: real, b: real, T: real)
    requires T > 0.0
    ensures a < b ==> a * T < b * T
    ensures a <= b ==> a * T <= b * T
  {
    assert b * T - a * T == (b - a) * T;
  }

  /** After `k` subtractions the loop goes on exactly when fewer than `WrapSteps` were made. */
  lemma WrapContinues(z: real, T: real, k: nat)
    requires T > 0.0
    ensures z - k as real * T > T - WrapEps <==> k < WrapSteps(z, T)
  {
    var d := z - (T - WrapEps);
    if d > 0.0 {
      var x := d / T;
      var c := Ceil(x);
      assert c == WrapSteps(z, T);
      assert x * T == d;
      if k < c {
        assert (k as real) < x;
        ScalePositive(k as real, x, T);
      } else {
        assert x <= k as real;
        ScalePositive(x, k as real, T);
      }
    } else {
      ScalePositive(0.0, k as real, T);
    }
  }

  /**
   * The wrap ends at or below `T - eps`; a raw value already there is left
   * alone; a raw value above it lands in the window `(-eps, T - eps]`.
   */
  lemma WrapWindow(z: real, T: real)
    requires T > 0.0
    ensures Wrap(z, T) <= T - WrapEps
    ensures z <= T - WrapEps ==> Wrap(z, T) == z
    ensures z > T - WrapEps ==> Wrap(z, T) > -WrapEps
  {
    var k := WrapSteps(z, T);
    WrapContinues(z, T, k);
    if k > 0 {
      WrapContinues(z, T, k - 1);
      assert z - (k - 1) as real * T == Wrap(z, T) + T;
    }
  }

  /** The whole multiple of `T` that puts `z` into the window is unique: it is the one the loop subtracts. */
  lemma WrapUnique(z: real, T: real, k: nat)
    requires T > 0.0 && z > T - WrapEps
    requires -WrapEps < z - k as real * T <= T - WrapEps
    ensures WrapSteps(z, T) == k && Wrap(z, T) == z - k as real * T
  {
    WrapContinues(z, T, k);
    if k > WrapSteps(z, T) {
      WrapContinues(z, T, k - 1);
    }
  }

  /** The wrap loop of the unit-cell generator: subtract `T` while `z` exceeds `T - eps`. */
  method WrapAxial(z: real, T: real) returns (w: real)
    requires T > 0.0
    ensures w == Wrap(z, T)
  {
    w := z;
    ghost var k: nat := 0;
    WrapContinues(z, T, 0);
    while w > T - WrapEps
      invariant w == z - k as real * T
      invariant k <= WrapSteps(z, T)
      invariant w > T - WrapEps <==> k < WrapSteps(z, T)
      decreases WrapSteps(z, T) - k
    {
      w := w - T;
      k := k + 1;
      WrapContinues(z, T, k);
    }
  }

  /** `tau = M * T / N`: axial step between successive basis pairs. */
  function Tau(p: SwntParams): real
    requires CellReady(p)
  {
    p.M as real * p.T / p.N as real
  }

  /** `dtau = bond * sin(pi / 6 - chiral angle)`: axial offset of basis atom 2. */
  function DTau(p: SwntParams, t: Trig): real {
    p.bond * t.sin(t.pi / 6.0 - p.chiralAngle)
  }

  /** `psi = 2 * pi / N`: angular step between successive basis pairs. */
  function Psi(p: SwntParams, t: Trig): real
    requires CellReady(p)
  {
    2.0 * t.pi / p.N as real
  }

  /** `dpsi = bond * cos(pi / 6 - chiral angle) / rt`: angular offset of basis atom 2. */
  function DPsi(p: SwntParams, t: Trig): real
    requires CellReady(p)
  {
    p.bond * t.cos(t.pi / 6.0 - p.chiralAngle) / p.rt
  }

  /**
   * The `i`-th multiple of a step size. A named function rather than an
   * inline product, so that the solver matches equal products by name.
   */
  function Multiple(i: nat, step: real): real {
    i as real * step
  }

  /** The point at `angle` on the tube wall at height `z`. */
  function OnTube(p: SwntParams, t: Trig, angle: real, z: real): Position {
    Position(p.rt * t.cos(angle), p.rt * t.sin(angle), z)
  }

  /** Basis atom 1 of step `i`: at angle `i * psi`, height `i * tau` wrapped, re-zeroed. */
  function BasisAtom1(p: SwntParams, t: Trig, i: nat): Atom
    requires CellReady(p)
  {
    Atom(p.element1, RezeroPosition(OnTube(p, t, Multiple(i, Psi(p, t)), Wrap(Multiple(i, Tau(p)), p.T)), PointEps))
  }

  /** Basis atom 2 of step `i`: at angle `i * psi + dpsi`, height `i * tau - dtau` wrapped, re-zeroed. */
  function BasisAtom2(p: SwntParams, t: Trig, i: nat): Atom
    requires CellReady(p)
  {
    Atom(p.element2, RezeroPosition(
      OnTube(p, t, Multiple(i, Psi(p, t)) + DPsi(p, t), Wrap(Multiple(i, Tau(p)) - DTau(p, t), p.T)), PointEps))
  }

  /** The unit cell after steps `1..i`: two basis atoms per step, atom 1 first. */
  function UnitCellUpTo(p: SwntParams, t: Trig, i: nat): (r: seq<Atom>)
    requires CellReady(p)
    ensures |r| == 2 * i
  {
    if i == 0 then [] else UnitCellUpTo(p, t, i - 1) + [BasisAtom1(p, t, i), BasisAtom2(p, t, i)]
  }

  /** The unit cell: steps `1..N`. */
  function UnitCell(p: SwntParams, t: Trig): seq<Atom>
    requires CellReady(p)
  {
    UnitCellUpTo(p, t, p.N)
  }

  /** Step `j` contributes the atoms at positions `2(j-1)` and `2j-1`, in ascending order of `j`. */
  lemma {:induction false} UnitCellAt(p: SwntParams, t: Trig, i: nat, j: nat)
    requires CellReady(p) && 1 <= j <= i
    ensures UnitCellUpTo(p, t, i)[2 * (j - 1)] == BasisAtom1(p, t, j)
    ensures UnitCellUpTo(p, t, i)[2 * j - 1] == BasisAtom2(p, t, j)
  {
    if j < i {
      UnitCellAt(p, t, i - 1, j);
    }
  }

  /** The unit cell holds `2N` atoms; even positions carry element 1, odd positions element 2. */
  lemma UnitCellElements(p: SwntParams, t: Trig, k: nat)
    requires CellReady(p) && k < 2 * p.N
    ensures |UnitCell(p, t)| == 2 * p.N
    ensures UnitCell(p, t)[k].element == if k % 2 == 0 then p.element1 else p.element2
  {
    var j := k / 2 + 1;
    UnitCellAt(p, t, p.N, j);
    assert k == 2 * (j - 1) || k == 2 * j - 1;
  }

  /** With a period of at least `eps`, no unit-cell atom lies above `T - eps`. */
  lemma UnitCellAxialBound(p: SwntParams, t: Trig, k: nat)
    requires CellReady(p) && p.T >= WrapEps && k < 2 * p.N
    ensures UnitCell(p, t)[k].r.z <= p.T - WrapEps
  {
    var j := k / 2 + 1;
    UnitCellAt(p, t, p.N, j);
    if k % 2 == 0 {
      assert k == 2 * (j - 1);
      assert UnitCell(p, t)[k] == BasisAtom1(p, t, j);
      WrapWindow(Multiple(j, Tau(p)), p.T);
      assert UnitCell(p, t)[k].r.z == RezeroValue(Wrap(Multiple(j, Tau(p)), p.T), PointEps);
    } else {
      assert k == 2 * j - 1;
      assert UnitCell(p, t)[k] == BasisAtom2(p, t, j);
      WrapWindow(Multiple(j, Tau(p)) - DTau(p, t), p.T);
      assert UnitCell(p, t)[k].r.z == RezeroValue(Wrap(Multiple(j, Tau(p)) - DTau(p, t), p.T), PointEps);
    }
  }

  /** Python's `int(np.ceil(nz))` as a cell count: `range` of a non-positive number is empty. */
  function Cells(nz: real): (c: nat)
    ensures nz <= 0.0 ==> c == 0
    ensures nz > 0.0 ==> c as real >= nz && (c - 1) as real < nz
  {
    if nz <= 0.0 then 0 else Ceil(nz)
  }

  /** A copy of the unit cell moved by `(0, 0, dz)`. */
  function Translated(uc: seq<Atom>, dz: real): (r: seq<Atom>)
    ensures |r| == |uc|
    ensures forall j :: 0 <= j < |uc| ==> r[j] == Atom(uc[j].element, ShiftZ(uc[j].r, dz))
  {
    seq(|uc|, j requires 0 <= j < |uc| => Atom(uc[j].element, ShiftZ(uc[j].r, dz)))
  }

  /** Replicas `0..k-1` of the unit cell, replica `c` offset by `c * T`, in ascending `c`. */
  function Replicate(uc: seq<Atom>, k: nat, T: real): (r: seq<Atom>)
    ensures |r| == k * |uc|
  {
    if k == 0 then [] else Replicate(uc, k - 1, T) + Translated(uc, Multiple(k - 1, T))
  }

  /** One more replica appends the unit cell moved up by `k * T`. */
  lemma ReplicateStep(uc: seq<Atom>, k: nat, T: real)
    ensures Replicate(uc, k + 1, T) == Replicate(uc, k, T) + Translated(uc, Multiple(k, T))
  {
  }

  /** Atom `c * |uc| + j` of the structure is unit-cell atom `j` of replica `c`, moved up by `c * T`. */
  lemma {:induction false} ReplicaAt(uc: seq<Atom>, k: nat, T: real, c: nat, j: nat)
    requires c < k && j < |uc|
    ensures c * |uc| + j < |Replicate(uc, k, T)|
    ensures Replicate(uc, k, T)[c * |uc| + j] == Atom(uc[j].element, ShiftZ(uc[j].r, c as real * T))
  {
    var prefix := Replicate(uc, k - 1, T);
    assert |prefix| == (k - 1) * |uc|;
    assert k * |uc| == (k - 1) * |uc| + |uc|;
    if c == k - 1 {
      assert Replicate(uc, k, T)[c * |uc| + j] == Translated(uc, Multiple(k - 1, T))[j];
    } else {
      assert (c + 1) * |uc| <= (k - 1) * |uc|;
      assert c * |uc| + j < (c + 1) * |uc|;
      ReplicaAt(uc, k - 1, T, c, j);
    }
  }

  /** The cell-count word of the default name: the whole count, or the count to two decimals. */
  function CountText(p: SwntParams): string
    requires p.assumeIntegerUnitCells ==> p.nz == p.nz.Floor as real
  {
    if p.assumeIntegerUnitCells then IntToString(p.nz.Floor) else Fixed2(p.nz)
  }

  /** The default file name: `n` and `m` zero-padded, `r`, `_`, the cell count, and `cell` pluralised. */
  function DefaultName(p: SwntParams): string
    requires p.assumeIntegerUnitCells ==> p.nz == p.nz.Floor as real
  {
    var chirality := ZFill2(p.n) + ZFill2(p.m) + "r";
    chirality + "_" + CountText(p) + Pluralize("cell", p.nz)
  }

  /**
   * For chiral indices below 100 the default name starts with exactly two
   * digits of `n`, two of `m` and `r_`, ends in `cell` for one cell and
   * `cells` otherwise, and for whole cell counts carries the count itself.
   */
  lemma DefaultNameDecodes(p: SwntParams)
    requires p.assumeIntegerUnitCells ==> p.nz == p.nz.Floor as real
    requires p.n < 100 && p.m < 100
    ensures var s := DefaultName(p);
      && |s| >= 10 && AllDigits(s[..4])
      && ParseNat(s[..2]) == p.n && ParseNat(s[2..4]) == p.m && s[4..6] == "r_"
      && (p.nz == 1.0 ==> EndsWith(s, "cell") && !EndsWith(s, "cells"))
      && (p.nz != 1.0 ==> EndsWith(s, "cells"))
    ensures p.assumeIntegerUnitCells && p.nz >= 0.0 ==>
      var s := DefaultName(p);
      var word := Pluralize("cell", p.nz);
      |s| >= 6 + |word| && AllDigits(s[6..|s| - |word|]) && ParseNat(s[6..|s| - |word|]) == p.nz.Floor
  {
    var s := DefaultName(p);
    var zn, zm := ZFill2(p.n), ZFill2(p.m);
    ZFill2Decodes(p.n);
    ZFill2Decodes(p.m);
    var count, word := CountText(p), Pluralize("cell", p.nz);
    assert s == zn + zm + "r_" + count + word;
    assert |count| >= 1 by {
      if !p.assumeIntegerUnitCells {
        if p.nz < 0.0 { Fixed2NonNegNearest(-p.nz); } else { Fixed2NonNegNearest(p.nz); }
      }
    }
    assert s[..2] == zn;
    assert s[2..4] == zm;
    assert s[..4] == zn + zm;
    assert s[4..6] == "r_";
    EndsWithAppend(zn + zm + "r_" + count, word);
    if p.nz == 1.0 {
      assert s[|s| - 1] == 'l';
    }
    if p.assumeIntegerUnitCells && p.nz >= 0.0 {
      assert s[6..|s| - |word|] == count;
      NatToStringRoundTrip(p.nz.Floor);
    }
  }

  /**
   * The transforms of `SWNTGenerator.save_data`: the clip to
   * `[0, 10 * L0 + 0.25]` in z when a fixed length was asked for, the
   * centring if asked, then the base method's (its own centring switched
   * off): the optional rotation.
   */
  function SwntSteps(p: SwntParams, centerCM: bool, rotation: Option<Rotation>): seq<Transform> {
    PreSteps(p, centerCM) + BaseSteps(false, rotation)
  }

  /** What the nanotube save applies itself before calling the base method. */
  function PreSteps(p: SwntParams, centerCM: bool): seq<Transform> {
    (if p.L0.Some? && p.fixLz then [ClipZ(0.0, 10.0 * p.L0.value + 0.25, true)] else [])
      + (if centerCM then [CenterCM] else [])
  }

  /**
   * The nanotube save keeps pipeline order: clip, then centre, then rotate,
   * each at most once, since the base method's own centring is off.
   */
  lemma SwntStepsOrder(p: SwntParams, centerCM: bool, rotation: Option<Rotation>)
    ensures InPipelineOrder(SwntSteps(p, centerCM, rotation))
  {
    var clip := if p.L0.Some? && p.fixLz then [ClipZ(0.0, 10.0 * p.L0.value + 0.25, true)] else [];
    var center := if centerCM then [CenterCM] else [];
    var rotate := if rotation.Some? then [Rotate(rotation.value)] else [];
    assert BaseSteps(false, rotation) == rotate;
    assert SwntSteps(p, centerCM, rotation) == clip + center + rotate;
    assert forall x :: x in clip ==> Rank(x) == 0;
    assert forall x :: x in center ==> Rank(x) == 1;
    assert forall x :: x in rotate ==> Rank(x) == 2;
    PipelineConcat(clip, center);
    assert forall x :: x in clip + center ==> Rank(x) <= 1;
    PipelineConcat(clip + center, rotate);
  }

  /**
   * The clip comes first and only for a fixed length; centring happens
   * exactly when asked for; the rotation comes last exactly when an angle
   * is given.
   */
  lemma SwntStepsContents(p: SwntParams, centerCM: bool, rotation: Option<Rotation>)
    ensures var r := SwntSteps(p, centerCM, rotation);
      && (|r| > 0 && r[0].ClipZ? <==> p.L0.Some? && p.fixLz)
      && (p.L0.Some? && p.fixLz ==> r[0] == ClipZ(0.0, 10.0 * p.L0.value + 0.25, true))
      && (CenterCM in r <==> centerCM)
      && (rotation.Some? <==> |r| > 0 && r[|r| - 1].Rotate?)
  {
    var clip := if p.L0.Some? && p.fixLz then [ClipZ(0.0, 10.0 * p.L0.value + 0.25, true)] else [];
    var center := if centerCM then [CenterCM] else [];
    var rotate := if rotation.Some? then [Rotate(rotation.value)] else [];
    assert BaseSteps(false, rotation) == rotate;
    assert SwntSteps(p, centerCM, rotation) == clip + center + rotate;
  }

  /** A nanotube generator: the nanotube scalars and the generator state of its base mixin. */
  class SwntGenerator {
    const params: SwntParams
    const trig: Trig
    /** The state the class inherits from `GeneratorMixin`. */
    const mixin: GeneratorMixin

    /** `SWNTGenerator(autogen=autogen, ...)`: generates the unit cell and the structure when `autogen`. */
    constructor (params: SwntParams, trig: Trig, autogen: bool, supported: seq<string>, default: string)
      requires autogen ==> CellReady(params)
      ensures this.params == params && this.trig == trig && fresh(mixin)
      ensures mixin.supportedFormats == supported && mixin.defaultFormat == default
      ensures autogen ==> mixin.unitCell == UnitCell(params, trig)
      ensures autogen ==> mixin.structureAtoms == Replicate(mixin.unitCell, Cells(params.nz), params.T)
      ensures !autogen ==> mixin.unitCell == [] && mixin.structureAtoms == []
      ensures mixin.transforms == [] && mixin.written == [] && mixin.fname == None && mixin.fpath == None
    {
      this.params := params;
      this.trig := trig;
      mixin := new GeneratorMixin(supported, default);
      new;
      if autogen {
        GenerateUnitCell();
        GenerateStructureData();
      }
    }

    /** The two basis atoms of step `i` of `generate_unit_cell`, from the step sizes computed once before the loop. */
    method BasisPair(i: nat, tau: real, dtau: real, psi: real, dpsi: real) returns (atom1: Atom, atom2: Atom)
      requires CellReady(params)
      requires tau == Tau(params) && dtau == DTau(params, trig) && psi == Psi(params, trig) && dpsi == DPsi(params, trig)
      ensures atom1 == BasisAtom1(params, trig, i) && atom2 == BasisAtom2(params, trig, i)
    {
      var z1 := WrapAxial(Multiple(i, tau), params.T);
      atom1 := Atom(params.element1, RezeroPosition(OnTube(params, trig, Multiple(i, psi), z1), PointEps));

      var z2 := WrapAxial(Multiple(i, tau) - dtau, params.T);
      atom2 := Atom(params.element2, RezeroPosition(OnTube(params, trig, Multiple(i, psi) + dpsi, z2), PointEps));
    }

    /** `generate_unit_cell`: replaces the unit cell with the `2N` basis atoms of steps `1..N`. */
    method GenerateUnitCell()
      requires CellReady(params)
      modifies mixin
      ensures mixin.unitCell == UnitCell(params, trig)
      ensures mixin.structureAtoms == old(mixin.structureAtoms) && mixin.transforms == old(mixin.transforms)
      ensures mixin.fname == old(mixin.fname) && mixin.fpath == old(mixin.fpath) && mixin.written == old(mixin.written)
    {
      var tau, dtau := Tau(params), DTau(params, trig);
      var psi, dpsi := Psi(params, trig), DPsi(params, trig);
      mixin.unitCell := [];
      for i := 1 to params.N + 1
        invariant mixin.unitCell == UnitCellUpTo(params, trig, i - 1)
        invariant mixin.structureAtoms == old(mixin.structureAtoms) && mixin.transforms == old(mixin.transforms)
        invariant mixin.fname == old(mixin.fname) && mixin.fpath == old(mixin.fpath) && mixin.written == old(mixin.written)
      {
        var atom1, atom2 := BasisPair(i, tau, dtau, psi, dpsi);
        mixin.unitCell := mixin.unitCell + [atom1];
        mixin.unitCell := mixin.unitCell + [atom2];
      }
    }

    /**
     * `generate_structure_data`: replaces the structure with `ceil(nz)`
     * copies of the unit cell, copy `k` moved up by `k * T`.
     */
    method GenerateStructureData()
      modifies mixin
      ensures mixin.structureAtoms == Replicate(mixin.unitCell, Cells(params.nz), params.T)
      ensures mixin.transforms == []
      ensures mixin.unitCell == old(mixin.unitCell)
      ensures mixin.fname == old(mixin.fname) && mixin.fpath == old(mixin.fpath) && mixin.written == old(mixin.written)
    {
      var uc := mixin.unitCell;
      mixin.structureAtoms, mixin.transforms := [], [];
      for k := 0 to Cells(params.nz)
        invariant mixin.structureAtoms == Replicate(uc, k, params.T)
        invariant mixin.unitCell == uc && mixin.transforms == []
        invariant mixin.fname == old(mixin.fname) && mixin.fpath == old(mixin.fpath) && mixin.written == old(mixin.written)
      {
        var dz := Multiple(k, params.T);
        for j := 0 to |uc|
          invariant mixin.structureAtoms == Replicate(uc, k, params.T) + Translated(uc, dz)[..j]
          invariant mixin.unitCell == uc && mixin.transforms == []
          invariant mixin.fname == old(mixin.fname) && mixin.fpath == old(mixin.fpath) && mixin.written == old(mixin.written)
        {
          var ucAtom := uc[j];
          mixin.structureAtoms := mixin.structureAtoms + [Atom(ucAtom.element, ShiftZ(ucAtom.r, dz))];
          assert Translated(uc, dz)[..j + 1] == Translated(uc, dz)[..j] + [Translated(uc, dz)[j]];
        }
        assert Translated(uc, dz)[..|uc|] == Translated(uc, dz);
        ReplicateStep(uc, k, params.T);
      }
    }

    /** The file name a save starts from: the given one, or the default name. */
    function NameFor(fname: Option<string>): string
      requires fname.None? && params.assumeIntegerUnitCells ==> params.nz == params.nz.Floor as real
    {
      if fname.Some? then fname.value else DefaultName(params)
    }

    /** The part of `save_data` before the base method: the clip to a fixed length, then the centring. */
    method ApplyPreSteps(centerCM: bool)
      modifies mixin
      ensures mixin.transforms == old(mixin.transforms) + PreSteps(params, centerCM)
      ensures mixin.fname == old(mixin.fname) && mixin.fpath == old(mixin.fpath) && mixin.written == old(mixin.written)
      ensures mixin.unitCell == old(mixin.unitCell) && mixin.structureAtoms == old(mixin.structureAtoms)
    {
      if params.L0.Some? && params.fixLz {
        mixin.transforms := mixin.transforms + [ClipZ(0.0, 10.0 * params.L0.value + 0.25, true)];
      }
      assert mixin.transforms == old(mixin.transforms) + PreSteps(params, false);
      if centerCM {
        mixin.transforms := mixin.transforms + [CenterCM];
      }
    }

    /**
     * `save_data`: the default name when none is given, the clip to the
     * target length when one is fixed, the centring, then the base method
     * with its centring off, which resolves the name, rotates and writes.
     */
    method SaveData(fname: Option<string>, outpath: Option<string>, structureFormat: Option<string>,
                    rotationAngle: Option<real>, rotAxis: Option<string>, deg2rad: bool, centerCM: bool)
      returns (r: Result<()>)
      requires fname.None? && params.assumeIntegerUnitCells ==> params.nz == params.nz.Floor as real
      modifies mixin
      ensures r == Ok(())
      ensures mixin.fname == Some(mixin.SavedName(NameFor(fname), structureFormat))
      ensures outpath.Some? ==> mixin.fpath == Some(PathJoin(outpath.value, mixin.SavedName(NameFor(fname), structureFormat)))
      ensures outpath.None? ==> mixin.fpath == old(mixin.fpath)
      ensures mixin.written == old(mixin.written) + [Output(mixin.SavedName(NameFor(fname), structureFormat), outpath,
        mixin.SavedFormat(NameFor(fname), structureFormat), mixin.structureAtoms, mixin.transforms)]
      ensures mixin.transforms == old(mixin.transforms) + SwntSteps(params, centerCM, RotationOf(rotationAngle, rotAxis, deg2rad))
      ensures mixin.unitCell == old(mixin.unitCell) && mixin.structureAtoms == old(mixin.structureAtoms)
    {
      var name := NameFor(fname);
      ghost var before := mixin.transforms;
      ApplyPreSteps(centerCM);
      ghost var pre, base := PreSteps(params, centerCM), BaseSteps(false, RotationOf(rotationAngle, rotAxis, deg2rad));
      r := mixin.SaveData(Some(name), outpath, structureFormat, rotationAngle, rotAxis, deg2rad, false);
      assert mixin.transforms == before + (pre + base);
    }
  }
}
