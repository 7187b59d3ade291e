/**
 * What all structure generators share: the atoms they produce, the file
 * name and format resolution of `save_data`, and the order in which
 * `save_data` transforms the structure before handing it to the writer.
 */
module GeneratorBase {
  import opened Results
  import opened Rezero
  import opened Text

  /** An atom position in Cartesian coordinates. */
  datatype Position = Position(x: real, y: real, z: real)

  /** A generated atom: an element label and a position. */
  datatype Atom = Atom(element: string, r: Position)

  /** `atom.rezero()`: every coordinate with `|c| <= eps` snapped to zero. */
  function RezeroPosition(r: Position, eps: real): Position {
    Position(RezeroValue(r.x, eps), RezeroValue(r.y, eps), RezeroValue(r.z, eps))
  }

  /** The position moved by `(0, 0, dz)`. */
  function ShiftZ(r: Position, dz: real): Position {
    Position(r.x, r.y, r.z + dz)
  }

  /** The arguments of one rotation request. */
  datatype Rotation = Rotation(angle: real, axis: Option<string>, deg2rad: bool)

  /**
   * A transform applied to the structure atoms in place. Their code lives in
   * the atom collection and is recorded here by name and argument only.
   */
  datatype Transform =
    | ClipZ(zmin: real, zmax: real, centerBeforeClipping: bool)  // `clip_bounds` to a slab in z
    | CenterCM                                                 // `center_CM`
    | Rotate(rotation: Rotation)                               // `rotate(rotation_matrix(...))`

  /** One hand-off to the structure writer: the atoms as generated and the transforms applied to them since. */
  datatype Output = Output(fname: string, outpath: Option<string>, format: string,
                           atoms: seq<Atom>, transforms: seq<Transform>)

  /** Pipeline position of a transform: clipping, then centring, then rotation. */
  function Rank(t: Transform): nat {
    match t
    case ClipZ(_, _, _) => 0
    case CenterCM => 1
    case Rotate(_) => 2
  }

  /** Each kind of transform occurs at most once, and in pipeline order. */
  predicate InPipelineOrder(ts: seq<Transform>) {
    forall i, j :: 0 <= i < j < |ts| ==> Rank(ts[i]) < Rank(ts[j])
  }

  /** Two ordered runs, every step of the first ranked below every step of the second, make an ordered run. */
  lemma PipelineConcat(a: seq<Transform>, b: seq<Transform>)
    requires InPipelineOrder(a) && InPipelineOrder(b)
    requires forall x, y :: x in a && y in b ==> Rank(x) < Rank(y)
    ensures InPipelineOrder(a + b)
  {
    forall i, j | 0 <= i < j < |a + b| ensures Rank((a + b)[i]) < Rank((a + b)[j]) {
      if j < |a| {
        assert (a + b)[i] == a[i] && (a + b)[j] == a[j];
      } else if i >= |a| {
        assert (a + b)[i] == b[i - |a|] && (a + b)[j] == b[j - |a|];
      } else {
        assert (a + b)[i] in a && (a + b)[j] in b;
      }
    }
  }

  /** Index of the first suffix in list order that `fname` ends with. */
  function FirstSuffix(fname: string, suffixes: seq<string>): (k: nat)
    requires EndsWithAny(fname, suffixes)
    ensures k < |suffixes| && EndsWith(fname, suffixes[k])
    ensures forall j :: 0 <= j < k ==> !EndsWith(fname, suffixes[j])
  {
    if EndsWith(fname, suffixes[0]) then 0
    else
      assert EndsWithAny(fname, suffixes[1..]) by {
        var i :| 0 <= i < |suffixes| && EndsWith(fname, suffixes[i]);
        assert suffixes[1..][i - 1] == suffixes[i];
      }
      1 + FirstSuffix(fname, suffixes[1..])
  }

  /**
   * The structure format `save_data` writes: inferred from the name when no
   * format is given and the name ends with a supported one; otherwise the
   * given format if it is supported, else the default.
   */
  function ResolveFormat(fname: string, format: Option<string>, supported: seq<string>, default: string): string {
    if EndsWithAny(fname, supported) && format.None? then
      supported[FirstSuffix(fname, supported)]
    else if format.None? || format.value !in supported
      || (!EndsWithAny(fname, supported) && format.value !in supported) then
      default
    else
      format.value
  }

  /**
   * The inferred format is the first supported one, in list order, that the
   * name ends with; a supported explicit format is kept; anything else falls
   * back to the default.
   */
  lemma ResolveFormatChoice(fname: string, format: Option<string>, supported: seq<string>, default: string)
    ensures var r := ResolveFormat(fname, format, supported, default);
      format.None? && EndsWithAny(fname, supported) ==>
        exists k :: 0 <= k < |supported| && supported[k] == r && EndsWith(fname, r) &&
          forall j :: 0 <= j < k ==> !EndsWith(fname, supported[j])
    ensures format.Some? && format.value in supported ==> ResolveFormat(fname, format, supported, default) == format.value
    ensures format.None? && !EndsWithAny(fname, supported) ==> ResolveFormat(fname, format, supported, default) == default
    ensures format.Some? && format.value !in supported ==> ResolveFormat(fname, format, supported, default) == default
  {
    if format.None? && EndsWithAny(fname, supported) {
      var k := FirstSuffix(fname, supported);
      assert supported[k] == ResolveFormat(fname, format, supported, default);
    }
  }

  /**
   * The file name `save_data` writes: `'.' + format` is appended unless the
   * name already ends with the format.
   */
  function ResolveName(fname: string, format: string): string {
    if EndsWith(fname, format) then fname else fname + "." + format
  }

  /**
   * The resolved name starts with the given name and ends with the format;
   * `'.' + format` is what was appended, exactly when the name lacked the
   * format.
   */
  lemma ResolveNameParts(fname: string, format: string)
    ensures var r := ResolveName(fname, format);
      && EndsWith(r, format)
      && |fname| <= |r| && r[..|fname|] == fname
      && (EndsWith(fname, format) ==> r == fname)
      && (!EndsWith(fname, format) ==> r[|fname|..] == "." + format)
  {
    if !EndsWith(fname, format) {
      EndsWithAppend(fname + ".", format);
      assert (fname + "." + format)[..|fname|] == fname;
    }
  }

  /** Resolving a resolved name changes nothing. */
  lemma ResolveNameIdempotent(fname: string, format: string)
    ensures ResolveName(ResolveName(fname, format), format) == ResolveName(fname, format)
  {
    ResolveNameParts(fname, format);
  }

  /**
   * The extension test does not look for the dot: a name that merely ends
   * in the letters of the format keeps no extension at all.
   */
  lemma ResolveNameWithoutDot()
    ensures ResolveFormat("tube_xyz", None, ["xyz", "data"], "xyz") == "xyz"
    ensures ResolveName("tube_xyz", "xyz") == "tube_xyz"
    ensures !EndsWith(ResolveName("tube_xyz", "xyz"), ".xyz")
  {
    assert EndsWith("tube_xyz", "xyz") by {
      assert "tube_xyz"[5..] == "xyz";
    }
    assert EndsWithAny("tube_xyz", ["xyz", "data"]) by {
      assert ["xyz", "data"][0] == "xyz";
    }
    assert "tube_xyz"[4..] != ".xyz" by {
      assert "tube_xyz"[4..][0] == '_';
    }
  }

  predicate StartsWith(s: string, prefix: string) {
    |prefix| <= |s| && s[..|prefix|] == prefix
  }

  /** POSIX `os.path.join(dir, name)` for two components. */
  function PathJoin(dir: string, name: string): string {
    if StartsWith(name, "/") then name
    else if dir == [] || EndsWith(dir, "/") then dir + name
    else dir + "/" + name
  }

  /**
   * The joined path ends with the file name; it starts with the directory
   * unless the name is absolute, in which case it is the name alone; a
   * separator is inserted only when the directory lacks one.
   */
  lemma PathJoinParts(dir: string, name: string)
    ensures EndsWith(PathJoin(dir, name), name)
    ensures StartsWith(name, "/") ==> PathJoin(dir, name) == name
    ensures !StartsWith(name, "/") ==> StartsWith(PathJoin(dir, name), dir)
    ensures !StartsWith(name, "/") && dir != [] && !EndsWith(dir, "/") ==> PathJoin(dir, name) == dir + "/" + name
  {
    var r := PathJoin(dir, name);
    if StartsWith(name, "/") {
      assert name[|name| - |name|..] == name;
    } else if dir == [] || EndsWith(dir, "/") {
      EndsWithAppend(dir, name);
      assert (dir + name)[..|dir|] == dir;
    } else {
      EndsWithAppend(dir + "/", name);
      assert (dir + "/" + name)[..|dir|] == dir;
    }
  }

  /** The transforms of `GeneratorMixin.save_data`: centring if asked, then the rotation if an angle is given. */
  function BaseSteps(centerCM: bool, rotation: Option<Rotation>): seq<Transform> {
    (if centerCM then [CenterCM] else [])
      + (if rotation.Some? then [Rotate(rotation.value)] else [])
  }

  /**
   * The base transforms are in pipeline order with no clipping; centring is
   * there exactly when asked for, and the rotation comes last exactly when
   * an angle is given.
   */
  lemma BaseStepsOrder(centerCM: bool, rotation: Option<Rotation>)
    ensures var r := BaseSteps(centerCM, rotation);
      && InPipelineOrder(r)
      && (CenterCM in r <==> centerCM)
      && (forall t :: t in r ==> !t.ClipZ?)
      && (rotation.Some? <==> |r| > 0 && r[|r| - 1].Rotate?)
      && (rotation.Some? ==> r[|r| - 1] == Rotate(rotation.value))
  {
    var r := BaseSteps(centerCM, rotation);
    if centerCM && rotation.Some? {
      assert r == [CenterCM, Rotate(rotation.value)];
    }
  }

  /** The rotation a save asks for: one exactly when an angle is given. */
  function RotationOf(rotationAngle: Option<real>, rotAxis: Option<string>, deg2rad: bool): Option<Rotation> {
    if rotationAngle.Some? then Some(Rotation(rotationAngle.value, rotAxis, deg2rad)) else None
  }

  /** The state every generator keeps: its file name and path, unit cell, structure atoms, and what it has written. */
  class GeneratorMixin {
    /** `supported_structure_formats` of the structure I/O package, in its order. */
    const supportedFormats: seq<string>
    /** `default_structure_format` of the structure I/O package. */
    const defaultFormat: string
    /** `_fname`: unset until the first save. */
    var fname: Option<string>
    /** `_fpath`: unset until a save with an output path. */
    var fpath: Option<string>
    /** `_unit_cell`. */
    var unitCell: seq<Atom>
    /** `structure_atoms`, as generated. */
    var structureAtoms: seq<Atom>
    /** The transforms applied to `structureAtoms` since they were generated, oldest first. */
    var transforms: seq<Transform>
    /** Every hand-off to the structure writer, oldest first. */
    var written: seq<Output>

    /** The format a save with this file name and format argument writes. */
    function SavedFormat(fname: string, structureFormat: Option<string>): string {
      ResolveFormat(fname, structureFormat, supportedFormats, defaultFormat)
    }

    /** The file name a save with this file name and format argument writes. */
    function SavedName(fname: string, structureFormat: Option<string>): string {
      ResolveName(fname, SavedFormat(fname, structureFormat))
    }

    constructor (supported: seq<string>, default: string)
      ensures supportedFormats == supported && defaultFormat == default
      ensures fname == None && fpath == None
      ensures unitCell == [] && structureAtoms == [] && transforms == [] && written == []
    {
      supportedFormats, defaultFormat := supported, default;
      fname, fpath := None, None;
      unitCell, structureAtoms, transforms, written := [], [], [], [];
    }

    /**
     * `save_data`: resolves the format and file name, records them (and the
     * path when an output path is given), centres then rotates the atoms as
     * asked, and only then writes. A `None` file name fails at `.endswith`
     * before anything changes.
     */
    method SaveData(fname: Option<string>, outpath: Option<string>, structureFormat: Option<string>,
                    rotationAngle: Option<real>, rotAxis: Option<string>, deg2rad: bool, centerCM: bool)
      returns (r: Result<()>)
      modifies this
      ensures fname.None? ==> r == Err(AttributeError)
      ensures fname.None? ==> (this.fname == old(this.fname) && fpath == old(fpath)
        && transforms == old(transforms) && written == old(written))
      ensures fname.Some? ==> r == Ok(())
      ensures fname.Some? ==> this.fname == Some(SavedName(fname.value, structureFormat))
      ensures fname.Some? && outpath.Some? ==> fpath == Some(PathJoin(outpath.value, SavedName(fname.value, structureFormat)))
      ensures outpath.None? ==> fpath == old(fpath)
      ensures fname.Some? ==> transforms == old(transforms) + BaseSteps(centerCM, RotationOf(rotationAngle, rotAxis, deg2rad))
      ensures fname.Some? ==> (written == old(written)
        + [Output(SavedName(fname.value, structureFormat), outpath, SavedFormat(fname.value, structureFormat), structureAtoms, transforms)])
      ensures unitCell == old(unitCell) && structureAtoms == old(structureAtoms)
    {
      if fname.None? {
        return Err(AttributeError);
      }
      var format := ResolveFormat(fname.value, structureFormat, supportedFormats, defaultFormat);
      var name := ResolveName(fname.value, format);
      var path := if outpath.Some? then Some(PathJoin(outpath.value, name)) else fpath;
      var steps := transforms;
      if centerCM {
        steps := steps + [CenterCM];
      }
      assert steps == old(transforms) + BaseSteps(centerCM, None);
      if rotationAngle.Some? {
        steps := steps + [Rotate(Rotation(rotationAngle.value, rotAxis, deg2rad))];
      }
      assert steps == old(transforms) + BaseSteps(centerCM, RotationOf(rotationAngle, rotAxis, deg2rad));
      this.fname, fpath, transforms := Some(name), path, steps;
      written := written + [Output(name, outpath, format, structureAtoms, transforms)];
      r := Ok(());
    }
  }
}
