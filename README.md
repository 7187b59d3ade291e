# scikit-nano geometry core in Dafny

This project models the coordinate bookkeeping and the structure-generation loops of scikit-nano.

- **`Point`**: a coordinate buffer of fixed dimensionality. It is built with fallbacks for `None` entries and for a missing `nd`. It can be read and written through the axis names `x`, `y`, `z`, and re-zeroed in place.
- **`Vector`**: a displacement `v` bound to an origin point `p0` and a terminal point `p`. For float components, the axis setter keeps `v = p - p0`, and the `p` and `p0` setters restore it.
- **Collection utilities**: `ListBasedSet` (order-preserving de-duplication), `cyclic_pairs` and `rezero_array`.
- **`GeneratorMixin.save_data`**: resolves the structure format and the file name, records the path, and then centres, rotates and writes in that order.
- **`SWNTGenerator`**: builds the nanotube unit cell of `2N` basis atoms, wrapping axial coordinates into one period `T`. It tiles the cell `ceil(nz)` times along the axis. Its `save_data` composes a default file name and clips, then centres, then calls the base method.

Layout, one module per file:

- `results.dfy` (`Results`): `Option`, `Result`, and the Python exceptions raised on the modelled paths.
- `rezero.dfy` (`Rezero`): snapping near-zero numbers to zero. This is shared by `Point`, `Vector` and `rezero_array`. It holds the in-place array loop.
- `text.dfy` (`Text`): suffix tests, decimal rendering, `zfill(2)`, two-decimal formatting and pluralisation.
- `point.dfy` (`Points`): the class `Point` and its construction paths.
- `vector.dfy` (`Vectors`): the class `Vector` with its invariant `v = p - p0`.
- `extras.dfy` (`Extras`): the class `ListBasedSet`, `CyclicPairs` and `RezeroArray`.
- `generator_base.dfy` (`GeneratorBase`): atoms as values, format and name resolution, and the class `GeneratorMixin`.
- `swnt_generator.dfy` (`SwntGenerators`): the wrap loop, the unit cell, replication, the default name and the class `SwntGenerator`.

Numbers are modelled as mathematical reals, so `v = p - p0` and similar identities hold exactly. Vectors built from integer sequences, whose buffers numpy keeps as integers, are not modelled.

`SWNTGenerator` inherits from both `SWNT` and `GeneratorMixin`. Here it holds a `GeneratorMixin` object (`mixin`) and the nanotube scalars (`SwntParams`).

The atom collection's own operations (`clip_bounds`, `center_CM`, `rotate`) are not part of this model. Each one is recorded by name and argument in the generator's `transforms` log. Each hand-off to the writer is recorded as an `Output` holding the file name, path, format, atoms and transforms.

The `Point` classes in `sknano/core/_npcoremath.py` and in `sknano/core/math/_point.py` behave identically on every modelled path, so they are modelled once. They differ only in `verbose`, `__str__`/`__repr__` and how the array is allocated.

## Model

| member | source | states |
|---|---|---|
| Rezero.RezeroSeq | sknano/core/math/_point.py:153 | re-zeroing keeps the length, sets every component with abs(c) <= eps to 0 and keeps every other component |
| Rezero.RezeroSnaps | sknano/core/math/_point.py:141-153 | after re-zeroing no component lies in the band 0 < abs(c) <= eps |
| Rezero.RezeroFixedPoint | sknano/core/_npcoremath.py:134-146 | re-zeroing leaves a sequence unchanged if and only if nothing in it lies in the snapping band |
| Rezero.RezeroIdempotent | sknano/core/math/_point.py:141-153 | re-zeroing twice equals re-zeroing once |
| Rezero.RezeroInPlace | sknano/core/_extras.py:96 | the in-place loop leaves the array equal to the re-zeroed old contents |
| Points.AxisReadAfterWrite | sknano/core/math/_point.py:104-139 | after setattr of one axis name, reading that name returns the value written and reading any other name returns what it did before |
| Points.AxisValueWithoutAttributes | sknano/core/math/_point.py:104-121 | with no plain attributes, reading an axis name raises AttributeError exactly when it is not an alias: every name unless nd is 2 or 3, and z when nd is 2 |
| Points.Truncate | sknano/core/math/_point.py:67 | int(x) truncates toward zero: abs(r) <= abs(x) < abs(r) + 1, keeping the sign |
| Points.ResolveNd | sknano/core/math/_point.py:63-68 | a missing or non-numeric nd gives 3; a number gives int(nd) when that is >= 0, and ValueError (np.zeros of a negative size) exactly when nd <= -1 |
| Points.FillNoneEntries | sknano/core/math/_point.py:55-57 | the caller's list after the loop: each None becomes 0.0 and every other entry is kept |
| Points.FillNone | sknano/core/math/_point.py:53-62 | the coordinates of a list: same length, None read as 0.0, numbers kept |
| Points.Point.constructor | sknano/core/math/_point.py:70-80 | a fresh buffer holding exactly the given values, with nd equal to their count |
| Points.Point.ViewOf | sknano/core/math/_point.py:82-92 | a view is a new point over q's own buffer, with q's nd and no plain attributes |
| Points.Point.Get | sknano/core/math/_point.py:104-121 | for an aliased axis, the attribute read returns that component |
| Points.Point.Set | sknano/core/math/_point.py:123-139 | for nd 2 or 3 and an axis below nd, writes exactly that component; otherwise stores a plain attribute and leaves the buffer unchanged; a later read returns the value written; the new buffer and attributes are AxisWrite of the old ones, so Points.AxisReadAfterWrite applies |
| Points.Point.RezeroCoords | sknano/core/math/_point.py:141-153 | the buffer becomes the re-zeroed old buffer, with tolerance 1e-10 when none is given; nd is unchanged |
| Points.FromPoint | sknano/core/math/_point.py:36-49 | the result is always a new point without the plain attributes of q, with q's nd and coordinates; copy=True gives it a fresh buffer, copy=False the very buffer of q |
| Points.FromList | sknano/core/math/_point.py:53-62 | the caller's list has each None overwritten with 0.0 in place; the point has nd = len(p) and the filled values |
| Points.FromTuple | sknano/core/math/_point.py:53-62 | nd = len(t); one None entry makes the point all zeros (the tuple cannot be assigned into); otherwise the entries are kept |
| Points.FromNd | sknano/core/math/_point.py:63-68 | without a sequence the point is all zeros of the resolved nd; it fails with ValueError exactly when nd resolves to an error |
| Vectors.SubAddInverse | sknano/core/_npcoremath.py:196-214 | v = p - p0 if and only if p = p0 + v |
| Vectors.Vector.FromComponents | sknano/core/_npcoremath.py:192-200 | nd = len(v); p0 is the given origin or zeros; p = p0 + v whatever p was passed; the invariant holds |
| Vectors.Vector.FromPoints | sknano/core/_npcoremath.py:201-214 | a missing p or p0 is the zero point of the resolved nd; the components are p - p0 |
| Vectors.Vector.CopyOf | sknano/core/_npcoremath.py:230-247 | a copy has equal components in a fresh buffer and is bound to the very p and p0 objects of the original |
| Vectors.Vector.ViewOf | sknano/core/_npcoremath.py:230-247 | a view is a new vector over w's own component buffer, bound to w's p and p0, with no plain attributes |
| Vectors.Vector.Get | sknano/core/_npcoremath.py:252-269 | for an aliased axis, the attribute read returns that component of v |
| Vectors.Vector.Set | sknano/core/_npcoremath.py:271-307 | on any vector with p and p0, an aliased write sets v[i] = value and p[i] = p0[i] + value, leaving p0 and the other components alone; v = p - p0 is kept when it held before; the new buffer and attributes are AxisWrite of the old ones, so Points.AxisReadAfterWrite applies |
| Vectors.Vector.SetP | sknano/core/_npcoremath.py:314-318 | on any vector with p and p0, p becomes the new value, p0 is unchanged, and v is recomputed as p - p0, so the invariant holds afterwards even if it was broken |
| Vectors.Vector.SetP0 | sknano/core/_npcoremath.py:325-329 | on any vector with p and p0, p0 becomes the new value, p is unchanged, and v is recomputed as p - p0, so the invariant holds afterwards even if it was broken |
| Vectors.Vector.RezeroComponents | sknano/core/_npcoremath.py:331-343 | v becomes its re-zeroed old value, with tolerance 1e-10 when none is given; p and p0 are untouched |
| Vectors.RezeroComponentsCanBreakInvariant | sknano/core/_npcoremath.py:331-343 | a vector with v = p - p0 and a component of 5e-11 no longer satisfies v = p - p0 after re-zeroing |
| Vectors.FromVector | sknano/core/_npcoremath.py:177-190 | Vector(w, copy) is a new vector with w's components bound to w's p and p0; copy=True gives it a fresh buffer, copy=False w's own buffer |
| Extras.DedupMembers | sknano/core/_extras.py:46-56 | a value is kept by the de-duplicating scan if and only if it occurs in the input |
| Extras.DedupNoDuplicates | sknano/core/_extras.py:46-50 | the kept list has no duplicates |
| Extras.DedupFirstOccurrenceOrder | sknano/core/_extras.py:46-50 | kept values appear in the order of their first occurrences in the input |
| Extras.DedupLength | sknano/core/_extras.py:58-59 | the kept list is as long as the number of distinct input values, and no longer than the input |
| Extras.ListBasedSet.constructor | sknano/core/_extras.py:46-50 | the append loop leaves elements equal to the scan's result: no duplicates, the same values as the iterable |
| Extras.ListBasedSet.Contains | sknano/core/_extras.py:55-56 | membership holds exactly for values that occur in the iterable |
| Extras.ListBasedSet.Length | sknano/core/_extras.py:58-59 | the length is the number of distinct values of the iterable, at most its length |
| Extras.Zip | sknano/core/_extras.py:76 | zip pairs elements index by index up to the shorter length |
| Extras.CyclicPairs | sknano/core/_extras.py:62-76 | StopIteration exactly for an empty input; otherwise n pairs, pair i being (a[i], a[(i+1) mod n]) |
| Extras.CyclicPairsChain | sknano/core/_extras.py:62-76 | the second element of each pair is the first element of the next pair, cyclically |
| Extras.CyclicPairsSingleton | sknano/core/_extras.py:75-76 | a one-element input gives the single pair (a0, a0) |
| Extras.RezeroArray | sknano/core/_extras.py:79-98 | TypeError for a non-array; otherwise the same array is returned with its contents re-zeroed in place, with tolerance 5 * 2^-52 when none is given |
| Text.NatToStringRoundTrip | sknano/generators/_swnt_generator.py:185-188 | the decimal rendering of a natural number parses back to it |
| Text.ParseNatLeadingZero | sknano/generators/_swnt_generator.py:185-186 | a leading zero does not change the parsed value |
| Text.ZFill2Decodes | sknano/generators/_swnt_generator.py:185-186 | zfill(2) keeps the value and gives exactly two digits if and only if n < 100 |
| Text.HundredthsValue | sknano/generators/_swnt_generator.py:191 | a count of hundredths renders as int.dd whose value is exactly the count over 100 |
| Text.Fixed2NonNegNearest | sknano/generators/_swnt_generator.py:191 | the two-decimal rendering has the form int.dd and lies within half a hundredth of the number |
| Text.EndsWithAppend | sknano/generators/_base.py:91-92 | a string with a suffix appended ends with that suffix |
| GeneratorBase.FirstSuffix | sknano/generators/_base.py:81-84 | the format-inference loop picks the first supported format, in list order, that the name ends with |
| GeneratorBase.ResolveFormatChoice | sknano/generators/_base.py:79-89 | with no format and a name ending with a supported one, the first such format; a supported explicit format is kept; otherwise the default |
| GeneratorBase.ResolveNameParts | sknano/generators/_base.py:91-92 | the name is kept as a prefix and ends with the format afterwards; "." + format is appended exactly when it did not end with the format |
| GeneratorBase.ResolveNameIdempotent | sknano/generators/_base.py:91-92 | resolving a resolved name changes nothing |
| GeneratorBase.ResolveNameWithoutDot | sknano/generators/_base.py:79-92 | the suffix test has no dot: "tube_xyz" infers format xyz and is written with no extension |
| GeneratorBase.PathJoinParts | sknano/generators/_base.py:95-96 | the joined path ends with the file name and, unless that name is absolute, starts with the directory, with one separator in between |
| GeneratorBase.PipelineConcat | sknano/generators/_base.py:100-107 | two ordered step lists, every step of the first ranked before every step of the second, concatenate to an ordered list |
| GeneratorBase.BaseStepsOrder | sknano/generators/_base.py:100-107 | the base transforms are in pipeline order; centring is present iff requested; there is no clipping; the rotation comes last, exactly when an angle is given |
| GeneratorBase.GeneratorMixin.constructor | sknano/generators/_base.py:22-48 | a generator starts with no file name or path, an empty unit cell and structure, and nothing applied or written |
| GeneratorBase.GeneratorMixin.SaveData | sknano/generators/_base.py:50-111 | a None name gives AttributeError and changes nothing. Otherwise it records the resolved name, and the joined path only when outpath is given. It appends the centring and rotation steps, then the write of the transformed atoms under that name and format |
| SwntGenerators.Ceil | sknano/generators/_swnt_generator.py:168 | np.ceil: the least integer not below x |
| SwntGenerators.WrapContinues | sknano/generators/_swnt_generator.py:140-141 | after k subtractions the wrap loop continues exactly when k is below the number of steps it takes |
| SwntGenerators.WrapWindow | sknano/generators/_swnt_generator.py:138-141 | the wrapped value is at most T - eps; a value already there is unchanged; a value above it ends above -eps |
| SwntGenerators.WrapUnique | sknano/generators/_swnt_generator.py:138-141 | the wrap subtracts the unique whole multiple of T that lands the value in (-eps, T - eps] |
| SwntGenerators.WrapAxial | sknano/generators/_swnt_generator.py:140-141 | the while loop terminates and returns the wrapped value |
| SwntGenerators.WrapDivergesWithoutPeriod | sknano/generators/_swnt_generator.py:138-155 | with T <= 0 a value above T - eps stays above it after any number of subtractions, so the wrap loop never ends |
| SwntGenerators.UnitCellUpTo | sknano/generators/_swnt_generator.py:135-163 | after steps 1..i the unit cell holds 2i atoms |
| SwntGenerators.UnitCellAt | sknano/generators/_swnt_generator.py:135-163 | step j contributes basis atom 1 at index 2(j-1) and basis atom 2 at index 2j-1, in ascending j |
| SwntGenerators.UnitCellElements | sknano/generators/_swnt_generator.py:143-157 | the unit cell has 2N atoms; even indices carry element1 and odd indices element2 |
| SwntGenerators.UnitCellAxialBound | sknano/generators/_swnt_generator.py:138-158 | with T >= eps every unit-cell atom has z <= T - eps |
| SwntGenerators.Cells | sknano/generators/_swnt_generator.py:168 | int(ceil(nz)) as a loop count: 0 for nz <= 0, else the least integer not below nz |
| SwntGenerators.Replicate | sknano/generators/_swnt_generator.py:168-173 | k replicas hold k times as many atoms as the unit cell |
| SwntGenerators.ReplicaAt | sknano/generators/_swnt_generator.py:168-173 | atom k*len(uc) + j is unit-cell atom j moved up by k*T, so replicas appear in ascending k |
| SwntGenerators.DefaultNameDecodes | sknano/generators/_swnt_generator.py:184-194 | for n, m < 100 the default name is two digits of n, two of m, then "r_", ending in "cell" for one cell and "cells" otherwise; a whole cell count is written out exactly |
| SwntGenerators.SwntStepsOrder | sknano/generators/_swnt_generator.py:196-212 | the steps of a save are in pipeline order: clip, centre, rotate |
| SwntGenerators.SwntStepsContents | sknano/generators/_swnt_generator.py:196-212 | clip to [0, 10*L0 + 0.25] first and only when L0 is set with fix_Lz; centring at most once, exactly when requested; the rotation last, exactly when an angle is given |
| SwntGenerators.SwntGenerator.constructor | sknano/generators/_swnt_generator.py:99-105 | with autogen, the unit cell and the replicated structure are generated at construction; without it nothing is generated |
| SwntGenerators.SwntGenerator.BasisPair | sknano/generators/_swnt_generator.py:136-158 | one pass of the loop body computes the two re-zeroed basis atoms of step i from the step sizes |
| SwntGenerators.SwntGenerator.GenerateUnitCell | sknano/generators/_swnt_generator.py:107-163 | the unit cell is replaced by the 2N basis atoms of steps 1..N; nothing else changes |
| SwntGenerators.SwntGenerator.GenerateStructureData | sknano/generators/_swnt_generator.py:165-173 | the structure is replaced by ceil(nz) replicas of the unit cell, replica k moved up by k*T, with no transforms applied |
| SwntGenerators.SwntGenerator.ApplyPreSteps | sknano/generators/_swnt_generator.py:196-206 | the clip to a fixed length and then the centring are appended to the transforms; name, path, atoms and writes are unchanged |
| SwntGenerators.SwntGenerator.SaveData | sknano/generators/_swnt_generator.py:175-212 | the default name is used when none is given; the clip and the centring are appended before the base steps, whose own centring is off; one write follows |

## Left out

- Floating point: every coordinate is a mathematical real. `dtype`/`astype` conversions, `np.finfo` and the rounding of `np.sin`/`np.cos` are not modelled. `rezero_array`'s default tolerance is the exact real 5 * 2^-52.
- NumPy mechanics: `__array_priority__`, broadcasting of scalars or length-1 arrays in `p0 + v`, `p - p0` and the setters' slice assignments `p[:] = value` and `p0[:] = value` (`Vectors.Vector.SetP` and `Vectors.Vector.SetP0` require `|value| == nd`), and the `copy=False` sharing of a caller's float64 array by `np.array` (a list is always converted by `np.asarray` first, so only such an array could be shared). A view is modelled as a new object over the same buffer (`Points.Point.ViewOf`, `Vectors.Vector.ViewOf`). `__array_finalize__` is modelled only where it changes a result: a copied or viewed vector shares `p` and `p0`, and neither a copy nor a view keeps plain attributes.
- Points.FromPoint: the `dtype` argument that triggers `astype` is not modelled. Plain attributes are carried over to neither a copy nor a view.
- Points.FromList and Points.FromTuple: the list, tuple and array cases are split by the model. An `np.ndarray` of objects behaves like a list. `nd` passed alongside a sequence is ignored, as in the source.
- Vectors.Vector.FromPoints: it requires a whole-number `nd` that resolves to a size, and given points of exactly that size. The source does not check sizes itself; the requires excludes the cases below instead of modelling them:
  - Points shorter than `nd`, e.g. `Vector(p=[1, 2], p0=[0, 0])` with `nd` defaulting to 3, pass `p - p0` and raise `ValueError` at the unpacking into `x, y, z`.
  - A length-1 point broadcasts in `p - p0` and succeeds with the other point's length.
  - Two equal-length points with `nd` outside {2, 3} succeed with a vector whose `nd` differs from its length.
- Vectors.Vector.FromComponents: it requires a given `p0` of the same length as `v`. numpy would broadcast a length-1 `p0` in `p0 + v`; that case is excluded rather than modelled.
- Vectors.Vector.FromComponents, Vectors.Vector.Set, Vectors.Vector.SetP, Vectors.Vector.SetP0: the model covers only vectors with float components. `Vector.__new__` passes `dtype=None` on to `np.asarray(v)` and `np.array(v, ...)`, so a vector built from a sequence of integers keeps an integer buffer, unlike `Point`, which always converts to float. In such a vector an axis write or a `p`/`p0` assignment truncates the stored components, which breaks `v = p - p0`.
- `None` entries in vector arguments: a `None` in `v` makes `np.asarray(v)` an object array and `p0 + v` raises `TypeError`. A `None` in a list `p` or `p0` is overwritten with 0.0 in the caller's list by `Point(...)`. The vector constructors take `seq<real>`, so neither case is modelled.
- Vectors.Vector.Set: the `AttributeError` guard around `self._p` is not needed, because a modelled vector always has `p` and `p0`.
- Vectors.Vector.RezeroComponents: it promises only the shape, not `v = p - p0`. The source does not keep the invariant here (`Vectors.RezeroComponentsCanBreakInvariant`).
- Trigonometry and the nanotube scalars: `np.cos`, `np.sin`, `np.pi` and `compute_chiral_angle` are inputs (`Trig`, `SwntParams.chiralAngle`). So are `N`, `M`, `T`, `rt`, `bond`, `nz`, `L0` and the flags, which the `SWNT` base class derives. That class is not part of this model; its constructor runs before `autogen`.
- SwntGenerators.SwntGenerator.constructor: with `autogen` it requires `N >= 1`, `T > 0` and `rt != 0`. `N = 0` divides by zero in `2 * pi / N`. With `T <= 0` the wrap loops never end (`SwntGenerators.WrapDivergesWithoutPeriod`). With `rt = 0` numpy yields an infinite or undefined `dpsi` rather than an error, which reals cannot express.
- `Atom`, `Atoms`, `Cuboid`, `clip_bounds`, `center_CM`, `rotate` and `rotation_matrix` are not part of this model. Transforms are recorded, not applied. `atom.rezero()` is taken to snap with the `Point` default tolerance 1e-10.
- SwntGenerators.SwntGenerator.GenerateStructureData: it assigns `structure_atoms`. `GeneratorMixin` in `sknano/generators/_base.py` declares this as a read-only property, so the assignment relies on a setter in the `SWNT` hierarchy that is not part of this model.
- GeneratorBase.GeneratorMixin.constructor: the Python mixin has no constructor; `_fname`, `_fpath`, `_unit_cell` and `_structure_atoms` do not exist until first assigned, and reading one earlier raises `AttributeError`. The model starts them as `None` and empty sequences, so a save before any generation writes no atoms instead of failing.
- `StructureIO.write`: file writing is I/O and becomes an `Output` record. `anchor_point`, `savecopy` and any other keyword are accepted by `save_data` and never passed on to `write`, so they have no effect and are not parameters of the model.
- `supported_structure_formats` and `default_structure_format` live in the structure I/O package. They are constructor parameters here.
- `os.path.join` is modelled for POSIX separators only.
- `pluralize`: its code is not part of this model. It is taken as the English rule: the word alone for a count of exactly 1, else with `s` appended.
- SwntGenerators.DefaultName: with integer cells `'{}'.format(nz)` is taken to render a whole number. The model requires such an `nz` to be whole. A float `nz` would render as `10.0`, which is not modelled.
- Text.Fixed2: `'{:.2f}'` is modelled as round-half-up on exact reals. Python rounds the binary double, which is not modelled.
- `sknano/generators/_swnt_generator.py` is Python 2 code: it calls `xrange` without importing it, so under Python 3 `generate_unit_cell` raises `NameError`. The model follows the Python 2 reading, in which `xrange` is a plain range.
- Verbose `print` output, `__repr__`/`__str__`, and `__iter__` of `ListBasedSet`.
- Everything in `sknano/core/crystallography/_3D_lattices.py`, `sknano/structure_io/_pdb_format.py`, `sknano/core/atoms/_neighbor_atoms.py`, `sknano/testing/_tools.py` and `sknano/__init__.py`. These are lattice trigonometry, file formats, thin wrappers and test scaffolding.
