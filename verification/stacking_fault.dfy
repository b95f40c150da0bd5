/**
 Stacking-fault structures by the tilted-cell method: an FCC (111) slab, or
 a custom structure, whose third lattice vector is shifted by fractions of
 the first two; optionally with one solute per layer on the stable
 stacking fault. ase's slab builder and layer finder are the `Toolkit`.
 The generated candidates are handed to the storage step of the solute
 supercell generator.
 */
module StackingFault {
  import opened Common
  import opened Atoms
  import opened Displacements
  import SoluteSupercell

  type Candidate = SoluteSupercell.Candidate

  /** ase as used here: `fcc111(element, size, orthogonal, a)`,
      `Atoms.repeat(size)`, and `get_layers(structure, (0, 0, 1))` as the
      layer tag of every atom and the distance of every layer. */
  datatype Toolkit = Toolkit(
    fcc111: (string, seq<int>, bool, real) -> Structure,
    repeat: (Structure, seq<int>) -> Structure,
    layers: Structure -> (seq<nat>, seq<real>))

  /** A stored structure node offered as the custom structure. */
  datatype CustomNode = CustomNode(structure: Structure, extras: Extras)

  /** The command line; `fcc111` is the only choice of `lattice_and_surface`. */
  datatype Options = Options(
    latticeSize: Option<string>,
    matrixElement: Option<string>,
    fcc111: bool,
    customStructure: Option<CustomNode>,
    xRepeats: int,
    yRepeats: int,
    zRepeats: int,
    displacementX: string,
    displacementY: string,
    specialPointsOnly: bool,
    primitive: bool,
    soluteElements: Option<string>,
    maxsoluteLayer: Option<string>,
    testsoluteLayer: bool,
    refsolute: bool)

  const StableStacking: string := "stable_stacking"
  const Undistorted: string := "undistorted"

  /** A named displacement `(d_x, d_y)` in fractions of `a1` and `a2`. */
  datatype SpecialPoint = SpecialPoint(name: string, dx: real, dy: real)

  /** The undistorted slab, its extras and its special points. */
  datatype Base = Base(structure: Structure, extras: Extras, points: seq<SpecialPoint>)

  /** The stable stacking of the FCC (111) fault: (0, 2/3) of the orthogonal
      cell, (1/3, 1/3) of the primitive one. */
  function StablePoint(orthogonal: bool): (p: SpecialPoint)
    ensures p.name == StableStacking
  {
    if orthogonal then SpecialPoint(StableStacking, 0.0, 2.0 / 3.0)
    else SpecialPoint(StableStacking, 1.0 / 3.0, 1.0 / 3.0)
  }

  /** The FCC (111) table: x repeats kept, y doubled for the orthogonal cell,
      z tripled; directions and special points by cell shape. */
  function Fcc111Base(tk: Toolkit, o: Options, a: real, element: string): (b: Base)
    ensures b.points == [SpecialPoint(Undistorted, 0.0, 0.0), StablePoint(!o.primitive)]
    ensures !o.primitive ==> b.structure == tk.fcc111(element, [o.xRepeats, 2 * o.yRepeats, 3 * o.zRepeats], true, a)
    ensures o.primitive ==> b.structure == tk.fcc111(element, [o.xRepeats, o.yRepeats, 3 * o.zRepeats], false, a)
    ensures "orthogonal" in b.extras && b.extras["orthogonal"] == Text(if o.primitive then "False" else "True")
    ensures "x_direction" in b.extras && b.extras["x_direction"] == Text(if o.primitive then "<110>" else "<112>")
    ensures "y_direction" in b.extras && b.extras["y_direction"] == Text("<110>")
    ensures "z_direction" in b.extras && b.extras["z_direction"] == Text("<111>")
  {
    var orthogonal := !o.primitive;
    var yRepeats := if orthogonal then 2 * o.yRepeats else o.yRepeats;
    var extras := map[
      "lattice_size" := Real(a),
      "lattice_type" := Text("FCC"),
      "surface_plane" := Text("{111}"),
      "matrix_element" := Text(element),
      "z_direction" := Text("<111>"),
      "x_direction" := Text(if orthogonal then "<112>" else "<110>"),
      "y_direction" := Text("<110>"),
      "orthogonal" := Text(if orthogonal then "True" else "False")];
    Base(tk.fcc111(element, [o.xRepeats, yRepeats, 3 * o.zRepeats], orthogonal, a), extras,
         [SpecialPoint(Undistorted, 0.0, 0.0), StablePoint(orthogonal)])
  }

  /** The keys a custom structure must carry, in the order they are checked. */
  const CustomKeys: seq<string> := ["label", "x_direction", "y_direction", "surface_plane"]

  /** The first required key a custom node lacks. */
  function MissingKey(extras: Extras, keys: seq<string>): (r: Option<string>)
    ensures r.None? <==> forall k :: k in keys ==> k in extras
    ensures r.Some? ==> r.value in keys && r.value !in extras
  {
    if |keys| == 0 then None
    else if keys[0] !in extras then Some(keys[0])
    else MissingKey(extras, keys[1..])
  }

  /** The undistorted structure: the FCC (111) slab when that lattice is
      chosen (lattice size and matrix element then required), else the
      custom structure repeated (its extras must name the label and the
      directions), else an error. Both carry the repeat counts. */
  function MakeBase(tk: Toolkit, o: Options): (r: Result<Base>)
    ensures o.fcc111 && (o.latticeSize.None? || o.matrixElement.None?) ==> r.Err?
    ensures !o.fcc111 && o.customStructure.None? ==> r.Err?
    ensures !o.fcc111 && o.customStructure.Some? ==>
      (r.Ok? <==> forall k :: k in CustomKeys ==> k in o.customStructure.value.extras)
    ensures r.Ok? && !o.fcc111 ==> (&& r.value.points == [SpecialPoint(Undistorted, 0.0, 0.0)]
                                    && r.value.structure == tk.repeat(o.customStructure.value.structure, [o.xRepeats, o.yRepeats, o.zRepeats])
                                    && "_aiida_hash" !in r.value.extras)
    ensures r.Ok? ==> (&& "periodic_xrepeats" in r.value.extras && r.value.extras["periodic_xrepeats"] == Int(o.xRepeats)
                       && "periodic_yrepeats" in r.value.extras && r.value.extras["periodic_yrepeats"] == Int(o.yRepeats)
                       && "periodic_zrepeats" in r.value.extras && r.value.extras["periodic_zrepeats"] == Int(o.zRepeats))
  {
    var b :- if o.fcc111 then
      match (o.latticeSize, o.matrixElement)
      case (None, _) => Err("Must specifiy a lattice_size if using lattice_and_surface")
      case (_, None) => Err("Must specifiy a matrix_element if using lattice_and_surface")
      case (Some(size), Some(element)) =>
        match ParseFloat(size)
        case None => Err("ValueError: could not convert string to float: " + size)
        case Some(a) => Ok(Fcc111Base(tk, o, a, element))
    else match o.customStructure
      case None => Err("Could not process lattice_and_surface: None")
      case Some(node) =>
        var extras := node.extras - {"_aiida_hash"};
        match MissingKey(extras, CustomKeys)
        case Some(k) => Err(k + " not found in extras")
        case None =>
          Ok(Base(tk.repeat(node.structure, [o.xRepeats, o.yRepeats, o.zRepeats]), extras,
                  [SpecialPoint(Undistorted, 0.0, 0.0)]));
    Ok(b.(extras := b.extras["periodic_xrepeats" := Int(o.xRepeats)]
                            ["periodic_yrepeats" := Int(o.yRepeats)]
                            ["periodic_zrepeats" := Int(o.zRepeats)]))
  }

  // ---------------------------------------------------------------------------
  // The displacement plan
  // ---------------------------------------------------------------------------

  /** One distortion to generate, with the special-point name it is stored
      under, if any. */
  datatype Displacement = Displacement(dx: real, dy: real, name: Option<string>)

  /** `[[d_x, d_y] for d_x in xs for d_y in ys]`. */
  function Grid(xs: seq<real>, ys: seq<real>): (r: seq<Displacement>)
    ensures |r| == |xs| * |ys|
    decreases |xs|
  {
    if |xs| == 0 then []
    else
      var row := seq(|ys|, j requires 0 <= j < |ys| => Displacement(xs[0], ys[j], None));
      row + Grid(xs[1..], ys)
  }

  /** The grid is x-outer, y-inner: entry `i * |ys| + j` is `(xs[i], ys[j])`. */
  lemma {:induction false} GridIndex(xs: seq<real>, ys: seq<real>, i: nat, j: nat)
    requires i < |xs| && j < |ys|
    ensures i * |ys| + j < |Grid(xs, ys)|
    ensures Grid(xs, ys)[i * |ys| + j] == Displacement(xs[i], ys[j], None)
    decreases i
  {
    var n := |ys|;
    var row := seq(|ys|, j requires 0 <= j < |ys| => Displacement(xs[0], ys[j], None));
    var rest := Grid(xs[1..], ys);
    assert Grid(xs, ys) == row + rest;
    assert |xs| * n == n + (|xs| - 1) * n;
    if i == 0 {
      assert i * n + j == j;
    } else {
      GridIndex(xs[1..], ys, i - 1, j);
      assert i * n + j == n + ((i - 1) * n + j);
      assert xs[1..][i - 1] == xs[i];
    }
  }

  /** The special points in order, each under its own name. */
  function PointsPlan(points: seq<SpecialPoint>): (r: seq<Displacement>)
    ensures |r| == |points|
    ensures forall k :: 0 <= k < |points| ==> r[k] == Displacement(points[k].dx, points[k].dy, Some(points[k].name))
  {
    seq(|points|, k requires 0 <= k < |points| => Displacement(points[k].dx, points[k].dy, Some(points[k].name)))
  }

  /** The point named `name`, the first one if several share it. */
  function FindPoint(points: seq<SpecialPoint>, name: string): (r: Option<SpecialPoint>)
    ensures r.None? <==> forall k :: 0 <= k < |points| ==> points[k].name != name
    ensures r.Some? ==> r.value in points && r.value.name == name
  {
    if |points| == 0 then None
    else if points[0].name == name then Some(points[0])
    else FindPoint(points[1..], name)
  }

  /** The names of the special points, in order. */
  function Names(points: seq<SpecialPoint>): (r: seq<string>)
    ensures |r| == |points|
    ensures forall k :: 0 <= k < |points| ==> r[k] == points[k].name
  {
    seq(|points|, k requires 0 <= k < |points| => points[k].name)
  }

  /** The single displacement of a solute run: the undistorted slab for the
      reference solute, the stable stacking fault otherwise; a structure
      without a stable stacking point is an error. */
  function SolutePoint(points: seq<SpecialPoint>, refsolute: bool): (r: Result<SpecialPoint>)
    ensures r.Ok? <==> FindPoint(points, StableStacking).Some? && (refsolute ==> FindPoint(points, Undistorted).Some?)
    ensures r.Ok? ==> r.value.name == (if refsolute then Undistorted else StableStacking)
  {
    match FindPoint(points, StableStacking)
    case None => Err("no stable_stacking structure defined")
    case Some(stable) =>
      if refsolute then
        match FindPoint(points, Undistorted)
        case None => Err("KeyError: undistorted")
        case Some(u) => Ok(u)
      else Ok(stable)
  }

  /** The displacement loop of `launch` as written: each displacement carries the name
      popped from the front of the list of special-point names, which under
      both flags still holds every special point ahead of the solute's own
      name. */
  function PlanAsWritten(grid: seq<Displacement>, points: seq<SpecialPoint>, specialOnly: bool, solute: bool, refsolute: bool): (r: Result<seq<Displacement>>)
    ensures !solute && !specialOnly ==> r == Ok(grid)
  {
    var plan: seq<Displacement> := if specialOnly then PointsPlan(points) else grid;
    var names: seq<string> := if specialOnly then Names(points) else [];
    if solute then
      match SolutePoint(points, refsolute)
      case Err(e) => Err(e)
      case Ok(p) => Labelled([Displacement(p.dx, p.dy, None)], names + [p.name], specialOnly)
    else Labelled(plan, names, specialOnly)
  }

  /** Each displacement takes the next name popped from the front of
      `names` when special points are labelled. */
  function Labelled(plan: seq<Displacement>, names: seq<string>, specialOnly: bool): (r: Result<seq<Displacement>>)
    ensures !specialOnly ==> r == Ok(plan)
    ensures specialOnly ==> (r.Ok? <==> |plan| <= |names|)
    ensures specialOnly && r.Ok? ==> (&& |r.value| == |plan| && |plan| <= |names|
                                      && forall k :: 0 <= k < |plan| ==> r.value[k] == plan[k].(name := Some(names[k])))
  {
    if !specialOnly then Ok(plan)
    else if |names| < |plan| then Err("IndexError: pop from empty list")
    else Ok(seq(|plan|, k requires 0 <= k < |plan| => plan[k].(name := Some(names[k]))))
  }

  /** Under both flags on the FCC (111) slab, the stable stacking fault is
      stored labelled as the undistorted structure. */
  lemma AsWrittenMislabelsSoluteFault(grid: seq<Displacement>, orthogonal: bool)
    ensures var points := [SpecialPoint(Undistorted, 0.0, 0.0), StablePoint(orthogonal)];
      var p := StablePoint(orthogonal);
      PlanAsWritten(grid, points, true, true, false) == Ok([Displacement(p.dx, p.dy, Some(Undistorted))])
  {
    var points := [SpecialPoint(Undistorted, 0.0, 0.0), StablePoint(orthogonal)];
    var p := StablePoint(orthogonal);
    assert FindPoint(points, StableStacking) == Some(p);
    assert SolutePoint(points, false) == Ok(p);
    var names := Names(points) + [p.name];
    assert names[0] == Undistorted;
    var plan := [Displacement(p.dx, p.dy, None)];
    var labelled := Labelled(plan, names, true).value;
    assert labelled[0] == Displacement(p.dx, p.dy, Some(Undistorted));
    assert labelled == [Displacement(p.dx, p.dy, Some(Undistorted))];
  }

  /** The displacement plan, every special point labelled with its own name:
      the grid by default, the special points when only those are asked for,
      the one solute point when solutes are placed. */
  function Plan(grid: seq<Displacement>, points: seq<SpecialPoint>, specialOnly: bool, solute: bool, refsolute: bool): (r: Result<seq<Displacement>>)
    ensures !solute && !specialOnly ==> r == Ok(grid)
    ensures !solute && specialOnly ==> r == Ok(PointsPlan(points))
    ensures solute ==> (r.Ok? <==> SolutePoint(points, refsolute).Ok?)
    ensures solute && r.Ok? ==>
      var p := SolutePoint(points, refsolute).value;
      r.value == [Displacement(p.dx, p.dy, if specialOnly then Some(p.name) else None)]
  {
    if solute then
      var p :- SolutePoint(points, refsolute);
      Ok([Displacement(p.dx, p.dy, if specialOnly then Some(p.name) else None)])
    else if specialOnly then Ok(PointsPlan(points))
    else Ok(grid)
  }

  /** Every labelled displacement of the plan sits at the special point of
      that name, and a solute run has exactly one displacement. */
  lemma PlanLabelsAreOwnPoints(grid: seq<Displacement>, points: seq<SpecialPoint>, specialOnly: bool, solute: bool, refsolute: bool)
    requires forall k :: 0 <= k < |grid| ==> grid[k].name.None?
    requires Plan(grid, points, specialOnly, solute, refsolute).Ok?
    ensures var plan := Plan(grid, points, specialOnly, solute, refsolute).value;
      && (solute ==> |plan| == 1)
      && forall k :: 0 <= k < |plan| && plan[k].name.Some? ==>
           exists p :: p in points && p.name == plan[k].name.value && p.dx == plan[k].dx && p.dy == plan[k].dy
  {
    var plan := Plan(grid, points, specialOnly, solute, refsolute).value;
    if solute {
      var p := SolutePoint(points, refsolute).value;
      assert p in points by {
        if refsolute {
          assert FindPoint(points, Undistorted).value == p;
        } else {
          assert FindPoint(points, StableStacking).value == p;
        }
      }
    } else if specialOnly {
      forall k | 0 <= k < |plan| && plan[k].name.Some?
        ensures exists p :: p in points && p.name == plan[k].name.value && p.dx == plan[k].dx && p.dy == plan[k].dy
      {
        assert points[k] in points;
      }
    }
  }

  /** Both plans agree whenever the two flags are not combined. */
  lemma PlansAgreeOffTheCombination(grid: seq<Displacement>, points: seq<SpecialPoint>, specialOnly: bool, solute: bool, refsolute: bool)
    requires !(specialOnly && solute)
    ensures PlanAsWritten(grid, points, specialOnly, solute, refsolute) == Plan(grid, points, specialOnly, solute, refsolute)
  {
    if specialOnly {
      var plan := PointsPlan(points);
      var names := Names(points);
      assert seq(|plan|, k requires 0 <= k < |plan| => plan[k].(name := Some(names[k]))) == plan;
    }
  }

  // ---------------------------------------------------------------------------
  // Distorted structures
  // ---------------------------------------------------------------------------

  /** The lattice vector of a single repeat along row `k`. */
  function UnitVector(s: Structure, k: nat, repeats: int): (r: Result<Vec>)
    requires repeats >= 1
    ensures r.Ok? <==> k < |s.cell|
  {
    if k < |s.cell| then Ok(Divide(s.cell[k], repeats as real))
    else Err("IndexError: cell row out of range")
  }

  /** The extras while storing displacement `d`. */
  function DisplacedExtras(extras: Extras, d: Displacement): Extras {
    var e := extras["displacement_x" := Real(d.dx)]["displacement_y" := Real(d.dy)];
    if d.name.Some? then e["special_point" := Text(d.name.value)] else e
  }

  /** The extras the loop leaves behind for the solute stage. */
  function ExtrasAfter(extras: Extras, plan: seq<Displacement>): Extras
    decreases |plan|
  {
    if |plan| == 0 then extras else ExtrasAfter(DisplacedExtras(extras, plan[0]), plan[1..])
  }

  /** One candidate per displacement, in order, each the base with its third
      row tilted and the extras of the moment; a cell without a third row is
      an IndexError as soon as there is a displacement. */
  function Distorted(base: Structure, extras: Extras, a1: Vec, a2: Vec, plan: seq<Displacement>): (r: Result<seq<Candidate>>)
    ensures r.Ok? <==> |plan| == 0 || |base.cell| >= 3
    ensures r.Ok? ==> |r.value| == |plan|
    ensures r.Ok? ==> forall k :: 0 <= k < |plan| ==>
      Tilt(base, a1, a2, plan[k].dx, plan[k].dy) == Ok(r.value[k].structure)
  {
    if |plan| > 0 && |base.cell| < 3 then Err("IndexError: cell has no third row")
    else Ok(Tilted(base, extras, a1, a2, plan))
  }

  function Tilted(base: Structure, extras: Extras, a1: Vec, a2: Vec, plan: seq<Displacement>): (r: seq<Candidate>)
    requires |plan| == 0 || |base.cell| >= 3
    ensures |r| == |plan|
    ensures forall k :: 0 <= k < |plan| ==> Tilt(base, a1, a2, plan[k].dx, plan[k].dy) == Ok(r[k].structure)
    decreases |plan|
  {
    if |plan| == 0 then []
    else
      var e := DisplacedExtras(extras, plan[0]);
      var rest := Tilted(base, e, a1, a2, plan[1..]);
      assert forall k :: 1 <= k < |plan| ==> plan[k] == plan[1..][k - 1];
      [SoluteSupercell.Candidate(Tilt(base, a1, a2, plan[0].dx, plan[0].dy).value, e)] + rest
  }

  // ---------------------------------------------------------------------------
  // Solute layers
  // ---------------------------------------------------------------------------

  /** The positions whose tag has not appeared before among the first `n`:
      pandas' `drop_duplicates` keeping the first row. */
  function FirstOccurrences(tags: seq<nat>, n: nat): (r: seq<nat>)
    requires n <= |tags|
    ensures forall k :: 0 <= k < |r| ==> r[k] < n && tags[r[k]] !in tags[..r[k]]
    ensures forall k, l :: 0 <= k < l < |r| ==> r[k] < r[l]
    decreases n
  {
    if n == 0 then []
    else
      var before := FirstOccurrences(tags, n - 1);
      if tags[n - 1] in tags[..n - 1] then before else before + [n - 1]
  }

  /** Every tag among the first `n` has its first position in the list. */
  lemma {:induction false} FirstOccurrencesComplete(tags: seq<nat>, n: nat, i: nat)
    requires i < n <= |tags|
    ensures exists k :: 0 <= k < |FirstOccurrences(tags, n)| && tags[FirstOccurrences(tags, n)[k]] == tags[i]
    decreases n
  {
    var r := FirstOccurrences(tags, n);
    var before := FirstOccurrences(tags, n - 1);
    if i < n - 1 {
      FirstOccurrencesComplete(tags, n - 1, i);
      var k :| 0 <= k < |before| && tags[before[k]] == tags[i];
      assert r[k] == before[k];
    } else if tags[n - 1] in tags[..n - 1] {
      var j :| 0 <= j < n - 1 && tags[..n - 1][j] == tags[n - 1];
      FirstOccurrencesComplete(tags, n - 1, j);
      var k :| 0 <= k < |before| && tags[before[k]] == tags[j];
      assert r[k] == before[k];
    } else {
      assert r[|r| - 1] == n - 1;
    }
  }

  /** A row of the layer table: the first atom of a layer, the layer's tag
      and its distance. */
  datatype LayerRow = LayerRow(structureIndex: nat, layerIndex: nat, distance: real)

  /** `get_layer_frame` followed by `drop_duplicates("layer_index")`: one row
      per layer in order of first appearance; a tag without a distance is an
      IndexError. */
  function LayerFrame(tags: seq<nat>, levels: seq<real>): (r: Result<seq<LayerRow>>)
    ensures r.Ok? <==> forall i :: 0 <= i < |tags| ==> tags[i] < |levels|
    ensures r.Ok? ==> forall k :: 0 <= k < |r.value| ==>
      && r.value[k].structureIndex < |tags|
      && r.value[k].layerIndex == tags[r.value[k].structureIndex]
      && r.value[k].distance == levels[r.value[k].layerIndex]
  {
    if exists i :: 0 <= i < |tags| && tags[i] >= |levels| then Err("IndexError: layer tag out of range")
    else
      var firsts := FirstOccurrences(tags, |tags|);
      Ok(seq(|firsts|, k requires 0 <= k < |firsts| => LayerRow(firsts[k], tags[firsts[k]], levels[tags[firsts[k]]])))
  }

  /** The layer table has one row per distinct layer: no tag twice, and every
      atom's tag has a row. */
  lemma LayerFrameRowsAreLayers(tags: seq<nat>, levels: seq<real>)
    requires LayerFrame(tags, levels).Ok?
    ensures var rows := LayerFrame(tags, levels).value;
      && (forall k, l :: 0 <= k < l < |rows| ==> rows[k].layerIndex != rows[l].layerIndex)
      && (forall i :: 0 <= i < |tags| ==> exists k :: 0 <= k < |rows| && rows[k].layerIndex == tags[i])
  {
    var rows := LayerFrame(tags, levels).value;
    var firsts := FirstOccurrences(tags, |tags|);
    forall k, l | 0 <= k < l < |rows| ensures rows[k].layerIndex != rows[l].layerIndex {
      assert firsts[k] < firsts[l];
      assert tags[..firsts[l]][firsts[k]] == tags[firsts[k]];
    }
    forall i | 0 <= i < |tags| ensures exists k :: 0 <= k < |rows| && rows[k].layerIndex == tags[i] {
      FirstOccurrencesComplete(tags, |tags|, i);
      var k :| 0 <= k < |firsts| && tags[firsts[k]] == tags[i];
      assert rows[k].layerIndex == tags[i];
    }
  }

  /** The layers that receive a solute: the first half of the layers; only
      the first for the reference solute; only the last of the first half for
      the test solute. */
  function SoluteLayers(layerCount: nat, refsolute: bool, testLayer: bool): (r: seq<int>)
    ensures testLayer ==> r == [layerCount / 2 - 1]
    ensures !testLayer && refsolute ==> r == [0]
    ensures !testLayer && !refsolute ==> |r| == layerCount / 2 && forall k :: 0 <= k < |r| ==> r[k] == k
  {
    if testLayer then [layerCount / 2 - 1]
    else if refsolute then [0]
    else seq(layerCount / 2, k requires 0 <= k < layerCount / 2 => k)
  }

  /** The maximum layer: none when the option is absent or empty, an integer
      otherwise. */
  function MaxLayer(option: Option<string>): (r: Result<Option<int>>)
    ensures option.None? || option == Some("") ==> r == Ok(None)
  {
    match option
    case None => Ok(None)
    case Some(s) =>
      if s == "" then Ok(None)
      else match ParseInt(s)
        case None => Err("ValueError: invalid literal for int(): " + s)
        case Some(v) => Ok(Some(v))
  }

  /** The layers visited before the `break`: all of them without a maximum,
      otherwise up to and including the first one at or past it. */
  function Visited(layers: seq<int>, max: Option<int>): (r: seq<int>)
    ensures |r| <= |layers| && r == layers[..|r|]
    ensures max.None? ==> r == layers
    ensures max.Some? ==> forall k :: 0 <= k < |r| - 1 ==> r[k] < max.value
    ensures max.Some? && |r| < |layers| ==> |r| > 0 && r[|r| - 1] >= max.value
    decreases |layers|
  {
    if |layers| == 0 then []
    else if max.Some? && layers[0] >= max.value then [layers[0]]
    else [layers[0]] + Visited(layers[1..], max)
  }

  /** The extras of a solute on layer row `row`. */
  function SoluteExtras(extras: Extras, element: string, row: LayerRow): (e: Extras)
    ensures "sol1_element" in e && e["sol1_element"] == Text(element)
    ensures "sol1_index" in e && e["sol1_index"] == Int(row.structureIndex)
    ensures "sol1sf_distance" in e && e["sol1sf_distance"] == Real(row.distance)
    ensures "sol1layer_index" in e && e["sol1layer_index"] == Int(TruncToInt(row.distance))
  {
    extras["sol1_element" := Text(element)]
          ["sol1_index" := Int(row.structureIndex)]
          ["sol1sf_distance" := Real(row.distance)]
          ["sol1layer_index" := Int(TruncToInt(row.distance))]
  }

  /** One candidate per visited layer: the fault with the first atom of that
      layer replaced by the solute. `sol1layer_index` holds the integer part
      of the layer distance, as the code computes it. A layer outside the
      table is a KeyError. */
  function LayerCandidates(fault: Structure, extras: Extras, element: string, rows: seq<LayerRow>, layers: seq<int>): (r: Result<seq<Candidate>>)
    ensures r.Ok? <==> LayersInTable(fault, rows, layers)
    ensures r.Ok? ==> |r.value| == |layers|
    ensures r.Ok? ==> forall k :: 0 <= k < |layers| ==> 0 <= layers[k] < |rows| && IsLayerCandidate(fault, extras, element, rows[layers[k]], r.value[k])
    decreases |layers|
  {
    if |layers| == 0 then Ok([])
    else if !(0 <= layers[0] < |rows|) then Err("KeyError: layer not in the layer table")
    else
      var row := rows[layers[0]];
      var s :- SetSymbol(fault, row.structureIndex, element);
      var rest :- LayerCandidates(fault, extras, element, rows, layers[1..]);
      var c := SoluteSupercell.Candidate(s, SoluteExtras(extras, element, row));
      LayerCandidatesCons(fault, extras, element, rows, layers, c, rest);
      Ok([c] + rest)
  }

  /** Candidate `c` is the fault with the atom of `row` made `element`,
      carrying that layer's extras. */
  predicate IsLayerCandidate(fault: Structure, extras: Extras, element: string, row: LayerRow, c: Candidate) {
    && OnlySiteChanged(fault, c.structure, row.structureIndex, element)
    && c.extras == SoluteExtras(extras, element, row)
  }

  /** The step of the layer loop: a first candidate in front of the
      candidates of the remaining layers. */
  lemma LayerCandidatesCons(fault: Structure, extras: Extras, element: string, rows: seq<LayerRow>, layers: seq<int>, c: Candidate, rest: seq<Candidate>)
    requires |layers| > 0 && 0 <= layers[0] < |rows|
    requires IsLayerCandidate(fault, extras, element, rows[layers[0]], c)
    requires |rest| == |layers| - 1
    requires forall k :: 0 <= k < |rest| ==> 0 <= layers[1..][k] < |rows| && IsLayerCandidate(fault, extras, element, rows[layers[1..][k]], rest[k])
    ensures forall k :: 0 <= k < |layers| ==> 0 <= layers[k] < |rows| && IsLayerCandidate(fault, extras, element, rows[layers[k]], ([c] + rest)[k])
  {
    forall k | 1 <= k < |layers| ensures layers[k] == layers[1..][k - 1] && ([c] + rest)[k] == rest[k - 1] {}
  }

  /** Every visited layer is a row of the table whose atom exists. */
  predicate LayersInTable(fault: Structure, rows: seq<LayerRow>, layers: seq<int>) {
    forall k :: 0 <= k < |layers| ==> 0 <= layers[k] < |rows| && rows[layers[k]].structureIndex < |fault.atoms|
  }

  /** The solute loop: for every solute element in order, its layer
      candidates; a layer outside the table fails on the first element. */
  function SoluteCandidates(fault: Structure, extras: Extras, elements: seq<string>, rows: seq<LayerRow>, layers: seq<int>): (r: Result<seq<Candidate>>)
    ensures r.Ok? <==> |elements| == 0 || LayersInTable(fault, rows, layers)
    ensures r.Ok? ==> |r.value| == |elements| * |layers|
  {
    if |elements| == 0 then Ok([])
    else if !LayersInTable(fault, rows, layers) then LayerCandidates(fault, extras, elements[0], rows, layers)
    else Ok(AllSoluteCandidates(fault, extras, elements, rows, layers))
  }

  /** The candidates of the solute loop are exactly the layer candidates of
      the elements: candidate `k` of element `e` sits at position
      `e * |layers| + k`, and every position holds one of them. */
  lemma SoluteCandidatesBlocks(fault: Structure, extras: Extras, elements: seq<string>, rows: seq<LayerRow>, layers: seq<int>)
    requires SoluteCandidates(fault, extras, elements, rows, layers).Ok?
    ensures var r := SoluteCandidates(fault, extras, elements, rows, layers).value;
      forall e, k :: 0 <= e < |elements| && 0 <= k < |layers| ==>
        && BlockIndex(e, k, |elements|, |layers|) < |r|
        && LayerCandidates(fault, extras, elements[e], rows, layers).Ok?
        && r[BlockIndex(e, k, |elements|, |layers|)] == LayerCandidates(fault, extras, elements[e], rows, layers).value[k]
    ensures var r := SoluteCandidates(fault, extras, elements, rows, layers).value;
      forall i :: 0 <= i < |r| ==> exists e, k ::
        (&& 0 <= e < |elements| && 0 <= k < |layers|
         && LayerCandidates(fault, extras, elements[e], rows, layers).Ok?
         && r[i] == LayerCandidates(fault, extras, elements[e], rows, layers).value[k])
  {
    if |elements| > 0 {
      var r := SoluteCandidates(fault, extras, elements, rows, layers).value;
      forall e, k | 0 <= e < |elements| && 0 <= k < |layers|
        ensures r[BlockIndex(e, k, |elements|, |layers|)] == LayerCandidates(fault, extras, elements[e], rows, layers).value[k]
      {
        AllSoluteCandidatesBlocks(fault, extras, elements, rows, layers, e, k);
      }
      forall i | 0 <= i < |r|
        ensures exists e, k ::
          (&& 0 <= e < |elements| && 0 <= k < |layers|
           && LayerCandidates(fault, extras, elements[e], rows, layers).Ok?
           && r[i] == LayerCandidates(fault, extras, elements[e], rows, layers).value[k])
      {
        var e, k := BlockOf(i, |elements|, |layers|);
        AllSoluteCandidatesBlocks(fault, extras, elements, rows, layers, e, k);
      }
    }
  }

  /** The candidates of every solute element, element after element. */
  function AllSoluteCandidates(fault: Structure, extras: Extras, elements: seq<string>, rows: seq<LayerRow>, layers: seq<int>): (r: seq<Candidate>)
    requires LayersInTable(fault, rows, layers)
    ensures |r| == |elements| * |layers|
  {
    var blocks := seq(|elements|, e requires 0 <= e < |elements| => LayerCandidates(fault, extras, elements[e], rows, layers).value);
    ConcatLength(blocks, |layers|);
    Concat(blocks)
  }

  /** Candidate `k` of element `e` is the `k`-th layer candidate of that
      element. */
  lemma AllSoluteCandidatesBlocks(fault: Structure, extras: Extras, elements: seq<string>, rows: seq<LayerRow>, layers: seq<int>, e: nat, k: nat)
    requires LayersInTable(fault, rows, layers)
    requires e < |elements| && k < |layers|
    ensures AllSoluteCandidates(fault, extras, elements, rows, layers)[BlockIndex(e, k, |elements|, |layers|)]
      == LayerCandidates(fault, extras, elements[e], rows, layers).value[k]
  {
    var blocks := seq(|elements|, e requires 0 <= e < |elements| => LayerCandidates(fault, extras, elements[e], rows, layers).value);
    ConcatAt(blocks, |layers|, e, k);
  }

  // ---------------------------------------------------------------------------
  // The script
  // ---------------------------------------------------------------------------

  /** `launch`: the undistorted structure, the displacement plan, one
      tilted structure per displacement, then the solutes on the last one.
      The candidates are returned in storage order. A repeat count below one
      is refused: numpy would divide the cell by it without complaint, and
      the model does not follow the non-finite vectors that result. */
  function Launch(tk: Toolkit, o: Options): (r: Result<seq<Candidate>>)
    ensures MakeBase(tk, o).Err? ==> r.Err?
    ensures r.Ok? ==> o.xRepeats >= 1 && o.yRepeats >= 1 && o.zRepeats >= 1
  {
    var base :- MakeBase(tk, o);
    if o.xRepeats < 1 || o.yRepeats < 1 || o.zRepeats < 1 then Err("the repeat counts must be positive")
    else
    var a1 :- UnitVector(base.structure, 0, o.xRepeats);
    var a2 :- UnitVector(base.structure, 1, o.yRepeats);
    var xs :- DisplacementsArray(o.displacementX);
    var ys :- DisplacementsArray(o.displacementY);
    var plan :- Plan(Grid(xs, ys), base.points, o.specialPointsOnly, IsGiven(o.soluteElements), o.refsolute);
    var distorted :- Distorted(base.structure, base.extras, a1, a2, plan);
    var solutes :- Solutes(tk, o, ExtrasAfter(base.extras, plan), distorted);
    Ok(distorted + solutes)
  }

  /** A truthy option: present and not empty. */
  predicate IsGiven(option: Option<string>) {
    option.Some? && option.value != ""
  }

  /** The solute stage on the last distorted structure. */
  function Solutes(tk: Toolkit, o: Options, extras: Extras, distorted: seq<Candidate>): (r: Result<seq<Candidate>>)
    ensures !IsGiven(o.soluteElements) ==> r == Ok([])
  {
    var elements := SoluteSupercell.PrepElementList(o.soluteElements);
    if |elements| == 0 then Ok([])
    else if |distorted| == 0 then Err("NameError: distorted_structure")
    else
      var fault := distorted[|distorted| - 1].structure;
      var (tags, levels) := tk.layers(fault);
      var rows :- LayerFrame(tags, levels);
      var layers := SoluteLayers(|rows|, o.refsolute, o.testsoluteLayer);
      var max :- if |layers| == 0 then Ok(None) else MaxLayer(o.maxsoluteLayer);
      SoluteCandidates(fault, extras, elements, rows, Visited(layers, max))
  }

  /** Without solutes or special points, one structure per point of the
      displacement grid. */
  lemma LaunchGridCount(tk: Toolkit, o: Options)
    requires !IsGiven(o.soluteElements) && !o.specialPointsOnly
    requires Launch(tk, o).Ok?
    ensures |Launch(tk, o).value| == |DisplacementsArray(o.displacementX).value| * |DisplacementsArray(o.displacementY).value|
  {
    var base := MakeBase(tk, o).value;
    var xs := DisplacementsArray(o.displacementX).value;
    var ys := DisplacementsArray(o.displacementY).value;
    var plan := Plan(Grid(xs, ys), base.points, false, false, o.refsolute).value;
    assert plan == Grid(xs, ys);
  }
}
