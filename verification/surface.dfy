/**
 Surface slabs with a range of vacuum thicknesses: an FCC slab of the
 chosen orientation, repeated by the table of that orientation, whose cell
 height is raised by each vacuum thickness in turn. ase's slab builders are
 the `Toolkit`.
 */
module Surface {
  import opened Common
  import opened Atoms
  import opened Displacements
  import SoluteSupercell

  type Candidate = SoluteSupercell.Candidate

  /** `ase.build.fcc111(element, size, orthogonal, a)`, `fcc110` and `fcc100`. */
  datatype Toolkit = Toolkit(
    fcc111: (string, seq<int>, bool, real) -> Structure,
    fcc110: (string, seq<int>, real) -> Structure,
    fcc100: (string, seq<int>, real) -> Structure)

  datatype Options = Options(
    latticeSize: string,
    matrixElement: string,
    latticeAndSurface: string,
    xRepeats: int,
    yRepeats: int,
    zRepeats: int,
    vacuumThickness: string)

  /** One row of the surface table: the repeats and the x, y and z directions. */
  datatype Orientation = Orientation(repeats: seq<int>, x: string, y: string, z: string)

  /** The surface table: (111) doubles y and triples z, (110) and (100)
      double z; any other surface is refused. */
  function Table(surface: string, px: int, py: int, pz: int): (r: Result<Orientation>)
    ensures r.Ok? <==> surface in {"FCC_111", "FCC_110", "FCC_100"}
    ensures surface == "FCC_111" ==> r == Ok(Orientation([px, 2 * py, 3 * pz], "<112>", "<110>", "<111>"))
    ensures surface == "FCC_110" ==> r == Ok(Orientation([px, py, 2 * pz], "<100>", "<1-10>", "<110>"))
    ensures surface == "FCC_100" ==> r == Ok(Orientation([px, py, 2 * pz], "<100>", "<010>", "<001>"))
  {
    if surface == "FCC_111" then Ok(Orientation([px, 2 * py, 3 * pz], "<112>", "<110>", "<111>"))
    else if surface == "FCC_110" then Ok(Orientation([px, py, 2 * pz], "<100>", "<1-10>", "<110>"))
    else if surface == "FCC_100" then Ok(Orientation([px, py, 2 * pz], "<100>", "<010>", "<001>"))
    else Err("Could not process lattice_and_surface: " + surface)
  }

  /** The slab of the table row; (111) slabs are built orthogonal. */
  function Slab(tk: Toolkit, surface: string, element: string, row: Orientation, a: real): Structure {
    if surface == "FCC_111" then tk.fcc111(element, row.repeats, true, a)
    else if surface == "FCC_110" then tk.fcc110(element, row.repeats, a)
    else tk.fcc100(element, row.repeats, a)
  }

  /** The extras shared by every slab: the lattice, the matrix element, the
      repeats and the directions. */
  function SlabExtras(o: Options, a: real, latticeType: string, plane: string, row: Orientation): (e: Extras)
    ensures e.Keys == {"lattice_size", "lattice_type", "surface_plane", "matrix_element", "periodic_xrepeats",
                       "periodic_yrepeats", "periodic_zrepeats", "x_direction", "y_direction", "z_direction"}
    ensures e["lattice_type"] == Text(latticeType) && e["matrix_element"] == Text(o.matrixElement)
    ensures e["periodic_xrepeats"] == Int(o.xRepeats) && e["periodic_yrepeats"] == Int(o.yRepeats)
    ensures e["periodic_zrepeats"] == Int(o.zRepeats)
    ensures "lattice_size" in e && e["lattice_size"] == Real(a)
    ensures "surface_plane" in e && e["surface_plane"] == Text("{" + plane + "}")
    ensures "x_direction" in e && e["x_direction"] == Text(row.x)
    ensures "y_direction" in e && e["y_direction"] == Text(row.y)
    ensures "z_direction" in e && e["z_direction"] == Text(row.z)
  {
    map[
      "lattice_size" := Real(a),
      "lattice_type" := Text(latticeType),
      "surface_plane" := Text("{" + plane + "}"),
      "matrix_element" := Text(o.matrixElement),
      "periodic_xrepeats" := Int(o.xRepeats),
      "periodic_yrepeats" := Int(o.yRepeats),
      "periodic_zrepeats" := Int(o.zRepeats),
      "x_direction" := Text(row.x),
      "y_direction" := Text(row.y),
      "z_direction" := Text(row.z)]
  }

  /** One slab per vacuum thickness, in order: the cell height raised by the
      thickness, the thickness recorded in the extras. */
  function Vacuums(slab: Structure, extras: Extras, vacuums: seq<real>): (r: seq<Candidate>)
    requires |slab.cell| >= 3 && |slab.cell[2]| >= 3
    ensures |r| == |vacuums|
    ensures forall k :: 0 <= k < |vacuums| ==>
      && Heighten(slab, vacuums[k]) == Ok(r[k].structure)
      && r[k].extras == extras["vacuum_thickness" := Real(vacuums[k])]
  {
    seq(|vacuums|, k requires 0 <= k < |vacuums| =>
      SoluteSupercell.Candidate(Heighten(slab, vacuums[k]).value, extras["vacuum_thickness" := Real(vacuums[k])]))
  }

  /** The undistorted slab and its extras: lattice size, surface name and
      table checked in that order; the slab must have a cell height. */
  function Undistorted(tk: Toolkit, o: Options): (r: Result<(Structure, Extras)>)
    ensures ParseFloat(o.latticeSize).None? ==> r.Err?
    ensures Table(o.latticeAndSurface, o.xRepeats, o.yRepeats, o.zRepeats).Err? ==> r.Err?
    ensures r.Ok? ==> |r.value.0.cell| >= 3 && |r.value.0.cell[2]| >= 3
  {
    var a :- match ParseFloat(o.latticeSize)
      case None => Err("ValueError: could not convert string to float: " + o.latticeSize)
      case Some(a) => Ok(a);
    var names := Split(o.latticeAndSurface, '_');
    if |names| != 2 then Err("ValueError: lattice_and_surface is not LATTICE_SURFACE")
    else
      var row :- Table(o.latticeAndSurface, o.xRepeats, o.yRepeats, o.zRepeats);
      var slab := Slab(tk, o.latticeAndSurface, o.matrixElement, row, a);
      if |slab.cell| < 3 || |slab.cell[2]| < 3 then Err("IndexError: cell has no height")
      else Ok((slab, SlabExtras(o, a, names[0], names[1], row)))
  }

  /** `launch`: one candidate per vacuum thickness. */
  function Launch(tk: Toolkit, o: Options): (r: Result<seq<Candidate>>)
    ensures Undistorted(tk, o).Err? ==> r.Err?
    ensures r.Ok? ==> var vacuums := DisplacementsArray(o.vacuumThickness);
      vacuums.Ok? && |r.value| == |vacuums.value|
    ensures r.Ok? <==> Undistorted(tk, o).Ok? && DisplacementsArray(o.vacuumThickness).Ok?
    ensures r.Ok? ==> r.value == Vacuums(Undistorted(tk, o).value.0, Undistorted(tk, o).value.1,
                                         DisplacementsArray(o.vacuumThickness).value)
  {
    match Undistorted(tk, o)
    case Err(e) => Err(e)
    case Ok(base) =>
      match DisplacementsArray(o.vacuumThickness)
      case Err(e) => Err(e)
      case Ok(vacuums) => Ok(Vacuums(base.0, base.1, vacuums))
  }

  /** Raising the height twice raises it by the sum, and raising it by
      nothing changes nothing: each slab differs from the undistorted one by
      its own thickness alone. */
  lemma HeightenAdds(s: Structure, v: real, w: real)
    requires |s.cell| >= 3 && |s.cell[2]| >= 3
    ensures Heighten(Heighten(s, v).value, w) == Heighten(s, v + w)
    ensures Heighten(s, 0.0) == Ok(s)
  {
    var once := Heighten(s, v).value;
    assert once.cell[2][2 := once.cell[2][2] + w] == s.cell[2][2 := s.cell[2][2] + (v + w)];
    assert once.cell[2 := once.cell[2][2 := once.cell[2][2] + w]] == s.cell[2 := s.cell[2][2 := s.cell[2][2] + (v + w)]];
    assert s.cell[2][2 := s.cell[2][2] + 0.0] == s.cell[2];
    assert s.cell[2 := s.cell[2]] == s.cell;
  }

  /** The three valid surface names pass the name check: the lattice is FCC
      and the plane the Miller indices. */
  lemma SurfaceNamesSplit()
    ensures Split("FCC_111", '_') == ["FCC", "111"]
    ensures Split("FCC_110", '_') == ["FCC", "110"]
    ensures Split("FCC_100", '_') == ["FCC", "100"]
  {
    SplitAtSep("FCC", "111", '_');
    SplitNoSep("111", '_');
    assert "FCC_111" == "FCC" + ['_'] + "111";
    SplitAtSep("FCC", "110", '_');
    SplitNoSep("110", '_');
    assert "FCC_110" == "FCC" + ['_'] + "110";
    SplitAtSep("FCC", "100", '_');
    SplitNoSep("100", '_');
    assert "FCC_100" == "FCC" + ['_'] + "100";
  }
}
