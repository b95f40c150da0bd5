/**
 Export of a structure group to the RuNNer training-data format: one record
 per structure or calculation step, each record being a fixed sequence of
 lines (begin, comment, lattice rows, atom rows, energy, charge, end).

 A record is modelled by its content, already in the target units; printf
 formatting is not modelled, so a line carries its numbers as reals. The
 database is replaced by the node values handed to `ExportGroup`, with the
 trajectory arrays of a relax already gathered from its calculations.
 */
module RunnerExport {
  import opened Common
  import opened Atoms
  import SoluteSupercell

  /** The conversions from angstrom, eV/angstrom and eV to Bohr radius,
      Hartree/Bohr radius and Hartree. Each multiplies by a constant taken
      from aiida's `constants` module, which is not part of this model, so
      they are parameters. Zero stays zero under each of them. */
  datatype Units = Units(length: real -> real, force: real -> real, energy: real -> real)

  // ---------------------------------------------------------------------------
  // Records and their lines
  // ---------------------------------------------------------------------------

  datatype CommentValue = Step(index: int) | Label(text: string)

  /** The comment of the record of trajectory step `i`. */
  function StepComments(i: int): seq<(string, CommentValue)> {
    [("trajectory_step", Step(i))]
  }

  /** The comment of the final scf record of the relax `uuid`. */
  function FinalScfComments(uuid: string): seq<(string, CommentValue)> {
    [("trajectory_step", Label("final_scf")), ("parent_uuid", Label(uuid))]
  }

  datatype AtomLine = AtomLine(position: Vec, element: string, force: Vec)

  datatype Record = Record(
    uuid: string,
    comments: seq<(string, CommentValue)>,
    lattice: seq<Vec>,
    atoms: seq<AtomLine>,
    energy: real,
    charge: real)

  datatype Line =
    | BeginLine
    | CommentLine(uuid: string, comments: seq<(string, CommentValue)>)
    | LatticeLine(row: Vec)
    | AtomRow(atom: AtomLine)
    | EnergyLine(energy: real)
    | ChargeLine(charge: real)
    | EndLine

  function LatticeLines(rows: seq<Vec>): (r: seq<Line>)
    ensures |r| == |rows|
    ensures forall i :: 0 <= i < |rows| ==> r[i] == LatticeLine(rows[i])
  {
    seq(|rows|, i requires 0 <= i < |rows| => LatticeLine(rows[i]))
  }

  function AtomRows(atoms: seq<AtomLine>): (r: seq<Line>)
    ensures |r| == |atoms|
    ensures forall i :: 0 <= i < |atoms| ==> r[i] == AtomRow(atoms[i])
  {
    seq(|atoms|, i requires 0 <= i < |atoms| => AtomRow(atoms[i]))
  }

  /** The lines of one record, in file order. */
  function Lines(r: Record): seq<Line> {
    [BeginLine, CommentLine(r.uuid, r.comments)] + LatticeLines(r.lattice) + AtomRows(r.atoms)
      + [EnergyLine(r.energy), ChargeLine(r.charge), EndLine]
  }

  /** Shape of a record: begin and comment first, one lattice line per cell
      row, one atom line per atom, then energy, charge and end. */
  lemma LinesShape(r: Record)
    ensures var ls := Lines(r);
      && |ls| == 5 + |r.lattice| + |r.atoms|
      && ls[0] == BeginLine && ls[1] == CommentLine(r.uuid, r.comments)
      && (forall i :: 0 <= i < |r.lattice| ==> ls[2 + i] == LatticeLine(r.lattice[i]))
      && (forall i :: 0 <= i < |r.atoms| ==> ls[2 + |r.lattice| + i] == AtomRow(r.atoms[i]))
      && ls[|ls| - 3] == EnergyLine(r.energy) && ls[|ls| - 2] == ChargeLine(r.charge) && ls[|ls| - 1] == EndLine
  {
  }

  /** The leading lattice lines of `ls`, and what follows them. */
  function TakeLattice(ls: seq<Line>): (r: (seq<Vec>, seq<Line>))
    ensures |r.1| <= |ls|
    decreases |ls|
  {
    if |ls| > 0 && ls[0].LatticeLine? then
      var rest := TakeLattice(ls[1..]);
      ([ls[0].row] + rest.0, rest.1)
    else ([], ls)
  }

  function TakeAtoms(ls: seq<Line>): (r: (seq<AtomLine>, seq<Line>))
    ensures |r.1| <= |ls|
    decreases |ls|
  {
    if |ls| > 0 && ls[0].AtomRow? then
      var rest := TakeAtoms(ls[1..]);
      ([ls[0].atom] + rest.0, rest.1)
    else ([], ls)
  }

  lemma {:induction false} TakeLatticeOf(rows: seq<Vec>, rest: seq<Line>)
    requires |rest| > 0 && !rest[0].LatticeLine?
    ensures TakeLattice(LatticeLines(rows) + rest) == (rows, rest)
    decreases |rows|
  {
    if |rows| > 0 {
      assert (LatticeLines(rows) + rest)[1..] == LatticeLines(rows[1..]) + rest;
      TakeLatticeOf(rows[1..], rest);
      assert [rows[0]] + rows[1..] == rows;
    } else {
      assert LatticeLines(rows) + rest == rest;
    }
  }

  lemma {:induction false} TakeAtomsOf(atoms: seq<AtomLine>, rest: seq<Line>)
    requires |rest| > 0 && !rest[0].AtomRow?
    ensures TakeAtoms(AtomRows(atoms) + rest) == (atoms, rest)
    decreases |atoms|
  {
    if |atoms| > 0 {
      assert (AtomRows(atoms) + rest)[1..] == AtomRows(atoms[1..]) + rest;
      TakeAtomsOf(atoms[1..], rest);
      assert [atoms[0]] + atoms[1..] == atoms;
    } else {
      assert AtomRows(atoms) + rest == rest;
    }
  }

  /** Read one record from the front of `ls`; the lines after it are returned. */
  function DecodeRecord(ls: seq<Line>): (r: Option<(Record, seq<Line>)>)
    ensures r.Some? ==> |r.value.1| < |ls|
  {
    if |ls| < 2 || ls[0] != BeginLine || !ls[1].CommentLine? then None
    else
      var (lattice, afterLattice) := TakeLattice(ls[2..]);
      var (atoms, afterAtoms) := TakeAtoms(afterLattice);
      if |afterAtoms| < 3 || !afterAtoms[0].EnergyLine? || !afterAtoms[1].ChargeLine? || afterAtoms[2] != EndLine then None
      else Some((Record(ls[1].uuid, ls[1].comments, lattice, atoms, afterAtoms[0].energy, afterAtoms[1].charge), afterAtoms[3..]))
  }

  /** Every record can be read back from its lines, whatever follows them. */
  lemma DecodeLines(r: Record, rest: seq<Line>)
    ensures DecodeRecord(Lines(r) + rest) == Some((r, rest))
  {
    var tail := [EnergyLine(r.energy), ChargeLine(r.charge), EndLine] + rest;
    var ls := Lines(r) + rest;
    assert ls == [BeginLine, CommentLine(r.uuid, r.comments)] + (LatticeLines(r.lattice) + (AtomRows(r.atoms) + tail));
    assert ls[2..] == LatticeLines(r.lattice) + (AtomRows(r.atoms) + tail);
    var atomsAndTail := AtomRows(r.atoms) + tail;
    if |r.atoms| > 0 {
      assert atomsAndTail[0] == AtomRow(r.atoms[0]);
    } else {
      assert atomsAndTail == tail;
    }
    TakeLatticeOf(r.lattice, atomsAndTail);
    TakeAtomsOf(r.atoms, tail);
    assert tail[3..] == rest;
  }

  function AllLines(rs: seq<Record>): seq<Line>
    decreases |rs|
  {
    if |rs| == 0 then [] else Lines(rs[0]) + AllLines(rs[1..])
  }

  function DecodeAll(ls: seq<Line>): Option<seq<Record>>
    decreases |ls|
  {
    if |ls| == 0 then Some([])
    else
      match DecodeRecord(ls)
      case None => None
      case Some((r, rest)) =>
        match DecodeAll(rest)
        case None => None
        case Some(rs) => Some([r] + rs)
  }

  /** The whole file reads back as the records written, in order. */
  lemma {:induction false} DecodeAllLines(rs: seq<Record>)
    ensures DecodeAll(AllLines(rs)) == Some(rs)
    decreases |rs|
  {
    if |rs| > 0 {
      DecodeLines(rs[0], AllLines(rs[1..]));
      DecodeAllLines(rs[1..]);
      assert [rs[0]] + rs[1..] == rs;
    }
  }

  // ---------------------------------------------------------------------------
  // Building records
  // ---------------------------------------------------------------------------

  /** Each entry passed through the conversion `c`. */
  function ScaleVec(v: Vec, c: real -> real): (r: Vec)
    ensures |r| == |v| && forall i :: 0 <= i < |v| ==> r[i] == c(v[i])
  {
    seq(|v|, i requires 0 <= i < |v| => c(v[i]))
  }

  function ScaleRows(rows: seq<Vec>, c: real -> real): (r: seq<Vec>)
    ensures |r| == |rows| && forall i :: 0 <= i < |rows| ==> r[i] == ScaleVec(rows[i], c)
  {
    seq(|rows|, i requires 0 <= i < |rows| => ScaleVec(rows[i], c))
  }

  function Zeros(n: nat): (r: Vec)
    ensures |r| == n && forall i :: 0 <= i < n ==> r[i] == 0.0
  {
    seq(n, i => 0.0)
  }

  /** `write_runner_atomlines`: one line per position, its element and its
      force; absent forces are zeros of the same shape, which the force
      conversion leaves zero. A short element or force list is an IndexError. */
  function AtomLines(positions: seq<Vec>, elements: seq<string>, forces: Option<seq<Vec>>, u: Units): (r: Result<seq<AtomLine>>)
    ensures r.Ok? <==> |elements| >= |positions| && (forces.Some? ==> |forces.value| >= |positions|)
    ensures r.Ok? ==> |r.value| == |positions| && forall i :: 0 <= i < |positions| ==>
      && r.value[i].position == ScaleVec(positions[i], u.length)
      && r.value[i].element == elements[i]
      && (forces.None? ==> r.value[i].force == Zeros(|positions[i]|))
      && (forces.Some? ==> r.value[i].force == ScaleVec(forces.value[i], u.force))
  {
    if |elements| < |positions| || (forces.Some? && |forces.value| < |positions|) then
      Err("IndexError: list index out of range")
    else
      Ok(seq(|positions|, i requires 0 <= i < |positions| =>
        AtomLine(ScaleVec(positions[i], u.length), elements[i],
          if forces.Some? then ScaleVec(forces.value[i], u.force) else Zeros(|positions[i]|))))
  }

  function StructureSymbols(s: Structure): seq<string> { Symbols(s.atoms) }

  function Positions(s: Structure): seq<Vec> { SoluteSupercell.Positions(s) }

  /** `write_structure_torunner`: no forces, energy 0 and charge 0. */
  function StructureRecord(uuid: string, s: Structure, u: Units): (r: Record)
    ensures r.uuid == uuid && r.energy == 0.0 && r.charge == 0.0 && r.comments == []
    ensures r.lattice == ScaleRows(s.cell, u.length)
    ensures |r.lattice| == |s.cell| && |r.atoms| == |s.atoms|
    ensures forall i :: 0 <= i < |s.atoms| ==>
      && r.atoms[i].position == ScaleVec(s.atoms[i].position, u.length)
      && r.atoms[i].element == s.atoms[i].symbol && r.atoms[i].force == Zeros(|s.atoms[i].position|)
  {
    var lines := AtomLines(Positions(s), StructureSymbols(s), None, u).value;
    Record(uuid, [], ScaleRows(s.cell, u.length), lines, 0.0, 0.0)
  }

  // ---------------------------------------------------------------------------
  // Nodes
  // ---------------------------------------------------------------------------

  /** An scf calculation: its input structure, the forces of every step and
      the final energy. */
  datatype ScfCalc = ScfCalc(structure: Structure, forces: seq<seq<Vec>>, energy: real)

  /** A PwBaseWorkChain and its scf calculations, oldest first. */
  datatype PwBaseNode = PwBaseNode(uuid: string, scfs: seq<ScfCalc>)

  /** The trajectory arrays gathered from a relax's calculations. */
  datatype Trajectory = Trajectory(
    steps: nat,
    cells: seq<seq<Vec>>,
    positions: seq<seq<Vec>>,
    energies: seq<real>,
    forces: seq<seq<Vec>>,
    elements: seq<string>)

  datatype RelaxNode = RelaxNode(exitStatus: int, finalScf: bool, trajectory: Trajectory, baseNodes: seq<PwBaseNode>)

  datatype Kind =
    | StructureNode(structure: Structure)
    | PwBaseWorkChain(base: PwBaseNode)
    | PwRelaxWorkChain(relax: RelaxNode)
    | ElasticWorkChain(children: seq<Node>)
    | OtherWorkChain(workflowName: string)
    | OtherNode

  /** A node of the group: its exit status when it has an integer one, and
      the symbols of its input structure when it has one. */
  datatype Node = Node(uuid: string, exitStatus: Option<int>, inputSymbols: Option<seq<string>>, kind: Kind)

  /** The newest scf calculation has forces for every atom in its last step. */
  predicate HasFinalForces(base: PwBaseNode) {
    && |base.scfs| > 0
    && var scf := base.scfs[|base.scfs| - 1];
    && |scf.forces| > 0
    && |scf.forces[|scf.forces| - 1]| >= |scf.structure.atoms|
  }

  /** `write_pwbase_torunner`: the newest scf calculation's structure, its
      last forces and its energy. */
  function PwBaseRecord(base: PwBaseNode, comments: seq<(string, CommentValue)>, u: Units): (r: Result<Record>)
    ensures r.Ok? <==> HasFinalForces(base)
    ensures r.Ok? ==> (&& r.value.uuid == base.uuid && r.value.comments == comments && r.value.charge == 0.0
                       && r.value.energy == u.energy(base.scfs[|base.scfs| - 1].energy))
    ensures r.Ok? ==>
      var scf := base.scfs[|base.scfs| - 1];
      && r.value.lattice == ScaleRows(scf.structure.cell, u.length)
      && Ok(r.value.atoms) == AtomLines(Positions(scf.structure), StructureSymbols(scf.structure), Some(scf.forces[|scf.forces| - 1]), u)
  {
    if |base.scfs| == 0 then Err("IndexError: no scf calculation")
    else
      var scf := base.scfs[|base.scfs| - 1];
      if |scf.forces| == 0 then Err("IndexError: no forces")
      else
        var lines :- AtomLines(Positions(scf.structure), StructureSymbols(scf.structure), Some(scf.forces[|scf.forces| - 1]), u);
        Ok(Record(base.uuid, comments, ScaleRows(scf.structure.cell, u.length), lines, u.energy(scf.energy), 0.0))
  }

  // ---------------------------------------------------------------------------
  // Trajectory steps of a relax
  // ---------------------------------------------------------------------------

  /** A Python list index: -1 is the last element. */
  function Resolve(i: int, n: nat): int {
    if i < 0 then n + i else i
  }

  predicate ValidCandidates(cands: seq<int>, n: nat) {
    forall k :: 0 <= k < |cands| ==> 0 <= Resolve(cands[k], n) < n
  }

  /** The candidate steps as the code computes them, including taking the
      last one: every step, only the last step, or no step at all when only
      relaxed structures are wanted and a final scf exists, in which case
      `[][-1]` raises. */
  function CandidatesAsWritten(writeOnlyRelaxed: bool, finalScf: bool, n: nat): (r: Result<(seq<int>, int)>)
    ensures r.Err? <==> (writeOnlyRelaxed && finalScf) || (!writeOnlyRelaxed && n == 0)
    ensures r.Ok? ==> |r.value.0| > 0 && r.value.1 == r.value.0[|r.value.0| - 1]
  {
    var cands := if !writeOnlyRelaxed then seq(n, i => i) else if !finalScf then [-1] else [];
    if |cands| == 0 then Err("IndexError: list index out of range") else Ok((cands, cands[|cands| - 1]))
  }

  /** Asking for relaxed structures only of a relax with a final scf always
      fails, whatever the trajectory. */
  lemma OnlyRelaxedWithFinalScfFails(n: nat)
    ensures CandidatesAsWritten(true, true, n).Err?
  {
  }

  /** The candidate steps as intended: every step, only the last step, or,
      when the relaxed structure is the final scf written afterwards, none. */
  function Candidates(writeOnlyRelaxed: bool, finalScf: bool, n: nat): (r: seq<int>)
    ensures !writeOnlyRelaxed ==> |r| == n && forall k :: 0 <= k < n ==> r[k] == k
    ensures writeOnlyRelaxed && !finalScf ==> r == [-1]
    ensures writeOnlyRelaxed && finalScf ==> r == []
    ensures n > 0 ==> ValidCandidates(r, n)
  {
    if !writeOnlyRelaxed then seq(n, i => i) else if !finalScf then [-1] else []
  }

  /** Wherever the code does not raise, the two agree. */
  lemma CandidatesAgree(writeOnlyRelaxed: bool, finalScf: bool, n: nat)
    requires n > 0
    ensures CandidatesAsWritten(writeOnlyRelaxed, finalScf, n).Ok? ==>
      CandidatesAsWritten(writeOnlyRelaxed, finalScf, n).value.0 == Candidates(writeOnlyRelaxed, finalScf, n)
    ensures CandidatesAsWritten(writeOnlyRelaxed, finalScf, n).Err? <==> writeOnlyRelaxed && finalScf
  {
  }

  /** The energy-tolerance filter as a reference definition: a candidate is
      written if it is step 0, or the final candidate, or its energy is at
      least `tol` away from the energy last written (initially step 0's). */
  function Kept(energies: seq<real>, cands: seq<int>, final: int, tol: real, last: real): (r: seq<int>)
    requires ValidCandidates(cands, |energies|)
    ensures ValidCandidates(r, |energies|)
    decreases |cands|
  {
    if |cands| == 0 then []
    else
      var i := cands[0];
      var e := energies[Resolve(i, |energies|)];
      if i != 0 && i != final && AbsReal(e - last) < tol then Kept(energies, cands[1..], final, tol, last)
      else [i] + Kept(energies, cands[1..], final, tol, e)
  }

  /** The filtering loop of `write_pwrelax_torunner`. */
  method FilterSteps(energies: seq<real>, cands: seq<int>, tol: real) returns (written: seq<int>)
    requires |energies| > 0 && |cands| > 0 && ValidCandidates(cands, |energies|)
    ensures written == Kept(energies, cands, cands[|cands| - 1], tol, energies[0])
  {
    var final := cands[|cands| - 1];
    var last := energies[0];
    written := [];
    var k := 0;
    while k < |cands|
      invariant 0 <= k <= |cands|
      invariant written + Kept(energies, cands[k..], final, tol, last)
             == Kept(energies, cands, final, tol, energies[0])
    {
      var i := cands[k];
      var e := energies[Resolve(i, |energies|)];
      assert cands[k..][1..] == cands[k + 1..];
      if i != 0 && i != final && AbsReal(e - last) < tol {
      } else {
        written := written + [i];
        last := e;
      }
      k := k + 1;
    }
  }

  lemma {:induction false} TailValid(cands: seq<int>, n: nat)
    requires |cands| > 0 && ValidCandidates(cands, n)
    ensures ValidCandidates(cands[1..], n)
    ensures forall x :: x in cands[1..] ==> x in cands
  {
    forall k | 0 <= k < |cands| - 1 ensures 0 <= Resolve(cands[1..][k], n) < n {
      assert cands[1..][k] == cands[k + 1];
    }
  }

  /** The filter keeps candidates only, at most all of them. */
  lemma {:induction false} KeptFromCandidates(energies: seq<real>, cands: seq<int>, final: int, tol: real, last: real)
    requires ValidCandidates(cands, |energies|)
    ensures var w := Kept(energies, cands, final, tol, last);
      |w| <= |cands| && forall x :: x in w ==> x in cands
    decreases |cands|
  {
    if |cands| > 0 {
      TailValid(cands, |energies|);
      var e := energies[Resolve(cands[0], |energies|)];
      KeptFromCandidates(energies, cands[1..], final, tol, last);
      KeptFromCandidates(energies, cands[1..], final, tol, e);
    }
  }

  /** The final candidate is always written, and written last. */
  lemma {:induction false} KeptEndsWithFinal(energies: seq<real>, cands: seq<int>, final: int, tol: real, last: real)
    requires ValidCandidates(cands, |energies|)
    requires |cands| > 0 && cands[|cands| - 1] == final
    ensures var w := Kept(energies, cands, final, tol, last);
      |w| > 0 && w[|w| - 1] == final
    decreases |cands|
  {
    if |cands| > 1 {
      TailValid(cands, |energies|);
      assert cands[1..][|cands| - 2] == final;
      var e := energies[Resolve(cands[0], |energies|)];
      KeptEndsWithFinal(energies, cands[1..], final, tol, last);
      KeptEndsWithFinal(energies, cands[1..], final, tol, e);
    }
  }

  /** Step 0 is always written when it is a candidate. */
  lemma {:induction false} KeptKeepsZero(energies: seq<real>, cands: seq<int>, final: int, tol: real, last: real)
    requires ValidCandidates(cands, |energies|)
    requires 0 in cands
    ensures 0 in Kept(energies, cands, final, tol, last)
    decreases |cands|
  {
    if cands[0] != 0 {
      TailValid(cands, |energies|);
      assert 0 in cands[1..];
      var e := energies[Resolve(cands[0], |energies|)];
      KeptKeepsZero(energies, cands[1..], final, tol, last);
      KeptKeepsZero(energies, cands[1..], final, tol, e);
    }
  }

  /** Each written step other than 0 and the final one is at least `tol` away
      from the energy written before it (the starting energy for the first). */
  lemma {:induction false} KeptSpacing(energies: seq<real>, cands: seq<int>, final: int, tol: real, last: real)
    requires ValidCandidates(cands, |energies|)
    ensures var w := Kept(energies, cands, final, tol, last);
      && (|w| > 0 && w[0] != 0 && w[0] != final ==>
            AbsReal(energies[Resolve(w[0], |energies|)] - last) >= tol)
      && (forall k :: 0 <= k < |w| - 1 && w[k + 1] != 0 && w[k + 1] != final ==>
            AbsReal(energies[Resolve(w[k + 1], |energies|)] - energies[Resolve(w[k], |energies|)]) >= tol)
    decreases |cands|
  {
    if |cands| > 0 {
      TailValid(cands, |energies|);
      var i := cands[0];
      var e := energies[Resolve(i, |energies|)];
      var tailC := cands[1..];
      if i != 0 && i != final && AbsReal(e - last) < tol {
        KeptSpacing(energies, tailC, final, tol, last);
      } else {
        KeptSpacing(energies, tailC, final, tol, e);
        var rest := Kept(energies, tailC, final, tol, e);
        var w := [i] + rest;
        forall k | 0 <= k < |w| - 1 && w[k + 1] != 0 && w[k + 1] != final
          ensures AbsReal(energies[Resolve(w[k + 1], |energies|)] - energies[Resolve(w[k], |energies|)]) >= tol
        {
          if k > 0 {
            assert w[k] == rest[k - 1] && w[k + 1] == rest[k];
          }
        }
      }
    }
  }

  /** `write_pwrelax_torunner` as written: zero steps write nothing; exit 401
      trims the energies to the forces; mismatched array lengths raise; the
      candidate list may raise. */
  function RelaxStepsAsWritten(uuid: string, r: RelaxNode, writeOnlyRelaxed: bool, tol: real): (res: Result<seq<int>>)
    ensures r.trajectory.steps == 0 ==> res == Ok([])
    ensures writeOnlyRelaxed && r.finalScf && r.trajectory.steps > 0 ==> res.Err?
  {
    var t := r.trajectory;
    var n := t.steps;
    if n == 0 then Ok([])
    else
      var energies := TrimmedEnergies(r);
      var _ :- LengthChecks(t, energies);
      var (cands, final) :- CandidatesAsWritten(writeOnlyRelaxed, r.finalScf, n);
      assert ValidCandidates(cands, n);
      Ok(Kept(energies, cands, final, tol, energies[0]))
  }

  /** Exit status 401: the final forces were not parsed, so the energies are
      cut to as many as there are forces. */
  function TrimmedEnergies(r: RelaxNode): (e: seq<real>)
    ensures r.exitStatus == 401 ==> |e| == Min(|r.trajectory.forces|, |r.trajectory.energies|)
    ensures r.exitStatus != 401 ==> e == r.trajectory.energies
    ensures e == r.trajectory.energies[..|e|]
  {
    var t := r.trajectory;
    if r.exitStatus == 401 then t.energies[..Min(|t.forces|, |t.energies|)] else t.energies
  }

  function Min(a: nat, b: nat): nat { if a <= b then a else b }

  /** Every per-step list of the trajectory has one entry per step. */
  predicate PassesLengthChecks(t: Trajectory, energies: seq<real>) {
    |t.cells| == t.steps && |t.positions| == t.steps && |energies| == t.steps && |t.forces| == t.steps
  }

  /** The four length checks, in the order they are made. */
  function LengthChecks(t: Trajectory, energies: seq<real>): (r: Result<()>)
    ensures r.Ok? <==> PassesLengthChecks(t, energies)
    ensures |t.cells| != t.steps ==> r == Err("Cells does not have the proper number of steps!")
    ensures |t.cells| == t.steps && |t.positions| != t.steps ==> r == Err("Positions does not have the proper number of steps!")
  {
    if |t.cells| != t.steps then Err("Cells does not have the proper number of steps!")
    else if |t.positions| != t.steps then Err("Positions does not have the proper number of steps!")
    else if |energies| != t.steps then Err("Energies does not have the proper number of steps!")
    else if |t.forces| != t.steps then Err("Forces does not have the proper number of steps!")
    else Ok(())
  }

  /** The record of trajectory step `i`: the relax's uuid tagged with the
      step, that step's cell, its positions with the first elements and
      that step's forces, and that step's energy, all converted. */
  function StepRecord(uuid: string, t: Trajectory, energies: seq<real>, i: int, u: Units): (r: Result<Record>)
    requires |t.cells| == t.steps && |t.positions| == t.steps && |energies| == t.steps && |t.forces| == t.steps
    requires 0 <= Resolve(i, t.steps) < t.steps
  {
    var k := Resolve(i, t.steps);
    var lines :- AtomLines(t.positions[k], t.elements, Some(t.forces[k]), u);
    Ok(Record(uuid, StepComments(i), ScaleRows(t.cells[k], u.length), lines, u.energy(energies[k]), 0.0))
  }

  /** The record of step `i` can be built exactly when there is an element
      and a force for every position of that step; it then holds that
      step's cell, positions, forces and energy: each lattice row and
      position is the converted row, each atom has its element from the
      first step, and the forces and energy are converted with their own
      units. */
  lemma StepRecordContents(uuid: string, t: Trajectory, energies: seq<real>, i: int, u: Units)
    requires |t.cells| == t.steps && |t.positions| == t.steps && |energies| == t.steps && |t.forces| == t.steps
    requires 0 <= Resolve(i, t.steps) < t.steps
    ensures var k := Resolve(i, t.steps);
      StepRecord(uuid, t, energies, i, u).Ok? <==>
        |t.elements| >= |t.positions[k]| && |t.forces[k]| >= |t.positions[k]|
    ensures StepRecord(uuid, t, energies, i, u).Ok? ==>
      var r := StepRecord(uuid, t, energies, i, u).value; var k := Resolve(i, t.steps);
      && r.uuid == uuid && r.comments == StepComments(i)
      && |r.lattice| == |t.cells[k]|
      && (forall j :: 0 <= j < |t.cells[k]| ==> r.lattice[j] == ScaleVec(t.cells[k][j], u.length))
      && |r.atoms| == |t.positions[k]|
      && (forall j :: 0 <= j < |t.positions[k]| ==>
            && r.atoms[j].position == ScaleVec(t.positions[k][j], u.length)
            && r.atoms[j].element == t.elements[j]
            && r.atoms[j].force == ScaleVec(t.forces[k][j], u.force))
      && r.energy == u.energy(energies[k]) && r.charge == 0.0
  {
  }

  /** The records of the written steps, in order; the first step whose atom
      lines cannot be written stops the export. */
  function StepRecords(uuid: string, t: Trajectory, energies: seq<real>, steps: seq<int>, u: Units): (r: Result<seq<Record>>)
    requires |t.cells| == t.steps && |t.positions| == t.steps && |energies| == t.steps && |t.forces| == t.steps
    requires ValidCandidates(steps, t.steps)
    ensures r.Ok? <==> forall k :: 0 <= k < |steps| ==> StepRecord(uuid, t, energies, steps[k], u).Ok?
    ensures r.Ok? ==> |r.value| == |steps|
    decreases |steps|
  {
    if |steps| == 0 then Ok([])
    else
      var first :- StepRecord(uuid, t, energies, steps[0], u);
      assert ValidCandidates(steps[1..], t.steps) by {
        forall k | 0 <= k < |steps| - 1 ensures 0 <= Resolve(steps[1..][k], t.steps) < t.steps {
          assert steps[1..][k] == steps[k + 1];
        }
      }
      match StepRecords(uuid, t, energies, steps[1..], u)
      case Err(e) =>
        assert exists k :: 1 <= k < |steps| && StepRecord(uuid, t, energies, steps[k], u).Err? by {
          var k :| 0 <= k < |steps| - 1 && StepRecord(uuid, t, energies, steps[1..][k], u).Err?;
          assert steps[1..][k] == steps[k + 1];
        }
        Err(e)
      case Ok(rest) =>
        assert forall k :: 1 <= k < |steps| ==> steps[k] == steps[1..][k - 1];
        Ok([first] + rest)
  }

  /** Record `k` is the record of the `k`-th written step. */
  lemma {:induction false} StepRecordsAt(uuid: string, t: Trajectory, energies: seq<real>, steps: seq<int>, u: Units, k: nat)
    requires |t.cells| == t.steps && |t.positions| == t.steps && |energies| == t.steps && |t.forces| == t.steps
    requires ValidCandidates(steps, t.steps)
    requires StepRecords(uuid, t, energies, steps, u).Ok? && k < |steps|
    ensures Ok(StepRecords(uuid, t, energies, steps, u).value[k]) == StepRecord(uuid, t, energies, steps[k], u)
    decreases k
  {
    TailValid(steps, t.steps);
    if k > 0 {
      StepRecordsAt(uuid, t, energies, steps[1..], u, k - 1);
      assert steps[1..][k - 1] == steps[k];
    }
  }

  /** The final scf record: the newest base workchain of the relax, tagged
      with the relax it belongs to. */
  function FinalScfRecord(uuid: string, r: RelaxNode, u: Units): (res: Result<Record>)
    ensures res.Ok? ==> res.value.comments == FinalScfComments(uuid)
    ensures |r.baseNodes| == 0 ==> res.Err?
    ensures |r.baseNodes| > 0 ==> res == PwBaseRecord(r.baseNodes[|r.baseNodes| - 1], FinalScfComments(uuid), u)
  {
    if |r.baseNodes| == 0 then Err("IndexError: no base workchain")
    else PwBaseRecord(r.baseNodes[|r.baseNodes| - 1], FinalScfComments(uuid), u)
  }

  /** The steps the filter writes, for a trajectory that passed the checks. */
  function WrittenSteps(energies: seq<real>, cands: seq<int>, tol: real): (w: seq<int>)
    requires |energies| > 0 && ValidCandidates(cands, |energies|)
    ensures ValidCandidates(w, |energies|)
    ensures |cands| > 0 ==> |w| > 0 && w[|w| - 1] == cands[|cands| - 1]
    ensures |w| <= |cands| && forall x :: x in w ==> x in cands
  {
    if |cands| == 0 then []
    else
      KeptFromCandidates(energies, cands, cands[|cands| - 1], tol, energies[0]);
      KeptEndsWithFinal(energies, cands, cands[|cands| - 1], tol, energies[0]);
      Kept(energies, cands, cands[|cands| - 1], tol, energies[0])
  }

  /** The layout of the records of a relax with `n > 0` trajectory steps:
      with only relaxed structures wanted, the one record of the relaxed
      structure (the final scf, or else the last step); otherwise filtered
      steps ending with the last one, then the final scf when there is one. */
  predicate RelaxLayout(rs: seq<Record>, uuid: string, n: nat, finalScf: bool, writeOnlyRelaxed: bool) {
    && (writeOnlyRelaxed && finalScf ==> |rs| == 1 && rs[0].comments == FinalScfComments(uuid))
    && (writeOnlyRelaxed && !finalScf ==> |rs| == 1 && rs[0].comments == StepComments(-1))
    && (!writeOnlyRelaxed && !finalScf ==> 0 < |rs| <= n && rs[|rs| - 1].comments == StepComments(n - 1))
    && (!writeOnlyRelaxed && finalScf ==>
          1 < |rs| <= n + 1 && rs[|rs| - 2].comments == StepComments(n - 1)
          && rs[|rs| - 1].comments == FinalScfComments(uuid))
  }

  /** `write_pwrelax_torunner` with the intended candidate list: the filtered
      trajectory steps, then the final scf when there is one. */
  function RelaxRecords(uuid: string, r: RelaxNode, writeOnlyRelaxed: bool, tol: real, u: Units): (res: Result<seq<Record>>)
    ensures r.trajectory.steps == 0 ==> res == Ok([])
    ensures r.trajectory.steps > 0 && LengthChecks(r.trajectory, TrimmedEnergies(r)).Err? ==>
      res == Err(LengthChecks(r.trajectory, TrimmedEnergies(r)).reason)
    ensures res.Ok? && r.trajectory.steps > 0 ==>
      RelaxLayout(res.value, uuid, r.trajectory.steps, r.finalScf, writeOnlyRelaxed)
  {
    if r.trajectory.steps == 0 then Ok([])
    else
      var checked := LengthChecks(r.trajectory, TrimmedEnergies(r));
      if checked.Err? then Err(checked.reason)
      else CheckedRelaxRecords(uuid, r, writeOnlyRelaxed, tol, u)
  }

  /** The records of a relax whose trajectory passed the length checks. */
  function CheckedRelaxRecords(uuid: string, r: RelaxNode, writeOnlyRelaxed: bool, tol: real, u: Units): (res: Result<seq<Record>>)
    requires r.trajectory.steps > 0 && PassesLengthChecks(r.trajectory, TrimmedEnergies(r))
    ensures res.Ok? ==> RelaxLayout(res.value, uuid, r.trajectory.steps, r.finalScf, writeOnlyRelaxed)
  {
    var steps := WrittenRecords(uuid, r, writeOnlyRelaxed, tol, u);
    if steps.Err? || !r.finalScf then steps
    else WithFinalScf(steps.value, FinalScfRecord(uuid, r, u))
  }

  /** The step records followed by the final scf record, or the error that
      building the latter raised. */
  function WithFinalScf(steps: seq<Record>, fin: Result<Record>): (res: Result<seq<Record>>)
    ensures res.Ok? <==> fin.Ok?
    ensures res.Ok? ==> |res.value| == |steps| + 1 && res.value[|steps|] == fin.value
    ensures res.Ok? ==> forall k :: 0 <= k < |steps| ==> res.value[k] == steps[k]
  {
    if fin.Err? then Err(fin.reason) else Ok(steps + [fin.value])
  }

  /** The trajectory-step records of a relax whose trajectory passed the
      length checks, before any final scf record. */
  function WrittenRecords(uuid: string, r: RelaxNode, writeOnlyRelaxed: bool, tol: real, u: Units): (res: Result<seq<Record>>)
    requires r.trajectory.steps > 0 && PassesLengthChecks(r.trajectory, TrimmedEnergies(r))
    ensures res.Ok? && writeOnlyRelaxed && r.finalScf ==> res.value == []
    ensures res.Ok? && writeOnlyRelaxed && !r.finalScf ==>
      |res.value| == 1 && res.value[0].comments == StepComments(-1)
    ensures res.Ok? && !writeOnlyRelaxed ==>
      0 < |res.value| <= r.trajectory.steps
      && res.value[|res.value| - 1].comments == StepComments(r.trajectory.steps - 1)
  {
    var t := r.trajectory;
    var energies := TrimmedEnergies(r);
    var cands := Candidates(writeOnlyRelaxed, r.finalScf, t.steps);
    var written := WrittenSteps(energies, cands, tol);
    StepRecordsComments(uuid, t, energies, written, u);
    StepRecords(uuid, t, energies, written, u)
  }

  /** Every step record is tagged with its own step. */
  lemma StepRecordsComments(uuid: string, t: Trajectory, energies: seq<real>, steps: seq<int>, u: Units)
    requires ValidCandidates(steps, t.steps) && PassesLengthChecks(t, energies)
    ensures var rs := StepRecords(uuid, t, energies, steps, u);
      rs.Ok? ==> forall k :: 0 <= k < |steps| ==> rs.value[k].comments == StepComments(steps[k])
  {
    var rs := StepRecords(uuid, t, energies, steps, u);
    if rs.Ok? {
      forall k | 0 <= k < |steps| ensures rs.value[k].comments == StepComments(steps[k]) {
        StepRecordsAt(uuid, t, energies, steps, u, k);
        StepRecordContents(uuid, t, energies, steps[k], u);
      }
    }
  }

  /** A relax whose trajectory passed the length checks writes, in order,
      the record of every step the energy filter keeps from the candidate
      list, then the final scf record when there is one; it fails exactly
      when one of these records cannot be built. */
  lemma RelaxRecordsWriteKeptSteps(uuid: string, r: RelaxNode, writeOnlyRelaxed: bool, tol: real, u: Units)
    requires r.trajectory.steps > 0 && PassesLengthChecks(r.trajectory, TrimmedEnergies(r))
    ensures var t := r.trajectory; var e := TrimmedEnergies(r);
      var w := WrittenSteps(e, Candidates(writeOnlyRelaxed, r.finalScf, t.steps), tol);
      var res := RelaxRecords(uuid, r, writeOnlyRelaxed, tol, u);
      && (res.Ok? <==> StepRecords(uuid, t, e, w, u).Ok? && (r.finalScf ==> FinalScfRecord(uuid, r, u).Ok?))
      && (res.Ok? ==> |res.value| == |w| + (if r.finalScf then 1 else 0))
      && (res.Ok? ==> forall k :: 0 <= k < |w| ==> Ok(res.value[k]) == StepRecord(uuid, t, e, w[k], u))
      && (res.Ok? && r.finalScf ==> Ok(res.value[|w|]) == FinalScfRecord(uuid, r, u))
  {
    var t := r.trajectory;
    var e := TrimmedEnergies(r);
    var w := WrittenSteps(e, Candidates(writeOnlyRelaxed, r.finalScf, t.steps), tol);
    var steps := StepRecords(uuid, t, e, w, u);
    assert WrittenRecords(uuid, r, writeOnlyRelaxed, tol, u) == steps;
    if steps.Ok? {
      forall k | 0 <= k < |w| ensures Ok(steps.value[k]) == StepRecord(uuid, t, e, w[k], u) {
        StepRecordsAt(uuid, t, e, w, u, k);
      }
    }
    assert RelaxRecords(uuid, r, writeOnlyRelaxed, tol, u) == CheckedRelaxRecords(uuid, r, writeOnlyRelaxed, tol, u);
    if steps.Ok? && r.finalScf {
      assert CheckedRelaxRecords(uuid, r, writeOnlyRelaxed, tol, u) == WithFinalScf(steps.value, FinalScfRecord(uuid, r, u));
    }
  }

  // ---------------------------------------------------------------------------
  // The group export
  // ---------------------------------------------------------------------------

  /** Size of a node counting the children an elastic workchain adds. */
  function NodeSize(n: Node): nat
    decreases n, 1
  {
    1 + (if n.kind.ElasticWorkChain? then ListSize(n.kind.children) else 0)
  }

  function ListSize(ns: seq<Node>): nat
    decreases ns, 0
  {
    if |ns| == 0 then 0 else NodeSize(ns[0]) + ListSize(ns[1..])
  }

  lemma ListSizeOne(n: Node)
    ensures ListSize([n]) == NodeSize(n)
  {
    assert [n][1..] == [];
  }

  lemma {:induction false} ListSizeAppend(a: seq<Node>, b: seq<Node>)
    ensures ListSize(a + b) == ListSize(a) + ListSize(b)
    decreases |a|
  {
    if |a| > 0 {
      assert (a + b)[1..] == a[1..] + b;
      ListSizeAppend(a[1..], b);
    } else {
      assert a + b == b;
    }
  }

  datatype ExportOptions = ExportOptions(writeOnlyRelaxed: bool, energyTolEv: real, outputElements: Option<string>, units: Units)

  datatype Action = Skip | Write(records: Result<seq<Record>>) | Expand(children: seq<Node>)

  /** `--output_elements` is given and names at least one element. */
  predicate FilterOn(o: ExportOptions) {
    |SoluteSupercell.PrepElementList(o.outputElements)| > 0
  }

  /** Reading the node fails: `int(node.exit_status)` on a node without an
      integer exit status, or, when the filter is on and the node is not
      skipped for exit status 104, `node.inp.structure` on a node without an
      input structure. */
  predicate ReadFails(n: Node, o: ExportOptions) {
    || n.exitStatus.None?
    || (n.exitStatus.value != 104 && FilterOn(o) && n.inputSymbols.None?)
  }

  /** The node is read and neither skipped for exit status 104 nor filtered
      out: with the filter on, its input structure consists of listed
      elements. */
  predicate Admitted(n: Node, o: ExportOptions) {
    && n.exitStatus.Some? && n.exitStatus.value != 104
    && (FilterOn(o) ==>
          && n.inputSymbols.Some?
          && forall s :: s in n.inputSymbols.value ==> s in SoluteSupercell.PrepElementList(o.outputElements))
  }

  /** What the loop does with one node: a node that cannot be read stops the
      export, exit status 104 and filtered nodes are skipped, structures and
      pw workchains are written, an elastic workchain hands over its
      children, anything else is skipped. */
  function Triage(n: Node, o: ExportOptions): (a: Action)
    ensures ReadFails(n, o) ==> a.Write? && a.records.Err?
    ensures !ReadFails(n, o) && !Admitted(n, o) ==> a == Skip
    ensures a.Expand? <==> Admitted(n, o) && n.kind.ElasticWorkChain?
    ensures a.Expand? ==> a.children == n.kind.children
    ensures a.Write? <==> (|| ReadFails(n, o)
                           || (&& Admitted(n, o)
                               && (n.kind.StructureNode? || n.kind.PwBaseWorkChain? || n.kind.PwRelaxWorkChain?)))
  {
    if n.exitStatus.None? then Write(Err("TypeError: the node has no integer exit status"))
    else if n.exitStatus.value == 104 then Skip
    else if FilterOn(o) && n.inputSymbols.None? then Write(Err("AttributeError: the node has no input structure"))
    else if !Admitted(n, o) then Skip
    else
      var u := o.units;
      match n.kind
      case StructureNode(s) => Write(Ok([StructureRecord(n.uuid, s, u)]))
      case PwBaseWorkChain(b) =>
        Write(match PwBaseRecord(b, [], u) case Ok(rec) => Ok([rec]) case Err(e) => Err(e))
      case PwRelaxWorkChain(r) =>
        Write(RelaxRecords(n.uuid, r, o.writeOnlyRelaxed, u.energy(o.energyTolEv), u))
      case ElasticWorkChain(children) => Expand(children)
      case OtherWorkChain(_) => Skip
      case OtherNode => Skip
  }

  /** Records of `a` followed by those of `b`; the first failure wins. */
  function Then(a: Result<seq<Record>>, b: Result<seq<Record>>): (r: Result<seq<Record>>)
    ensures a.Err? ==> r == a
    ensures a.Ok? && b.Err? ==> r == b
    ensures a.Ok? && b.Ok? ==> r == Ok(a.value + b.value)
  {
    match a
    case Err(_) => a
    case Ok(x) => match b case Err(_) => b case Ok(y) => Ok(x + y)
  }

  lemma ThenEmpty(a: Result<seq<Record>>)
    ensures Then(Ok([]), a) == a && Then(a, Ok([])) == a
  {
    if a.Ok? {
      assert [] + a.value == a.value && a.value + [] == a.value;
    }
  }

  lemma ThenAssociative(a: Result<seq<Record>>, b: Result<seq<Record>>, c: Result<seq<Record>>)
    ensures Then(Then(a, b), c) == Then(a, Then(b, c))
  {
    if a.Ok? && b.Ok? && c.Ok? {
      assert (a.value + b.value) + c.value == a.value + (b.value + c.value);
    }
  }

  /** The export of a worklist: nodes in order, an elastic workchain's children
      appended to the end of the list. */
  function Export(ws: seq<Node>, o: ExportOptions): Result<seq<Record>>
    decreases ListSize(ws)
  {
    if |ws| == 0 then Ok([])
    else
      assert ws == [ws[0]] + ws[1..];
      ListSizeAppend([ws[0]], ws[1..]);
      ListSizeOne(ws[0]);
      match Triage(ws[0], o)
      case Skip => Export(ws[1..], o)
      case Expand(children) =>
        ListSizeAppend(ws[1..], children);
        Export(ws[1..] + children, o)
      case Write(res) => Then(res, Export(ws[1..], o))
  }

  /** One round of the export loop: what the first node does to the export
      of the rest, and that the worklist shrinks by the size measure. */
  lemma ExportStep(ws: seq<Node>, o: ExportOptions)
    requires |ws| > 0
    ensures Triage(ws[0], o).Skip? ==>
      Export(ws, o) == Export(ws[1..], o) && ListSize(ws[1..]) < ListSize(ws)
    ensures Triage(ws[0], o).Expand? ==>
      Export(ws, o) == Export(ws[1..] + Triage(ws[0], o).children, o)
      && ListSize(ws[1..] + Triage(ws[0], o).children) < ListSize(ws)
    ensures Triage(ws[0], o).Write? ==>
      Export(ws, o) == Then(Triage(ws[0], o).records, Export(ws[1..], o)) && ListSize(ws[1..]) < ListSize(ws)
  {
    assert ws == [ws[0]] + ws[1..];
    ListSizeAppend([ws[0]], ws[1..]);
    ListSizeOne(ws[0]);
    if Triage(ws[0], o).Expand? {
      ListSizeAppend(ws[1..], Triage(ws[0], o).children);
    }
  }

  /** `createjob`'s loop over the group, with the list growing as elastic
      workchains are met. */
  method ExportGroup(nodes: seq<Node>, o: ExportOptions) returns (res: Result<seq<Record>>)
    ensures res == Export(nodes, o)
  {
    var work := nodes;
    var out: seq<Record> := [];
    var i := 0;
    ThenEmpty(Export(nodes, o));
    while i < |work|
      invariant 0 <= i <= |work|
      invariant Export(nodes, o) == Then(Ok(out), Export(work[i..], o))
      decreases ListSize(work[i..])
    {
      ExportRound(nodes, o, work, i, out);
      var action := Triage(work[i], o);
      match action {
      case Skip =>
      case Expand(children) =>
        work := work + children;
      case Write(records) =>
        if records.Err? {
          return records;
        }
        out := out + records.value;
      }
      i := i + 1;
    }
    ThenEmpty(Ok(out));
    return Ok(out);
  }

  /** One round of the export loop keeps its invariant: the records written
      so far followed by the export of the rest of the worklist. */
  lemma ExportRound(nodes: seq<Node>, o: ExportOptions, work: seq<Node>, i: nat, out: seq<Record>)
    requires i < |work|
    requires Export(nodes, o) == Then(Ok(out), Export(work[i..], o))
    ensures var a := Triage(work[i], o);
      && (a.Skip? ==> Export(nodes, o) == Then(Ok(out), Export(work[i + 1..], o))
                      && ListSize(work[i + 1..]) < ListSize(work[i..]))
      && (a.Expand? ==> Export(nodes, o) == Then(Ok(out), Export((work + a.children)[i + 1..], o))
                        && ListSize((work + a.children)[i + 1..]) < ListSize(work[i..]))
      && (a.Write? && a.records.Err? ==> Export(nodes, o) == a.records)
      && (a.Write? && a.records.Ok? ==> Export(nodes, o) == Then(Ok(out + a.records.value), Export(work[i + 1..], o))
                                        && ListSize(work[i + 1..]) < ListSize(work[i..]))
  {
    var ws := work[i..];
    assert ws[0] == work[i] && ws[1..] == work[i + 1..];
    var a := Triage(work[i], o);
    if a.Expand? {
      assert (work + a.children)[i + 1..] == ws[1..] + a.children;
      ExportStep(ws, o);
    } else if a.Write? {
      ExportStep(ws, o);
      if a.records.Ok? {
        ThenAssociative(Ok(out), a.records, Export(ws[1..], o));
      }
    } else {
      ExportStep(ws, o);
    }
  }



  /** Nodes other than elastic workchains are exported in place: the export of
      a concatenation is the exports one after the other. */
  lemma {:induction false} ExportFlatPrefix(a: seq<Node>, b: seq<Node>, o: ExportOptions)
    requires forall k :: 0 <= k < |a| ==> !Triage(a[k], o).Expand?
    ensures Export(a + b, o) == Then(Export(a, o), Export(b, o))
    decreases |a|
  {
    if |a| == 0 {
      assert a + b == b;
      ThenEmpty(Export(b, o));
    } else {
      assert (a + b)[0] == a[0];
      assert (a + b)[1..] == a[1..] + b;
      ExportFlatPrefix(a[1..], b, o);
      match Triage(a[0], o)
      case Skip =>
      case Write(res) =>
        ThenAssociative(res, Export(a[1..], o), Export(b, o));
    }
  }

  /** An elastic workchain's children are written after every node that was
      already in the list. */
  lemma ElasticChildrenLast(e: Node, rest: seq<Node>, o: ExportOptions)
    requires Triage(e, o).Expand?
    requires forall k :: 0 <= k < |rest| ==> !Triage(rest[k], o).Expand?
    ensures Export([e] + rest, o) == Then(Export(rest, o), Export(e.kind.children, o))
  {
    assert ([e] + rest)[0] == e && ([e] + rest)[1..] == rest;
    ExportFlatPrefix(rest, e.kind.children, o);
  }

  /** A group of plain structures without filter, each with a readable exit
      status other than 104, is written one record per structure, in group
      order. */
  lemma {:induction false} ExportStructures(nodes: seq<Node>, o: ExportOptions)
    requires o.outputElements.None?
    requires forall k :: 0 <= k < |nodes| ==>
      nodes[k].kind.StructureNode? && nodes[k].exitStatus.Some? && nodes[k].exitStatus.value != 104
    ensures Export(nodes, o).Ok?
    ensures |Export(nodes, o).value| == |nodes|
    ensures forall k :: 0 <= k < |nodes| ==>
      Export(nodes, o).value[k] == StructureRecord(nodes[k].uuid, nodes[k].kind.structure, o.units)
    decreases |nodes|
  {
    if |nodes| > 0 {
      ExportStructures(nodes[1..], o);
      var rest := Export(nodes[1..], o).value;
      var r := Export(nodes, o).value;
      assert r == [StructureRecord(nodes[0].uuid, nodes[0].kind.structure, o.units)] + rest;
      forall k | 0 <= k < |nodes|
        ensures r[k] == StructureRecord(nodes[k].uuid, nodes[k].kind.structure, o.units)
      {
        if k > 0 {
          assert r[k] == rest[k - 1] && nodes[1..][k - 1] == nodes[k];
        }
      }
    }
  }
}
