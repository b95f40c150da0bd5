/**
 The earlier workflow launcher: scf, relax or vc-relax workchains for every
 structure of a group not yet calculated, with the machine count guessed
 from the number of atoms and Python 2 rounding. Waiting for running
 calculations and k-point meshes are not modelled.
 */
module LegacyLauncher {
  import opened Common
  import opened Atoms
  import opened LaunchCommon

  datatype CalcMethod = Scf | Relax | VcRelax

  /** The accepted method names; any other is refused before anything runs. */
  function ParseCalcMethod(name: string): (r: Result<CalcMethod>)
    ensures r.Ok? <==> name in {"scf", "relax", "vc-relax"}
    ensures r == Ok(Scf) <==> name == "scf"
    ensures r == Ok(Relax) <==> name == "relax"
    ensures r == Ok(VcRelax) <==> name == "vc-relax"
  {
    if name == "scf" then Ok(Scf)
    else if name == "relax" then Ok(Relax)
    else if name == "vc-relax" then Ok(VcRelax)
    else Err("Invalid calc_method: " + name)
  }

  /** A structure node: the structure and its extras. */
  datatype StructureNode = StructureNode(structure: Structure, extras: Extras)

  /** The atom count used for the node guess: the `num_atoms` extra when
      present, the length of the structure otherwise; a non-numeric extra
      cannot be squared. */
  function AtomCount(n: StructureNode): (r: Result<real>)
    ensures "num_atoms" !in n.extras ==> r == Ok(|n.structure.atoms| as real)
    ensures "num_atoms" in n.extras && n.extras["num_atoms"].Int? ==> r == Ok(n.extras["num_atoms"].i as real)
  {
    if "num_atoms" !in n.extras then Ok(|n.structure.atoms| as real)
    else match n.extras["num_atoms"]
      case Int(i) => Ok(i as real)
      case Real(x) => Ok(x)
      case _ => Err("TypeError: num_atoms is not a number")
  }

  function NodeGuess(atoms: real): real {
    0.0002 * atoms * atoms + 2.0
  }

  /** `get_nummachines`: `a * n**2 + b` with a = 2e-4 and b = 2, rounded to an
      even count of at least 2 with Python 2 rounding. */
  function NumMachines(atoms: real): (r: int)
    ensures r >= 2 && r % 2 == 0
    ensures -1.0 <= NodeGuess(atoms) - r as real <= 1.0
  {
    EvenMachines(NodeGuess(atoms), false)
  }

  lemma NumMachinesMonotone(a: real, b: real)
    requires 0.0 <= a <= b
    ensures NumMachines(a) <= NumMachines(b)
  {
    assert a * a <= b * b by {
      assert a * a <= a * b <= b * b;
    }
    EvenMachinesMonotone(NodeGuess(a), NodeGuess(b), false);
  }

  /** Two machines at 50 atoms, four at 100, six at 150. */
  lemma NumMachinesExamples()
    ensures NumMachines(50.0) == 2
    ensures NumMachines(100.0) == 4
    ensures NumMachines(150.0) == 6
  {
    assert NodeGuess(50.0) == 2.5;
    assert NodeGuess(100.0) == 4.0;
    assert NodeGuess(150.0) == 6.5;
  }

  /** `get_nk` without the single-process shortcut: the pool guess must
      divide the processor count. */
  function GetNk(machines: int, ppm: int): (r: Result<int>)
    ensures r.Ok? <==> EvenlyDivisible(NkGuess(machines), machines * ppm)
    ensures r.Ok? ==> r.value >= 4 && (machines * ppm) % r.value == 0
    ensures r.Ok? ==> r.value == NkGuess(machines)
  {
    var nk := NkGuess(machines);
    if EvenlyDivisible(nk, machines * ppm) then Ok(nk)
    else Err("Error number processors is not divisible by nk")
  }

  /** On a computer with one process per machine, two or six machines cannot
      be split into four pools. */
  lemma GetNkFailsOnSingleProcessComputer()
    ensures GetNk(2, 1).Err? && GetNk(6, 1).Err?
    ensures GetNk(4, 1) == Ok(4)
  {
  }

  /** The command-line options; the band ratio and the k-point density are
      the text given, which the loop body converts. */
  datatype Options = Options(
    calcMethod: string,
    maxWallclockSeconds: int,
    runDebug: bool,
    keepWorkdir: bool,
    kptperRecipang: string,
    nume2bndRatio: string)

  datatype Environment = Environment(baseParameters: Params, pseudos: map<string, seq<string>>, mpiprocsPerMachine: int)

  /** The inputs of one submission; the relax fields only for relaxations. */
  datatype Inputs = Inputs(
    calcMethod: CalcMethod,
    structure: Structure,
    parameters: Params,
    options: JobOptions,
    cmdline: seq<string>,
    noBands: bool,
    relaxationScheme: Option<string>,
    finalScf: Option<bool>,
    cleanWorkdir: bool)

  /** The relax table: relax without and vc-relax with a final scf. */
  function RelaxFields(m: CalcMethod): (r: (Option<string>, Option<bool>))
    ensures m == Scf <==> r.0.None?
    ensures r.0.None? <==> r.1.None?
    ensures m == Relax ==> r == (Some("relax"), Some(false))
    ensures m == VcRelax ==> r == (Some("vc-relax"), Some(true))
  {
    match m
    case Scf => (None, None)
    case Relax => (Some("relax"), Some(false))
    case VcRelax => (Some("vc-relax"), Some(true))
  }

  /** The job options of a structure with `atoms` atoms: the guessed
      machines and the wall-clock time, or the debug queue. */
  function JobOptionsFor(o: Options, atoms: real): (r: JobOptions)
    ensures !o.runDebug ==> r == JobOptions(o.maxWallclockSeconds, NumMachines(atoms), None, None)
    ensures o.runDebug ==> r == DebugOptions(JobOptions(o.maxWallclockSeconds, NumMachines(atoms), None, None))
    ensures r.numMachines >= 2 && r.numMachines % 2 == 0
  {
    var base := JobOptions(o.maxWallclockSeconds, NumMachines(atoms), None, None);
    if o.runDebug then DebugOptions(base) else base
  }

  /** The loop body for one structure: the band ratio is converted, the
      electrons are counted and the bands set, the k-point density is
      converted, the machines are guessed from the atom count and the pool
      guess is checked against the processes. */
  function Prepare(n: StructureNode, m: CalcMethod, o: Options, env: Environment): (r: Result<Inputs>)
    ensures r.Ok? <==>
      && FloatNode(o.nume2bndRatio).Ok?
      && NumElectrons(Symbols(n.structure.atoms), env.pseudos).Ok?
      && "SYSTEM" in env.baseParameters
      && IntNode(o.kptperRecipang).Ok?
      && AtomCount(n).Ok?
      && GetNk(JobOptionsFor(o, AtomCount(n).value).numMachines, env.mpiprocsPerMachine).Ok?
    ensures FloatNode(o.nume2bndRatio).Err? ==> r == Err(FloatNode(o.nume2bndRatio).reason)
    ensures r.Ok? ==> r.value.calcMethod == m && r.value.structure == n.structure && r.value.cleanWorkdir == !o.keepWorkdir
    ensures r.Ok? ==> r.value.parameters == SetBands(env.baseParameters,
      BandCount(NumElectrons(Symbols(n.structure.atoms), env.pseudos).value, FloatNode(o.nume2bndRatio).value)).value
    ensures r.Ok? ==> r.value.options == JobOptionsFor(o, AtomCount(n).value)
    ensures r.Ok? ==> r.value.cmdline == ["-nk", NatToString(NkGuess(r.value.options.numMachines))] && r.value.noBands
    ensures r.Ok? ==> (r.value.relaxationScheme, r.value.finalScf) == RelaxFields(m)
  {
    var ratio :- FloatNode(o.nume2bndRatio);
    var nelec :- NumElectrons(Symbols(n.structure.atoms), env.pseudos);
    var parameters :- SetBands(env.baseParameters, BandCount(nelec, ratio));
    var _ :- IntNode(o.kptperRecipang);
    var atoms :- AtomCount(n);
    var options := JobOptionsFor(o, atoms);
    var nk :- GetNk(options.numMachines, env.mpiprocsPerMachine);
    var (scheme, finalScf) := RelaxFields(m);
    Ok(Inputs(m, n.structure, parameters, options, ["-nk", NatToString(nk)], true, scheme, finalScf, !o.keepWorkdir))
  }

  /** One submission: the position of its structure, its inputs and whether
      the workchain was added to the output group. */
  datatype Launched<T> = Launched(index: nat, inputs: T, grouped: bool)

  /** `launch`: an invalid method is refused first; then every structure is
      submitted and grouped in order, except that in debug mode the first one
      is submitted and the script stops. */
  function Launch(nodes: seq<StructureNode>, o: Options, env: Environment): (r: Result<seq<Launched<Inputs>>>)
    ensures ParseCalcMethod(o.calcMethod).Err? ==> r == Err(ParseCalcMethod(o.calcMethod).reason)
    ensures r.Ok? && !o.runDebug ==> |r.value| == |nodes|
    ensures r.Ok? && !o.runDebug ==> forall k :: 0 <= k < |r.value| ==> r.value[k].index == k && r.value[k].grouped
    ensures r.Ok? && o.runDebug ==> |r.value| <= 1 && forall k :: 0 <= k < |r.value| ==> r.value[k].index == 0 && !r.value[k].grouped
    ensures r.Ok? ==> forall k :: 0 <= k < |r.value| ==>
      r.value[k].index < |nodes| && Prepare(nodes[r.value[k].index], ParseCalcMethod(o.calcMethod).value, o, env) == Ok(r.value[k].inputs)
  {
    var m :- ParseCalcMethod(o.calcMethod);
    LaunchFrom(Prepared(nodes, m, o, env), o.runDebug, 0)
  }

  /** The loop body applied to every structure, in order. */
  function Prepared(nodes: seq<StructureNode>, m: CalcMethod, o: Options, env: Environment): (r: seq<Result<Inputs>>)
    ensures |r| == |nodes|
    ensures forall i :: 0 <= i < |nodes| ==> r[i] == Prepare(nodes[i], m, o, env)
  {
    seq(|nodes|, i requires 0 <= i < |nodes| => Prepare(nodes[i], m, o, env))
  }

  /** The submission loop from position `from` over the prepared inputs: the
      first failure stops it; in debug mode it stops after one submission. */
  function LaunchFrom<T>(prepared: seq<Result<T>>, runDebug: bool, from: nat): (r: Result<seq<Launched<T>>>)
    requires from <= |prepared|
    ensures r.Ok? && !runDebug ==> |r.value| == |prepared| - from
    ensures r.Ok? && !runDebug ==> forall k :: 0 <= k < |r.value| ==> r.value[k].index == from + k && r.value[k].grouped
    ensures r.Ok? && runDebug ==> |r.value| <= 1 && forall k :: 0 <= k < |r.value| ==> r.value[k].index == from && !r.value[k].grouped
    ensures r.Ok? ==> forall k :: 0 <= k < |r.value| ==>
      from <= r.value[k].index < |prepared| && prepared[r.value[k].index] == Ok(r.value[k].inputs)
    decreases |prepared| - from
  {
    if from == |prepared| then Ok([])
    else
      var inputs :- prepared[from];
      if runDebug then Ok([Launched(from, inputs, false)])
      else
        var rest :- LaunchFrom(prepared, runDebug, from + 1);
        Ok([Launched(from, inputs, true)] + rest)
  }

  /** Outside debug mode the launch fails exactly when some structure fails
      to prepare. */
  lemma {:induction false} LaunchFailsOnlyOnPrepare<T>(prepared: seq<Result<T>>, from: nat)
    requires from <= |prepared|
    ensures LaunchFrom(prepared, false, from).Ok? <==>
      forall i :: from <= i < |prepared| ==> prepared[i].Ok?
    decreases |prepared| - from
  {
    if from < |prepared| {
      LaunchFailsOnlyOnPrepare(prepared, from + 1);
    }
  }

  /** In debug mode only the first structure matters. */
  lemma DebugLaunchesFirst<T>(prepared: seq<Result<T>>)
    requires |prepared| > 0
    ensures LaunchFrom(prepared, true, 0).Ok? <==> prepared[0].Ok?
    ensures prepared[0].Ok? ==> LaunchFrom(prepared, true, 0) == Ok([Launched(0, prepared[0].value, false)])
  {
  }
}
