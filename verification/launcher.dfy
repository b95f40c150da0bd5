/**
 The current workflow launcher: for every structure of a group that has no
 workchain in the target group yet, it prepares the parameters, resources
 and inputs of a PwBase, PwRelax or Elastic workchain and submits it.

 Database queries, the code node and the computer are replaced by an
 `Environment` value. Waiting for running calculations to finish only delays
 a submission and is not modelled; neither are k-point meshes.
 */
module Launcher {
  import opened Common
  import opened Atoms
  import opened LaunchCommon
  import ElasticWorkChain

  datatype CalcMethod = Scf | Relax | VcRelax | Elastic

  /** The command-line options that shape a submission. Click reads the
      flags and the options with integer defaults; the options the loop body
      converts itself are kept as the text given. */
  datatype Options = Options(
    calcMethod: CalcMethod,
    useConventionalStructure: bool,
    pressConvThr: Option<string>,
    maxWallclockSeconds: int,
    maxNodesSubmit: int,
    maxAtomsSubmit: int,
    numberOfNodes: Option<string>,
    memoryGb: Option<string>,
    ndiag: Option<string>,
    npools: Option<string>,
    zMovementOnly: bool,
    zCellrelaxOnly: bool,
    strainMagnitudes: Option<string>,
    useAllStrains: bool,
    keepWorkdir: bool,
    dryrun: bool,
    submitDebug: bool,
    runDebug: bool,
    kptperRecipang: string,
    nume2bndRatio: string)

  /** What the database and the computer supply: the base parameters, the
      UPF text of each element's pseudopotential and the MPI processes per
      machine. */
  datatype Environment = Environment(baseParameters: Params, pseudos: map<string, seq<string>>, mpiprocsPerMachine: int)

  // ---------------------------------------------------------------------------
  // Resources
  // ---------------------------------------------------------------------------

  /** The quadratic node guess from the electron count. */
  function NodeGuess(nelec: int): real {
    0.0000015 * (nelec * nelec) as real + 0.0057 * nelec as real + 2.0
  }

  /** `get_nummachines`: the guess rounded to an even count of at least 2,
      Python 3 rounding. */
  function NumMachines(nelec: int): (r: int)
    ensures r >= 2 && r % 2 == 0
    ensures nelec >= 0 ==> -1.0 <= NodeGuess(nelec) - r as real <= 1.0
  {
    EvenMachines(NodeGuess(nelec), true)
  }

  /** More electrons never ask for fewer machines. */
  lemma NumMachinesMonotone(a: int, b: int)
    requires 0 <= a <= b
    ensures NumMachines(a) <= NumMachines(b)
  {
    assert a * a <= b * b by {
      assert a * a <= a * b <= b * b;
    }
    EvenMachinesMonotone(NodeGuess(a), NodeGuess(b), true);
  }

  lemma NumMachinesExamples()
    ensures NumMachines(0) == 2
    ensures NumMachines(1000) == 10
  {
    assert NodeGuess(1000) == 9.2;
  }

  /** `get_nk`: one pool on a computer with one process per machine,
      otherwise the pool guess, which must divide the processor count. */
  function GetNk(machines: int, ppm: int): (r: Result<int>)
    ensures ppm == 1 ==> r == Ok(1)
    ensures ppm != 1 ==> (r.Ok? <==> EvenlyDivisible(NkGuess(machines), machines * ppm))
    ensures r.Ok? && ppm != 1 ==> r.value >= 4 && (machines * ppm) % r.value == 0
    ensures r.Ok? && ppm != 1 ==> r.value == NkGuess(machines)
  {
    if ppm == 1 then Ok(1)
    else
      var nk := NkGuess(machines);
      if EvenlyDivisible(nk, machines * ppm) then Ok(nk)
      else Err("Error number processors is not divisible by nk")
  }

  /** The machine counts the launcher computes itself always admit the pool
      guess when they are at least 8. */
  lemma GetNkOfLargeCount(nelec: int, ppm: int)
    requires NumMachines(nelec) >= 8
    ensures GetNk(NumMachines(nelec), ppm).Ok?
  {
    if ppm != 1 {
      NkGuessDividesLargeEven(NumMachines(nelec), ppm);
    }
  }

  // ---------------------------------------------------------------------------
  // Parameters
  // ---------------------------------------------------------------------------

  /** The cell namelist given on the command line: the base's CELL if it has
      one, otherwise a new one when a flag needs it; the pressure threshold
      and the z-only cell freedom are added to it. */
  function CellPress(base: Params, pressConvThr: Option<real>, zCellrelaxOnly: bool): (r: Params)
    ensures r.Keys <= {"CELL"}
    ensures "CELL" in r <==> "CELL" in base || pressConvThr.Some? || zCellrelaxOnly
    ensures "CELL" in r ==> forall k :: k in r["CELL"] && k != "press_conv_thr" && k != "cell_dofree" ==>
      "CELL" in base && k in base["CELL"] && r["CELL"][k] == base["CELL"][k]
    ensures "CELL" in r && pressConvThr.Some? ==>
      "press_conv_thr" in r["CELL"] && r["CELL"]["press_conv_thr"] == Real(pressConvThr.value)
    ensures "CELL" in r && zCellrelaxOnly ==> "cell_dofree" in r["CELL"] && r["CELL"]["cell_dofree"] == Text("z")
    ensures "CELL" in r && pressConvThr.None? ==>
      ("press_conv_thr" in r["CELL"] <==> "CELL" in base && "press_conv_thr" in base["CELL"])
  {
    var cell: Option<Namelist> :=
      if "CELL" in base then Some(base["CELL"])
      else if pressConvThr.Some? || zCellrelaxOnly then Some(map[])
      else None;
    match cell
    case None => map[]
    case Some(c) =>
      var c1 := if pressConvThr.Some? then c["press_conv_thr" := Real(pressConvThr.value)] else c;
      var c2 := if zCellrelaxOnly then c1["cell_dofree" := Text("z")] else c1;
      map["CELL" := c2]
  }

  /** `wf_setupparams`: bands set on the base parameters, then the cell
      namelist laid over them. */
  function SetupParams(base: Params, nelec: int, ratio: real, cellpress: Params): (r: Result<Params>)
    ensures r.Ok? <==> "SYSTEM" in base
    ensures r.Ok? ==> r.value.Keys == base.Keys + cellpress.Keys
    ensures r.Ok? && "SYSTEM" !in cellpress ==>
      "nbnd" in r.value["SYSTEM"] && r.value["SYSTEM"]["nbnd"] == Real(BandCount(nelec, ratio))
    ensures r.Ok? ==> forall k :: k in cellpress ==> r.value[k] == cellpress[k]
    ensures r.Ok? ==> forall k :: k in base && k !in cellpress && k != "SYSTEM" ==> r.value[k] == base[k]
  {
    var withBands :- SetBands(base, BandCount(nelec, ratio));
    Ok(withBands + cellpress)
  }

  /** `wf_delete_vccards`: the parameters without their CELL namelist. */
  function DeleteVcCards(p: Params): (r: Params)
    ensures "CELL" !in r
    ensures forall k :: k in p && k != "CELL" <==> k in r
    ensures forall k :: k in r ==> r[k] == p[k]
  {
    p - {"CELL"}
  }

  lemma DeleteVcCardsIdempotent(p: Params)
    ensures DeleteVcCards(DeleteVcCards(p)) == DeleteVcCards(p)
  {
  }

  /** Parameters without a CELL namelist are left as they are. */
  lemma DeleteVcCardsWithoutCell(p: Params)
    requires "CELL" !in p
    ensures DeleteVcCards(p) == p
  {
  }

  // ---------------------------------------------------------------------------
  // Inputs
  // ---------------------------------------------------------------------------

  datatype Settings = Settings(cmdline: seq<string>, noBands: bool, fixedCoords: Option<seq<seq<bool>>>)

  datatype PwInputs = PwInputs(parameters: Params, options: JobOptions, settings: Settings)

  datatype RelaxInputs = RelaxInputs(base: PwInputs, relaxationScheme: string, finalScf: bool, metaConvergence: bool)

  datatype WorkflowInputs =
    | PwBaseInputs(pw: PwInputs, structure: Structure, cleanWorkdir: bool)
    | PwRelaxInputs(relax: RelaxInputs, structure: Structure, cleanWorkdir: bool)
    | ElasticInputs(initialRelax: RelaxInputs, elasticRelax: RelaxInputs,
                    elastic: ElasticWorkChain.Inputs, cleanWorkdir: bool)

  /** The `pw` namespace the relax namespaces start from. */
  function RelaxNamespace(pw: PwInputs, scheme: string): RelaxInputs {
    RelaxInputs(pw, scheme, false, false)
  }

  /** The two relax namespaces of the elastic branch as the code builds them.
      Both copy the outer dictionary only, so both hold the one `pw`
      dictionary: the cell-free parameters written for the fixed-cell relax
      are overwritten by the full parameters written for the initial
      vc-relax. */
  function ElasticNamespacesAsWritten(pw: PwInputs, parameters: Params): (r: (RelaxInputs, RelaxInputs))
    ensures r.0.base == r.1.base
    ensures r.1.base.parameters == parameters
  {
    var shared := pw.(parameters := DeleteVcCards(parameters));
    var shared' := shared.(parameters := parameters);
    (RelaxNamespace(shared', "vc-relax"), RelaxNamespace(shared', "relax"))
  }

  /** With a CELL namelist in the parameters, the fixed-cell relaxations of
      the deformed structures receive it. */
  lemma ElasticRelaxGetsCellAsWritten(pw: PwInputs, parameters: Params)
    requires "CELL" in parameters
    ensures "CELL" in ElasticNamespacesAsWritten(pw, parameters).1.base.parameters
  {
  }

  /** The two relax namespaces as intended: independent copies, the initial
      vc-relax with the full parameters and the fixed-cell relax without the
      CELL namelist. */
  function ElasticNamespaces(pw: PwInputs, parameters: Params): (r: (RelaxInputs, RelaxInputs))
    ensures r.0.relaxationScheme == "vc-relax" && r.1.relaxationScheme == "relax"
    ensures r.0.base.parameters == parameters
    ensures "CELL" !in r.1.base.parameters
    ensures forall k :: k in parameters && k != "CELL" ==> k in r.1.base.parameters && r.1.base.parameters[k] == parameters[k]
    ensures r.0.base.settings == r.1.base.settings == pw.settings
    ensures r.0.base.options == r.1.base.options == pw.options
  {
    (RelaxNamespace(pw.(parameters := parameters), "vc-relax"),
     RelaxNamespace(pw.(parameters := DeleteVcCards(parameters)), "relax"))
  }

  /** The two agree on the initial relax and differ on the second exactly
      when the parameters hold a CELL namelist. */
  lemma ElasticNamespacesCompared(pw: PwInputs, parameters: Params)
    ensures ElasticNamespacesAsWritten(pw, parameters).0 == ElasticNamespaces(pw, parameters).0
    ensures ElasticNamespacesAsWritten(pw, parameters).1 == ElasticNamespaces(pw, parameters).1
      <==> "CELL" !in parameters
  {
    if "CELL" in parameters {
      assert "CELL" !in ElasticNamespaces(pw, parameters).1.base.parameters;
    } else {
      DeleteVcCardsWithoutCell(parameters);
    }
  }

  /** `[float(x) for x in s.split(',')]`. */
  function ParseStrains(s: string): (r: Option<seq<real>>)
    ensures r.Some? ==> |r.value| == |Split(s, ',')|
  {
    ParseReals(Split(s, ','))
  }

  function ParseReals(fields: seq<string>): (r: Option<seq<real>>)
    ensures r.Some? <==> forall i :: 0 <= i < |fields| ==> ParseFloat(fields[i]).Some?
    ensures r.Some? ==> |r.value| == |fields| && forall i :: 0 <= i < |fields| ==> r.value[i] == ParseFloat(fields[i]).value
  {
    if forall i :: 0 <= i < |fields| ==> ParseFloat(fields[i]).Some? then
      Some(seq(|fields|, i requires 0 <= i < |fields| => ParseFloat(fields[i]).value))
    else None
  }

  /** The elastic workchain's own inputs: its declared defaults unless the
      strains are given or all strains are asked for. */
  function ElasticOwnInputs(s: Structure, o: Options): (r: Result<ElasticWorkChain.Inputs>)
    ensures o.strainMagnitudes.None? || o.strainMagnitudes.value == [] ==>
      r.Ok? && r.value.strainMagnitudes == ElasticWorkChain.DefaultInputs(s).strainMagnitudes
    ensures r.Ok? ==> r.value.structure == s && r.value.symmetricStrainsOnly == !o.useAllStrains
  {
    var defaults := ElasticWorkChain.DefaultInputs(s);
    var strains :-
      if o.strainMagnitudes.None? || o.strainMagnitudes.value == [] then Ok(defaults.strainMagnitudes)
      else match ParseStrains(o.strainMagnitudes.value)
           case None => Err("ValueError: could not convert string to float")
           case Some(xs) => Ok(xs);
    Ok(defaults.(symmetricStrainsOnly := !o.useAllStrains, strainMagnitudes := strains))
  }

  /** The inputs for the chosen calculation. Scf and fixed-cell relax runs get
      the parameters without CELL, vc-relax runs the full ones. */
  function BuildInputs(s: Structure, o: Options, parameters: Params, options: JobOptions, settings: Settings): (r: Result<WorkflowInputs>)
    ensures o.calcMethod != Elastic ==> r.Ok?
    ensures r.Ok? ==> (o.calcMethod == Scf <==> r.value.PwBaseInputs?)
    ensures r.Ok? ==> (o.calcMethod in {Relax, VcRelax} <==> r.value.PwRelaxInputs?)
    ensures r.Ok? && o.calcMethod == Scf ==> "CELL" !in r.value.pw.parameters
    ensures r.Ok? && o.calcMethod == Relax ==> "CELL" !in r.value.relax.base.parameters && r.value.relax.relaxationScheme == "relax"
    ensures r.Ok? && o.calcMethod == VcRelax ==> r.value.relax.base.parameters == parameters && r.value.relax.relaxationScheme == "vc-relax"
    ensures r.Ok? && o.calcMethod == Elastic ==> "CELL" !in r.value.elasticRelax.base.parameters
  {
    var pw := PwInputs(DeleteVcCards(parameters), options, settings);
    var clean := !o.keepWorkdir;
    match o.calcMethod
    case Scf => Ok(PwBaseInputs(pw, s, clean))
    case Relax => Ok(PwRelaxInputs(RelaxNamespace(pw.(parameters := DeleteVcCards(parameters)), "relax"), s, clean))
    case VcRelax => Ok(PwRelaxInputs(RelaxNamespace(pw.(parameters := parameters), "vc-relax"), s, clean))
    case Elastic =>
      var own :- ElasticOwnInputs(s, o);
      var (initial, relax) := ElasticNamespaces(pw, parameters);
      Ok(ElasticInputs(initial, relax, own, clean))
  }

  // ---------------------------------------------------------------------------
  // One structure
  // ---------------------------------------------------------------------------

  datatype Decision =
    | TooManyAtoms
    | TooManyNodes(requested: int)
    | Prepared(inputs: WorkflowInputs, options: JobOptions)

  function Symbols(s: Structure): seq<string> { Atoms.Symbols(s.atoms) }

  /** Python truthiness of an optional text option: given and not empty. */
  predicate Given(x: Option<string>) {
    x.Some? && x.value != ""
  }

  /** `float(x)` of a truthy option, nothing for a falsy one. */
  function GivenReal(x: Option<string>): (r: Result<Option<real>>)
    ensures r.Ok? <==> !Given(x) || ParseFloat(x.value).Some?
    ensures r.Ok? ==> (r.value.Some? <==> Given(x))
    ensures r.Ok? && Given(x) ==> r.value.value == ParseFloat(x.value).value
  {
    if !Given(x) then Ok(None)
    else match ParseFloat(x.value)
      case None => Err("ValueError: could not convert string to float: " + x.value)
      case Some(v) => Ok(Some(v))
  }

  /** `int(x)` of a truthy option, nothing for a falsy one. */
  function GivenInt(x: Option<string>): (r: Result<Option<int>>)
    ensures r.Ok? <==> !Given(x) || ParseInt(x.value).Some?
    ensures r.Ok? ==> (r.value.Some? <==> Given(x))
    ensures r.Ok? && Given(x) ==> r.value.value == ParseInt(x.value).value
  {
    if !Given(x) then Ok(None)
    else match ParseInt(x.value)
      case None => Err("ValueError: invalid literal for int() with base 10: " + x.value)
      case Some(v) => Ok(Some(v))
  }

  /** The methods that relax the structure and get four more machines. */
  predicate Relaxes(m: CalcMethod) {
    m == Relax || m == VcRelax
  }

  /** The machine count before the debug override: the given node count, or
      the guess from the electron count with four more for relaxations. */
  function RequestedMachines(m: CalcMethod, nodes: Option<int>, nelec: int): (r: int)
    ensures nodes.Some? ==> r == nodes.value
    ensures nodes.None? && !Relaxes(m) ==> r == NumMachines(nelec)
    ensures nodes.None? && Relaxes(m) ==> r == NumMachines(nelec) + 4
  {
    if nodes.Some? then nodes.value
    else NumMachines(nelec) + (if Relaxes(m) then 4 else 0)
  }

  /** A relaxation asks for four machines more than an scf or elastic run on
      the same structure, and never fewer than six. */
  lemma RelaxAsksForFourMore(m: CalcMethod, nelec: int)
    requires Relaxes(m)
    ensures RequestedMachines(m, None, nelec) == RequestedMachines(Scf, None, nelec) + 4
    ensures RequestedMachines(Scf, None, nelec) == RequestedMachines(Elastic, None, nelec)
    ensures RequestedMachines(m, None, nelec) >= 6
  {
  }

  function JobOptionsFor(o: Options, memoryGb: Option<int>, machines: int): (r: JobOptions)
    ensures o.submitDebug ==> r.numMachines == DebugMachines && r.queueName == Some("debug")
    ensures !o.submitDebug ==> r.numMachines == machines && r.maxWallclockSeconds == o.maxWallclockSeconds
    ensures r.maxMemoryKb == if memoryGb.Some? then Some(memoryGb.value * 1024 * 1024) else None
  {
    var base := JobOptions(o.maxWallclockSeconds, machines,
                           if memoryGb.Some? then Some(memoryGb.value * 1024 * 1024) else None, None);
    if o.submitDebug then DebugOptions(base) else base
  }

  /** The settings node: the pool count, then `-ndiag` when the option is
      truthy, and z-only movement when asked for. */
  function SettingsFor(o: Options, nk: string, atoms: nat): (r: Settings)
    ensures |r.cmdline| == if Given(o.ndiag) then 4 else 2
    ensures r.cmdline[..2] == ["-nk", nk] && r.noBands
    ensures Given(o.ndiag) ==> r.cmdline[2..] == ["-ndiag", o.ndiag.value]
    ensures o.zMovementOnly <==> r.fixedCoords.Some?
    ensures r.fixedCoords.Some? ==> |r.fixedCoords.value| == atoms
    ensures r.fixedCoords.Some? ==> forall i :: 0 <= i < atoms ==> r.fixedCoords.value[i] == [true, true, false]
  {
    Settings(["-nk", nk] + (if Given(o.ndiag) then ["-ndiag", o.ndiag.value] else []),
             true,
             if o.zMovementOnly then Some(seq(atoms, i => [true, true, false])) else None)
  }

  /** The machine count the launcher guesses for a structure whose
      electrons can be counted: the quadratic guess, four more for
      relaxations. */
  function AutoMachines(s: Structure, o: Options, env: Environment): int
    requires NumElectrons(Symbols(s), env.pseudos).Ok?
  {
    RequestedMachines(o.calcMethod, None, NumElectrons(Symbols(s), env.pseudos).value)
  }

  /** The parameters of one structure, read in the order the script reads
      them: the pressure threshold, the band ratio, the electron count and
      the SYSTEM namelist. */
  function Parameters(s: Structure, o: Options, env: Environment): (r: Result<Params>)
    ensures GivenReal(o.pressConvThr).Err? ==> r == Err(GivenReal(o.pressConvThr).reason)
    ensures GivenReal(o.pressConvThr).Ok? && FloatNode(o.nume2bndRatio).Err? ==> r == Err(FloatNode(o.nume2bndRatio).reason)
    ensures r.Ok? <==>
      && GivenReal(o.pressConvThr).Ok? && FloatNode(o.nume2bndRatio).Ok?
      && NumElectrons(Symbols(s), env.pseudos).Ok? && "SYSTEM" in env.baseParameters
    ensures r.Ok? ==> r.value == SetupParams(env.baseParameters, NumElectrons(Symbols(s), env.pseudos).value,
      FloatNode(o.nume2bndRatio).value, CellPress(env.baseParameters, GivenReal(o.pressConvThr).value, o.zCellrelaxOnly)).value
  {
    var press :- GivenReal(o.pressConvThr);
    var cellpress := CellPress(env.baseParameters, press, o.zCellrelaxOnly);
    var ratio :- FloatNode(o.nume2bndRatio);
    var nelec :- NumElectrons(Symbols(s), env.pseudos);
    SetupParams(env.baseParameters, nelec, ratio, cellpress)
  }

  /** The pool count on the command line: the `--npools` text when it is
      truthy, otherwise `get_nk` of the machine count. */
  function Pools(o: Options, machines: int, ppm: int): (r: Result<string>)
    ensures Given(o.npools) ==> r == Ok(o.npools.value)
    ensures !Given(o.npools) ==> (r.Ok? <==> GetNk(machines, ppm).Ok?)
    ensures !Given(o.npools) && r.Ok? ==> GetNk(machines, ppm).value >= 1 && r.value == NatToString(GetNk(machines, ppm).value)
  {
    if Given(o.npools) then Ok(o.npools.value)
    else match GetNk(machines, ppm)
         case Err(e) => Err(e)
         case Ok(n) => Ok(NatToString(n))
  }

  /** Everything the loop body does for one structure before submitting:
      the conventional-structure option always fails, too large structures
      are skipped, the parameters are set up, the k-point density and the
      node count are read, too large node requests are skipped, then the
      memory and the pool count are read and the inputs are built. */
  function Prepare(s: Structure, o: Options, env: Environment): (r: Result<Decision>)
    ensures o.useConventionalStructure ==> r.Err?
    ensures !o.useConventionalStructure && |s.atoms| > o.maxAtomsSubmit ==> r == Ok(TooManyAtoms)
    ensures !o.useConventionalStructure && |s.atoms| <= o.maxAtomsSubmit && Parameters(s, o, env).Err? ==>
      r == Err(Parameters(s, o, env).reason)
    ensures !o.useConventionalStructure && |s.atoms| <= o.maxAtomsSubmit && Parameters(s, o, env).Ok? && IntNode(o.kptperRecipang).Err? ==>
      r == Err(IntNode(o.kptperRecipang).reason)
    ensures r.Ok? && r.value.Prepared? ==> |s.atoms| <= o.maxAtomsSubmit
    ensures r.Ok? && !r.value.TooManyAtoms? ==>
      && Parameters(s, o, env).Ok? && NumElectrons(Symbols(s), env.pseudos).Ok?
      && IntNode(o.kptperRecipang).Ok? && GivenInt(o.numberOfNodes).Ok?
    ensures r.Ok? && !r.value.TooManyAtoms? && !Given(o.numberOfNodes) ==>
      (r.value.TooManyNodes? <==> AutoMachines(s, o, env) > o.maxNodesSubmit)
    ensures r.Ok? && r.value.TooManyNodes? ==>
      !Given(o.numberOfNodes) && r.value.requested == AutoMachines(s, o, env) > o.maxNodesSubmit
    ensures r.Ok? && r.value.Prepared? ==> GivenInt(o.memoryGb).Ok?
    ensures r.Ok? && r.value.Prepared? ==>
      r.value.options.maxMemoryKb == if Given(o.memoryGb) then Some(ParseInt(o.memoryGb.value).value * 1024 * 1024) else None
    ensures r.Ok? && r.value.Prepared? && !Given(o.numberOfNodes) && !o.submitDebug ==>
      r.value.options.numMachines == AutoMachines(s, o, env) <= o.maxNodesSubmit
    ensures r.Ok? && r.value.Prepared? && Given(o.numberOfNodes) && !o.submitDebug ==>
      r.value.options.numMachines == ParseInt(o.numberOfNodes.value).value
    ensures r.Ok? && r.value.Prepared? && o.submitDebug ==> r.value.options.numMachines == DebugMachines
    ensures r.Ok? && r.value.Prepared? ==>
      && Pools(o, r.value.options.numMachines, env.mpiprocsPerMachine).Ok?
      && BuildInputs(s, o, Parameters(s, o, env).value, r.value.options,
           SettingsFor(o, Pools(o, r.value.options.numMachines, env.mpiprocsPerMachine).value, |s.atoms|)).Ok?
      && r.value.inputs == BuildInputs(s, o, Parameters(s, o, env).value, r.value.options,
           SettingsFor(o, Pools(o, r.value.options.numMachines, env.mpiprocsPerMachine).value, |s.atoms|)).value
  {
    if o.useConventionalStructure then Err("THIS SHOULD BE A WORKFUNCTION!")
    else if |s.atoms| > o.maxAtomsSubmit then Ok(TooManyAtoms)
    else
      var parameters :- Parameters(s, o, env);
      var _ :- IntNode(o.kptperRecipang);
      var nodes :- GivenInt(o.numberOfNodes);
      var requested := RequestedMachines(o.calcMethod, nodes, NumElectrons(Symbols(s), env.pseudos).value);
      if nodes.None? && requested > o.maxNodesSubmit then Ok(TooManyNodes(requested))
      else
        var memory :- GivenInt(o.memoryGb);
        var options := JobOptionsFor(o, memory, requested);
        var nk :- Pools(o, options.numMachines, env.mpiprocsPerMachine);
        var settings := SettingsFor(o, nk, |s.atoms|);
        var inputs :- BuildInputs(s, o, parameters, options, settings);
        Ok(Prepared(inputs, options))
  }

  /** With the node count left to the guess and no debug queue, a relaxation
      asks for four machines more than the scf run of the same structure
      and the same options. */
  lemma RelaxPreparesFourMore(s: Structure, o: Options, env: Environment)
    requires Relaxes(o.calcMethod) && !Given(o.numberOfNodes) && !o.submitDebug
    requires Prepare(s, o, env).Ok? && Prepare(s, o, env).value.Prepared?
    requires Prepare(s, o.(calcMethod := Scf), env).Ok? && Prepare(s, o.(calcMethod := Scf), env).value.Prepared?
    ensures Prepare(s, o, env).value.options.numMachines ==
      Prepare(s, o.(calcMethod := Scf), env).value.options.numMachines + 4
  {
    var scf := o.(calcMethod := Scf);
    assert NumElectrons(Symbols(s), env.pseudos).Ok?;
    RelaxAsksForFourMore(o.calcMethod, NumElectrons(Symbols(s), env.pseudos).value);
  }

  // ---------------------------------------------------------------------------
  // The submission loop
  // ---------------------------------------------------------------------------

  datatype Mode = Ran | Submitted

  /** A launched workchain: the structure's position in the list, how it was
      started and its inputs; `grouped` says whether it joins the workchain
      group. */
  datatype Launched = Launched(index: nat, mode: Mode, inputs: WorkflowInputs, grouped: bool)

  /** The loop body's decision for every structure, in order. */
  function Decisions(structures: seq<Structure>, o: Options, env: Environment): (ds: seq<Result<Decision>>)
    ensures |ds| == |structures|
    ensures forall i :: 0 <= i < |structures| ==> ds[i] == Prepare(structures[i], o, env)
  {
    seq(|structures|, i requires 0 <= i < |structures| => Prepare(structures[i], o, env))
  }

  /** The submission loop from position `from` over the decisions `ds`: a
      dry run starts nothing, `--run_debug` runs the first prepared
      structure and stops, `--submit_debug` submits it and stops, otherwise
      every prepared structure is submitted and grouped. A decision that
      failed stops the loop when it is reached. */
  function LaunchFrom(ds: seq<Result<Decision>>, o: Options, from: nat): (r: Result<seq<Launched>>)
    requires from <= |ds|
    ensures r.Ok? ==> forall k :: 0 <= k < |r.value| ==>
      && from <= r.value[k].index < |ds|
      && ds[r.value[k].index].Ok? && ds[r.value[k].index].value.Prepared?
      && r.value[k].inputs == ds[r.value[k].index].value.inputs
    ensures r.Ok? ==> forall k, j :: 0 <= k < j < |r.value| ==> r.value[k].index < r.value[j].index
    decreases |ds| - from
  {
    if from == |ds| then Ok([])
    else
      var d :- ds[from];
      if !d.Prepared? || o.dryrun then LaunchFrom(ds, o, from + 1)
      else if o.runDebug then Ok([Launched(from, Ran, d.inputs, false)])
      else if o.submitDebug then Ok([Launched(from, Submitted, d.inputs, false)])
      else
        var rest :- LaunchFrom(ds, o, from + 1);
        Ok([Launched(from, Submitted, d.inputs, true)] + rest)
  }

  /** `launch` over the structures without a workchain in the target group,
      from position `from`: each launched workchain belongs to a structure
      that is small enough and prepares, carries that structure's inputs,
      and the workchains follow the structures' order. */
  function Launch(structures: seq<Structure>, o: Options, env: Environment, from: nat): (r: Result<seq<Launched>>)
    requires from <= |structures|
    ensures r.Ok? ==> forall k :: 0 <= k < |r.value| ==>
      && from <= r.value[k].index < |structures|
      && |structures[r.value[k].index].atoms| <= o.maxAtomsSubmit
      && Prepare(structures[r.value[k].index], o, env).Ok?
      && Prepare(structures[r.value[k].index], o, env).value.Prepared?
      && r.value[k].inputs == Prepare(structures[r.value[k].index], o, env).value.inputs
    ensures r.Ok? ==> forall k, j :: 0 <= k < j < |r.value| ==> r.value[k].index < r.value[j].index
  {
    LaunchFrom(Decisions(structures, o, env), o, from)
  }

  /** A dry run launches nothing. */
  lemma {:induction false} DryRunLaunchesNothing(ds: seq<Result<Decision>>, o: Options, from: nat)
    requires from <= |ds| && o.dryrun
    ensures LaunchFrom(ds, o, from).Ok? ==> LaunchFrom(ds, o, from).value == []
    decreases |ds| - from
  {
    if from < |ds| {
      DryRunLaunchesNothing(ds, o, from + 1);
    }
  }

  /** In either debug mode at most one workchain starts and none is grouped;
      otherwise every launched workchain is submitted and grouped. */
  lemma {:induction false} DebugLaunchesAtMostOne(ds: seq<Result<Decision>>, o: Options, from: nat)
    requires from <= |ds|
    ensures var r := LaunchFrom(ds, o, from);
      r.Ok? && (o.runDebug || o.submitDebug) ==> |r.value| <= 1 && forall k :: 0 <= k < |r.value| ==> !r.value[k].grouped
    ensures var r := LaunchFrom(ds, o, from);
      r.Ok? && !o.runDebug && !o.submitDebug ==> forall k :: 0 <= k < |r.value| ==> r.value[k].grouped && r.value[k].mode == Submitted
    decreases |ds| - from
  {
    if from < |ds| {
      DebugLaunchesAtMostOne(ds, o, from + 1);
      var r := LaunchFrom(ds, o, from);
      if r.Ok? && ds[from].value.Prepared? && !o.dryrun && !o.runDebug && !o.submitDebug {
        var rest := LaunchFrom(ds, o, from + 1).value;
        assert r.value == [Launched(from, Submitted, ds[from].value.inputs, true)] + rest;
      }
    }
  }

  /** Without debug or dry run, every structure that prepares is launched. */
  lemma {:induction false} EveryPreparedIsLaunched(ds: seq<Result<Decision>>, o: Options, from: nat, i: nat)
    requires from <= i < |ds|
    requires !o.dryrun && !o.runDebug && !o.submitDebug
    requires LaunchFrom(ds, o, from).Ok?
    requires ds[i].Ok? && ds[i].value.Prepared?
    ensures exists k :: 0 <= k < |LaunchFrom(ds, o, from).value| && LaunchFrom(ds, o, from).value[k].index == i
    decreases i - from
  {
    var r := LaunchFrom(ds, o, from).value;
    var d := ds[from].value;
    if d.Prepared? {
      var rest := LaunchFrom(ds, o, from + 1);
      assert rest.Ok? && r == [Launched(from, Submitted, d.inputs, true)] + rest.value;
      if i == from {
        assert r[0].index == i;
      } else {
        EveryPreparedIsLaunched(ds, o, from + 1, i);
        var k :| 0 <= k < |rest.value| && rest.value[k].index == i;
        assert r[k + 1] == rest.value[k];
      }
    } else {
      assert r == LaunchFrom(ds, o, from + 1).value;
      EveryPreparedIsLaunched(ds, o, from + 1, i);
    }
  }
}
