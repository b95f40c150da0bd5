/**
 The hard-coded scf launcher: a plain pw.x base workchain for every
 structure of a group not yet calculated, with the band count, machine count
 and pool count of the earlier launcher and its settings fixed in the
 script. The machine count, the pool count and the atom count are the ones
 of the earlier launcher, whose code this script repeats.
 */
module ScfLauncher {
  import opened Common
  import opened Atoms
  import opened LaunchCommon
  import LegacyLauncher

  /** The values the script fixes instead of reading a command line. */
  datatype Config = Config(nume2bndRatio: real, runDebug: bool, maxWallclockSeconds: int)

  /** Band ratio 0.75, no debug run, six hours of wall-clock time. */
  const Hardcoded: Config := Config(0.75, false, 6 * 60 * 60)

  /** The environment: base parameters, the pseudopotential file of every
      element, and the processes per machine of the code's computer. */
  datatype Environment = Environment(baseParameters: Params, pseudos: map<string, seq<string>>, mpiprocsPerMachine: int)

  /** The inputs of one base workchain. */
  datatype ScfInputs = ScfInputs(
    structure: Structure,
    parameters: Params,
    options: JobOptions,
    cmdline: seq<string>)

  /** The job options before the pool check: the guessed machines and the
      configured wall-clock time, or the debug queue. */
  function ScfJobOptions(n: LegacyLauncher.StructureNode, c: Config): (r: Result<JobOptions>)
    ensures r.Ok? <==> LegacyLauncher.AtomCount(n).Ok?
    ensures r.Ok? && !c.runDebug ==>
      r.value == JobOptions(c.maxWallclockSeconds, LegacyLauncher.NumMachines(LegacyLauncher.AtomCount(n).value), None, None)
    ensures r.Ok? && c.runDebug ==>
      r.value.numMachines == DebugMachines && r.value.maxWallclockSeconds == DebugWallclockSeconds && r.value.queueName == Some("debug")
    ensures r.Ok? ==> r.value.numMachines >= 2 && r.value.numMachines % 2 == 0
  {
    var atoms :- LegacyLauncher.AtomCount(n);
    var base := JobOptions(c.maxWallclockSeconds, LegacyLauncher.NumMachines(atoms), None, None);
    Ok(if c.runDebug then DebugOptions(base) else base)
  }

  /** The loop body for one structure: parameters with the band count, job
      options and the `-nk` pool setting. */
  function Prepare(n: LegacyLauncher.StructureNode, c: Config, env: Environment): (r: Result<ScfInputs>)
    ensures r.Ok? <==>
      && NumElectrons(Symbols(n.structure.atoms), env.pseudos).Ok?
      && "SYSTEM" in env.baseParameters
      && ScfJobOptions(n, c).Ok?
      && LegacyLauncher.GetNk(ScfJobOptions(n, c).value.numMachines, env.mpiprocsPerMachine).Ok?
    ensures r.Ok? ==> r.value.structure == n.structure
    ensures r.Ok? ==>
      && r.value.parameters == SetBands(env.baseParameters,
           BandCount(NumElectrons(Symbols(n.structure.atoms), env.pseudos).value, c.nume2bndRatio)).value
      && r.value.options == ScfJobOptions(n, c).value
    ensures r.Ok? ==> (&& |r.value.cmdline| == 2
                       && r.value.cmdline[0] == "-nk"
                       && r.value.cmdline[1] == NatToString(NkGuess(r.value.options.numMachines)))
  {
    var nelec :- NumElectrons(Symbols(n.structure.atoms), env.pseudos);
    var parameters :- SetBands(env.baseParameters, BandCount(nelec, c.nume2bndRatio));
    var options :- ScfJobOptions(n, c);
    var nk :- LegacyLauncher.GetNk(options.numMachines, env.mpiprocsPerMachine);
    Ok(ScfInputs(n.structure, parameters, options, ["-nk", NatToString(nk)]))
  }

  /** `launch`: every uncalculated structure is submitted and grouped in
      order, or, in debug mode, only the first; the first failing structure
      stops the script. */
  function Launch(nodes: seq<LegacyLauncher.StructureNode>, c: Config, env: Environment): (r: Result<seq<LegacyLauncher.Launched<ScfInputs>>>)
    ensures r.Ok? && !c.runDebug ==> |r.value| == |nodes|
    ensures r.Ok? && !c.runDebug ==> forall k :: 0 <= k < |r.value| ==> r.value[k].index == k && r.value[k].grouped
    ensures r.Ok? && c.runDebug ==> |r.value| <= 1
    ensures r.Ok? && c.runDebug ==> forall k :: 0 <= k < |r.value| ==> r.value[k].index == 0 && !r.value[k].grouped
    ensures r.Ok? ==> forall k :: 0 <= k < |r.value| ==>
      r.value[k].index < |nodes| && Prepare(nodes[r.value[k].index], c, env) == Ok(r.value[k].inputs)
  {
    LegacyLauncher.LaunchFrom(Prepared(nodes, c, env), c.runDebug, 0)
  }

  /** The loop body applied to every structure, in order. */
  function Prepared(nodes: seq<LegacyLauncher.StructureNode>, c: Config, env: Environment): (r: seq<Result<ScfInputs>>)
    ensures |r| == |nodes|
    ensures forall i :: 0 <= i < |nodes| ==> r[i] == Prepare(nodes[i], c, env)
  {
    seq(|nodes|, i requires 0 <= i < |nodes| => Prepare(nodes[i], c, env))
  }

  /** With the fixed settings, the launch succeeds exactly when every
      structure can be prepared, and then submits one workchain per
      structure. */
  lemma HardcodedLaunchesAll(nodes: seq<LegacyLauncher.StructureNode>, env: Environment)
    ensures Launch(nodes, Hardcoded, env).Ok? <==> forall i :: 0 <= i < |nodes| ==> Prepare(nodes[i], Hardcoded, env).Ok?
    ensures Launch(nodes, Hardcoded, env).Ok? ==> |Launch(nodes, Hardcoded, env).value| == |nodes|
  {
    var prepared := Prepared(nodes, Hardcoded, env);
    assert Launch(nodes, Hardcoded, env) == LegacyLauncher.LaunchFrom(prepared, false, 0);
    LegacyLauncher.LaunchFailsOnlyOnPrepare(prepared, 0);
  }

  /** In debug mode the pool count of the two debug machines is four, which
      divides the processes only when each machine runs an even number. */
  lemma DebugNeedsEvenProcesses(n: LegacyLauncher.StructureNode, c: Config, env: Environment)
    requires c.runDebug && ScfJobOptions(n, c).Ok?
    ensures LegacyLauncher.GetNk(ScfJobOptions(n, c).value.numMachines, env.mpiprocsPerMachine).Ok?
      <==> env.mpiprocsPerMachine % 2 == 0
  {
    var m := env.mpiprocsPerMachine;
    assert NkGuess(2) == 4;
    if m % 2 == 0 {
      assert 2 * m == 4 * (m / 2);
    } else {
      var q := (m - 1) / 2;
      assert 2 * m == 4 * q + 2;
      assert (4 * q + 2) % 4 == 2;
    }
  }
}
