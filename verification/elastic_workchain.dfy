/**
 The elastic-constant workchain: relax the conventional cell, deform it by a
 set of strains, relax every deformed cell, and fit an elastic tensor to the
 resulting stress/strain pairs, optionally expanded by the crystal's symmetry.

 pymatgen and spglib are the `Library` parameter; the relax sub-processes are
 the `Env` parameter, which says for each submission whether it finished and
 what it produced. The workchain's context is an immutable record threaded
 through the eight outline stages.
 */
module ElasticWorkChain {
  import opened Common
  import opened Atoms
  import opened Tensors

  /** ERROR_SUB_PROCESS_FAILED_RELAX. */
  const ErrorSubProcessFailedRelax: int := 401

  /** The unordered dict from a representative deformation to the symmetry
      operations that map it onto the deformations it stands for, listed in
      whatever order the dict yields its items. */
  type SymmetryMap = seq<(Matrix, seq<SymmOp>)>

  /** The library calls the workchain makes, uninterpreted. */
  datatype Library = Library(
    conventionalStandard: Structure -> Structure,
    deformationSet: (Structure, seq<real>) -> seq<Matrix>,
    symmetryReduce: (seq<Matrix>, Structure) -> SymmetryMap,
    applyToStructure: (Matrix, Structure) -> Structure,
    fromIndependentStrains: (seq<Matrix>, seq<Matrix>, Matrix) -> Tensor4)

  datatype Inputs = Inputs(structure: Structure, symmetricStrainsOnly: bool, strainMagnitudes: seq<real>)

  /** The declared defaults of the two optional inputs. */
  function DefaultInputs(s: Structure): (r: Inputs)
    ensures r.structure == s && r.symmetricStrainsOnly
    ensures r.strainMagnitudes == [-0.01, -0.005, 0.005, 0.01]
  {
    Inputs(s, true, [-0.01, -0.005, 0.005, 0.01])
  }

  /** What a finished PwRelaxWorkChain reports. */
  datatype RelaxOutcome = RelaxOutcome(finishedOk: bool, exitStatus: int, outputStructure: Structure, stress: Matrix)

  /** The initial relax, and the outcome of the i-th deformed relax submitted. */
  datatype Env = Env(initial: RelaxOutcome, deformed: nat -> RelaxOutcome)

  datatype Namespace = InitialRelax | ElasticRelax

  datatype Submission = Submission(namespace: Namespace, structure: Structure)

  datatype Stage =
    | GetConventionalStructure
    | RelaxConventionalStructure
    | GetRelaxedStructureStress
    | GetDeformedStructures
    | ComputeDeformedStructures
    | GatherComputedStresses
    | FitElasticTensor
    | SetOutputs

  const Outline: seq<Stage> := [
    GetConventionalStructure, RelaxConventionalStructure, GetRelaxedStructureStress,
    GetDeformedStructures, ComputeDeformedStructures, GatherComputedStresses,
    FitElasticTensor, SetOutputs]

  /** The workchain context. An empty `deformedRelaxes` is the context key that
      was never set, since it only comes into being with the first submission. */
  datatype Context = Context(
    conventional: Option<Structure>,
    initialRelax: Option<Submission>,
    groundState: Option<Structure>,
    groundStress: Option<Matrix>,
    deformations: seq<Matrix>,
    deformedStructures: seq<Structure>,
    strains: seq<Matrix>,
    deformedRelaxes: seq<Submission>,
    stresses: Option<seq<Matrix>>,
    symmStrains: Option<seq<Matrix>>,
    symmStresses: Option<seq<Matrix>>,
    elasticTensor: Option<Matrix>)

  const EmptyContext: Context :=
    Context(None, None, None, None, [], [], [], [], None, None, None, None)

  datatype Outputs = Outputs(
    groundStateStructure: Structure,
    strains: seq<Matrix>,
    stresses: seq<Matrix>,
    elasticTensor: Matrix,
    symmStrains: seq<Matrix>,
    symmStresses: seq<Matrix>,
    symmetryMapping: SymmetryMap)

  /** Running, finished with outputs, returned an exit code, or raised. */
  datatype Status = Running | Finished(outputs: Outputs) | Exited(code: int) | Excepted(reason: string)

  datatype Outcome = Outcome(status: Status, ctx: Context)

  datatype Execution = Execution(trace: seq<Stage>, status: Status, ctx: Context)

  // ---------------------------------------------------------------------------
  // Symmetry maps
  // ---------------------------------------------------------------------------

  function Keys(m: SymmetryMap): (r: seq<Matrix>)
    ensures |r| == |m|
    ensures forall i :: 0 <= i < |m| ==> r[i] == m[i].0
  {
    seq(|m|, i requires 0 <= i < |m| => m[i].0)
  }

  /** `m[key]`: the operations of the first entry with that key, or KeyError. */
  function Lookup(m: SymmetryMap, key: Matrix): (r: Option<seq<SymmOp>>)
    ensures r.Some? <==> key in Keys(m)
    ensures r.Some? ==> exists i :: 0 <= i < |m| && m[i] == (key, r.value)
    decreases |m|
  {
    if |m| == 0 then None
    else if m[0].0 == key then Some(m[0].1)
    else
      var r := Lookup(m[1..], key);
      assert Keys(m) == [m[0].0] + Keys(m[1..]);
      r
  }

  /** The operations for every deformation, in order; a missing key raises. */
  function LookupAll(m: SymmetryMap, keys: seq<Matrix>): (r: Result<seq<seq<SymmOp>>>)
    ensures r.Ok? <==> forall i :: 0 <= i < |keys| ==> keys[i] in Keys(m)
    ensures r.Ok? ==> |r.value| == |keys|
    ensures r.Ok? ==> forall i :: 0 <= i < |keys| ==> Lookup(m, keys[i]) == Some(r.value[i])
    decreases |keys|
  {
    if |keys| == 0 then Ok([])
    else
      match Lookup(m, keys[0])
      case None => Err("KeyError: deformation not in symmetry map")
      case Some(ops) =>
        var rest := LookupAll(m, keys[1..]);
        if rest.Err? then
          assert forall i :: 0 <= i < |keys| - 1 ==> keys[1..][i] == keys[i + 1];
          rest
        else
          Ok([ops] + rest.value)
  }

  // ---------------------------------------------------------------------------
  // Symmetry expansion
  // ---------------------------------------------------------------------------

  function TotalOps(opss: seq<seq<SymmOp>>): nat
    decreases |opss|
  {
    if |opss| == 0 then 0 else TotalOps(opss[..|opss| - 1]) + |opss[|opss| - 1]|
  }

  /** Where each appended image comes from: (deformation index, operation), in
      the order the double loop visits them. */
  function Origins(opss: seq<seq<SymmOp>>): (r: seq<(nat, SymmOp)>)
    ensures |r| == TotalOps(opss)
    ensures forall k :: 0 <= k < |r| ==> r[k].0 < |opss| && r[k].1 in opss[r[k].0]
    decreases |opss|
  {
    if |opss| == 0 then []
    else
      var n := |opss| - 1;
      var front := Origins(opss[..n]);
      var last := seq(|opss[n]|, j requires 0 <= j < |opss[n]| => (n, opss[n][j]));
      assert forall k :: 0 <= k < |front| ==> opss[..n][front[k].0] == opss[front[k].0];
      front + last
  }

  /** For every tensor i and every operation of deformation i, `ts[i].transform(op)`. */
  function Images(ts: seq<Matrix>, opss: seq<seq<SymmOp>>): (r: seq<Matrix>)
    requires |ts| == |opss|
    ensures |r| == |Origins(opss)|
    ensures forall k :: 0 <= k < |r| ==>
      Origins(opss)[k].0 < |ts| && r[k] == Transform(ts[Origins(opss)[k].0], Origins(opss)[k].1)
    decreases |ts|
  {
    if |ts| == 0 then []
    else
      var n := |ts| - 1;
      var front := Images(ts[..n], opss[..n]);
      var last := seq(|opss[n]|, j requires 0 <= j < |opss[n]| => Transform(ts[n], opss[n][j]));
      assert Origins(opss) == Origins(opss[..n])
        + seq(|opss[n]|, j requires 0 <= j < |opss[n]| => (n, opss[n][j]));
      front + last
  }

  /** The symmetry-equivalent list: the originals followed by their images. */
  function Expand(ts: seq<Matrix>, opss: seq<seq<SymmOp>>): seq<Matrix>
    requires |ts| == |opss|
  {
    ts + Images(ts, opss)
  }

  /** Shape of an expanded list: n originals, then one image per (i, op). */
  lemma ExpandShape(ts: seq<Matrix>, opss: seq<seq<SymmOp>>)
    requires |ts| == |opss|
    ensures |Expand(ts, opss)| == |ts| + TotalOps(opss)
    ensures Expand(ts, opss)[..|ts|] == ts
    ensures forall k :: 0 <= k < TotalOps(opss) ==>
      Expand(ts, opss)[|ts| + k] == Transform(ts[Origins(opss)[k].0], Origins(opss)[k].1)
  {
  }

  lemma {:induction false} TotalOpsOfEmpty(opss: seq<seq<SymmOp>>)
    requires forall i :: 0 <= i < |opss| ==> opss[i] == []
    ensures TotalOps(opss) == 0
    decreases |opss|
  {
    if |opss| > 0 {
      TotalOpsOfEmpty(opss[..|opss| - 1]);
    }
  }

  /** Without symmetry operations the expanded list is the original one. */
  lemma ExpandWithoutOps(ts: seq<Matrix>, opss: seq<seq<SymmOp>>)
    requires |ts| == |opss|
    requires forall i :: 0 <= i < |opss| ==> opss[i] == []
    ensures Expand(ts, opss) == ts
  {
    TotalOpsOfEmpty(opss);
  }

  /** Expanded strains and stresses stay paired: equal length, and every
      position holds the strain and the stress of the same deformation under the
      same operation. */
  lemma ExpandKeepsPairs(strains: seq<Matrix>, stresses: seq<Matrix>, opss: seq<seq<SymmOp>>)
    requires |strains| == |opss| && |stresses| == |opss|
    ensures |Expand(strains, opss)| == |Expand(stresses, opss)|
    ensures forall k :: |opss| <= k < |Expand(strains, opss)| ==>
      var o := Origins(opss)[k - |opss|];
      && Expand(strains, opss)[k] == Transform(strains[o.0], o.1)
      && Expand(stresses, opss)[k] == Transform(stresses[o.0], o.1)
  {
    ExpandShape(strains, opss);
    ExpandShape(stresses, opss);
    forall k | |opss| <= k < |Expand(strains, opss)|
      ensures Expand(strains, opss)[k] == Transform(strains[Origins(opss)[k - |opss|].0], Origins(opss)[k - |opss|].1)
      ensures Expand(stresses, opss)[k] == Transform(stresses[Origins(opss)[k - |opss|].0], Origins(opss)[k - |opss|].1)
    {
      var j := k - |opss|;
      assert Expand(strains, opss)[|opss| + j] == Images(strains, opss)[j];
      assert Expand(stresses, opss)[|opss| + j] == Images(stresses, opss)[j];
    }
  }

  // ---------------------------------------------------------------------------
  // The stages
  // ---------------------------------------------------------------------------

  /** The deformations that get computed: the library's full set, or, with
      symmetric strains only, the keys of its symmetry reduction. */
  function PlannedDeformations(lib: Library, inputs: Inputs, groundState: Structure): seq<Matrix> {
    var all := lib.deformationSet(groundState, inputs.strainMagnitudes);
    if inputs.symmetricStrainsOnly then Keys(lib.symmetryReduce(all, groundState)) else all
  }

  /** The operations appended for each deformation: none unless symmetric
      strains only, otherwise a lookup in a fresh reduction of the deformations. */
  function OperationsFor(lib: Library, inputs: Inputs, groundState: Structure, deformations: seq<Matrix>): (r: Result<seq<seq<SymmOp>>>)
    ensures r.Ok? ==> |r.value| == |deformations|
    ensures !inputs.symmetricStrainsOnly ==> r.Ok? && forall i :: 0 <= i < |deformations| ==> r.value[i] == []
  {
    if inputs.symmetricStrainsOnly then LookupAll(lib.symmetryReduce(deformations, groundState), deformations)
    else Ok(seq(|deformations|, i => []))
  }

  predicate AllFinishedOk(env: Env, n: nat) {
    forall i :: 0 <= i < n ==> env.deformed(i).finishedOk
  }

  function ConventionalStage(lib: Library, inputs: Inputs, ctx: Context): Outcome {
    Outcome(Running, ctx.(conventional := Some(lib.conventionalStandard(inputs.structure))))
  }

  function RelaxStage(ctx: Context): Outcome {
    if ctx.conventional.None? then Outcome(Excepted("AttributeError: conventional_structure"), ctx)
    else Outcome(Running, ctx.(initialRelax := Some(Submission(InitialRelax, ctx.conventional.value))))
  }

  function GroundStateStage(env: Env, ctx: Context): Outcome {
    if ctx.initialRelax.None? then Outcome(Excepted("AttributeError: initial_relax_workchain"), ctx)
    else if !env.initial.finishedOk then Outcome(Exited(ErrorSubProcessFailedRelax), ctx)
    else Outcome(Running, ctx.(groundState := Some(env.initial.outputStructure), groundStress := Some(env.initial.stress)))
  }

  function DeformStage(lib: Library, inputs: Inputs, ctx: Context): Outcome {
    if ctx.groundState.None? then Outcome(Excepted("AttributeError: ground_state_structure"), ctx)
    else
      var gs := ctx.groundState.value;
      var ds := PlannedDeformations(lib, inputs, gs);
      Outcome(Running, ctx.(
        deformations := ds,
        deformedStructures := seq(|ds|, i requires 0 <= i < |ds| => lib.applyToStructure(ds[i], gs)),
        strains := seq(|ds|, i requires 0 <= i < |ds| => GreenLagrange(ds[i]))))
  }

  function ComputeStage(ctx: Context): Outcome {
    var ss := ctx.deformedStructures;
    Outcome(Running, ctx.(deformedRelaxes := seq(|ss|, i requires 0 <= i < |ss| => Submission(ElasticRelax, ss[i]))))
  }

  function GatherStage(env: Env, ctx: Context): Outcome {
    var n := |ctx.deformedRelaxes|;
    if n == 0 then Outcome(Excepted("AttributeError: deformed_workchains"), ctx)
    else if !AllFinishedOk(env, n) then Outcome(Exited(ErrorSubProcessFailedRelax), ctx)
    else Outcome(Running, ctx.(stresses := Some(seq(n, (i: int) requires 0 <= i < n => env.deformed(i).stress))))
  }

  function FitStage(lib: Library, inputs: Inputs, ctx: Context): Outcome {
    if ctx.groundState.None? || ctx.groundStress.None? || ctx.stresses.None? then
      Outcome(Excepted("AttributeError: stresses"), ctx)
    else if |ctx.strains| != |ctx.deformations| || |ctx.stresses.value| != |ctx.deformations| then
      Outcome(Excepted("IndexError: stresses"), ctx)
    else
      match OperationsFor(lib, inputs, ctx.groundState.value, ctx.deformations)
      case Err(why) => Outcome(Excepted(why), ctx)
      case Ok(opss) =>
        var symmStrains := Expand(ctx.strains, opss);
        var symmStresses := Expand(ctx.stresses.value, opss);
        var fitted := lib.fromIndependentStrains(symmStresses, symmStrains, ctx.groundStress.value);
        Outcome(Running, ctx.(
          symmStrains := Some(symmStrains),
          symmStresses := Some(symmStresses),
          elasticTensor := Some(Voigt(Scale4(fitted, -1.0)))))
  }

  function OutputStage(lib: Library, ctx: Context): Outcome {
    if ctx.groundState.None? || ctx.stresses.None? || ctx.elasticTensor.None?
      || ctx.symmStrains.None? || ctx.symmStresses.None? then
      Outcome(Excepted("AttributeError: elastic_tensor"), ctx)
    else
      var gs := ctx.groundState.value;
      Outcome(Finished(Outputs(gs, ctx.strains, ctx.stresses.value, ctx.elasticTensor.value,
        ctx.symmStrains.value, ctx.symmStresses.value, lib.symmetryReduce(ctx.deformations, gs))), ctx)
  }

  /** One outline stage. Only the last stage finishes the chain, and it never
      leaves it running. */
  function Step(lib: Library, inputs: Inputs, env: Env, stage: Stage, ctx: Context): (r: Outcome)
    ensures r.status.Finished? ==> stage == SetOutputs
    ensures stage == SetOutputs ==> !r.status.Running?
  {
    match stage
    case GetConventionalStructure => ConventionalStage(lib, inputs, ctx)
    case RelaxConventionalStructure => RelaxStage(ctx)
    case GetRelaxedStructureStress => GroundStateStage(env, ctx)
    case GetDeformedStructures => DeformStage(lib, inputs, ctx)
    case ComputeDeformedStructures => ComputeStage(ctx)
    case GatherComputedStresses => GatherStage(env, ctx)
    case FitElasticTensor => FitStage(lib, inputs, ctx)
    case SetOutputs => OutputStage(lib, ctx)
  }

  /** Run outline stage k, unless an earlier stage already stopped the chain. */
  function Advance(lib: Library, inputs: Inputs, env: Env, e: Execution, k: nat): Execution
    requires k < |Outline|
  {
    if !e.status.Running? then e
    else
      var o := Step(lib, inputs, env, Outline[k], e.ctx);
      Execution(e.trace + [Outline[k]], o.status, o.ctx)
  }

  /** The execution once the first k outline stages have been offered. */
  function After(lib: Library, inputs: Inputs, env: Env, k: nat): Execution
    requires k <= |Outline|
  {
    if k == 0 then Execution([], Running, EmptyContext)
    else Advance(lib, inputs, env, After(lib, inputs, env, k - 1), k - 1)
  }

  function Run(lib: Library, inputs: Inputs, env: Env): Execution {
    After(lib, inputs, env, |Outline|)
  }

  // ---------------------------------------------------------------------------
  // Properties of a run
  // ---------------------------------------------------------------------------

  /** The stages run are a prefix of the outline, all k offered stages ran if
      the chain is still running, and a stopped chain ran at least one stage. */
  predicate FollowsOutline(e: Execution, k: nat) {
    && |e.trace| <= k <= |Outline|
    && e.trace == Outline[..|e.trace|]
    && (e.status.Running? ==> |e.trace| == k)
    && (!e.status.Running? ==> |e.trace| >= 1)
    && (e.status.Finished? ==> |e.trace| == |Outline|)
  }

  lemma {:induction false} AfterFollowsOutline(lib: Library, inputs: Inputs, env: Env, k: nat)
    requires k <= |Outline|
    ensures FollowsOutline(After(lib, inputs, env, k), k)
  {
    if k > 0 {
      var e := After(lib, inputs, env, k - 1);
      AfterFollowsOutline(lib, inputs, env, k - 1);
      if e.status.Running? {
        assert Outline[..k - 1] + [Outline[k - 1]] == Outline[..k];
      }
    }
  }

  /** Once a stage stops the chain, the later stages change nothing. */
  lemma {:induction false} StoppedStays(lib: Library, inputs: Inputs, env: Env, k: nat, j: nat)
    requires k <= j <= |Outline|
    requires !After(lib, inputs, env, k).status.Running?
    ensures After(lib, inputs, env, j) == After(lib, inputs, env, k)
    decreases j - k
  {
    if j > k {
      StoppedStays(lib, inputs, env, k, j - 1);
    }
  }

  /** Stages run in the fixed outline order, the chain always stops, and it
      finishes only after running every stage. */
  lemma RunFollowsOutline(lib: Library, inputs: Inputs, env: Env)
    ensures var e := Run(lib, inputs, env);
      && 1 <= |e.trace| <= |Outline|
      && e.trace == Outline[..|e.trace|]
      && !e.status.Running?
      && (e.status.Finished? ==> e.trace == Outline)
  {
    AfterFollowsOutline(lib, inputs, env, 7);
    AfterFollowsOutline(lib, inputs, env, 8);
  }

  /** The first three stages: the conventional cell is submitted to the initial
      relax, and its outcome decides between exit 401 and a ground state. */
  lemma ThroughGroundState(lib: Library, inputs: Inputs, env: Env)
    ensures var e := After(lib, inputs, env, 3);
      && e.trace == Outline[..3]
      && e.ctx.initialRelax == Some(Submission(InitialRelax, lib.conventionalStandard(inputs.structure)))
      && e.ctx.deformedRelaxes == [] && e.ctx.stresses.None? && e.ctx.elasticTensor.None?
      && (env.initial.finishedOk ==>
            && e.status == Running
            && e.ctx.groundState == Some(env.initial.outputStructure)
            && e.ctx.groundStress == Some(env.initial.stress))
      && (!env.initial.finishedOk ==>
            && e.status == Exited(ErrorSubProcessFailedRelax)
            && e.ctx.groundState.None? && e.ctx.groundStress.None?)
  {
    var e0 := After(lib, inputs, env, 0);
    var e1 := After(lib, inputs, env, 1);
    var e2 := After(lib, inputs, env, 2);
    assert e1.ctx == EmptyContext.(conventional := Some(lib.conventionalStandard(inputs.structure)));
    assert e2.ctx == e1.ctx.(initialRelax := Some(Submission(InitialRelax, lib.conventionalStandard(inputs.structure))));
    assert e2.status == Running && e2.trace == Outline[..2];
    assert Outline[..2] + [Outline[2]] == Outline[..3];
  }

  /** A failed initial relax ends the chain with exit 401 after the third stage,
      with no ground state structure or stress recorded and nothing deformed. */
  lemma InitialRelaxFailure(lib: Library, inputs: Inputs, env: Env)
    requires !env.initial.finishedOk
    ensures var e := Run(lib, inputs, env);
      && e.status == Exited(ErrorSubProcessFailedRelax)
      && e.trace == Outline[..3]
      && e.ctx.initialRelax == Some(Submission(InitialRelax, lib.conventionalStandard(inputs.structure)))
      && e.ctx.groundState.None? && e.ctx.groundStress.None?
      && e.ctx.deformedRelaxes == [] && e.ctx.elasticTensor.None?
  {
    ThroughGroundState(lib, inputs, env);
    StoppedStays(lib, inputs, env, 3, 8);
  }

  /** The context fields the last three stages never touch. */
  predicate SamePlan(c: Context, d: Context) {
    && c.groundState == d.groundState && c.groundStress == d.groundStress
    && c.deformations == d.deformations && c.deformedStructures == d.deformedStructures
    && c.strains == d.strains && c.deformedRelaxes == d.deformedRelaxes
  }

  lemma {:induction false} LaterStagesKeepPlan(lib: Library, inputs: Inputs, env: Env, j: nat)
    requires 5 <= j <= |Outline|
    ensures SamePlan(After(lib, inputs, env, j).ctx, After(lib, inputs, env, 5).ctx)
    decreases j
  {
    if j > 5 {
      LaterStagesKeepPlan(lib, inputs, env, j - 1);
    }
  }

  /** After the deformation and submission stages (initial relax finished):
      the deformations are the planned ones, the deformed structures and
      strains are index-aligned with them, and exactly one elastic relax is
      submitted per deformed structure, in order. */
  lemma ThroughSubmission(lib: Library, inputs: Inputs, env: Env)
    requires env.initial.finishedOk
    ensures var e := After(lib, inputs, env, 5);
      var gs := env.initial.outputStructure;
      var ds := PlannedDeformations(lib, inputs, gs);
      && e.status == Running
      && e.ctx.groundState == Some(gs) && e.ctx.groundStress == Some(env.initial.stress)
      && e.ctx.stresses.None? && e.ctx.elasticTensor.None?
      && e.ctx.deformations == ds
      && |e.ctx.deformedStructures| == |ds| && |e.ctx.strains| == |ds| && |e.ctx.deformedRelaxes| == |ds|
      && (forall i :: 0 <= i < |ds| ==>
            && e.ctx.deformedStructures[i] == lib.applyToStructure(ds[i], gs)
            && e.ctx.strains[i] == GreenLagrange(ds[i])
            && e.ctx.deformedRelaxes[i] == Submission(ElasticRelax, e.ctx.deformedStructures[i]))
  {
    ThroughGroundState(lib, inputs, env);
    var e3 := After(lib, inputs, env, 3);
    var e4 := After(lib, inputs, env, 4);
    assert e4.ctx == DeformStage(lib, inputs, e3.ctx).ctx;
  }

  /** The same alignment holds in the final context, whatever happens later. */
  lemma DeformationsAligned(lib: Library, inputs: Inputs, env: Env)
    requires env.initial.finishedOk
    ensures var e := Run(lib, inputs, env);
      var gs := env.initial.outputStructure;
      var ds := PlannedDeformations(lib, inputs, gs);
      && |e.trace| >= 6
      && e.ctx.deformations == ds
      && |e.ctx.deformedStructures| == |ds| && |e.ctx.strains| == |ds| && |e.ctx.deformedRelaxes| == |ds|
      && (forall i :: 0 <= i < |ds| ==>
            && e.ctx.deformedStructures[i] == lib.applyToStructure(ds[i], gs)
            && e.ctx.strains[i] == GreenLagrange(ds[i])
            && e.ctx.deformedRelaxes[i] == Submission(ElasticRelax, e.ctx.deformedStructures[i]))
  {
    ThroughSubmission(lib, inputs, env);
    LaterStagesKeepPlan(lib, inputs, env, 8);
    AfterFollowsOutline(lib, inputs, env, 5);
    AfterFollowsOutline(lib, inputs, env, 6);
    var e6 := After(lib, inputs, env, 6);
    if e6.status.Running? {
      AfterFollowsOutline(lib, inputs, env, 8);
      RunFollowsOutline(lib, inputs, env);
      if Run(lib, inputs, env).status.Finished? {
      } else if !After(lib, inputs, env, 7).status.Running? {
        StoppedStays(lib, inputs, env, 7, 8);
        AfterFollowsOutline(lib, inputs, env, 7);
      }
    } else {
      StoppedStays(lib, inputs, env, 6, 8);
    }
  }

  /** Symmetric strains only: the computed deformations are exactly the keys of
      the reduction of the full set; otherwise the full set. */
  lemma DeformationsFromSymmetry(lib: Library, inputs: Inputs, env: Env)
    requires env.initial.finishedOk
    ensures var e := Run(lib, inputs, env);
      var gs := env.initial.outputStructure;
      var all := lib.deformationSet(gs, inputs.strainMagnitudes);
      && (inputs.symmetricStrainsOnly ==> e.ctx.deformations == Keys(lib.symmetryReduce(all, gs)))
      && (!inputs.symmetricStrainsOnly ==> e.ctx.deformations == all)
  {
    DeformationsAligned(lib, inputs, env);
  }

  /** The gathering stage: no workchains raises, any failed deformed relax is
      exit 401 with no stresses recorded, and otherwise every stress comes from
      the matching deformed relax, in workchain order. */
  lemma ThroughGather(lib: Library, inputs: Inputs, env: Env)
    requires env.initial.finishedOk
    ensures var e := After(lib, inputs, env, 6);
      var n := |PlannedDeformations(lib, inputs, env.initial.outputStructure)|;
      && e.trace == Outline[..6]
      && (n == 0 ==> e.status.Excepted?)
      && e.ctx.elasticTensor.None?
      && (n > 0 && !AllFinishedOk(env, n) ==> e.status == Exited(ErrorSubProcessFailedRelax) && e.ctx.stresses.None?)
      && (n > 0 && AllFinishedOk(env, n) ==>
            && e.status == Running
            && e.ctx.stresses == Some(seq(n, (i: int) requires 0 <= i < n => env.deformed(i).stress)))
  {
    ThroughSubmission(lib, inputs, env);
    AfterFollowsOutline(lib, inputs, env, 5);
    var e5 := After(lib, inputs, env, 5);
    assert Outline[..5] + [Outline[5]] == Outline[..6];
  }

  /** Any failed deformed relax ends the chain with exit 401 at the gathering
      stage, and no stresses are recorded. */
  lemma DeformedRelaxFailure(lib: Library, inputs: Inputs, env: Env, bad: nat)
    requires env.initial.finishedOk
    requires bad < |PlannedDeformations(lib, inputs, env.initial.outputStructure)|
    requires !env.deformed(bad).finishedOk
    ensures var e := Run(lib, inputs, env);
      && e.status == Exited(ErrorSubProcessFailedRelax)
      && e.trace == Outline[..6]
      && e.ctx.stresses.None? && e.ctx.elasticTensor.None?
  {
    ThroughGather(lib, inputs, env);
    ThroughSubmission(lib, inputs, env);
    StoppedStays(lib, inputs, env, 6, 8);
  }

  /** No deformations at all: the gathering stage finds no workchains to read. */
  lemma NoDeformations(lib: Library, inputs: Inputs, env: Env)
    requires env.initial.finishedOk
    requires PlannedDeformations(lib, inputs, env.initial.outputStructure) == []
    ensures var e := Run(lib, inputs, env);
      e.status.Excepted? && e.trace == Outline[..6]
  {
    ThroughGather(lib, inputs, env);
    StoppedStays(lib, inputs, env, 6, 8);
  }

  /** The fitting stage, reached when every relax succeeded: it raises when a
      deformation is missing from the symmetry map, and otherwise records the
      expanded lists and the Voigt form of the negated fit. */
  lemma ThroughFit(lib: Library, inputs: Inputs, env: Env)
    requires env.initial.finishedOk
    requires var n := |PlannedDeformations(lib, inputs, env.initial.outputStructure)|;
      n > 0 && AllFinishedOk(env, n)
    ensures var e := After(lib, inputs, env, 7);
      var gs := env.initial.outputStructure;
      var ds := PlannedDeformations(lib, inputs, gs);
      var ops := OperationsFor(lib, inputs, gs, ds);
      && (ops.Err? ==> e.status.Excepted?)
      && (ops.Ok? ==>
            var strains := seq(|ds|, i requires 0 <= i < |ds| => GreenLagrange(ds[i]));
            var stresses := seq(|ds|, (i: int) requires 0 <= i < |ds| => env.deformed(i).stress);
            var symmStrains := Expand(strains, ops.value);
            var symmStresses := Expand(stresses, ops.value);
            && e.status == Running
            && e.ctx.groundState == Some(gs)
            && e.ctx.deformations == ds
            && e.ctx.strains == strains
            && e.ctx.stresses == Some(stresses)
            && e.ctx.symmStrains == Some(symmStrains)
            && e.ctx.symmStresses == Some(symmStresses)
            && e.ctx.elasticTensor
               == Some(Voigt(Scale4(lib.fromIndependentStrains(symmStresses, symmStrains, env.initial.stress), -1.0))))
  {
    ThroughSubmission(lib, inputs, env);
    ThroughGather(lib, inputs, env);
    var e5 := After(lib, inputs, env, 5);
    var e6 := After(lib, inputs, env, 6);
    var ds := PlannedDeformations(lib, inputs, env.initial.outputStructure);
    assert e6.ctx.strains == e5.ctx.strains && e6.ctx.deformations == e5.ctx.deformations;
    assert e5.ctx.strains == seq(|ds|, i requires 0 <= i < |ds| => GreenLagrange(ds[i]));
  }

  /** The chain finishes exactly when both relax stages succeed, there is at
      least one deformation, and every lookup in the symmetry map succeeds.
      The outputs are then the paired, expanded strains and stresses, and the
      reported tensor is the Voigt form of the negated fit. */
  lemma FinishedOutputs(lib: Library, inputs: Inputs, env: Env)
    ensures var e := Run(lib, inputs, env);
      var gs := env.initial.outputStructure;
      var ds := PlannedDeformations(lib, inputs, gs);
      e.status.Finished? <==>
        env.initial.finishedOk && |ds| > 0 && AllFinishedOk(env, |ds|)
        && OperationsFor(lib, inputs, gs, ds).Ok?
    ensures var e := Run(lib, inputs, env);
      var gs := env.initial.outputStructure;
      var ds := PlannedDeformations(lib, inputs, gs);
      e.status.Finished? ==>
        var out := e.status.outputs;
        var opss := OperationsFor(lib, inputs, gs, ds).value;
        && out.groundStateStructure == gs
        && |out.strains| == |ds| && |out.stresses| == |ds|
        && (forall i :: 0 <= i < |ds| ==>
              out.strains[i] == GreenLagrange(ds[i]) && out.stresses[i] == env.deformed(i).stress)
        && out.symmStrains == Expand(out.strains, opss)
        && out.symmStresses == Expand(out.stresses, opss)
        && out.elasticTensor
           == ScaleMatrix(Voigt(lib.fromIndependentStrains(out.symmStresses, out.symmStrains, env.initial.stress)), -1.0)
        && out.symmetryMapping == lib.symmetryReduce(ds, gs)
  {
    var e := Run(lib, inputs, env);
    var gs := env.initial.outputStructure;
    var ds := PlannedDeformations(lib, inputs, gs);
    if !env.initial.finishedOk {
      InitialRelaxFailure(lib, inputs, env);
    } else if |ds| == 0 || !AllFinishedOk(env, |ds|) {
      ThroughGather(lib, inputs, env);
      StoppedStays(lib, inputs, env, 6, 8);
    } else {
      ThroughFit(lib, inputs, env);
      var e7 := After(lib, inputs, env, 7);
      if !e7.status.Running? {
        StoppedStays(lib, inputs, env, 7, 8);
      } else {
        assert e == Advance(lib, inputs, env, e7, 7);
        var out := e.status.outputs;
        VoigtOfScaled(lib.fromIndependentStrains(out.symmStresses, out.symmStrains, env.initial.stress), -1.0);
      }
    }
  }

  /** Without symmetric strains only, nothing is appended before the fit. */
  lemma NonSymmetricFitUsesOriginals(lib: Library, inputs: Inputs, env: Env)
    requires !inputs.symmetricStrainsOnly
    ensures var e := Run(lib, inputs, env);
      e.status.Finished? ==>
        e.status.outputs.symmStrains == e.status.outputs.strains
        && e.status.outputs.symmStresses == e.status.outputs.stresses
  {
    var e := Run(lib, inputs, env);
    FinishedOutputs(lib, inputs, env);
    if e.status.Finished? {
      var gs := env.initial.outputStructure;
      var ds := PlannedDeformations(lib, inputs, gs);
      var opss := OperationsFor(lib, inputs, gs, ds).value;
      ExpandWithoutOps(e.status.outputs.strains, opss);
      ExpandWithoutOps(e.status.outputs.stresses, opss);
    }
  }
}
