/** The gate controller of scripts/plan_control.py, on plans of any length. */
module PlanControl {
  import opened Wrappers
  import opened Text

  datatype Status =
    | PENDENTE | EM_EXECUCAO | IMPLEMENTADO | VALIDADO_LOCAL | VALIDADO_FISICO | PUBLICADO | VALIDADO_PRODUCAO | BLOQUEADO

  datatype Kind = Command | Test | CommitKind | Artifact | Deployment | Physical | Documentation | Note

  datatype Evidence = Evidence(at: int, kind: Kind, value: string)

  datatype Blocker = Blocker(at: int, reason: string, resolvedAt: Option<int>)

  datatype Definition = Definition(id: string, target: Status, required: seq<Kind>)

  datatype Gate = Gate(
    status: Status, target: Status, dependsOn: seq<string>, required: seq<Kind>, startedAt: Option<int>,
    completedAt: Option<int>, summary: Option<string>, evidence: seq<Evidence>, blockers: seq<Blocker>)

  datatype Plan = Plan(workflow: seq<string>, gates: map<string, Gate>)

  datatype Error =
    | OutOfOrder | DependencyIncomplete | GateBlocked | NotStarted | EvidenceTooVague | MissingEvidence
    | SummaryTooVague | ReasonTooVague | UnknownGate | NotBlocked | NoUnresolvedBlocker

  const DEFINITIONS: seq<Definition> := [
    Definition("G00-A", VALIDADO_LOCAL, [Command, Note]),
    Definition("G09", VALIDADO_LOCAL, [Command, Note]),
    Definition("G01", VALIDADO_LOCAL, [Command, Test]),
    Definition("G02", VALIDADO_LOCAL, [Documentation, Note]),
    Definition("G03", VALIDADO_LOCAL, [Test]),
    Definition("G04", VALIDADO_LOCAL, [Test]),
    Definition("G05", VALIDADO_LOCAL, [Test]),
    Definition("G06", VALIDADO_LOCAL, [Test]),
    Definition("G07", VALIDADO_LOCAL, [Test]),
    Definition("G13", VALIDADO_LOCAL, [Test, Artifact]),
    Definition("G17", VALIDADO_LOCAL, [Artifact, CommitKind, Test]),
    Definition("G19", VALIDADO_PRODUCAO, [Deployment, Artifact, Physical, Test]),
    Definition("G22", VALIDADO_PRODUCAO, [Deployment, Physical, Test, Note]),
    Definition("G24", VALIDADO_PRODUCAO, [Documentation, CommitKind])]

  predicate Working(status: Status) {
    status in {PENDENTE, EM_EXECUCAO, BLOQUEADO}
  }

  /** Different ids, and targets that no gate reaches before it is completed. */
  predicate GoodDefinitions(defs: seq<Definition>) {
    && (forall i, j :: 0 <= i < j < |defs| ==> defs[i].id != defs[j].id)
    && forall i :: 0 <= i < |defs| ==> !Working(defs[i].target)
  }

  lemma ShippedDefinitions()
    ensures GoodDefinitions(DEFINITIONS)
  {
    assert forall i :: 0 <= i < |DEFINITIONS| ==> DEFINITIONS[i].target in {VALIDADO_LOCAL, VALIDADO_PRODUCAO};
  }

  // ---------- A fresh plan ----------

  function DependsOn(defs: seq<Definition>, i: nat): seq<string>
    requires i < |defs|
  {
    if i == 0 then [] else [defs[i - 1].id]
  }

  function FreshGate(defs: seq<Definition>, i: nat): Gate
    requires i < |defs|
  {
    Gate(PENDENTE, defs[i].target, DependsOn(defs, i), defs[i].required, None, None, None, [], [])
  }

  function Ids(defs: seq<Definition>): (ids: seq<string>)
    ensures |ids| == |defs| && forall i :: 0 <= i < |defs| ==> ids[i] == defs[i].id
  {
    seq(|defs|, i requires 0 <= i < |defs| => defs[i].id)
  }

  function FreshGates(defs: seq<Definition>, n: nat): (gates: map<string, Gate>)
    requires n <= |defs|
    ensures forall i :: 0 <= i < n ==> defs[i].id in gates
  {
    if n == 0 then map[] else FreshGates(defs, n - 1)[defs[n - 1].id := FreshGate(defs, n - 1)]
  }

  // ---------- Looking at a plan ----------

  predicate Complete(gate: Gate) {
    gate.status == gate.target
  }

  predicate Known(plan: Plan) {
    forall i :: 0 <= i < |plan.workflow| ==> plan.workflow[i] in plan.gates
  }

  /** new_state. */
  function NewState(defs: seq<Definition>): (plan: Plan)
    ensures Known(plan)
  {
    Plan(Ids(defs), FreshGates(defs, |defs|))
  }

  /** The position of the first incomplete gate, from i on. */
  function ActiveFrom(plan: Plan, i: nat): (n: nat)
    requires Known(plan) && i <= |plan.workflow|
    ensures i <= n <= |plan.workflow|
    ensures forall j :: i <= j < n ==> Complete(plan.gates[plan.workflow[j]])
    ensures n < |plan.workflow| ==> !Complete(plan.gates[plan.workflow[n]])
    decreases |plan.workflow| - i
  {
    if i == |plan.workflow| || !Complete(plan.gates[plan.workflow[i]]) then i else ActiveFrom(plan, i + 1)
  }

  /** active. */
  function Active(plan: Plan): Option<string>
    requires Known(plan)
  {
    var n := ActiveFrom(plan, 0);
    if n < |plan.workflow| then Some(plan.workflow[n]) else None
  }

  predicate DependenciesMet(plan: Plan, gate: Gate) {
    forall i :: 0 <= i < |gate.dependsOn| ==> gate.dependsOn[i] in plan.gates && Complete(plan.gates[gate.dependsOn[i]])
  }

  predicate HasKind(evidence: seq<Evidence>, kind: Kind) {
    exists i :: 0 <= i < |evidence| && evidence[i].kind == kind
  }

  predicate EvidenceComplete(gate: Gate) {
    forall i :: 0 <= i < |gate.required| ==> HasKind(gate.evidence, gate.required[i])
  }

  predicate Unresolved(gate: Gate) {
    exists i :: 0 <= i < |gate.blockers| && gate.blockers[i].resolvedAt.None?
  }

  // ---------- Commands ----------

  /** ensure_active. */
  function EnsureActive(plan: Plan, id: string): Result<Gate, Error>
    requires Known(plan)
  {
    if Active(plan) != Some(id) then Err(OutOfOrder)
    else if !DependenciesMet(plan, plan.gates[id]) then Err(DependencyIncomplete)
    else Ok(plan.gates[id])
  }

  function Save(plan: Plan, id: string, gate: Gate): Plan {
    plan.(gates := plan.gates[id := gate])
  }

  function StartGate(plan: Plan, id: string, now: int): Result<Plan, Error>
    requires Known(plan)
  {
    var gate :- EnsureActive(plan, id);
    if gate.status == BLOQUEADO then Err(GateBlocked)
    else if gate.status == PENDENTE then Ok(Save(plan, id, gate.(status := EM_EXECUCAO, startedAt := Some(now))))
    else Ok(plan)
  }

  function AddEvidence(plan: Plan, id: string, kind: Kind, value: string, now: int): Result<Plan, Error>
    requires Known(plan)
  {
    var gate :- EnsureActive(plan, id);
    if gate.status in {PENDENTE, BLOQUEADO} then Err(NotStarted)
    else if |Strip(value)| < 8 then Err(EvidenceTooVague)
    else Ok(Save(plan, id, gate.(evidence := gate.evidence + [Evidence(now, kind, Strip(value))])))
  }

  function CompleteGate(plan: Plan, id: string, summary: string, now: int): Result<Plan, Error>
    requires Known(plan)
  {
    var gate :- EnsureActive(plan, id);
    if gate.status == BLOQUEADO then Err(GateBlocked)
    else if !EvidenceComplete(gate) then Err(MissingEvidence)
    else if |Strip(summary)| < 12 then Err(SummaryTooVague)
    else Ok(Save(plan, id, gate.(status := gate.target, completedAt := Some(now), summary := Some(Strip(summary)))))
  }

  function BlockGate(plan: Plan, id: string, reason: string, now: int): Result<Plan, Error>
    requires Known(plan)
  {
    var gate :- EnsureActive(plan, id);
    if |Strip(reason)| < 12 then Err(ReasonTooVague)
    else
      Ok(Save(plan, id, gate.(status := BLOQUEADO, startedAt := if gate.startedAt.Some? then gate.startedAt else Some(now),
                              blockers := gate.blockers + [Blocker(now, Strip(reason), None)])))
  }

  function ResolveAll(blockers: seq<Blocker>, now: int): (r: seq<Blocker>)
    ensures |r| == |blockers|
    ensures forall i :: 0 <= i < |blockers| ==>
      r[i] == if blockers[i].resolvedAt.None? then blockers[i].(resolvedAt := Some(now)) else blockers[i]
  {
    seq(|blockers|, i requires 0 <= i < |blockers| =>
      if blockers[i].resolvedAt.None? then blockers[i].(resolvedAt := Some(now)) else blockers[i])
  }

  function UnblockGate(plan: Plan, id: string, now: int): Result<Plan, Error> {
    if id !in plan.gates then Err(UnknownGate)
    else
      var gate := plan.gates[id];
      if gate.status != BLOQUEADO then Err(NotBlocked)
      else if !Unresolved(gate) then Err(NoUnresolvedBlocker)
      else Ok(Save(plan, id, gate.(status := EM_EXECUCAO, blockers := ResolveAll(gate.blockers, now))))
  }

  // ---------- Steps and runs ----------

  datatype Step =
    | Start(id: string, now: int)
    | Evidenced(id: string, kind: Kind, value: string, now: int)
    | Completed(id: string, summary: string, now: int)
    | Block(id: string, reason: string, now: int)
    | Unblock(id: string, now: int)

  function Attempt(plan: Plan, step: Step): Result<Plan, Error>
    requires Known(plan)
  {
    match step
    case Start(id, now) => StartGate(plan, id, now)
    case Evidenced(id, kind, value, now) => AddEvidence(plan, id, kind, value, now)
    case Completed(id, summary, now) => CompleteGate(plan, id, summary, now)
    case Block(id, reason, now) => BlockGate(plan, id, reason, now)
    case Unblock(id, now) => UnblockGate(plan, id, now)
  }

  /** A command that fails saves nothing. */
  function Apply(plan: Plan, step: Step): Plan
    requires Known(plan)
  {
    match Attempt(plan, step)
    case Ok(p) => p
    case Err(_) => plan
  }

  lemma ApplyKnown(plan: Plan, step: Step)
    requires Known(plan)
    ensures Known(Apply(plan, step)) && Apply(plan, step).workflow == plan.workflow
  {
    hide Strip, Unresolved, DependenciesMet, EvidenceComplete;
  }

  ghost function Run(plan: Plan, steps: seq<Step>): (r: Plan)
    requires Known(plan)
    ensures Known(r)
    decreases |steps|
  {
    if steps == [] then plan
    else
      var before := Run(plan, steps[..|steps| - 1]);
      ApplyKnown(before, steps[|steps| - 1]);
      Apply(before, steps[|steps| - 1])
  }

  // ---------- The invariant ----------

  /** A gate still keeps what its definition says. */
  predicate Defined(defs: seq<Definition>, i: nat, gate: Gate)
    requires i < |defs|
  {
    gate.target == defs[i].target && gate.required == defs[i].required && gate.dependsOn == DependsOn(defs, i)
  }

  /** Blocked exactly while a blocker is unresolved, pending only while untouched, complete only with all its evidence. */
  predicate GateOk(defs: seq<Definition>, i: nat, gate: Gate)
    requires i < |defs|
  {
    && Defined(defs, i, gate)
    && (Working(gate.status) || Complete(gate))
    && (gate.status == BLOQUEADO <==> Unresolved(gate))
    && (gate.status == PENDENTE ==> gate == FreshGate(defs, i))
    && (Complete(gate) ==> EvidenceComplete(gate) && gate.summary.Some? && gate.completedAt.Some?)
  }

  ghost predicate InPlan(defs: seq<Definition>, id: string) {
    exists i :: 0 <= i < |defs| && defs[i].id == id
  }

  /** The gates of the plan are those of the definitions, each in order. */
  ghost predicate SameGates(defs: seq<Definition>, plan: Plan) {
    && plan.workflow == Ids(defs)
    && (forall i :: 0 <= i < |defs| ==> defs[i].id in plan.gates)
    && (forall id :: id in plan.gates ==> InPlan(defs, id))
  }

  /** The first n gates are complete and those behind the active one are untouched. */
  ghost predicate Progress(defs: seq<Definition>, plan: Plan, n: nat) {
    && n <= |defs|
    && SameGates(defs, plan)
    && (forall i :: 0 <= i < |defs| ==> GateOk(defs, i, plan.gates[defs[i].id]))
    && (forall i :: 0 <= i < n ==> Complete(plan.gates[defs[i].id]))
    && (n < |defs| ==> Working(plan.gates[defs[n].id].status))
    && (forall i :: n < i < |defs| ==> plan.gates[defs[i].id] == FreshGate(defs, i))
  }

  lemma {:induction false} FreshGatesAt(defs: seq<Definition>, n: nat)
    requires GoodDefinitions(defs) && n <= |defs|
    ensures forall id :: id in FreshGates(defs, n) ==> InPlan(defs, id)
    ensures forall i :: 0 <= i < n ==> defs[i].id in FreshGates(defs, n) && FreshGates(defs, n)[defs[i].id] == FreshGate(defs, i)
  {
    hide FreshGate;
    if n > 0 {
      FreshGatesAt(defs, n - 1);
      assert InPlan(defs, defs[n - 1].id);
    }
  }

  lemma FreshGateOk(defs: seq<Definition>, i: nat)
    requires i < |defs| && GoodDefinitions(defs)
    ensures GateOk(defs, i, FreshGate(defs, i)) && Working(FreshGate(defs, i).status) && !Complete(FreshGate(defs, i))
  {
  }

  lemma FreshPlan(defs: seq<Definition>)
    requires GoodDefinitions(defs)
    ensures Progress(defs, NewState(defs), 0) && Known(NewState(defs))
  {
    hide FreshGates, FreshGate, GateOk, GoodDefinitions;
    FreshGatesAt(defs, |defs|);
    forall i | 0 <= i < |defs|
      ensures GateOk(defs, i, NewState(defs).gates[defs[i].id]) && Working(NewState(defs).gates[defs[i].id].status)
    {
      FreshGateOk(defs, i);
    }
  }

  lemma ActiveIncomplete(defs: seq<Definition>, plan: Plan, n: nat)
    requires GoodDefinitions(defs) && Progress(defs, plan, n) && n < |defs|
    ensures !Complete(plan.gates[defs[n].id])
    ensures plan.gates[defs[n].id].dependsOn == DependsOn(defs, n)
  {
    assert GateOk(defs, n, plan.gates[defs[n].id]);
  }

  /** The active gate is the first one that is not complete, and the dependency check never stops it. */
  lemma ActiveGate(defs: seq<Definition>, plan: Plan, n: nat)
    requires GoodDefinitions(defs) && Progress(defs, plan, n)
    ensures Known(plan)
    ensures Active(plan) == if n < |defs| then Some(defs[n].id) else None
    ensures forall id :: EnsureActive(plan, id) ==
              if n < |defs| && id == defs[n].id then Ok(plan.gates[id]) else Err(OutOfOrder)
  {
    hide GateOk, GoodDefinitions, FreshGate, Ids, Complete;
    var m := ActiveFrom(plan, 0);
    if n < |defs| {
      ActiveIncomplete(defs, plan, n);
      assert plan.workflow[n] == defs[n].id;
      assert DependenciesMet(plan, plan.gates[defs[n].id]);
    }
    assert forall i :: 0 <= i < n ==> Complete(plan.gates[plan.workflow[i]]);
    assert m == n;
  }

  // ---------- Every command keeps it ----------

  /** A new state of the active gate that is not complete. */
  lemma SaveWorking(defs: seq<Definition>, plan: Plan, n: nat, gate: Gate)
    requires GoodDefinitions(defs) && Progress(defs, plan, n) && n < |defs|
    requires GateOk(defs, n, gate) && Working(gate.status)
    ensures Progress(defs, Save(plan, defs[n].id, gate), n)
  {
    hide GateOk, FreshGate, Ids, Complete, Working;
  }

  /** The active gate completed: the next one becomes active. */
  lemma SaveComplete(defs: seq<Definition>, plan: Plan, n: nat, gate: Gate)
    requires GoodDefinitions(defs) && Progress(defs, plan, n) && n < |defs|
    requires GateOk(defs, n, gate) && Complete(gate)
    ensures Progress(defs, Save(plan, defs[n].id, gate), n + 1)
  {
    hide GateOk, Ids, Complete, Working, FreshGate;
    if n + 1 < |defs| {
      FreshGateOk(defs, n + 1);
    }
  }

  lemma ResolvedAll(gate: Gate, now: int)
    ensures !Unresolved(gate.(status := EM_EXECUCAO, blockers := ResolveAll(gate.blockers, now)))
  {
  }

  lemma ActiveGateOk(defs: seq<Definition>, plan: Plan, n: nat)
    requires Progress(defs, plan, n) && n < |defs|
    ensures defs[n].id in plan.gates && GateOk(defs, n, plan.gates[defs[n].id]) && Working(plan.gates[defs[n].id].status)
  {
  }

  lemma StartKeeps(defs: seq<Definition>, plan: Plan, n: nat, id: string, now: int)
    requires GoodDefinitions(defs) && Progress(defs, plan, n) && Known(plan) && StartGate(plan, id, now).Ok?
    ensures Progress(defs, StartGate(plan, id, now).value, n)
  {
    hide Progress, EnsureActive, GoodDefinitions, DependsOn, EvidenceComplete;
    ActiveGate(defs, plan, n);
    ActiveGateOk(defs, plan, n);
    var gate := plan.gates[id];
    if gate.status == PENDENTE {
      SaveStarted(defs, plan, n, gate.(status := EM_EXECUCAO, startedAt := Some(now)));
    }
  }

  /** Work on the active gate that leaves its blockers alone. */
  lemma SaveStarted(defs: seq<Definition>, plan: Plan, n: nat, gate: Gate)
    requires GoodDefinitions(defs) && Progress(defs, plan, n) && n < |defs| && Defined(defs, n, gate)
    requires gate.status == EM_EXECUCAO && !Unresolved(gate)
    ensures Progress(defs, Save(plan, defs[n].id, gate), n)
  {
    hide Progress;
    SaveWorking(defs, plan, n, gate);
  }

  lemma EvidenceKeeps(defs: seq<Definition>, plan: Plan, n: nat, id: string, kind: Kind, value: string, now: int)
    requires GoodDefinitions(defs) && Progress(defs, plan, n) && Known(plan) && AddEvidence(plan, id, kind, value, now).Ok?
    ensures Progress(defs, AddEvidence(plan, id, kind, value, now).value, n)
  {
    hide Progress, EnsureActive, GoodDefinitions, DependsOn, EvidenceComplete, Strip;
    ActiveGate(defs, plan, n);
    ActiveGateOk(defs, plan, n);
    var gate := plan.gates[id];
    SaveStarted(defs, plan, n, gate.(evidence := gate.evidence + [Evidence(now, kind, Strip(value))]));
  }

  lemma CompleteKeeps(defs: seq<Definition>, plan: Plan, n: nat, id: string, summary: string, now: int)
    requires GoodDefinitions(defs) && Progress(defs, plan, n) && Known(plan) && CompleteGate(plan, id, summary, now).Ok?
    ensures Progress(defs, CompleteGate(plan, id, summary, now).value, n + 1)
  {
    hide Progress, EnsureActive, DependsOn, Strip;
    ActiveGate(defs, plan, n);
    ActiveGateOk(defs, plan, n);
    var gate := plan.gates[id];
    SaveComplete(defs, plan, n, gate.(status := gate.target, completedAt := Some(now), summary := Some(Strip(summary))));
  }

  lemma BlockKeeps(defs: seq<Definition>, plan: Plan, n: nat, id: string, reason: string, now: int)
    requires GoodDefinitions(defs) && Progress(defs, plan, n) && Known(plan) && BlockGate(plan, id, reason, now).Ok?
    ensures Progress(defs, BlockGate(plan, id, reason, now).value, n)
  {
    hide Progress, EnsureActive, DependsOn, Strip, EvidenceComplete;
    ActiveGate(defs, plan, n);
    ActiveGateOk(defs, plan, n);
    var old_ := plan.gates[id];
    var gate := old_.(status := BLOQUEADO, startedAt := if old_.startedAt.Some? then old_.startedAt else Some(now),
                      blockers := old_.blockers + [Blocker(now, Strip(reason), None)]);
    assert gate.blockers[|old_.blockers|].resolvedAt.None?;
    SaveWorking(defs, plan, n, gate);
  }

  /** Only the active gate can be blocked. */
  lemma BlockedIsActive(defs: seq<Definition>, plan: Plan, n: nat, id: string)
    requires GoodDefinitions(defs) && Progress(defs, plan, n) && id in plan.gates && plan.gates[id].status == BLOQUEADO
    ensures n < |defs| && id == defs[n].id
  {
    hide Unresolved, EvidenceComplete, DependsOn, Ids;
    assert InPlan(defs, id);
    var i :| 0 <= i < |defs| && defs[i].id == id;
    assert GateOk(defs, i, plan.gates[id]);
  }

  lemma UnblockKeeps(defs: seq<Definition>, plan: Plan, n: nat, id: string, now: int)
    requires GoodDefinitions(defs) && Progress(defs, plan, n) && UnblockGate(plan, id, now).Ok?
    ensures Progress(defs, UnblockGate(plan, id, now).value, n)
  {
    hide Progress, DependsOn, EvidenceComplete, Unresolved, GoodDefinitions;
    BlockedIsActive(defs, plan, n, id);
    ActiveGateOk(defs, plan, n);
    ResolvedAll(plan.gates[id], now);
    SaveStarted(defs, plan, n, plan.gates[id].(status := EM_EXECUCAO, blockers := ResolveAll(plan.gates[id].blockers, now)));
  }

  function After(n: nat, step: Step): nat {
    if step.Completed? then n + 1 else n
  }

  lemma ApplyKeeps(defs: seq<Definition>, plan: Plan, n: nat, step: Step)
    requires GoodDefinitions(defs) && Progress(defs, plan, n) && Known(plan)
    ensures Progress(defs, Apply(plan, step), if Attempt(plan, step).Ok? then After(n, step) else n)
  {
    hide Progress, GoodDefinitions, StartGate, AddEvidence, CompleteGate, BlockGate, UnblockGate;
    if Attempt(plan, step).Ok? {
      match step
      case Start(id, now) => StartKeeps(defs, plan, n, id, now);
      case Evidenced(id, kind, value, now) => EvidenceKeeps(defs, plan, n, id, kind, value, now);
      case Completed(id, summary, now) => CompleteKeeps(defs, plan, n, id, summary, now);
      case Block(id, reason, now) => BlockKeeps(defs, plan, n, id, reason, now);
      case Unblock(id, now) => UnblockKeeps(defs, plan, n, id, now);
    }
  }

  /** In every run from a fresh plan the completed gates are a prefix, and what lies behind the active gate is untouched. */
  lemma {:induction false} RunProgress(defs: seq<Definition>, steps: seq<Step>) returns (n: nat)
    requires GoodDefinitions(defs)
    ensures Progress(defs, Run(NewState(defs), steps), n)
    decreases |steps|
  {
    hide Progress, GoodDefinitions, Apply, NewState;
    if steps == [] {
      FreshPlan(defs);
      n := 0;
    } else {
      var last := steps[|steps| - 1];
      var m := RunProgress(defs, steps[..|steps| - 1]);
      var before := Run(NewState(defs), steps[..|steps| - 1]);
      ApplyKeeps(defs, before, m, last);
      n := if Attempt(before, last).Ok? then After(m, last) else m;
    }
  }

  // ---------- The final check ----------

  /** cmd_final: the plan file, the shape of the state, and every gate complete, evidenced and free of blockers. */
  ghost predicate FinalPasses(defs: seq<Definition>, plan: Plan, planFile: bool) {
    && planFile
    && SameGates(defs, plan)
    && forall i :: 0 <= i < |defs| ==>
         var gate := plan.gates[defs[i].id];
         Defined(defs, i, gate) && Complete(gate) && EvidenceComplete(gate) && !Unresolved(gate)
  }

  /** In every run, the final check passes exactly when the plan file is there and no gate is active. */
  lemma FinalCheckIff(defs: seq<Definition>, steps: seq<Step>, planFile: bool)
    requires GoodDefinitions(defs)
    ensures var plan := Run(NewState(defs), steps);
            FinalPasses(defs, plan, planFile) <==> planFile && Active(plan).None?
  {
    hide Run, EvidenceComplete, Unresolved, FreshGate, NewState, DependsOn;
    var n := RunProgress(defs, steps);
    var plan := Run(NewState(defs), steps);
    ActiveGate(defs, plan, n);
    if n < |defs| {
      ActiveIncomplete(defs, plan, n);
    } else {
      forall i | 0 <= i < |defs|
        ensures Defined(defs, i, plan.gates[defs[i].id]) && Complete(plan.gates[defs[i].id])
        ensures EvidenceComplete(plan.gates[defs[i].id]) && !Unresolved(plan.gates[defs[i].id])
      {
        assert GateOk(defs, i, plan.gates[defs[i].id]);
      }
    }
  }

  /** What a run's gates look like, one by one. */
  lemma RunGates(defs: seq<Definition>, steps: seq<Step>, i: nat)
    requires GoodDefinitions(defs) && i < |defs|
    ensures SameGates(defs, Run(NewState(defs), steps))
    ensures var plan := Run(NewState(defs), steps);
            var gate := plan.gates[defs[i].id];
            (gate.status == BLOQUEADO <==> Unresolved(gate))
            && (Complete(gate) ==> EvidenceComplete(gate) && forall j :: 0 <= j < i ==> Complete(plan.gates[defs[j].id]))
            && (Active(plan) != Some(defs[i].id) && !Complete(gate) ==> gate == FreshGate(defs, i))
  {
    hide Run, EvidenceComplete, Unresolved, FreshGate, NewState, DependsOn, Ids;
    var n := RunProgress(defs, steps);
    var plan := Run(NewState(defs), steps);
    ActiveGate(defs, plan, n);
    assert GateOk(defs, i, plan.gates[defs[i].id]);
    if n < i {
      FreshGateOk(defs, i);
    }
    if n < |defs| {
      ActiveIncomplete(defs, plan, n);
    }
  }

  // ---------- What each command does ----------

  /** The active gate of a plan whose first n gates are complete. */
  predicate IsActive(defs: seq<Definition>, n: nat, id: string) {
    n < |defs| && defs[n].id == id
  }

  lemma StartOutcome(defs: seq<Definition>, plan: Plan, n: nat, id: string, now: int)
    requires GoodDefinitions(defs) && Progress(defs, plan, n) && Known(plan)
    ensures var r := StartGate(plan, id, now);
            if !IsActive(defs, n, id) then r == Err(OutOfOrder)
            else
              && id in plan.gates
              && var g := plan.gates[id];
              && g.status in {PENDENTE, EM_EXECUCAO, BLOQUEADO}
              && (g.status == BLOQUEADO ==> r == Err(GateBlocked))
              && (g.status == EM_EXECUCAO ==> r == Ok(plan))
              && (g.status == PENDENTE ==>
                    r == Ok(plan.(gates := plan.gates[id := g.(status := EM_EXECUCAO, startedAt := Some(now))])))
  {
    hide Progress, EnsureActive, GateOk, GoodDefinitions;
    ActiveGate(defs, plan, n);
    if n < |defs| {
      ActiveGateOk(defs, plan, n);
    }
  }

  /** Evidence is taken for a started gate that is not blocked, from eight characters on, without the space around it. */
  lemma EvidenceOutcome(defs: seq<Definition>, plan: Plan, n: nat, id: string, kind: Kind, value: string, now: int)
    requires GoodDefinitions(defs) && Progress(defs, plan, n) && Known(plan)
    ensures var r := AddEvidence(plan, id, kind, value, now);
            if !IsActive(defs, n, id) then r == Err(OutOfOrder)
            else
              && id in plan.gates
              && var g := plan.gates[id];
              if g.status != EM_EXECUCAO then r == Err(NotStarted)
              else if |Strip(value)| <= 7 then r == Err(EvidenceTooVague)
              else r == Ok(plan.(gates := plan.gates[id := g.(evidence := g.evidence + [Evidence(now, kind, Strip(value))])]))
  {
    hide Progress, EnsureActive, GateOk, GoodDefinitions, Strip;
    ActiveGate(defs, plan, n);
    if n < |defs| {
      ActiveGateOk(defs, plan, n);
    }
  }

  /** A gate that is not blocked is completed with every required kind of evidence and twelve characters of summary. */
  lemma CompleteOutcome(defs: seq<Definition>, plan: Plan, n: nat, id: string, summary: string, now: int)
    requires GoodDefinitions(defs) && Progress(defs, plan, n) && Known(plan)
    ensures var r := CompleteGate(plan, id, summary, now);
            if !IsActive(defs, n, id) then r == Err(OutOfOrder)
            else
              && id in plan.gates
              && var g := plan.gates[id];
              if g.status == BLOQUEADO then r == Err(GateBlocked)
              else if exists kind :: kind in defs[n].required && forall e :: e in g.evidence ==> e.kind != kind then
                r == Err(MissingEvidence)
              else if |Strip(summary)| <= 11 then r == Err(SummaryTooVague)
              else
                r == Ok(plan.(gates := plan.gates[id := g.(status := defs[n].target, completedAt := Some(now),
                                                           summary := Some(Strip(summary)))]))
  {
    hide Progress, EnsureActive, GoodDefinitions, Strip, Unresolved;
    ActiveGate(defs, plan, n);
    if n < |defs| {
      ActiveGateOk(defs, plan, n);
      if IsActive(defs, n, id) {
        EvidenceMeaning(plan.gates[id]);
      }
    }
  }

  lemma EvidenceMeaning(gate: Gate)
    ensures EvidenceComplete(gate) <==>
            !exists kind :: kind in gate.required && forall e :: e in gate.evidence ==> e.kind != kind
  {
    forall kind | kind in gate.required
      ensures HasKind(gate.evidence, kind) <==> exists e :: e in gate.evidence && e.kind == kind
    {
    }
    if EvidenceComplete(gate) {
      forall kind | kind in gate.required
        ensures HasKind(gate.evidence, kind)
      {
        var i :| 0 <= i < |gate.required| && gate.required[i] == kind;
      }
    } else {
      var i :| 0 <= i < |gate.required| && !HasKind(gate.evidence, gate.required[i]);
      assert gate.required[i] in gate.required;
    }
  }

  /** The active gate is blocked with a reason of twelve characters, and counts as started. */
  lemma BlockOutcome(defs: seq<Definition>, plan: Plan, n: nat, id: string, reason: string, now: int)
    requires GoodDefinitions(defs) && Progress(defs, plan, n) && Known(plan)
    ensures var r := BlockGate(plan, id, reason, now);
            if !IsActive(defs, n, id) then r == Err(OutOfOrder)
            else if |Strip(reason)| <= 11 then r == Err(ReasonTooVague)
            else
              && id in plan.gates
              && var g := plan.gates[id];
              var started := if g.startedAt == None then Some(now) else g.startedAt;
              r == Ok(plan.(gates := plan.gates[id := g.(status := BLOQUEADO, startedAt := started,
                                                         blockers := g.blockers + [Blocker(now, Strip(reason), None)])]))
  {
    hide Progress, EnsureActive, GateOk, GoodDefinitions, Strip;
    ActiveGate(defs, plan, n);
  }

  /** A blocked gate goes back to work with every open blocker resolved now and the others as they were. */
  lemma UnblockOutcome(defs: seq<Definition>, plan: Plan, n: nat, id: string, now: int)
    requires GoodDefinitions(defs) && Progress(defs, plan, n)
    ensures var r := UnblockGate(plan, id, now);
            && (r == Err(UnknownGate) <==> id !in plan.gates)
            && (id in plan.gates ==>
                  var g := plan.gates[id];
                  if g.status != BLOQUEADO then r == Err(NotBlocked)
                  else
                    && r.Ok? && id in r.value.gates
                    && r.value == plan.(gates := plan.gates[id := r.value.gates[id]])
                    && var g' := r.value.gates[id];
                    && g' == g.(status := EM_EXECUCAO, blockers := g'.blockers)
                    && |g'.blockers| == |g.blockers|
                    && forall i :: 0 <= i < |g.blockers| ==>
                         g'.blockers[i] == Blocker(g.blockers[i].at, g.blockers[i].reason,
                                                   if g.blockers[i].resolvedAt == None then Some(now) else g.blockers[i].resolvedAt))
  {
    hide EvidenceComplete, DependsOn, Ids;
    if id in plan.gates {
      assert InPlan(defs, id);
      var i :| 0 <= i < |defs| && defs[i].id == id;
      assert GateOk(defs, i, plan.gates[id]);
    }
  }

  /** A fresh plan: every gate pending, behind the one before it, with nothing recorded. */
  lemma FreshOutcome(defs: seq<Definition>, i: nat)
    requires GoodDefinitions(defs) && i < |defs|
    ensures NewState(defs).workflow[i] == defs[i].id && |NewState(defs).workflow| == |defs|
    ensures defs[i].id in NewState(defs).gates
    ensures NewState(defs).gates[defs[i].id] ==
            Gate(PENDENTE, defs[i].target, if i == 0 then [] else [defs[i - 1].id], defs[i].required, None, None, None, [], [])
  {
    FreshGatesAt(defs, |defs|);
  }

  /** The first gate of the workflow whose status is not its target. */
  predicate FirstIncomplete(plan: Plan, id: string)
    requires Known(plan)
  {
    exists n :: 0 <= n < |plan.workflow| && IncompleteAt(plan, id, n)
  }

  predicate IncompleteAt(plan: Plan, id: string, n: nat)
    requires Known(plan) && n < |plan.workflow|
  {
    && plan.workflow[n] == id && plan.gates[id].status != plan.gates[id].target
    && forall j :: 0 <= j < n ==> plan.gates[plan.workflow[j]].status == plan.gates[plan.workflow[j]].target
  }

  /** On any plan, a command is in order for the first incomplete gate only, and then its dependencies must be complete. */
  lemma OrderOutcome(plan: Plan, id: string)
    requires Known(plan)
    ensures var r := EnsureActive(plan, id);
            && (r == Err(OutOfOrder) <==> !FirstIncomplete(plan, id))
            && (FirstIncomplete(plan, id) ==>
                  (r == Err(DependencyIncomplete) <==>
                     exists d :: d in plan.gates[id].dependsOn
                       && (d !in plan.gates || plan.gates[d].status != plan.gates[d].target)))
            && (r.Ok? ==> r.value == plan.gates[id])
  {
    hide DependenciesMet;
    var m := ActiveFrom(plan, 0);
    if id in plan.gates {
      DependenciesMeaning(plan, plan.gates[id]);
    }
    assert m < |plan.workflow| ==> IncompleteAt(plan, plan.workflow[m], m);
    forall n: nat | n < |plan.workflow| && IncompleteAt(plan, id, n)
      ensures m == n
    {
    }
  }

  lemma DependenciesMeaning(plan: Plan, gate: Gate)
    ensures DependenciesMet(plan, gate) <==>
            forall d :: d in gate.dependsOn ==> d in plan.gates && plan.gates[d].status == plan.gates[d].target
  {
    if DependenciesMet(plan, gate) {
      forall d | d in gate.dependsOn
        ensures d in plan.gates && plan.gates[d].status == plan.gates[d].target
      {
        var i :| 0 <= i < |gate.dependsOn| && gate.dependsOn[i] == d;
      }
    }
  }

  /** On any plan, a blocked gate without an open blocker cannot be unblocked. */
  lemma NothingToResolve(plan: Plan, id: string, now: int)
    requires id in plan.gates && plan.gates[id].status == BLOQUEADO
    ensures UnblockGate(plan, id, now) == Err(NoUnresolvedBlocker) <==>
            forall b :: b in plan.gates[id].blockers ==> b.resolvedAt.Some?
  {
    hide ResolveAll;
    var blockers := plan.gates[id].blockers;
    if Unresolved(plan.gates[id]) {
      var i :| 0 <= i < |blockers| && blockers[i].resolvedAt.None?;
      assert blockers[i] in blockers;
    }
  }
}
