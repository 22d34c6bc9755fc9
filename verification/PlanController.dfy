/** The commands of the gate controller, which change the gates of a plan in place. */
module PlanController {
  import opened Wrappers
  import opened Text
  import opened PlanControl

  class Controller {
    ghost const defs: seq<Definition>
    var workflow: seq<string>
    var gates: map<string, Gate>

    ghost function Contents(): Plan
      reads this
    {
      Plan(workflow, gates)
    }

    ghost predicate Valid()
      reads this
    {
      GoodDefinitions(defs) && exists n :: Progress(defs, Contents(), n)
    }

    constructor (defs: seq<Definition>)
      requires GoodDefinitions(defs)
      ensures this.defs == defs && Contents() == NewState(defs) && Valid()
    {
      FreshPlan(defs);
      this.defs := defs;
      workflow, gates := NewState(defs).workflow, NewState(defs).gates;
    }

    lemma Consistent() returns (n: nat)
      requires Valid()
      ensures Progress(defs, Contents(), n) && Known(Contents())
    {
      n :| Progress(defs, Contents(), n);
      ActiveGate(defs, Contents(), n);
    }

    /** The first gate of the workflow that is not complete. */
    method ActiveGateId() returns (id: Option<string>)
      requires Known(Contents())
      ensures id == Active(Contents())
    {
      var i := 0;
      while i < |workflow|
        invariant 0 <= i <= |workflow|
        invariant ActiveFrom(Contents(), 0) == ActiveFrom(Contents(), i)
      {
        if !Complete(gates[workflow[i]]) {
          return Some(workflow[i]);
        }
        i := i + 1;
      }
      return None;
    }

    method EnsureActiveGate(id: string) returns (r: Result<Gate, Error>)
      requires Known(Contents())
      ensures r == EnsureActive(Contents(), id)
    {
      var current := ActiveGateId();
      if current != Some(id) {
        return Err(OutOfOrder);
      }
      if !DependenciesMet(Plan(workflow, gates), gates[id]) {
        return Err(DependencyIncomplete);
      }
      return Ok(gates[id]);
    }

    method CmdStart(id: string, now: int) returns (r: Result<(), Error>)
      requires Valid()
      modifies this`gates
      ensures Valid() && Known(old(Contents())) && Contents() == Apply(old(Contents()), Start(id, now))
      ensures r == match Attempt(old(Contents()), Start(id, now)) case Ok(_) => Ok(()) case Err(e) => Err(e)
    {
      hide GoodDefinitions, Progress, EnsureActive;
      var n := Consistent();
      ApplyKeeps(defs, Contents(), n, Start(id, now));
      ghost var m := After(n, Start(id, now));
      var gate :- EnsureActiveGate(id);
      if gate.status == BLOQUEADO {
        return Err(GateBlocked);
      }
      if gate.status == PENDENTE {
        gates := gates[id := gate.(status := EM_EXECUCAO, startedAt := Some(now))];
      }
      assert Progress(defs, Contents(), m);
      return Ok(());
    }

    method CmdEvidence(id: string, kind: Kind, value: string, now: int) returns (r: Result<(), Error>)
      requires Valid()
      modifies this`gates
      ensures Valid() && Known(old(Contents())) && Contents() == Apply(old(Contents()), Evidenced(id, kind, value, now))
      ensures r == match Attempt(old(Contents()), Evidenced(id, kind, value, now)) case Ok(_) => Ok(()) case Err(e) => Err(e)
    {
      hide GoodDefinitions, Progress, EnsureActive, Strip;
      var n := Consistent();
      ApplyKeeps(defs, Contents(), n, Evidenced(id, kind, value, now));
      ghost var m := After(n, Evidenced(id, kind, value, now));
      var gate :- EnsureActiveGate(id);
      if gate.status in {PENDENTE, BLOQUEADO} {
        return Err(NotStarted);
      }
      var stripped := Strip(value);
      if |stripped| < 8 {
        return Err(EvidenceTooVague);
      }
      gates := gates[id := gate.(evidence := gate.evidence + [Evidence(now, kind, stripped)])];
      assert Progress(defs, Contents(), m);
      return Ok(());
    }

    method CmdComplete(id: string, summary: string, now: int) returns (r: Result<(), Error>)
      requires Valid()
      modifies this`gates
      ensures Valid() && Known(old(Contents())) && Contents() == Apply(old(Contents()), Completed(id, summary, now))
      ensures r == match Attempt(old(Contents()), Completed(id, summary, now)) case Ok(_) => Ok(()) case Err(e) => Err(e)
    {
      hide GoodDefinitions, Progress, EnsureActive, Strip;
      var n := Consistent();
      ApplyKeeps(defs, Contents(), n, Completed(id, summary, now));
      ghost var m := After(n, Completed(id, summary, now));
      var gate :- EnsureActiveGate(id);
      if gate.status == BLOQUEADO {
        return Err(GateBlocked);
      }
      if !EvidenceComplete(gate) {
        return Err(MissingEvidence);
      }
      var stripped := Strip(summary);
      if |stripped| < 12 {
        return Err(SummaryTooVague);
      }
      gates := gates[id := gate.(status := gate.target, completedAt := Some(now), summary := Some(stripped))];
      assert Progress(defs, Contents(), m);
      return Ok(());
    }

    method CmdBlock(id: string, reason: string, now: int) returns (r: Result<(), Error>)
      requires Valid()
      modifies this`gates
      ensures Valid() && Known(old(Contents())) && Contents() == Apply(old(Contents()), Block(id, reason, now))
      ensures r == match Attempt(old(Contents()), Block(id, reason, now)) case Ok(_) => Ok(()) case Err(e) => Err(e)
    {
      hide GoodDefinitions, Progress, EnsureActive, Strip;
      var n := Consistent();
      ApplyKeeps(defs, Contents(), n, Block(id, reason, now));
      ghost var m := After(n, Block(id, reason, now));
      var gate :- EnsureActiveGate(id);
      var stripped := Strip(reason);
      if |stripped| < 12 {
        return Err(ReasonTooVague);
      }
      var startedAt := if gate.startedAt.Some? then gate.startedAt else Some(now);
      gates := gates[id := gate.(status := BLOQUEADO, startedAt := startedAt,
                                 blockers := gate.blockers + [Blocker(now, stripped, None)])];
      assert Progress(defs, Contents(), m);
      return Ok(());
    }

    method CmdUnblock(id: string, now: int) returns (r: Result<(), Error>)
      requires Valid()
      modifies this`gates
      ensures Valid() && Known(old(Contents())) && Contents() == Apply(old(Contents()), Unblock(id, now))
      ensures r == match Attempt(old(Contents()), Unblock(id, now)) case Ok(_) => Ok(()) case Err(e) => Err(e)
    {
      hide GoodDefinitions, Progress;
      var n := Consistent();
      ApplyKeeps(defs, Contents(), n, Unblock(id, now));
      ghost var m := After(n, Unblock(id, now));
      if id !in gates {
        return Err(UnknownGate);
      }
      var gate := gates[id];
      if gate.status != BLOQUEADO {
        return Err(NotBlocked);
      }
      if !Unresolved(gate) {
        return Err(NoUnresolvedBlocker);
      }
      var blockers := gate.blockers;
      for i := 0 to |blockers|
        invariant |blockers| == |gate.blockers|
        invariant forall k :: 0 <= k < i ==> blockers[k] == ResolveAll(gate.blockers, now)[k]
        invariant forall k :: i <= k < |blockers| ==> blockers[k] == gate.blockers[k]
      {
        if blockers[i].resolvedAt.None? {
          blockers := blockers[i := blockers[i].(resolvedAt := Some(now))];
        }
      }
      assert blockers == ResolveAll(gate.blockers, now);
      gates := gates[id := gate.(status := EM_EXECUCAO, blockers := blockers)];
      assert Progress(defs, Contents(), m);
      return Ok(());
    }

    /** final-check: the number of issues found; the state's shape is kept by every command. */
    method CmdFinal(planFile: bool) returns (issues: nat)
      requires Valid()
      ensures Known(Contents()) && issues == Issues(Contents(), |workflow|) + (if planFile then 0 else 1)
      ensures issues == 0 <==> FinalPasses(defs, Contents(), planFile)
      ensures issues == 0 <==> planFile && Known(Contents()) && Active(Contents()).None?
    {
      var n := Consistent();
      PassesIff(defs, Contents(), n, planFile);
      issues := CountIssues();
      issues := issues + if planFile then 0 else 1;
    }

    /** One issue for each gate that is not complete, lacks evidence or has an unresolved blocker. */
    method CountIssues() returns (issues: nat)
      requires Known(Contents())
      ensures issues == Issues(Contents(), |workflow|)
      ensures issues == 0 <==> forall k :: 0 <= k < |workflow| ==> Clean(gates[workflow[k]])
    {
      hide Complete, EvidenceComplete, Unresolved;
      issues := 0;
      var i := 0;
      while i < |workflow|
        invariant 0 <= i <= |workflow|
        invariant issues == Issues(Contents(), i)
        invariant issues == 0 <==> forall k :: 0 <= k < i ==> Clean(gates[workflow[k]])
      {
        var gate := gates[workflow[i]];
        if !Complete(gate) {
          issues := issues + 1;
        }
        if !EvidenceComplete(gate) {
          issues := issues + 1;
        }
        if Unresolved(gate) {
          issues := issues + 1;
        }
        i := i + 1;
      }
    }
  }

  /** The issues of the first n gates: not complete, lacking evidence, an unresolved blocker. */
  function Issues(plan: Plan, n: nat): nat
    requires Known(plan) && n <= |plan.workflow|
  {
    if n == 0 then 0
    else
      var gate := plan.gates[plan.workflow[n - 1]];
      Issues(plan, n - 1) + (if Complete(gate) then 0 else 1) + (if EvidenceComplete(gate) then 0 else 1)
      + (if Unresolved(gate) then 1 else 0)
  }

  /** A gate the final check finds nothing against. */
  predicate Clean(gate: Gate) {
    Complete(gate) && EvidenceComplete(gate) && !Unresolved(gate)
  }

  lemma PassesIff(defs: seq<Definition>, plan: Plan, n: nat, planFile: bool)
    requires GoodDefinitions(defs) && Progress(defs, plan, n) && Known(plan)
    ensures FinalPasses(defs, plan, planFile) <==> planFile && forall k :: 0 <= k < |plan.workflow| ==> Clean(plan.gates[plan.workflow[k]])
    ensures FinalPasses(defs, plan, planFile) <==> planFile && Active(plan).None?
  {
    hide EvidenceComplete, Unresolved, FreshGate, DependsOn;
    ActiveGate(defs, plan, n);
    forall i | 0 <= i < |defs|
      ensures Defined(defs, i, plan.gates[defs[i].id]) && plan.workflow[i] == defs[i].id
      ensures Complete(plan.gates[defs[i].id]) ==> Clean(plan.gates[defs[i].id])
    {
      assert GateOk(defs, i, plan.gates[defs[i].id]);
    }
    if n < |defs| {
      ActiveIncomplete(defs, plan, n);
    }
  }
}
