/** The end signal and the dispatcher as operations on the session and outbox rows and on the workflow service. */
module OutboxService {
  import opened Wrappers
  import S = SessionStates
  import opened Outbox

  class WorkflowServer {
    var starts: seq<Start>
    var running: set<string>

    ghost function Contents(): Temporal
      reads this
    {
      Temporal(starts, running)
    }

    constructor ()
      ensures starts == [] && running == {}
    {
      starts, running := [], {};
    }

    /** start_process_exam_by_workflow_id; false stands for an error that the caller sees. */
    method StartProcessExam(id: string, outcome: Outcome) returns (ok: bool)
      modifies this
      ensures (Contents(), ok) == StartWorkflow(old(Contents()), id, outcome)
      ensures id in old(running) ==> starts == old(starts) && running == old(running)
      ensures ok ==> id in running
      ensures old(starts) <= starts && old(running) <= running <= old(running) + {id}
      ensures ok <==> outcome == Works
      ensures CountStarts(starts, id) == CountStarts(old(starts), id) + (if id in running - old(running) then 1 else 0)
    {
      hide RemoveFirst, CountStarts;
      if outcome == FailsBefore {
        return false;
      }
      var arg := RemoveFirst(id, PREFIX);
      CountPush(starts, Start(id, arg), id);
      if id !in running {
        starts := starts + [Start(id, arg)];
        running := running + {id};
      }
      return outcome == Works;
    }
  }

  class OutboxStore {
    var sessions: map<string, S.State>
    var outbox: seq<Row>
    const server: WorkflowServer

    ghost function Contents(): World
      reads this, server
    {
      World(sessions, outbox, server.Contents())
    }

    ghost predicate Valid()
      reads this, server
    {
      WorldOk(Contents()) && RunningStarted(Contents().temporal)
    }

    constructor (server: WorkflowServer)
      requires server.Contents() == Temporal([], {})
      ensures this.server == server && Contents() == EMPTY && Valid()
    {
      this.server := server;
      sessions, outbox := map[], [];
    }

    method EnqueueWorkflowIntent(sid: string) returns (row: Row)
      modifies this`outbox
      ensures outbox == Enqueue(old(outbox), sid)
      ensures row in outbox && row.session == sid
    {
      if HasRow(outbox, sid) {
        var k :| 0 <= k < |outbox| && outbox[k].session == sid;
        return outbox[k];
      }
      row := Row(sid, WorkflowId(sid), PENDING, 0);
      outbox := outbox + [row];
    }

    /** end_signal; None for an unknown session. */
    method SignalEnd(sid: string) returns (locked: Option<bool>)
      requires Valid()
      modifies this
      ensures Valid() && Contents() == Apply(old(Contents()), EndSignalStep(sid, true))
      ensures locked == if sid in old(sessions) then Some(!S.Terminal(old(sessions)[sid])) else None
    {
      hide WorldOk, RunningStarted, WorkflowId, S.Allowed;
      ApplyKeeps(Contents(), EndSignalStep(sid, true));
      if sid !in sessions {
        return None;
      }
      var current := sessions[sid];
      if S.Terminal(current) {
        return Some(false);
      }
      if current == S.LOCKED {
        return Some(true);
      }
      if current == S.CAPTURING {
        current := S.CAPTURE_END_CANDIDATE;
      }
      if current == S.CAPTURE_END_CANDIDATE {
        current := S.CAPTURE_LOCKING;
      }
      if current == S.CAPTURE_LOCKING {
        current := S.LOCKED;
      }
      var mapped := sessions[sid := current];
      assert current == old(sessions)[sid] ==> mapped == sessions;
      sessions := mapped;
      var _ := EnqueueWorkflowIntent(sid);
      return Some(true);
    }

    /** dispatch_pending, with the commit of its caller: every selected row is counted as dispatched or as failed. */
    method DispatchPending(limit: nat, locked: set<nat>, oracle: nat -> Outcome, commits: bool)
      returns (dispatched: nat, failed: nat)
      requires Valid()
      modifies this, server
      ensures Valid() && Contents() == Outbox.DispatchPending(old(Contents()), limit, locked, oracle, commits)
      ensures dispatched == Working(Selected(old(outbox), limit, locked), oracle)
      ensures dispatched + failed == |Selected(old(outbox), limit, locked)|
    {
      hide *;
      ApplyPass(Contents(), limit, locked, oracle, commits);
      dispatched, failed := 0, 0;
      ghost var start := Contents();
      var committed := outbox;
      var positions := Selected(outbox, limit, locked);
      DispatchNone(start, oracle);
      NoneWorking(oracle);
      ValidContents();
      var i := 0;
      while i < |positions|
        invariant 0 <= i <= |positions|
        invariant sessions == start.sessions && |outbox| == |committed|
        invariant World(sessions, outbox, Temporal(server.starts, server.running)) == DispatchAll(start, positions[..i], oracle)
        invariant dispatched == Working(positions[..i], oracle) && dispatched + failed == i
      {
        var k := positions[i];
        DispatchMore(start, positions, i, oracle);
        MoreWorking(positions, i, oracle);
        var row := outbox[k];
        ServerContents(server);
        var ok := server.StartProcessExam(row.workflowId, oracle(k));
        ServerContents(server);
        if ok {
          outbox := outbox[k := row.(status := DISPATCHED)];
          dispatched := dispatched + 1;
        } else {
          outbox := outbox[k := row.(status := FAILED, attempts := row.attempts + 1)];
          failed := failed + 1;
        }
        i := i + 1;
      }
      assert positions[..i] == positions;
      if !commits {
        outbox := committed;
      }
      ValidContents();
    }

    lemma ValidContents()
      ensures Contents() == World(sessions, outbox, Temporal(server.starts, server.running))
      ensures Valid() <==> WorldOk(Contents()) && RunningStarted(Contents().temporal)
    {
    }
  }

  /** How many of the starts work. */
  function Working(positions: seq<nat>, oracle: nat -> Outcome): nat {
    if positions == [] then 0
    else Working(positions[..|positions| - 1], oracle) + (if oracle(positions[|positions| - 1]) == Works then 1 else 0)
  }

  lemma NoneWorking(oracle: nat -> Outcome)
    ensures Working([], oracle) == 0
  {
  }

  lemma MoreWorking(positions: seq<nat>, i: nat, oracle: nat -> Outcome)
    requires i < |positions|
    ensures Working(positions[..i + 1], oracle) == Working(positions[..i], oracle) + (if oracle(positions[i]) == Works then 1 else 0)
  {
    assert positions[..i + 1][..i] == positions[..i];
  }

  lemma ServerContents(server: WorkflowServer)
    ensures server.Contents() == Temporal(server.starts, server.running)
  {
  }

  lemma DispatchNone(w: World, oracle: nat -> Outcome)
    ensures DispatchAll(w, [], oracle) == w
  {
  }

  lemma DispatchMore(w: World, positions: seq<nat>, i: nat, oracle: nat -> Outcome)
    requires i < |positions| && forall j :: 0 <= j < |positions| ==> positions[j] < |w.outbox|
    ensures var before := DispatchAll(w, positions[..i], oracle);
            var row := before.outbox[positions[i]];
            var (temporal, ok) := StartWorkflow(before.temporal, row.workflowId, oracle(positions[i]));
            DispatchAll(w, positions[..i + 1], oracle)
            == before.(temporal := temporal,
                       outbox := before.outbox[positions[i] := if ok then row.(status := DISPATCHED)
                                                               else row.(status := FAILED, attempts := row.attempts + 1)])
  {
    hide StartWorkflow, DispatchOne;
    assert positions[..i + 1][..i] == positions[..i];
    DispatchedRow(DispatchAll(w, positions[..i], oracle), positions[i], oracle(positions[i]));
  }

  lemma DispatchedRow(w: World, k: nat, outcome: Outcome)
    requires k < |w.outbox|
    ensures var row := w.outbox[k];
            var (temporal, ok) := StartWorkflow(w.temporal, row.workflowId, outcome);
            DispatchOne(w, k, outcome)
            == w.(temporal := temporal,
                  outbox := w.outbox[k := if ok then row.(status := DISPATCHED)
                                          else row.(status := FAILED, attempts := row.attempts + 1)])
  {
    hide StartWorkflow;
  }

  lemma ApplyPass(w: World, limit: nat, locked: set<nat>, oracle: nat -> Outcome, commits: bool)
    ensures var after := DispatchAll(w, Selected(w.outbox, limit, locked), oracle);
            Outbox.DispatchPending(w, limit, locked, oracle, commits) == (if commits then after else w.(temporal := after.temporal))
    ensures WorldOk(w) && RunningStarted(w.temporal) ==>
              var w' := Outbox.DispatchPending(w, limit, locked, oracle, commits);
              WorldOk(w') && RunningStarted(w'.temporal)
  {
    hide WorldOk, RunningStarted, Selected, DispatchAll;
    if WorldOk(w) && RunningStarted(w.temporal) {
      ApplyKeeps(w, DispatchStep(limit, locked, oracle, commits));
    }
  }
}
