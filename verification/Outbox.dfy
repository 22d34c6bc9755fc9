/**
 The transactional outbox of capture/dispatcher.py: an intent written with the lock, and a dispatcher that
 may fail or crash between starting a workflow and committing the row.
 */
module Outbox {
  import S = SessionStates

  datatype Dispatch = PENDING | FAILED | DISPATCHED

  datatype Row = Row(session: string, workflowId: string, status: Dispatch, attempts: nat)

  datatype Start = Start(id: string, arg: string)

  /** The workflow service: every run it started, and the ids with a run still open. */
  datatype Temporal = Temporal(starts: seq<Start>, running: set<string>)

  datatype World = World(sessions: map<string, S.State>, outbox: seq<Row>, temporal: Temporal)

  /** What becomes of a start request: it may fail before or after it took effect. */
  datatype Outcome = Works | FailsBefore | FailsAfter

  const PREFIX: string := "process-exam-"

  /** workflow_id_for. */
  function WorkflowId(sid: string): string {
    PREFIX + sid
  }

  /** s.replace(pattern, "", 1). */
  function RemoveFirst(s: string, pattern: string): string
    decreases |s|
  {
    if pattern <= s then s[|pattern|..]
    else if s == "" then s
    else [s[0]] + RemoveFirst(s[1..], pattern)
  }

  /** The argument is recovered from the id, even for a session id that itself contains the prefix. */
  lemma ArgumentOfId(sid: string)
    ensures RemoveFirst(WorkflowId(sid), PREFIX) == sid
    ensures forall t :: WorkflowId(sid) == WorkflowId(t) ==> sid == t
  {
    assert WorkflowId(sid)[|PREFIX|..] == sid;
    forall t | WorkflowId(sid) == WorkflowId(t)
      ensures sid == t
    {
      assert WorkflowId(t)[|PREFIX|..] == t;
    }
  }

  // ---------- Starting ----------

  /** start_workflow: an id that is running is not started again, which counts as success. */
  function StartWorkflow(t: Temporal, id: string, outcome: Outcome): (Temporal, bool) {
    if outcome == FailsBefore then (t, false)
    else if id in t.running then (t, outcome == Works)
    else (Temporal(t.starts + [Start(id, RemoveFirst(id, PREFIX))], t.running + {id}), outcome == Works)
  }

  // ---------- The dispatcher ----------

  /** The first limit rows still to be sent that no other transaction holds. */
  function Selected(outbox: seq<Row>, limit: nat, locked: set<nat>): (positions: seq<nat>)
    ensures |positions| <= limit
    ensures forall i :: 0 <= i < |positions| ==> positions[i] < |outbox| && outbox[positions[i]].status != DISPATCHED
    ensures forall i, j :: 0 <= i < j < |positions| ==> positions[i] < positions[j]
  {
    if outbox == [] then []
    else
      var n := |outbox| - 1;
      var before := Selected(outbox[..n], limit, locked);
      if outbox[n].status != DISPATCHED && n !in locked && |before| < limit then before + [n] else before
  }

  function DispatchOne(w: World, k: nat, outcome: Outcome): World
    requires k < |w.outbox|
  {
    var row := w.outbox[k];
    var (temporal, ok) := StartWorkflow(w.temporal, row.workflowId, outcome);
    w.(temporal := temporal,
       outbox := w.outbox[k := if ok then row.(status := DISPATCHED) else row.(status := FAILED, attempts := row.attempts + 1)])
  }

  function DispatchAll(w: World, positions: seq<nat>, oracle: nat -> Outcome): (r: World)
    requires forall i :: 0 <= i < |positions| ==> positions[i] < |w.outbox|
    ensures |r.outbox| == |w.outbox|
    decreases |positions|
  {
    if positions == [] then w
    else
      var n := |positions| - 1;
      DispatchOne(DispatchAll(w, positions[..n], oracle), positions[n], oracle(positions[n]))
  }

  /** A transaction that does not commit loses its rows, but not what it did to the workflow service. */
  function Commit(before: World, after: World, commits: bool): World {
    if commits then after else before.(temporal := after.temporal)
  }

  /** dispatch_pending and the commit of its caller. */
  function DispatchPending(w: World, limit: nat, locked: set<nat>, oracle: nat -> Outcome, commits: bool): World {
    Commit(w, DispatchAll(w, Selected(w.outbox, limit, locked), oracle), commits)
  }

  // ---------- The end signal ----------

  predicate HasRow(outbox: seq<Row>, sid: string) {
    exists k :: 0 <= k < |outbox| && outbox[k].session == sid
  }

  /** enqueue_workflow_intent. */
  function Enqueue(outbox: seq<Row>, sid: string): seq<Row> {
    if HasRow(outbox, sid) then outbox else outbox + [Row(sid, WorkflowId(sid), PENDING, 0)]
  }

  predicate Ignored(status: S.State) {
    S.Terminal(status) || status == S.LOCKED
  }

  /** end_signal: only an open session is walked to LOCKED, but any session not ignored gets an intent. */
  function EndSignal(w: World, sid: string): World
    requires sid in w.sessions
  {
    if Ignored(w.sessions[sid]) then w
    else
      w.(sessions := if S.UploadOpen(w.sessions[sid]) then w.sessions[sid := S.LOCKED] else w.sessions,
         outbox := Enqueue(w.outbox, sid))
  }

  /** The end signal of a handwritten session also dispatches, inside its own transaction. */
  function EndSignalAndDispatch(w: World, sid: string, oracle: nat -> Outcome): World
    requires sid in w.sessions
  {
    if Ignored(w.sessions[sid]) then w
    else DispatchAll(EndSignal(w, sid), Selected(EndSignal(w, sid).outbox, 20, {}), oracle)
  }

  // ---------- Steps and runs ----------

  datatype Step =
    | NewSession(sid: string, created: bool)
    | Transition(sid: string, target: S.State)
    | EndSignalStep(sid: string, commits: bool)
    | EndSignalDispatchStep(sid: string, oracle: nat -> Outcome, commits: bool)
    | DispatchStep(limit: nat, locked: set<nat>, oracle: nat -> Outcome, commits: bool)
    | WorkflowCloses(id: string)

  /** Sessions are only locked by an end signal. */
  function Apply(w: World, step: Step): World {
    match step
    case NewSession(sid, created) =>
      if sid in w.sessions then w else w.(sessions := w.sessions[sid := if created then S.CREATED else S.CAPTURING])
    case Transition(sid, target) =>
      if sid in w.sessions && target in S.Allowed(w.sessions[sid]) && target != S.LOCKED then
        w.(sessions := w.sessions[sid := target])
      else w
    case EndSignalStep(sid, commits) => if sid in w.sessions then Commit(w, EndSignal(w, sid), commits) else w
    case EndSignalDispatchStep(sid, oracle, commits) =>
      if sid in w.sessions then Commit(w, EndSignalAndDispatch(w, sid, oracle), commits) else w
    case DispatchStep(limit, locked, oracle, commits) => DispatchPending(w, limit, locked, oracle, commits)
    case WorkflowCloses(id) => w.(temporal := w.temporal.(running := w.temporal.running - {id}))
  }

  function Run(w: World, steps: seq<Step>): World
    decreases |steps|
  {
    if steps == [] then w else Apply(Run(w, steps[..|steps| - 1]), steps[|steps| - 1])
  }

  const EMPTY: World := World(map[], [], Temporal([], {}))

  // ---------- The invariant ----------

  predicate Started(t: Temporal, id: string) {
    exists i :: 0 <= i < |t.starts| && t.starts[i].id == id
  }

  /**
   * A locked session has exactly one row; a row carries its session's own workflow id; DISPATCHED means started; and
   * every run was started with the session of its id as argument.
   */
  ghost predicate WorldOk(w: World) {
    && (forall sid :: sid in w.sessions && w.sessions[sid] == S.LOCKED ==> HasRow(w.outbox, sid))
    && (forall k :: 0 <= k < |w.outbox| ==> w.outbox[k].workflowId == WorkflowId(w.outbox[k].session))
    && (forall k, l :: 0 <= k < l < |w.outbox| ==> w.outbox[k].session != w.outbox[l].session)
    && (forall k :: 0 <= k < |w.outbox| && w.outbox[k].status == DISPATCHED ==> Started(w.temporal, w.outbox[k].workflowId))
    && (forall i :: 0 <= i < |w.temporal.starts| ==> w.temporal.starts[i].id == WorkflowId(w.temporal.starts[i].arg))
  }

  /** Rows are never lost, and DISPATCHED never reverts; a start is never forgotten. */
  ghost predicate Later(w: World, w': World) {
    && |w.outbox| <= |w'.outbox|
    && (forall k :: 0 <= k < |w.outbox| ==>
          && w'.outbox[k].session == w.outbox[k].session
          && (w.outbox[k].status == DISPATCHED ==> w'.outbox[k] == w.outbox[k]))
    && w.temporal.starts <= w'.temporal.starts
  }

  lemma LaterTransitive(a: World, b: World, c: World)
    requires Later(a, b) && Later(b, c)
    ensures Later(a, c)
  {
  }

  lemma StartedGrows(t: Temporal, t': Temporal, id: string)
    requires Started(t, id) && t.starts <= t'.starts
    ensures Started(t', id)
  {
    var i :| 0 <= i < |t.starts| && t.starts[i].id == id;
    assert t'.starts[i].id == id;
  }

  lemma StartKeeps(t: Temporal, sid: string, outcome: Outcome)
    requires forall i :: 0 <= i < |t.starts| ==> t.starts[i].id == WorkflowId(t.starts[i].arg)
    requires WorkflowId(sid) in t.running ==> Started(t, WorkflowId(sid))
    ensures var (t', ok) := StartWorkflow(t, WorkflowId(sid), outcome);
            && t.starts <= t'.starts
            && (forall i :: 0 <= i < |t'.starts| ==> t'.starts[i].id == WorkflowId(t'.starts[i].arg))
            && (ok ==> Started(t', WorkflowId(sid)))
  {
    hide WorkflowId, RemoveFirst;
    ArgumentOfId(sid);
    var (t', ok) := StartWorkflow(t, WorkflowId(sid), outcome);
    if |t'.starts| > |t.starts| {
      assert t'.starts[|t.starts|].id == WorkflowId(sid);
    }
  }

  ghost predicate RunningStarted(t: Temporal) {
    forall id :: id in t.running ==> Started(t, id)
  }

  lemma RunningKeeps(t: Temporal, id: string, outcome: Outcome)
    requires RunningStarted(t)
    ensures RunningStarted(StartWorkflow(t, id, outcome).0)
  {
    hide RemoveFirst;
    var t' := StartWorkflow(t, id, outcome).0;
    forall other | other in t'.running
      ensures Started(t', other)
    {
      if other in t.running {
        StartedGrows(t, t', other);
      } else {
        assert t'.starts[|t.starts|].id == other;
      }
    }
  }

  lemma OneKeeps(w: World, k: nat, outcome: Outcome)
    requires WorldOk(w) && RunningStarted(w.temporal) && k < |w.outbox| && w.outbox[k].status != DISPATCHED
    ensures var w' := DispatchOne(w, k, outcome);
            WorldOk(w') && RunningStarted(w'.temporal) && Later(w, w') && w'.sessions == w.sessions
  {
    hide WorkflowId, StartWorkflow, Started, RunningStarted, S.Allowed;
    var row := w.outbox[k];
    var w' := DispatchOne(w, k, outcome);
    assert row.workflowId == WorkflowId(row.session);
    assert WorkflowId(row.session) in w.temporal.running ==> Started(w.temporal, WorkflowId(row.session)) by {
      RunningOne(w.temporal, WorkflowId(row.session));
    }
    StartKeeps(w.temporal, row.session, outcome);
    RunningKeeps(w.temporal, row.workflowId, outcome);
    forall l | 0 <= l < |w'.outbox| && w'.outbox[l].status == DISPATCHED
      ensures Started(w'.temporal, w'.outbox[l].workflowId)
    {
      if l != k {
        StartedGrows(w.temporal, w'.temporal, w.outbox[l].workflowId);
      }
    }
    forall sid | sid in w'.sessions && w'.sessions[sid] == S.LOCKED
      ensures HasRow(w'.outbox, sid)
    {
      var l :| 0 <= l < |w.outbox| && w.outbox[l].session == sid;
      assert w'.outbox[l].session == sid;
    }
  }

  lemma RunningOne(t: Temporal, id: string)
    requires RunningStarted(t)
    ensures id in t.running ==> Started(t, id)
  {
  }

  ghost predicate Pending(w: World, positions: seq<nat>) {
    && (forall i :: 0 <= i < |positions| ==> positions[i] < |w.outbox| && w.outbox[positions[i]].status != DISPATCHED)
    && (forall i, j :: 0 <= i < j < |positions| ==> positions[i] < positions[j])
  }

  lemma {:induction false} AllKeeps(w: World, positions: seq<nat>, oracle: nat -> Outcome)
    requires WorldOk(w) && RunningStarted(w.temporal) && Pending(w, positions)
    ensures var w' := DispatchAll(w, positions, oracle);
            && WorldOk(w') && RunningStarted(w'.temporal) && Later(w, w') && w'.sessions == w.sessions
            && forall k :: 0 <= k < |w.outbox| && k !in positions ==> w'.outbox[k] == w.outbox[k]
    decreases |positions|
  {
    hide WorldOk, StartWorkflow, RunningStarted;
    if positions != [] {
      var n := |positions| - 1;
      assert positions == positions[..n] + [positions[n]];
      AllKeeps(w, positions[..n], oracle);
      var before := DispatchAll(w, positions[..n], oracle);
      assert positions[n] !in positions[..n];
      OneKeeps(before, positions[n], oracle(positions[n]));
      LaterTransitive(w, before, DispatchOne(before, positions[n], oracle(positions[n])));
    }
  }

  lemma EnqueueKeeps(w: World, sid: string)
    requires WorldOk(w) && sid in w.sessions
    ensures WorldOk(EndSignal(w, sid)) && Later(w, EndSignal(w, sid)) && EndSignal(w, sid).temporal == w.temporal
    ensures Ignored(w.sessions[sid]) || HasRow(EndSignal(w, sid).outbox, sid)
  {
    hide WorkflowId, Started, S.Terminal;
    var w' := EndSignal(w, sid);
    if !Ignored(w.sessions[sid]) {
      if !HasRow(w.outbox, sid) {
        assert w'.outbox[|w.outbox|].session == sid;
      }
      forall other | other in w'.sessions && w'.sessions[other] == S.LOCKED
        ensures HasRow(w'.outbox, other)
      {
        if other != sid {
          var l :| 0 <= l < |w.outbox| && w.outbox[l].session == other;
          assert w'.outbox[l].session == other;
        }
      }
    }
  }

  /** What a rolled-back transaction leaves: the old rows and the new state of the workflow service. */
  lemma CommitKeeps(w: World, w': World, commits: bool)
    requires WorldOk(w) && WorldOk(w') && Later(w, w')
    ensures WorldOk(Commit(w, w', commits)) && Later(w, Commit(w, w', commits))
  {
    hide WorkflowId, Started;
    forall k | 0 <= k < |w.outbox| && w.outbox[k].status == DISPATCHED
      ensures Started(w'.temporal, w.outbox[k].workflowId)
    {
      StartedGrows(w.temporal, w'.temporal, w.outbox[k].workflowId);
    }
  }

  lemma ApplyKeeps(w: World, step: Step)
    requires WorldOk(w) && RunningStarted(w.temporal)
    ensures WorldOk(Apply(w, step)) && RunningStarted(Apply(w, step).temporal) && Later(w, Apply(w, step))
  {
    hide DispatchAll, EndSignal, S.Allowed, Ignored;
    match step
    case NewSession(_, _) =>
    case Transition(_, _) =>
    case EndSignalStep(sid, commits) =>
      if sid in w.sessions {
        hide WorldOk, Later, RunningStarted;
        EnqueueKeeps(w, sid);
        CommitKeeps(w, EndSignal(w, sid), commits);
      }
    case EndSignalDispatchStep(sid, oracle, commits) =>
      if sid in w.sessions {
        hide WorldOk, Later, RunningStarted;
        EnqueueKeeps(w, sid);
        var mid := EndSignal(w, sid);
        AllKeeps(mid, Selected(mid.outbox, 20, {}), oracle);
        LaterTransitive(w, mid, DispatchAll(mid, Selected(mid.outbox, 20, {}), oracle));
        LaterRefl(w);
        CommitKeeps(w, EndSignalAndDispatch(w, sid, oracle), commits);
      }
    case DispatchStep(limit, locked, oracle, commits) =>
      hide WorldOk, Later, RunningStarted;
      AllKeeps(w, Selected(w.outbox, limit, locked), oracle);
      CommitKeeps(w, DispatchAll(w, Selected(w.outbox, limit, locked), oracle), commits);
    case WorkflowCloses(_) =>
  }

  lemma LaterRefl(w: World)
    ensures Later(w, w)
  {
  }

  lemma {:induction false} RunKeeps(w: World, steps: seq<Step>)
    requires WorldOk(w) && RunningStarted(w.temporal)
    ensures WorldOk(Run(w, steps)) && RunningStarted(Run(w, steps).temporal) && Later(w, Run(w, steps))
    decreases |steps|
  {
    hide Apply, WorldOk, RunningStarted, Later;
    LaterRefl(w);
    if steps != [] {
      var before := Run(w, steps[..|steps| - 1]);
      RunKeeps(w, steps[..|steps| - 1]);
      ApplyKeeps(before, steps[|steps| - 1]);
      LaterTransitive(w, before, Apply(before, steps[|steps| - 1]));
    }
  }

  lemma ReachableOk(steps: seq<Step>)
    ensures WorldOk(Run(EMPTY, steps)) && RunningStarted(Run(EMPTY, steps).temporal)
  {
    RunKeeps(EMPTY, steps);
  }

  // ---------- One start per session ----------

  function CountStarts(starts: seq<Start>, id: string): nat {
    if starts == [] then 0
    else CountStarts(starts[..|starts| - 1], id) + (if starts[|starts| - 1].id == id then 1 else 0)
  }

  lemma CountPush(starts: seq<Start>, s: Start, id: string)
    ensures CountStarts(starts + [s], id) == CountStarts(starts, id) + (if s.id == id then 1 else 0)
  {
    assert (starts + [s])[..|starts|] == starts;
  }

  predicate Sent(outbox: seq<Row>, id: string) {
    exists k :: 0 <= k < |outbox| && outbox[k].workflowId == id && outbox[k].status == DISPATCHED
  }

  /** No id was started twice, and one that was started is still running or is on record as dispatched. */
  ghost predicate Once(t: Temporal, outbox: seq<Row>) {
    forall id :: CountStarts(t.starts, id) <= 1 && (CountStarts(t.starts, id) == 1 ==> id in t.running || Sent(outbox, id))
  }

  ghost predicate OwnIds(outbox: seq<Row>) {
    forall k, l :: 0 <= k < l < |outbox| ==> outbox[k].workflowId != outbox[l].workflowId
  }

  lemma IdsAreOwn(w: World)
    requires WorldOk(w)
    ensures OwnIds(w.outbox)
  {
    hide WorkflowId, Started;
    forall k, l | 0 <= k < l < |w.outbox|
      ensures w.outbox[k].workflowId != w.outbox[l].workflowId
    {
      ArgumentOfId(w.outbox[k].session);
    }
  }

  lemma OneOnce(t: Temporal, outbox: seq<Row>, k: nat, outcome: Outcome)
    requires Once(t, outbox) && OwnIds(outbox) && k < |outbox| && outbox[k].status != DISPATCHED
    ensures Once(StartWorkflow(t, outbox[k].workflowId, outcome).0, outbox)
    ensures t.running <= StartWorkflow(t, outbox[k].workflowId, outcome).0.running
  {
    hide RemoveFirst, CountStarts;
    var id := outbox[k].workflowId;
    var t' := StartWorkflow(t, id, outcome).0;
    assert !Sent(outbox, id);
    forall other
      ensures CountStarts(t'.starts, other) <= 1
      ensures CountStarts(t'.starts, other) == 1 ==> other in t'.running || Sent(outbox, other)
    {
      assert CountStarts(t.starts, other) <= 1;
      if t'.starts != t.starts {
        CountPush(t.starts, Start(id, RemoveFirst(id, PREFIX)), other);
      }
    }
  }

  /** A pass starts nothing twice, judged by the rows as they were before it. */
  lemma {:induction false} AllOnce(w: World, positions: seq<nat>, oracle: nat -> Outcome)
    requires WorldOk(w) && RunningStarted(w.temporal) && Pending(w, positions) && Once(w.temporal, w.outbox)
    ensures Once(DispatchAll(w, positions, oracle).temporal, w.outbox)
    decreases |positions|
  {
    hide WorldOk, StartWorkflow, RunningStarted, Once, OwnIds, Later;
    if positions != [] {
      var n := |positions| - 1;
      AllOnce(w, positions[..n], oracle);
      AllKeeps(w, positions[..n], oracle);
      IdsAreOwn(w);
      var before := DispatchAll(w, positions[..n], oracle);
      assert positions[n] !in positions[..n];
      OneOnce(before.temporal, w.outbox, positions[n], oracle(positions[n]));
    }
  }

  lemma OnceWithMoreRows(t: Temporal, w: World, w': World)
    requires Once(t, w.outbox) && WorldOk(w) && WorldOk(w') && Later(w, w')
    ensures Once(t, w'.outbox)
  {
    hide CountStarts, WorkflowId, Started;
    forall id | Sent(w.outbox, id)
      ensures Sent(w'.outbox, id)
    {
      var k :| 0 <= k < |w.outbox| && w.outbox[k].workflowId == id && w.outbox[k].status == DISPATCHED;
      assert w'.outbox[k] == w.outbox[k];
    }
  }

  /** An intent just written is not on record as dispatched. */
  lemma OnceBeforeEnqueue(t: Temporal, w: World, sid: string)
    requires sid in w.sessions && Once(t, EndSignal(w, sid).outbox)
    ensures Once(t, w.outbox)
  {
    hide CountStarts, WorkflowId, Ignored;
    var outbox' := EndSignal(w, sid).outbox;
    forall id | Sent(outbox', id)
      ensures Sent(w.outbox, id)
    {
      var k :| 0 <= k < |outbox'| && outbox'[k].workflowId == id && outbox'[k].status == DISPATCHED;
      assert k < |w.outbox| && w.outbox[k] == outbox'[k];
    }
  }

  lemma ApplyOnce(w: World, step: Step)
    requires WorldOk(w) && RunningStarted(w.temporal) && Once(w.temporal, w.outbox)
    requires step.WorkflowCloses? ==> Sent(w.outbox, step.id)
    ensures Once(Apply(w, step).temporal, Apply(w, step).outbox)
  {
    hide DispatchAll, EndSignal, S.Allowed, Ignored, WorldOk, Later, RunningStarted, CountStarts;
    ApplyKeeps(w, step);
    match step
    case NewSession(_, _) =>
    case Transition(_, _) =>
    case EndSignalStep(sid, commits) =>
      if sid in w.sessions {
        EnqueueKeeps(w, sid);
        OnceWithMoreRows(w.temporal, w, EndSignal(w, sid));
      }
    case EndSignalDispatchStep(sid, oracle, commits) =>
      if sid in w.sessions {
        hide Once, Sent;
        EnqueueKeeps(w, sid);
        var mid := EndSignal(w, sid);
        var positions := Selected(mid.outbox, 20, {});
        OnceWithMoreRows(w.temporal, w, mid);
        AllOnce(mid, positions, oracle);
        AllKeeps(mid, positions, oracle);
        OnceWithMoreRows(DispatchAll(mid, positions, oracle).temporal, mid, DispatchAll(mid, positions, oracle));
        OnceBeforeEnqueue(DispatchAll(mid, positions, oracle).temporal, w, sid);
      }
    case DispatchStep(limit, locked, oracle, commits) =>
      hide Once, Sent;
      var positions := Selected(w.outbox, limit, locked);
      AllOnce(w, positions, oracle);
      AllKeeps(w, positions, oracle);
      OnceWithMoreRows(DispatchAll(w, positions, oracle).temporal, w, DispatchAll(w, positions, oracle));
    case WorkflowCloses(_) =>
  }

  /** A workflow only closes once its row is on record as dispatched. */
  ghost predicate NoEarlyClose(steps: seq<Step>) {
    forall k :: 0 <= k < |steps| && steps[k].WorkflowCloses? ==> Sent(Run(EMPTY, steps[..k]).outbox, steps[k].id)
  }

  lemma {:induction false} RunOnce(steps: seq<Step>)
    requires NoEarlyClose(steps)
    ensures Once(Run(EMPTY, steps).temporal, Run(EMPTY, steps).outbox)
    decreases |steps|
  {
    hide Apply, Once, Sent, WorldOk, RunningStarted;
    if steps == [] {
      NothingStarted();
    } else {
      var n := |steps| - 1;
      forall k | 0 <= k < n && steps[..n][k].WorkflowCloses?
        ensures Sent(Run(EMPTY, steps[..n][..k]).outbox, steps[..n][k].id)
      {
        assert steps[..n][..k] == steps[..k] && steps[..n][k] == steps[k];
      }
      RunOnce(steps[..n]);
      ReachableOk(steps[..n]);
      ApplyOnce(Run(EMPTY, steps[..n]), steps[n]);
    }
  }

  lemma NothingStarted()
    ensures Once(EMPTY.temporal, EMPTY.outbox)
  {
  }

  /**
   * However often passes fail or crash between a start and the commit, no session's workflow is started
   * twice, as long as none closes before its row is on record; and it is started with its session as argument.
   */
  lemma StartedAtMostOnce(steps: seq<Step>, sid: string)
    requires NoEarlyClose(steps)
    ensures CountStarts(Run(EMPTY, steps).temporal.starts, WorkflowId(sid)) <= 1
    ensures forall s :: s in Run(EMPTY, steps).temporal.starts && s.id == WorkflowId(sid) ==> s.arg == sid
  {
    hide Run, CountStarts;
    RunOnce(steps);
    ReachableOk(steps);
    ArgumentOfId(sid);
  }

  /** DISPATCHED means started, and stays. */
  lemma DispatchedForever(w: World, steps: seq<Step>, k: nat)
    requires WorldOk(w) && RunningStarted(w.temporal) && k < |w.outbox| && w.outbox[k].status == DISPATCHED
    ensures var w' := Run(w, steps);
            k < |w'.outbox| && w'.outbox[k] == w.outbox[k] && Started(w.temporal, w.outbox[k].workflowId)
  {
    hide Run;
    RunKeeps(w, steps);
  }

  /** A session locked by an end signal has exactly one row from then on. */
  lemma LockedHasOneRow(w: World, sid: string, steps: seq<Step>)
    requires WorldOk(w) && RunningStarted(w.temporal) && sid in w.sessions && !Ignored(w.sessions[sid])
    ensures var outbox := Run(Apply(w, EndSignalStep(sid, true)), steps).outbox;
            && (exists k :: 0 <= k < |outbox| && outbox[k].session == sid)
            && (forall k, l :: 0 <= k < |outbox| && 0 <= l < |outbox| && outbox[k].session == sid && outbox[l].session == sid ==> k == l)
  {
    hide Run, WorkflowId, Started;
    var w' := Apply(w, EndSignalStep(sid, true));
    ApplyKeeps(w, EndSignalStep(sid, true));
    EnqueueKeeps(w, sid);
    RunKeeps(w', steps);
    var k :| 0 <= k < |w'.outbox| && w'.outbox[k].session == sid;
    assert Run(w', steps).outbox[k].session == sid;
  }

  // ---------- When a workflow is started again ----------

  lemma {:induction false} NoStart(w: World, positions: seq<nat>, oracle: nat -> Outcome, id: string)
    requires forall i :: 0 <= i < |positions| ==> positions[i] < |w.outbox|
    requires id in w.temporal.running || forall i :: 0 <= i < |positions| ==> w.outbox[positions[i]].workflowId != id
    ensures var w' := DispatchAll(w, positions, oracle);
            && CountStarts(w'.temporal.starts, id) == CountStarts(w.temporal.starts, id)
            && (id in w.temporal.running ==> id in w'.temporal.running)
            && (forall k :: 0 <= k < |w.outbox| ==> w'.outbox[k].workflowId == w.outbox[k].workflowId)
    decreases |positions|
  {
    hide RemoveFirst, CountStarts;
    if positions != [] {
      var n := |positions| - 1;
      NoStart(w, positions[..n], oracle, id);
      var before := DispatchAll(w, positions[..n], oracle);
      var other := before.outbox[positions[n]].workflowId;
      CountPush(before.temporal.starts, Start(other, RemoveFirst(other, PREFIX)), id);
    }
  }

  lemma {:induction false} OnlyOne(outbox: seq<Row>, limit: nat, locked: set<nat>, k: nat)
    requires limit >= 1
    requires forall l: nat :: l < |outbox| && l != k && outbox[l].status != DISPATCHED ==> l in locked
    requires k !in locked && (k < |outbox| ==> outbox[k].status != DISPATCHED)
    ensures Selected(outbox, limit, locked) == if k < |outbox| then [k] else []
  {
    if outbox != [] {
      OnlyOne(outbox[..|outbox| - 1], limit, locked, k);
    }
  }

  /** Some pass starts a session's workflow if and only if its row is not on record as sent and no run of it is open. */
  lemma StartCondition(w: World, sid: string)
    requires WorldOk(w)
    ensures (exists limit, locked, oracle, commits ::
               CountStarts(DispatchPending(w, limit, locked, oracle, commits).temporal.starts, WorkflowId(sid))
               > CountStarts(w.temporal.starts, WorkflowId(sid)))
            <==> WorkflowId(sid) !in w.temporal.running
                 && exists k :: 0 <= k < |w.outbox| && w.outbox[k].session == sid && w.outbox[k].status != DISPATCHED
  {
    hide CountStarts, DispatchAll, Started, RemoveFirst, WorkflowId;
    var id := WorkflowId(sid);
    if id !in w.temporal.running && exists k :: 0 <= k < |w.outbox| && w.outbox[k].session == sid && w.outbox[k].status != DISPATCHED {
      var k: nat :| k < |w.outbox| && w.outbox[k].session == sid && w.outbox[k].status != DISPATCHED;
      StartsOne(w, k);
    } else {
      forall limit, locked, oracle, commits
        ensures CountStarts(DispatchPending(w, limit, locked, oracle, commits).temporal.starts, id)
                == CountStarts(w.temporal.starts, id)
      {
        var positions := Selected(w.outbox, limit, locked);
        forall i | 0 <= i < |positions| && id !in w.temporal.running
          ensures w.outbox[positions[i]].workflowId != id
        {
          ArgumentOfId(sid);
        }
        NoStart(w, positions, oracle, id);
      }
    }
  }

  function Others(n: nat, k: nat): (s: set<nat>)
    ensures forall l: nat :: l in s <==> l < n && l != k
  {
    if n == 0 then {} else Others(n - 1, k) + (if n - 1 == k then {} else {n - 1})
  }

  lemma DispatchSingle(w: World, k: nat, oracle: nat -> Outcome)
    requires k < |w.outbox|
    ensures DispatchAll(w, [k], oracle) == DispatchOne(w, k, oracle(k))
  {
    hide StartWorkflow;
    assert [k][..0] == [];
  }

  lemma StartsOne(w: World, k: nat)
    requires k < |w.outbox| && w.outbox[k].status != DISPATCHED && w.outbox[k].workflowId == WorkflowId(w.outbox[k].session)
    requires w.outbox[k].workflowId !in w.temporal.running
    ensures exists limit, locked, oracle, commits ::
              CountStarts(DispatchPending(w, limit, locked, oracle, commits).temporal.starts, WorkflowId(w.outbox[k].session))
              > CountStarts(w.temporal.starts, WorkflowId(w.outbox[k].session))
  {
    hide CountStarts, RemoveFirst, WorkflowId, Selected, DispatchAll;
    var id := w.outbox[k].workflowId;
    var locked := Others(|w.outbox|, k);
    var oracle: nat -> Outcome := _ => Works;
    OnlyOne(w.outbox, 1, locked, k);
    DispatchSingle(w, k, oracle);
    CountPush(w.temporal.starts, Start(id, RemoveFirst(id, PREFIX)), id);
    assert CountStarts(DispatchPending(w, 1, locked, oracle, true).temporal.starts, id) > CountStarts(w.temporal.starts, id);
  }

  /**
   In every run: once a started workflow has closed while its row is not on record as sent, a single further pass
   starts it again.
   */
  lemma EarlyCloseRestarts(steps: seq<Step>, sid: string)
    requires var w := Run(EMPTY, steps);
      && Started(w.temporal, WorkflowId(sid)) && WorkflowId(sid) !in w.temporal.running
      && exists k :: 0 <= k < |w.outbox| && w.outbox[k].session == sid && w.outbox[k].status != DISPATCHED
    ensures exists pass: Step :: pass.DispatchStep?
              && CountStarts(Run(EMPTY, steps + [pass]).temporal.starts, WorkflowId(sid)) >= 2
  {
    hide Run, CountStarts, WorkflowId, Selected, DispatchAll, WorldOk;
    var w := Run(EMPTY, steps);
    ReachableOk(steps);
    StartCondition(w, sid);
    StartedCounts(w.temporal.starts, WorkflowId(sid));
    var limit, locked, oracle, commits :|
      CountStarts(DispatchPending(w, limit, locked, oracle, commits).temporal.starts, WorkflowId(sid))
      > CountStarts(w.temporal.starts, WorkflowId(sid));
    var pass := DispatchStep(limit, locked, oracle, commits);
    RunPush(EMPTY, steps, pass);
    assert CountStarts(Run(EMPTY, steps + [pass]).temporal.starts, WorkflowId(sid)) >= 2;
  }

  lemma {:induction false} StartedCounts(starts: seq<Start>, id: string)
    ensures CountStarts(starts, id) >= 1 <==> exists i :: 0 <= i < |starts| && starts[i].id == id
  {
    if starts != [] {
      var n := |starts| - 1;
      StartedCounts(starts[..n], id);
      if exists i :: 0 <= i < n && starts[i].id == id {
        var i :| 0 <= i < n && starts[i].id == id;
        assert starts[..n][i].id == id;
      }
    }
  }

  lemma RunPush(w: World, steps: seq<Step>, step: Step)
    ensures Run(w, steps + [step]) == Apply(Run(w, steps), step)
  {
    hide Apply;
    assert (steps + [step])[..|steps|] == steps;
  }

  // ---------- Sessions whose workflow is never started again ----------

  predicate NoneOpen(outbox: seq<Row>, sid: string) {
    forall k :: 0 <= k < |outbox| && outbox[k].session == sid ==> outbox[k].status == DISPATCHED
  }

  /** The session's row is on record as sent, or the session ended without a row. */
  predicate Settled(w: World, sid: string) {
    && NoneOpen(w.outbox, sid)
    && (HasRow(w.outbox, sid) || (sid in w.sessions && S.Terminal(w.sessions[sid])))
  }

  lemma PassSettled(w: World, positions: seq<nat>, oracle: nat -> Outcome, sid: string)
    requires WorldOk(w) && RunningStarted(w.temporal) && Pending(w, positions) && NoneOpen(w.outbox, sid)
    ensures var w' := DispatchAll(w, positions, oracle);
      && CountStarts(w'.temporal.starts, WorkflowId(sid)) == CountStarts(w.temporal.starts, WorkflowId(sid))
      && NoneOpen(w'.outbox, sid) && (HasRow(w.outbox, sid) ==> HasRow(w'.outbox, sid))
      && w'.sessions == w.sessions
  {
    hide WorkflowId, CountStarts, Started, RunningStarted, DispatchAll;
    ArgumentOfId(sid);
    AllKeeps(w, positions, oracle);
    var w' := DispatchAll(w, positions, oracle);
    NoStart(w, positions, oracle, WorkflowId(sid));
    if HasRow(w.outbox, sid) {
      var k :| 0 <= k < |w.outbox| && w.outbox[k].session == sid;
      assert w'.outbox[k].session == sid;
    }
  }

  lemma EndSignalSettled(w: World, other: string, sid: string)
    requires other in w.sessions && Settled(w, sid)
    ensures Settled(EndSignal(w, other), sid)
  {
    hide WorkflowId;
    if HasRow(w.outbox, sid) {
      var k :| 0 <= k < |w.outbox| && w.outbox[k].session == sid;
      assert EndSignal(w, other).outbox[k].session == sid;
    }
  }

  lemma SettledStays(w: World, step: Step, sid: string)
    requires WorldOk(w) && RunningStarted(w.temporal) && Settled(w, sid)
    ensures Settled(Apply(w, step), sid)
    ensures CountStarts(Apply(w, step).temporal.starts, WorkflowId(sid)) == CountStarts(w.temporal.starts, WorkflowId(sid))
  {
    hide WorkflowId, CountStarts, DispatchAll, EndSignal, WorldOk, RunningStarted, HasRow, NoneOpen;
    match step
    case NewSession(_, _) =>
    case Transition(other, _) =>
    case EndSignalStep(other, commits) =>
      if other in w.sessions {
        EndSignalSettled(w, other, sid);
        EnqueueKeeps(w, other);
      }
    case EndSignalDispatchStep(other, oracle, commits) =>
      if other in w.sessions {
        EndSignalSettled(w, other, sid);
        EnqueueKeeps(w, other);
        var mid := EndSignal(w, other);
        PassSettled(mid, Selected(mid.outbox, 20, {}), oracle, sid);
      }
    case DispatchStep(limit, locked, oracle, commits) =>
      PassSettled(w, Selected(w.outbox, limit, locked), oracle, sid);
    case WorkflowCloses(_) =>
  }

  lemma {:induction false} SettledForever(w: World, steps: seq<Step>, sid: string)
    requires WorldOk(w) && RunningStarted(w.temporal) && Settled(w, sid)
    ensures Settled(Run(w, steps), sid)
    ensures CountStarts(Run(w, steps).temporal.starts, WorkflowId(sid)) == CountStarts(w.temporal.starts, WorkflowId(sid))
    decreases |steps|
  {
    hide Apply, Settled, WorldOk, RunningStarted, CountStarts, WorkflowId;
    if steps != [] {
      var n := |steps| - 1;
      SettledForever(w, steps[..n], sid);
      RunKeeps(w, steps[..n]);
      SettledStays(Run(w, steps[..n]), steps[n], sid);
    }
  }

  lemma NoSteps(w: World)
    ensures Run(w, []) == w
  {
  }

  lemma FourSteps(w: World, a: Step, b: Step, c: Step, d: Step)
    ensures Run(w, [a, b, c, d]) == Apply(Apply(Apply(Apply(w, a), b), c), d)
  {
    NoSteps(w);
    hide Apply, Run;
    RunPush(w, [], a);
    RunPush(w, [a], b);
    RunPush(w, [a, b], c);
    RunPush(w, [a, b, c], d);
    assert [] + [a] == [a] && [a] + [b] == [a, b] && [a, b] + [c] == [a, b, c] && [a, b, c] + [d] == [a, b, c, d];
  }

  /** An end signal leaves an open row for every session whose workflow can still be started. */
  lemma OpensRow(w: World, sid: string) returns (k: nat)
    requires WorldOk(w) && RunningStarted(w.temporal) && !Settled(w, sid)
    ensures var w' := Apply(Apply(w, NewSession(sid, false)), EndSignalStep(sid, true));
      && w'.temporal == w.temporal
      && k < |w'.outbox| && w'.outbox[k].session == sid && w'.outbox[k].status != DISPATCHED
      && w'.outbox[k].workflowId == WorkflowId(sid)
  {
    hide WorkflowId, Started, RunningStarted, S.Allowed;
    var mid := Apply(w, NewSession(sid, false));
    var w' := Apply(mid, EndSignalStep(sid, true));
    assert mid.outbox == w.outbox;
    if HasRow(w.outbox, sid) {
      k :| 0 <= k < |w.outbox| && w.outbox[k].session == sid && w.outbox[k].status != DISPATCHED;
      assert w'.outbox == w.outbox;
    } else {
      k := |w.outbox|;
      assert !Ignored(mid.sessions[sid]);
      assert w'.outbox == w.outbox + [Row(sid, WorkflowId(sid), PENDING, 0)];
    }
  }

  /**
   Some continuation of a state starts a session's workflow, for the first time or once more, if and only if its row
   is not on record as sent and the session has not ended without a row.
   */
  lemma StartableUnlessSettled(w: World, sid: string)
    requires WorldOk(w) && RunningStarted(w.temporal)
    ensures (exists steps ::
               CountStarts(Run(w, steps).temporal.starts, WorkflowId(sid)) > CountStarts(w.temporal.starts, WorkflowId(sid)))
            <==> !Settled(w, sid)
  {
    hide Run, CountStarts, WorkflowId, Settled, WorldOk, RunningStarted, DispatchAll, Selected, EndSignal;
    if Settled(w, sid) {
      forall steps
        ensures CountStarts(Run(w, steps).temporal.starts, WorkflowId(sid)) == CountStarts(w.temporal.starts, WorkflowId(sid))
      {
        SettledForever(w, steps, sid);
      }
    } else {
      var k := OpensRow(w, sid);
      var a, b, c := NewSession(sid, false), EndSignalStep(sid, true), WorkflowCloses(WorkflowId(sid));
      var closed := Apply(Apply(Apply(w, a), b), c);
      StartsOne(closed, k);
      var limit, locked, oracle, commits :|
        CountStarts(DispatchPending(closed, limit, locked, oracle, commits).temporal.starts, WorkflowId(sid))
        > CountStarts(closed.temporal.starts, WorkflowId(sid));
      FourSteps(w, a, b, c, DispatchStep(limit, locked, oracle, commits));
      assert CountStarts(Run(w, [a, b, c, DispatchStep(limit, locked, oracle, commits)]).temporal.starts, WorkflowId(sid))
        > CountStarts(w.temporal.starts, WorkflowId(sid));
    }
  }

  /** A workflow that closes before its row is on record is started a second time. */
  lemma EarlyCloseStartsTwice(sid: string, oracle: nat -> Outcome)
    requires forall k :: oracle(k) == Works
    ensures CountStarts(Run(EMPTY, [NewSession(sid, false), EndSignalStep(sid, true), DispatchStep(1, {}, oracle, false),
                                    WorkflowCloses(WorkflowId(sid)), DispatchStep(1, {}, oracle, true)]).temporal.starts,
                        WorkflowId(sid)) == 2
  {
    hide WorkflowId, RemoveFirst, Run, CountStarts, DispatchAll, Selected;
    var id := WorkflowId(sid);
    var a, b, c, d, e := NewSession(sid, false), EndSignalStep(sid, true), DispatchStep(1, {}, oracle, false), WorkflowCloses(id),
      DispatchStep(1, {}, oracle, true);
    FiveSteps(a, b, c, d, e);
    var row := Row(sid, id, PENDING, 0);
    var w := World(map[sid := S.LOCKED], [row], Temporal([], {}));
    assert Apply(Apply(EMPTY, a), b) == w;
    OnlyOne([row], 1, {}, 0);
    var start := Start(id, RemoveFirst(id, PREFIX));
    DispatchSingle(w, 0, oracle);
    var w2 := Apply(w, c);
    assert w2 == World(w.sessions, [row], Temporal([start], {id}));
    var w3 := Apply(w2, d);
    assert w3 == World(w.sessions, [row], Temporal([start], {}));
    DispatchSingle(w3, 0, oracle);
    assert Apply(w3, e).temporal.starts == [start] + [start];
    CountPush([start], start, id);
    CountPush([], start, id);
    assert [] + [start] == [start];
    NoStarts(id);
  }

  lemma NoStarts(id: string)
    ensures CountStarts([], id) == 0
  {
  }

  lemma FiveSteps(a: Step, b: Step, c: Step, d: Step, e: Step)
    ensures Run(EMPTY, [a, b, c, d, e]) == Apply(Apply(Apply(Apply(Apply(EMPTY, a), b), c), d), e)
  {
    hide Apply;
    assert [a, b, c, d, e][..4] == [a, b, c, d] && [a, b, c, d][..3] == [a, b, c] && [a, b, c][..2] == [a, b];
    assert [a, b][..1] == [a] && [a][..0] == [];
    assert Run(EMPTY, [a]) == Apply(EMPTY, a);
    assert Run(EMPTY, [a, b]) == Apply(Apply(EMPTY, a), b);
    assert Run(EMPTY, [a, b, c]) == Apply(Apply(Apply(EMPTY, a), b), c);
  }

  /** A pass whose starts all work sends every row it selects. */
  lemma {:induction false} WorkingPassSends(w: World, positions: seq<nat>, oracle: nat -> Outcome)
    requires WorldOk(w) && RunningStarted(w.temporal) && Pending(w, positions)
    requires forall k :: oracle(k) == Works
    ensures forall i :: 0 <= i < |positions| ==> DispatchAll(w, positions, oracle).outbox[positions[i]].status == DISPATCHED
    decreases |positions|
  {
    hide WorldOk, RunningStarted, Later, RemoveFirst;
    if positions != [] {
      var n := |positions| - 1;
      WorkingPassSends(w, positions[..n], oracle);
      assert forall i :: 0 <= i < n ==> positions[..n][i] == positions[i];
    }
  }

  // ---------- What a pass does ----------

  /** A start request: an error before it took effect changes nothing; else exactly one run of the id is open after it. */
  lemma StartOutcome(t: Temporal, sid: string, outcome: Outcome)
    ensures var (t', ok) := StartWorkflow(t, WorkflowId(sid), outcome);
      && (ok <==> outcome == Works)
      && (outcome == FailsBefore ==> t' == t)
      && (outcome != FailsBefore ==> t'.running == t.running + {WorkflowId(sid)})
      && (outcome != FailsBefore ==>
            t'.starts == t.starts + (if WorkflowId(sid) in t.running then [] else [Start(WorkflowId(sid), sid)]))
  {
    ArgumentOfId(sid);
  }

  /** A pass selects rows not yet sent and not held elsewhere, and leaves one out only when older ones use up the limit. */
  lemma {:induction false} SelectsOldest(outbox: seq<Row>, limit: nat, locked: set<nat>, k: nat)
    requires k < |outbox|
    ensures k in Selected(outbox, limit, locked) ==> outbox[k].status in {PENDING, FAILED} && k !in locked
    ensures outbox[k].status in {PENDING, FAILED} && k !in locked && k !in Selected(outbox, limit, locked) ==>
      |Selected(outbox, limit, locked)| == limit && forall q :: q in Selected(outbox, limit, locked) ==> q < k
  {
    var n := |outbox| - 1;
    var before := Selected(outbox[..n], limit, locked);
    if k < n {
      SelectsOldest(outbox[..n], limit, locked, k);
      assert outbox[..n][k] == outbox[k];
      assert k in before ==> k in Selected(outbox, limit, locked);
    } else {
      assert forall q :: q in before ==> q < n;
      assert outbox[n].status in {PENDING, FAILED} <==> outbox[n].status != DISPATCHED;
    }
  }

  /** What a pass makes of a row it selects. */
  function Sending(row: Row, outcome: Outcome): Row {
    if outcome == Works then Row(row.session, row.workflowId, DISPATCHED, row.attempts)
    else Row(row.session, row.workflowId, FAILED, row.attempts + 1)
  }

  lemma OneRow(w: World, k: nat, outcome: Outcome)
    requires k < |w.outbox|
    ensures DispatchOne(w, k, outcome).outbox == w.outbox[k := Sending(w.outbox[k], outcome)]
  {
    hide RemoveFirst;
  }

  /** Each selected row is sent exactly if its start works, and else failed with one attempt more; others stay. */
  lemma {:induction false} PassRows(w: World, positions: seq<nat>, oracle: nat -> Outcome, k: nat)
    requires Pending(w, positions) && k < |w.outbox|
    ensures DispatchAll(w, positions, oracle).outbox[k] ==
      if k in positions then Sending(w.outbox[k], oracle(k)) else w.outbox[k]
    decreases |positions|
  {
    hide DispatchOne, Sending;
    if positions != [] {
      var n := |positions| - 1;
      PassRows(w, positions[..n], oracle, k);
      assert positions == positions[..n] + [positions[n]];
      assert positions[n] !in positions[..n];
      OneRow(DispatchAll(w, positions[..n], oracle), positions[n], oracle(positions[n]));
    }
  }

  /** What an end signal that is heeded writes: an open session is locked, and the session has a row, a new one PENDING. */
  lemma EndSignalOutcome(w: World, sid: string)
    requires WorldOk(w) && sid in w.sessions
    ensures var w' := EndSignal(w, sid);
      && w'.temporal == w.temporal
      && (w.sessions[sid] in {S.COMPLETED, S.FAILED_FATAL, S.CANCELLED, S.LOCKED} ==> w' == w)
      && (w.sessions[sid] !in {S.COMPLETED, S.FAILED_FATAL, S.CANCELLED, S.LOCKED} ==>
            && w'.sessions == (if w.sessions[sid] in {S.CAPTURING, S.CAPTURE_END_CANDIDATE, S.CAPTURE_LOCKING}
                               then w.sessions[sid := S.LOCKED] else w.sessions)
            && w'.outbox == (if exists k :: 0 <= k < |w.outbox| && w.outbox[k].session == sid then w.outbox
                             else w.outbox + [Row(sid, "process-exam-" + sid, PENDING, 0)]))
  {
    hide Started;
  }

  /** The handwritten end signal does nothing when it is not heeded, and else also the work of a pass of twenty rows. */
  lemma EndSignalDispatchOutcome(w: World, sid: string, oracle: nat -> Outcome)
    requires sid in w.sessions
    ensures EndSignalAndDispatch(w, sid, oracle) ==
      if w.sessions[sid] in {S.COMPLETED, S.FAILED_FATAL, S.CANCELLED, S.LOCKED} then w
      else DispatchPending(EndSignal(w, sid), 20, {}, oracle, true)
  {
    hide DispatchAll, EndSignal, Selected;
  }
}
