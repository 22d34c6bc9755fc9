/** What every run of uploads, reconciliations and capture requests keeps, whatever fails along the way. */
module FrameIngestTheorems {
  import opened Wrappers
  import S = SessionStates
  import opened RgbCodec
  import opened StorageKeys
  import opened ObjectStore
  import opened FrameIngest

  // ---------- The invariant ----------

  /** The object under a key holds the bytes that a digest names. */
  ghost predicate Holds(sha: Sha256, objects: Objects, key: string, sha256: string) {
    Original(key) in objects && sha(objects[Original(key)]) == sha256
  }

  ghost predicate FrameOk(sha: Sha256, w: World, f: Frame) {
    && f.burst in w.captures
    && f.key == FrameKey(f.burst.session, f.burst.capture, f.index)
    && Holds(sha, w.objects, f.key, f.sha256)
    && f.size == |w.objects[Original(f.key)]|
  }

  ghost predicate OrphanOk(sha: Sha256, w: World, o: Orphan) {
    && Holds(sha, w.objects, o.key, o.sha256)
    && ParseFrameKey(o.key).Some?
    && var a := ParseFrameKey(o.key).value;
    && a.session in w.sessions && SlashFree(a.session) && EspId(a.capture)
    && o.key == FrameKey(a.session, a.capture, a.index)
  }

  ghost predicate CapturesOk(w: World) {
    forall b :: b in w.captures ==>
      b.session in w.sessions && EspId(b.capture) && w.captures[b].received == CountFrames(w.frames, b)
  }

  ghost predicate DistinctOrphans(orphans: seq<Orphan>) {
    forall p, q :: 0 <= p < q < |orphans| ==> orphans[p].key != orphans[q].key
  }

  /**
   * Every committed frame's key holds exactly the bytes its digest names, no (capture, index) has two frames,
   * the counters equal the rows, and every orphan names an object that is there, once.
   */
  ghost predicate Inv(sha: Sha256, w: World) {
    && (forall sid :: sid in w.sessions ==> SlashFree(sid))
    && CapturesOk(w)
    && (forall i :: 0 <= i < |w.frames| ==> FrameOk(sha, w, w.frames[i]))
    && DistinctFrames(w.frames)
    && (forall p :: 0 <= p < |w.orphans| ==> OrphanOk(sha, w, w.orphans[p]))
    && DistinctOrphans(w.orphans)
  }

  /** What only ever grows: sessions, captures, frame rows and stored objects. */
  ghost predicate Later(w: World, w': World) {
    && w.sessions.Keys <= w'.sessions.Keys
    && w.captures.Keys <= w'.captures.Keys
    && w.frames <= w'.frames
    && (forall id :: id in w.objects ==> id in w'.objects && w'.objects[id] == w.objects[id])
  }

  lemma EspIdSlashFree(s: string)
    requires EspId(s)
    ensures SlashFree(s)
  {
  }

  lemma CountPush(frames: seq<Frame>, f: Frame, b: Burst)
    ensures CountFrames(frames + [f], b) == CountFrames(frames, b) + (if f.burst == b then 1 else 0)
  {
    assert (frames + [f])[..|frames|] == frames;
  }

  lemma {:induction false} CountNone(frames: seq<Frame>, b: Burst)
    requires forall i :: 0 <= i < |frames| ==> frames[i].burst != b
    ensures CountFrames(frames, b) == 0
  {
    if frames != [] {
      CountNone(frames[..|frames| - 1], b);
    }
  }

  /** A frame row for an object that is there, at an address nobody has. */
  lemma AddFrameKeeps(sha: Sha256, w: World, f: Frame)
    requires Inv(sha, w) && f.burst.session in w.sessions && EspId(f.burst.capture)
    requires f.key == FrameKey(f.burst.session, f.burst.capture, f.index) && Holds(sha, w.objects, f.key, f.sha256)
    requires f.size == |w.objects[Original(f.key)]|
    requires forall i :: 0 <= i < |w.frames| ==> !IsAt(w.frames[i], f.burst, f.index)
    ensures Inv(sha, AddFrame(w, f)) && Later(w, AddFrame(w, f))
  {
    hide FrameKey, ParseFrameKey, CountFrames, EspId, SlashFree;
    var w' := AddFrame(w, f);
    if f.burst !in w.captures {
      forall i | 0 <= i < |w.frames|
        ensures w.frames[i].burst != f.burst
      {
        assert FrameOk(sha, w, w.frames[i]);
      }
      CountNone(w.frames, f.burst);
    }
    forall b | b in w'.captures
      ensures b.session in w'.sessions && EspId(b.capture) && w'.captures[b].received == CountFrames(w'.frames, b)
    {
      CountPush(w.frames, f, b);
    }
    forall i | 0 <= i < |w'.frames|
      ensures FrameOk(sha, w', w'.frames[i])
    {
      assert i < |w.frames| ==> FrameOk(sha, w, w.frames[i]);
    }
    forall p | 0 <= p < |w'.orphans|
      ensures OrphanOk(sha, w', w'.orphans[p])
    {
      assert OrphanOk(sha, w, w.orphans[p]);
    }
    forall i, j | 0 <= i < j < |w'.frames|
      ensures !(w'.frames[i].burst == w'.frames[j].burst && w'.frames[i].index == w'.frames[j].index)
    {
      assert !IsAt(w.frames[i], f.burst, f.index);
    }
  }

  /** A new object under a key that was free. */
  lemma StoredKeeps(sha: Sha256, w: World, key: string, data: seq<byte>)
    requires Inv(sha, w) && Original(key) !in w.objects
    ensures var w' := w.(objects := w.objects[Original(key) := data]); Inv(sha, w') && Later(w, w')
  {
    hide FrameKey, ParseFrameKey, CountFrames, EspId, SlashFree;
    var w' := w.(objects := w.objects[Original(key) := data]);
    forall i | 0 <= i < |w'.frames|
      ensures FrameOk(sha, w', w'.frames[i])
    {
      assert FrameOk(sha, w, w.frames[i]);
    }
    forall p | 0 <= p < |w'.orphans|
      ensures OrphanOk(sha, w', w'.orphans[p])
    {
      assert OrphanOk(sha, w, w.orphans[p]);
    }
  }

  lemma OrphanKeeps(sha: Sha256, w: World, o: Orphan)
    requires Inv(sha, w) && OrphanOk(sha, w, o)
    requires forall p :: 0 <= p < |w.orphans| ==> w.orphans[p].key != o.key
    ensures Inv(sha, w.(orphans := w.orphans + [o]))
  {
    hide FrameKey, ParseFrameKey, CountFrames, EspId, SlashFree, Holds;
    var w' := w.(orphans := w.orphans + [o]);
    forall i | 0 <= i < |w'.frames|
      ensures FrameOk(sha, w', w'.frames[i])
    {
      assert FrameOk(sha, w, w.frames[i]);
    }
    forall p | 0 <= p < |w'.orphans|
      ensures OrphanOk(sha, w', w'.orphans[p])
    {
      assert p < |w.orphans| ==> OrphanOk(sha, w, w.orphans[p]);
    }
  }

  lemma StoreFrameKeeps(sha: Sha256, w: World, req: Request, fault: Fault)
    requires Inv(sha, w) && req.index >= 0 && req.burst.session in w.sessions && EspId(req.burst.capture)
    requires forall i :: 0 <= i < |w.frames| ==> !IsAt(w.frames[i], req.burst, req.index)
    ensures var w' := StoreFrame(w, req, sha(req.data), fault).0; Inv(sha, w') && Later(w, w')
  {
    hide FrameKey, ParseFrameKey, CountFrames, EspId, AddFrame, Inv, DistinctFrames, FrameOk;
    var key := FrameKey(req.burst.session, req.burst.capture, req.index);
    if !fault.PutFails? && Original(key) !in w.objects {
      StoredKeeps(sha, w, key, req.data);
      var stored := w.(objects := w.objects[Original(key) := req.data]);
      if fault.FlushFails? && fault.recorded {
        RecordedOrphan(sha, w, req);
      } else if fault.NoFault? {
        AddFrameKeeps(sha, stored, Frame(req.burst, req.index, sha(req.data), key, |req.data|));
      }
    }
  }

  lemma RecordedOrphan(sha: Sha256, w: World, req: Request)
    requires Inv(sha, w) && req.burst.session in w.sessions && EspId(req.burst.capture)
    requires var key := FrameKey(req.burst.session, req.burst.capture, req.index); Original(key) !in w.objects
    ensures var key := FrameKey(req.burst.session, req.burst.capture, req.index);
            Inv(sha, w.(objects := w.objects[Original(key) := req.data],
                        orphans := w.orphans + [Orphan(key, sha(req.data), None)]))
  {
    hide FrameKey, ParseFrameKey, CountFrames, EspId, CapturesOk, DistinctFrames, FrameOk, DistinctOrphans;
    var key := FrameKey(req.burst.session, req.burst.capture, req.index);
    StoredKeeps(sha, w, key, req.data);
    var stored := w.(objects := w.objects[Original(key) := req.data]);
    EspIdSlashFree(req.burst.capture);
    ParseOfFrameKey(req.burst.session, req.burst.capture, req.index);
    forall p | 0 <= p < |w.orphans|
      ensures w.orphans[p].key != key
    {
      assert OrphanOk(sha, w, w.orphans[p]);
    }
    OrphanKeeps(sha, stored, Orphan(key, sha(req.data), None));
  }

  lemma UploadKeeps(sha: Sha256, w: World, req: Request, fault: Fault)
    requires Inv(sha, w)
    ensures var w' := Upload(sha, w, req, fault).0; Inv(sha, w') && Later(w, w')
  {
    hide FrameKey, ParseFrameKey, CountFrames, EspId, StoreFrame, Holds, Lower;
    if Validated(sha, req).Ok? && req.burst.session in w.sessions && S.UploadOpen(w.sessions[req.burst.session]) {
      if req.burst !in w.captures {
        forall i | 0 <= i < |w.frames|
          ensures !IsAt(w.frames[i], req.burst, req.index)
        {
          assert FrameOk(sha, w, w.frames[i]);
        }
        StoreFrameKeeps(sha, w, req, fault);
      } else if FindFrame(w.frames, req.burst, req.index).None? {
        StoreFrameKeeps(sha, w, req, fault);
      }
    }
  }

  // ---------- Reconciliation keeps the invariant ----------

  lemma ResolveKeeps(sha: Sha256, w: World, p: nat, resolution: Resolution)
    requires Inv(sha, w) && p < |w.orphans|
    ensures Inv(sha, Resolve(w, p, resolution)) && Later(w, Resolve(w, p, resolution))
  {
    hide FrameKey, ParseFrameKey, CountFrames, EspId, SlashFree, Holds;
    var w' := Resolve(w, p, resolution);
    forall q | 0 <= q < |w'.orphans|
      ensures OrphanOk(sha, w', w'.orphans[q])
    {
      assert OrphanOk(sha, w, w.orphans[q]);
    }
    forall i | 0 <= i < |w'.frames|
      ensures FrameOk(sha, w', w'.frames[i])
    {
      assert FrameOk(sha, w, w.frames[i]);
    }
  }

  /** One orphan of a pass either stays, is resolved in place, or is resolved and gives a row to its own key. */
  ghost predicate OnePassed(w: World, w': World, p: nat)
    requires p < |w.orphans|
  {
    && w'.sessions == w.sessions && w'.captures.Keys == w.captures.Keys && w'.objects == w.objects
    && (w' == w || exists r :: w'.orphans == w.orphans[p := w.orphans[p].(resolution := Some(r))])
    && (w'.frames == w.frames
        || (|w'.frames| == |w.frames| + 1 && w.frames <= w'.frames && w'.frames[|w.frames|].key == w.orphans[p].key))
  }

  lemma ReconcileOneKeeps(sha: Sha256, committed: seq<Frame>, w: World, p: nat, read: Read)
    requires Inv(sha, w) && p < |w.orphans| && committed <= w.frames
    requires forall i :: |committed| <= i < |w.frames| ==> w.frames[i].key != w.orphans[p].key
    ensures var w' := ReconcileOne(sha, committed, w, p, read); Inv(sha, w') && Later(w, w') && OnePassed(w, w', p)
  {
    hide FrameKey, ParseFrameKey, CountFrames, EspId, SlashFree, DistinctFrames, CapturesOk, DistinctOrphans, Lower;
    var o := w.orphans[p];
    assert OrphanOk(sha, w, o);
    var a := ParseFrameKey(o.key).value;
    var burst := Burst(a.session, a.capture);
    if read != HeadFails && burst in w.captures {
      match FindFrame(committed, burst, a.index)
      case Some(id) =>
        ResolveKeeps(sha, w, p, if Lower(committed[id].sha256) == Lower(o.sha256) then AlreadyLinked else ConflictKept);
      case None =>
        if read != GetFails {
          LowerDigest(sha(w.objects[Original(o.key)]));
          var f := Frame(burst, a.index, Lower(o.sha256), o.key, |w.objects[Original(o.key)]|);
          forall i | 0 <= i < |w.frames|
            ensures !IsAt(w.frames[i], burst, a.index)
          {
            assert FrameOk(sha, w, w.frames[i]);
            if i < |committed| {
              assert committed[i] == w.frames[i];
            }
          }
          AddFrameKeeps(sha, w, f);
          ResolveKeeps(sha, AddFrame(w, f), p, Recreated);
          var w' := Resolve(AddFrame(w, f), p, Recreated);
          assert w'.orphans == w.orphans[p := w.orphans[p].(resolution := Some(Recreated))];
        }
    }
  }

  ghost predicate Increasing(positions: seq<nat>) {
    forall i, j :: 0 <= i < j < |positions| ==> positions[i] < positions[j]
  }

  /** A pass leaves every orphan's key alone, touches only the orphans it selects, and adds rows only for their keys. */
  ghost predicate Passed(w: World, w': World, positions: seq<nat>)
    requires forall i :: 0 <= i < |positions| ==> positions[i] < |w.orphans|
  {
    && w'.sessions == w.sessions && w'.captures.Keys == w.captures.Keys && w'.objects == w.objects
    && |w'.orphans| == |w.orphans|
    && (forall p :: 0 <= p < |w.orphans| ==> w'.orphans[p].key == w.orphans[p].key && w'.orphans[p].sha256 == w.orphans[p].sha256)
    && (forall p :: 0 <= p < |w.orphans| && p !in positions ==> w'.orphans[p] == w.orphans[p])
    && w.frames <= w'.frames
    && (forall i :: |w.frames| <= i < |w'.frames| ==> exists m :: 0 <= m < |positions| && w'.frames[i].key == w.orphans[positions[m]].key)
  }

  lemma PassedNone(w: World)
    ensures Passed(w, w, []) && Later(w, w)
  {
  }

  lemma PassedFrames(w: World, w': World, positions: seq<nat>)
    requires forall i :: 0 <= i < |positions| ==> positions[i] < |w.orphans|
    requires Passed(w, w', positions)
    ensures |w'.orphans| == |w.orphans| && w.frames <= w'.frames
  {
  }

  lemma PassedFrame(w: World, w': World, positions: seq<nat>, i: nat) returns (m: nat)
    requires forall j :: 0 <= j < |positions| ==> positions[j] < |w.orphans|
    requires Passed(w, w', positions) && |w.frames| <= i < |w'.frames|
    ensures m < |positions| && w'.frames[i].key == w.orphans[positions[m]].key
  {
    var key := w'.frames[i].key;
    var k: int :| 0 <= k < |positions| && key == w.orphans[positions[k]].key;
    m := k;
  }

  lemma LaterTransitive(a: World, b: World, c: World)
    requires Later(a, b) && Later(b, c)
    ensures Later(a, c)
  {
  }

  lemma {:induction false} ReconcileAllKeeps(sha: Sha256, w: World, positions: seq<nat>, oracle: nat -> Read)
    requires Inv(sha, w) && Increasing(positions) && forall i :: 0 <= i < |positions| ==> positions[i] < |w.orphans|
    ensures var w' := ReconcileAll(sha, w.frames, w, positions, oracle); Inv(sha, w') && Later(w, w') && Passed(w, w', positions)
    decreases |positions|
  {
    hide Inv, ReconcileOne, OnePassed, Passed, Later;
    PassedNone(w);
    if positions != [] {
      var n := |positions| - 1;
      ReconcileAllKeeps(sha, w, positions[..n], oracle);
      var before := ReconcileAll(sha, w.frames, w, positions[..n], oracle);
      PassFresh(sha, w, before, positions);
      PassedFrames(w, before, positions[..n]);
      ReconcileOneKeeps(sha, w.frames, before, positions[n], oracle(positions[n]));
      LaterTransitive(w, before, ReconcileOne(sha, w.frames, before, positions[n], oracle(positions[n])));
      PassedOne(w, before, ReconcileOne(sha, w.frames, before, positions[n], oracle(positions[n])), positions);
    }
  }

  lemma PassFresh(sha: Sha256, w: World, before: World, positions: seq<nat>)
    requires Inv(sha, w) && positions != [] && Increasing(positions)
    requires forall i :: 0 <= i < |positions| ==> positions[i] < |w.orphans|
    requires Passed(w, before, positions[..|positions| - 1])
    ensures forall i :: |w.frames| <= i < |before.frames| ==> before.frames[i].key != before.orphans[positions[|positions| - 1]].key
  {
    hide FrameOk, OrphanOk, CapturesOk, DistinctFrames;
    var n := |positions| - 1;
    forall i | |w.frames| <= i < |before.frames|
      ensures before.frames[i].key != before.orphans[positions[n]].key
    {
      var m :| 0 <= m < n && before.frames[i].key == w.orphans[positions[..n][m]].key;
      assert positions[m] < positions[n];
    }
  }

  lemma PassedOne(w: World, before: World, after: World, positions: seq<nat>)
    requires positions != [] && Increasing(positions)
    requires forall i :: 0 <= i < |positions| ==> positions[i] < |w.orphans|
    requires Passed(w, before, positions[..|positions| - 1])
    requires OnePassed(before, after, positions[|positions| - 1])
    ensures Passed(w, after, positions)
  {
    var n := |positions| - 1;
    assert positions == positions[..n] + [positions[n]];
    forall i | |w.frames| <= i < |after.frames|
      ensures exists m :: 0 <= m < |positions| && after.frames[i].key == w.orphans[positions[m]].key
    {
      if i < |before.frames| {
        var m :| 0 <= m < n && before.frames[i].key == w.orphans[positions[..n][m]].key;
        assert after.frames[i].key == w.orphans[positions[m]].key;
      } else {
        assert after.frames[i].key == w.orphans[positions[n]].key;
      }
    }
  }

  lemma InvDistinct(sha: Sha256, w: World)
    requires Inv(sha, w)
    ensures DistinctFrames(w.frames)
  {
  }

  /** Under the invariant the unique constraint never stops a pass. */
  lemma ReconcileKeeps(sha: Sha256, w: World, limit: nat, oracle: nat -> Read, commits: bool)
    requires Inv(sha, w)
    ensures var w' := Reconcile(sha, w, limit, oracle, commits);
            && Inv(sha, w') && Later(w, w') && Passed(w, w', Unresolved(w.orphans, limit))
            && w' == if commits then ReconcileAll(sha, w.frames, w, Unresolved(w.orphans, limit), oracle) else w
  {
    hide Inv, DistinctFrames, ReconcileAll, Unresolved;
    var positions := Unresolved(w.orphans, limit);
    assert Increasing(positions);
    ReconcileAllKeeps(sha, w, positions, oracle);
    InvDistinct(sha, ReconcileAll(sha, w.frames, w, positions, oracle));
  }

  // ---------- Every step, every run ----------

  lemma CaptureKeeps(sha: Sha256, w: World, burst: Burst)
    requires Inv(sha, w)
    ensures Inv(sha, OpenCapture(w, burst)) && Later(w, OpenCapture(w, burst))
    ensures Inv(sha, CompleteCapture(w, burst)) && Later(w, CompleteCapture(w, burst))
  {
    hide FrameKey, ParseFrameKey, CountFrames, EspId, SlashFree, Holds;
    if burst !in w.captures {
      forall i | 0 <= i < |w.frames|
        ensures w.frames[i].burst != burst
      {
        assert FrameOk(sha, w, w.frames[i]);
      }
      CountNone(w.frames, burst);
    }
    forall w' | w' in {OpenCapture(w, burst), CompleteCapture(w, burst)}
      ensures Inv(sha, w')
    {
      forall i | 0 <= i < |w'.frames|
        ensures FrameOk(sha, w', w'.frames[i])
      {
        assert FrameOk(sha, w, w.frames[i]);
      }
      forall p | 0 <= p < |w'.orphans|
        ensures OrphanOk(sha, w', w'.orphans[p])
      {
        assert OrphanOk(sha, w, w.orphans[p]);
      }
    }
  }

  lemma SessionKeeps(sha: Sha256, w: World, sid: string, status: S.State)
    requires Inv(sha, w) && SlashFree(sid)
    ensures var w' := w.(sessions := w.sessions[sid := status]); Inv(sha, w') && Later(w, w')
  {
    hide FrameKey, ParseFrameKey, CountFrames, EspId, SlashFree, Holds;
    var w' := w.(sessions := w.sessions[sid := status]);
    forall i | 0 <= i < |w'.frames|
      ensures FrameOk(sha, w', w'.frames[i])
    {
      assert FrameOk(sha, w, w.frames[i]);
    }
    forall p | 0 <= p < |w'.orphans|
      ensures OrphanOk(sha, w', w'.orphans[p])
    {
      assert OrphanOk(sha, w, w.orphans[p]);
    }
  }

  lemma SessionsSlashFree(sha: Sha256, w: World, sid: string)
    requires Inv(sha, w) && sid in w.sessions
    ensures SlashFree(sid)
  {
  }

  lemma ApplyKeeps(sha: Sha256, w: World, step: Step)
    requires Inv(sha, w)
    ensures Inv(sha, Apply(sha, w, step)) && Later(w, Apply(sha, w, step))
  {
    hide Inv, Upload, Reconcile, OpenCapture, CompleteCapture, SlashFree;
    match step
    case NewSession(sid, status) =>
      if sid !in w.sessions && SlashFree(sid) {
        SessionKeeps(sha, w, sid, status);
      }
    case Transition(sid, target) =>
      if sid in w.sessions {
        SessionsSlashFree(sha, w, sid);
        SessionKeeps(sha, w, sid, target);
      }
    case CreateCapture(burst) => CaptureKeeps(sha, w, burst);
    case CaptureComplete(burst) => CaptureKeeps(sha, w, burst);
    case UploadStep(request, fault) => UploadKeeps(sha, w, request, fault);
    case ReconcileStep(limit, oracle, commits) => ReconcileKeeps(sha, w, limit, oracle, commits);
  }

  lemma {:induction false} RunKeeps(sha: Sha256, w: World, steps: seq<Step>)
    requires Inv(sha, w)
    ensures Inv(sha, Run(sha, w, steps)) && Later(w, Run(sha, w, steps))
    decreases |steps|
  {
    hide Inv, Apply, Later;
    PassedNone(w);
    if steps != [] {
      var before := Run(sha, w, steps[..|steps| - 1]);
      RunKeeps(sha, w, steps[..|steps| - 1]);
      ApplyKeeps(sha, before, steps[|steps| - 1]);
      LaterTransitive(w, before, Apply(sha, before, steps[|steps| - 1]));
    }
  }

  /** Whatever fails, every world reached from the empty one is consistent. */
  lemma ReachableInv(sha: Sha256, steps: seq<Step>)
    ensures Inv(sha, Run(sha, EMPTY, steps))
  {
    RunKeeps(sha, EMPTY, steps);
  }

  // ---------- The closed-session fence and idempotent retries ----------

  lemma ApplyStatus(sha: Sha256, w: World, step: Step, sid: string)
    requires sid in w.sessions
    ensures var w' := Apply(sha, w, step);
            sid in w'.sessions && (w'.sessions[sid] == w.sessions[sid] || w'.sessions[sid] in S.Allowed(w.sessions[sid]))
  {
    hide S.Allowed, Upload, Reconcile, SlashFree, CountFrames;
    if step.UploadStep? {
      UploadSessions(sha, w, step.request, step.fault);
    } else if step.ReconcileStep? {
      PassSessions(sha, w, step.limit, step.oracle, step.commits);
    }
  }

  lemma UploadSessions(sha: Sha256, w: World, req: Request, fault: Fault)
    ensures Upload(sha, w, req, fault).0.sessions == w.sessions
  {
    hide Validated, FrameKey, FindFrame, Lower;
  }

  lemma PassSessions(sha: Sha256, w: World, limit: nat, oracle: nat -> Read, commits: bool)
    ensures Reconcile(sha, w, limit, oracle, commits).sessions == w.sessions
  {
    hide ReconcileAll, DistinctFrames;
    ReconcileSessions(sha, w.frames, w, Unresolved(w.orphans, limit), oracle);
  }

  lemma {:induction false} ReconcileSessions(sha: Sha256, committed: seq<Frame>, w: World, positions: seq<nat>, oracle: nat -> Read)
    requires forall i :: 0 <= i < |positions| ==> positions[i] < |w.orphans|
    ensures ReconcileAll(sha, committed, w, positions, oracle).sessions == w.sessions
    decreases |positions|
  {
    hide ParseFrameKey, FindFrame, Lower;
    if positions != [] {
      ReconcileSessions(sha, committed, w, positions[..|positions| - 1], oracle);
    }
  }

  lemma {:induction false} StaysClosed(sha: Sha256, w: World, steps: seq<Step>, sid: string)
    requires sid in w.sessions && S.Closed(w.sessions[sid])
    ensures var w' := Run(sha, w, steps); sid in w'.sessions && S.Closed(w'.sessions[sid])
    decreases |steps|
  {
    hide Apply;
    if steps != [] {
      StaysClosed(sha, w, steps[..|steps| - 1], sid);
      ApplyStatus(sha, Run(sha, w, steps[..|steps| - 1]), steps[|steps| - 1], sid);
    }
  }

  /** Once a session has left capture, no later upload to it writes anything, in the database or in the object store. */
  lemma ClosedFence(sha: Sha256, w: World, steps: seq<Step>, req: Request, fault: Fault)
    requires req.burst.session in w.sessions && S.Closed(w.sessions[req.burst.session])
    ensures Upload(sha, Run(sha, w, steps), req, fault).0 == Run(sha, w, steps)
  {
    hide Validated, StoreFrame, FindFrame, Run, Lower;
    StaysClosed(sha, w, steps, req.burst.session);
  }

  lemma UploadedRow(sha: Sha256, w: World, req: Request, fault: Fault)
    requires Inv(sha, w) && Upload(sha, w, req, fault).1.Ok?
    ensures var (w', r) := Upload(sha, w, req, fault);
            && Validated(sha, req) == Ok(sha(req.data))
            && req.burst.session in w'.sessions && req.burst in w'.captures
            && r.value.id < |w'.frames|
            && var f := w'.frames[r.value.id];
            && IsAt(f, req.burst, req.index) && f.sha256 == sha(req.data)
            && r.value == Uploaded(r.value.id, f.key, sha(req.data), |req.data|, r.value.duplicate)
            && (r.value.duplicate ==> w' == w)
            && (!r.value.duplicate ==> |w'.frames| == |w.frames| + 1 && w.frames <= w'.frames)
  {
    hide FrameKey, DistinctFrames, OrphanOk, DistinctOrphans, CapturesOk, Lower;
    LowerDigest(sha(req.data));
    var (w', r) := Upload(sha, w, req, fault);
    if r.value.duplicate {
      assert FrameOk(sha, w, w.frames[r.value.id]);
      LowerDigest(sha(w.objects[Original(w.frames[r.value.id].key)]));
    }
  }

  /**
   * Sending an accepted frame again, after whatever happened since, closing included, returns the same
   * frame as a duplicate and writes nothing.
   */
  lemma ResendIsDuplicate(sha: Sha256, w: World, req: Request, fault: Fault, steps: seq<Step>, fault': Fault)
    requires Inv(sha, w) && Upload(sha, w, req, fault).1.Ok?
    ensures var (w', r) := Upload(sha, w, req, fault);
            var later := Run(sha, w', steps);
            Upload(sha, later, req, fault') == (later, Ok(r.value.(duplicate := true)))
  {
    hide FrameKey, Validated, StoreFrame, Run, Lower, FrameOk, OrphanOk, CapturesOk, DistinctOrphans;
    var (w', r) := Upload(sha, w, req, fault);
    UploadKeeps(sha, w, req, fault);
    UploadedRow(sha, w, req, fault);
    RunKeeps(sha, w', steps);
    var later := Run(sha, w', steps);
    var found := FindFrame(later.frames, req.burst, req.index);
    assert later.frames[r.value.id] == w'.frames[r.value.id];
    assert IsAt(later.frames[r.value.id], req.burst, req.index);
    assert found == Some(r.value.id);
  }

  // ---------- Running the reconciler again ----------

  /** An orphan that no pass can settle: its session or its capture has no row. */
  ghost predicate Stuck(w: World, o: Orphan) {
    && ParseFrameKey(o.key).Some?
    && var a := ParseFrameKey(o.key).value;
    && (a.session !in w.sessions || Burst(a.session, a.capture) !in w.captures)
  }

  lemma StuckStays(sha: Sha256, committed: seq<Frame>, w: World, p: nat, read: Read)
    requires p < |w.orphans| && Stuck(w, w.orphans[p]) && Original(w.orphans[p].key) in w.objects
    ensures ReconcileOne(sha, committed, w, p, read) == w
  {
  }

  lemma {:induction false} AllStuckStay(sha: Sha256, w: World, positions: seq<nat>, oracle: nat -> Read)
    requires forall i :: 0 <= i < |positions| ==>
      positions[i] < |w.orphans| && Stuck(w, w.orphans[positions[i]]) && Original(w.orphans[positions[i]].key) in w.objects
    ensures ReconcileAll(sha, w.frames, w, positions, oracle) == w
    decreases |positions|
  {
    hide Stuck, ReconcileOne;
    if positions != [] {
      var n := |positions| - 1;
      AllStuckStay(sha, w, positions[..n], oracle);
      StuckStays(sha, w.frames, w, positions[n], oracle(positions[n]));
    }
  }

  /** Every orphan that a pass selects is stuck. */
  ghost predicate Starved(w: World, limit: nat) {
    forall p :: p in Unresolved(w.orphans, limit) ==> Stuck(w, w.orphans[p])
  }

  lemma StarvedPass(sha: Sha256, w: World, limit: nat, oracle: nat -> Read, commits: bool)
    requires Inv(sha, w) && Starved(w, limit)
    ensures Reconcile(sha, w, limit, oracle, commits) == w
  {
    hide Stuck, DistinctFrames, FrameOk, CapturesOk;
    var positions := Unresolved(w.orphans, limit);
    forall i | 0 <= i < |positions|
      ensures Stuck(w, w.orphans[positions[i]]) && Original(w.orphans[positions[i]].key) in w.objects
    {
      assert positions[i] in positions;
      assert OrphanOk(sha, w, w.orphans[positions[i]]);
    }
    AllStuckStay(sha, w, positions, oracle);
  }

  /** With a reliable store one orphan is either settled or stuck. */
  lemma ReliableSettles(sha: Sha256, committed: seq<Frame>, w: World, p: nat)
    requires p < |w.orphans|
    ensures var o := ReconcileOne(sha, committed, w, p, Reliable).orphans[p];
            o.resolution.Some? || (Stuck(w, w.orphans[p]) && o == w.orphans[p])
  {
    hide FindFrame, Lower;
  }

  lemma {:induction false} ReliablePassSettles(sha: Sha256, w: World, positions: seq<nat>, oracle: nat -> Read)
    requires Inv(sha, w) && Increasing(positions) && forall i :: 0 <= i < |positions| ==> positions[i] < |w.orphans|
    requires forall p :: oracle(p) == Reliable
    ensures var w' := ReconcileAll(sha, w.frames, w, positions, oracle);
            forall m :: 0 <= m < |positions| ==>
              w'.orphans[positions[m]].resolution.Some? || Stuck(w', w'.orphans[positions[m]])
    decreases |positions|
  {
    hide Inv, ReconcileOne;
    if positions != [] {
      var n := |positions| - 1;
      ReliablePassSettles(sha, w, positions[..n], oracle);
      ReconcileAllKeeps(sha, w, positions[..n], oracle);
      var before := ReconcileAll(sha, w.frames, w, positions[..n], oracle);
      PassFresh(sha, w, before, positions);
      ReconcileOneKeeps(sha, w.frames, before, positions[n], oracle(positions[n]));
      ReliableSettles(sha, w.frames, before, positions[n]);
      var after := ReconcileOne(sha, w.frames, before, positions[n], oracle(positions[n]));
      forall m | 0 <= m < n
        ensures after.orphans[positions[m]].resolution.Some? || Stuck(after, after.orphans[positions[m]])
      {
        assert positions[..n][m] == positions[m] < positions[n];
        assert after.orphans[positions[m]] == before.orphans[positions[m]];
      }
    }
  }

  /** A limit that no unresolved orphan exceeds selects all of them. */
  lemma {:induction false} UnresolvedComplete(orphans: seq<Orphan>, limit: nat)
    requires |Unresolved(orphans, |orphans|)| <= limit
    ensures Unresolved(orphans, limit) == Unresolved(orphans, |orphans|)
    ensures forall p :: 0 <= p < |orphans| && orphans[p].resolution.None? ==> p in Unresolved(orphans, limit)
  {
    if orphans != [] {
      var n := |orphans| - 1;
      UnresolvedWide(orphans[..n], n, n + 1);
      UnresolvedComplete(orphans[..n], limit);
      forall p | 0 <= p < |orphans| && orphans[p].resolution.None?
        ensures p in Unresolved(orphans, limit)
      {
        if p < n {
          assert orphans[..n][p] == orphans[p];
        }
      }
    }
  }

  lemma {:induction false} UnresolvedWide(orphans: seq<Orphan>, limit: nat, limit': nat)
    requires |orphans| <= limit <= limit'
    ensures Unresolved(orphans, limit) == Unresolved(orphans, limit') && |Unresolved(orphans, limit)| <= |orphans|
  {
    if orphans != [] {
      UnresolvedWide(orphans[..|orphans| - 1], limit, limit');
    }
  }

  /** With a reliable store, and a limit that covers the unresolved orphans, a second pass does what one pass did. */
  lemma ReconcileTwice(sha: Sha256, w: World, limit: nat, oracle: nat -> Read, oracle': nat -> Read, commits: bool)
    requires Inv(sha, w) && |Unresolved(w.orphans, |w.orphans|)| <= limit
    requires forall p :: oracle(p) == Reliable
    ensures var w' := Reconcile(sha, w, limit, oracle, true); Reconcile(sha, w', limit, oracle', commits) == w'
  {
    hide Inv, ReconcileAll, Unresolved, Stuck, DistinctFrames;
    var positions := Unresolved(w.orphans, limit);
    assert Increasing(positions);
    ReconcileKeeps(sha, w, limit, oracle, true);
    ReliablePassSettles(sha, w, positions, oracle);
    UnresolvedComplete(w.orphans, limit);
    var w' := Reconcile(sha, w, limit, oracle, true);
    forall p | p in Unresolved(w'.orphans, limit)
      ensures Stuck(w', w'.orphans[p])
    {
      assert w'.orphans[p].resolution.None?;
      var m :| 0 <= m < |positions| && positions[m] == p;
    }
    StarvedPass(sha, w', limit, oracle', commits);
  }

  /**
   Orphans that cannot be settled hold up the ones behind them: a pass over a reliable store does nothing if and
   only if every orphan it selects is stuck, and then no other pass does anything either.
   */
  lemma StuckOrphansStarve(sha: Sha256, w: World, limit: nat, oracle: nat -> Read)
    requires Inv(sha, w) && forall p :: oracle(p) == Reliable
    ensures Reconcile(sha, w, limit, oracle, true) == w <==> Starved(w, limit)
    ensures Starved(w, limit) ==>
      forall oracle': nat -> Read, commits :: Reconcile(sha, w, limit, oracle', commits) == w
  {
    hide Inv, ReconcileAll, Unresolved, Stuck, DistinctFrames;
    if Starved(w, limit) {
      forall oracle': nat -> Read, commits
        ensures Reconcile(sha, w, limit, oracle', commits) == w
      {
        StarvedPass(sha, w, limit, oracle', commits);
      }
    } else {
      var positions := Unresolved(w.orphans, limit);
      assert Increasing(positions);
      ReconcileKeeps(sha, w, limit, oracle, true);
      ReliablePassSettles(sha, w, positions, oracle);
      var p :| p in positions && !Stuck(w, w.orphans[p]);
      var m :| 0 <= m < |positions| && positions[m] == p;
      assert w.orphans[p].resolution.None?;
    }
  }

  const CAMERA: Burst := Burst("exam", "c1")

  /** The first frame of a new capture, whose flush fails and whose orphan is recorded. */
  function FailingUpload(sha: Sha256, data: seq<byte>): Step {
    UploadStep(Request(CAMERA, 0, sha(data), data, true), FlushFails(true))
  }

  /** One failed upload into a new capture is enough: every pass selects its orphan and leaves the state as it is. */
  lemma FailedUploadStarves(sha: Sha256, data: seq<byte>, limit: nat, oracle: nat -> Read, commits: bool)
    requires |data| <= MAX_FRAME_SIZE
    ensures var w := Run(sha, EMPTY, [NewSession("exam", S.CAPTURING), FailingUpload(sha, data)]);
      && w.orphans == [Orphan(FrameKey("exam", "c1", 0), sha(data), None)]
      && Stuck(w, w.orphans[0]) && (limit >= 1 ==> Unresolved(w.orphans, limit) == [0])
      && Reconcile(sha, w, limit, oracle, commits) == w
  {
    hide FrameKey, ParseFrameKey, Lower;
    var first := NewSession("exam", S.CAPTURING);
    var second := FailingUpload(sha, data);
    assert SlashFree("exam") && EspId("c1");
    EspIdSlashFree("c1");
    ParseOfFrameKey("exam", "c1", 0);
    TwoSteps(sha, EMPTY, first, second);
    ReachableInv(sha, [first, second]);
    hide Run, Inv;
    var w := Run(sha, EMPTY, [first, second]);
    assert w == Apply(sha, Apply(sha, EMPTY, first), second);
    StarvedPass(sha, w, limit, oracle, commits);
  }

  // ---------- Stored objects without a frame ----------

  ghost predicate Waiting(w: World, key: string) {
    exists p :: 0 <= p < |w.orphans| && w.orphans[p].key == key && w.orphans[p].resolution.None?
  }

  /** The object of an address is stored, but no frame row has the address and no open orphan names the object. */
  ghost predicate Wedged(w: World, burst: Burst, index: int) {
    var key := FrameKey(burst.session, burst.capture, index);
    Original(key) in w.objects && FindFrame(w.frames, burst, index).None? && !Waiting(w, key)
  }

  lemma NoFrameAt(frames: seq<Frame>, burst: Burst, index: int)
    requires forall i :: 0 <= i < |frames| ==> !IsAt(frames[i], burst, index)
    ensures FindFrame(frames, burst, index).None?
  {
  }

  lemma WedgedUpload(sha: Sha256, w: World, req: Request, fault: Fault, burst: Burst, index: int)
    requires Inv(sha, w) && Wedged(w, burst, index)
    ensures Wedged(Upload(sha, w, req, fault).0, burst, index)
  {
    hide Inv, Validated, FrameKey, Lower;
    var w' := Upload(sha, w, req, fault).0;
    var key := FrameKey(burst.session, burst.capture, index);
    forall i | 0 <= i < |w'.frames|
      ensures !IsAt(w'.frames[i], burst, index)
    {
      assert i < |w.frames| ==> !IsAt(w.frames[i], burst, index);
    }
    NoFrameAt(w'.frames, burst, index);
    assert forall p :: 0 <= p < |w.orphans| && w.orphans[p].key == key ==> w.orphans[p].resolution.Some?;
  }

  lemma WedgedReconcile(sha: Sha256, w: World, limit: nat, oracle: nat -> Read, commits: bool, burst: Burst, index: int)
    requires Inv(sha, w) && Wedged(w, burst, index)
    ensures Wedged(Reconcile(sha, w, limit, oracle, commits), burst, index)
  {
    hide FrameKey, ReconcileAll, DistinctFrames, CapturesOk, OrphanOk, DistinctOrphans, Unresolved;
    var w' := Reconcile(sha, w, limit, oracle, commits);
    var positions := Unresolved(w.orphans, limit);
    ReconcileKeeps(sha, w, limit, oracle, commits);
    var key := FrameKey(burst.session, burst.capture, index);
    forall i | 0 <= i < |w'.frames|
      ensures !IsAt(w'.frames[i], burst, index)
    {
      if i < |w.frames| {
        assert !IsAt(w.frames[i], burst, index);
      } else {
        var m := PassedFrame(w, w', positions, i);
        assert FrameOk(sha, w', w'.frames[i]);
        assert w.orphans[positions[m]].resolution.None?;
      }
    }
    NoFrameAt(w'.frames, burst, index);
    forall p | 0 <= p < |w'.orphans| && w'.orphans[p].key == key
      ensures w'.orphans[p].resolution.Some?
    {
      assert w.orphans[p].key == key && w.orphans[p].resolution.Some?;
      assert forall m :: 0 <= m < |positions| ==> positions[m] != p;
    }
  }

  lemma WedgedStep(sha: Sha256, w: World, step: Step, burst: Burst, index: int)
    requires Inv(sha, w) && Wedged(w, burst, index)
    ensures Wedged(Apply(sha, w, step), burst, index)
  {
    hide Inv, Upload, Reconcile, FrameKey, SlashFree, CountFrames, FindFrame;
    if step.UploadStep? {
      WedgedUpload(sha, w, step.request, step.fault, burst, index);
    } else if step.ReconcileStep? {
      WedgedReconcile(sha, w, step.limit, step.oracle, step.commits, burst, index);
    }
  }

  lemma {:induction false} WedgedForever(sha: Sha256, w: World, steps: seq<Step>, burst: Burst, index: int)
    requires Inv(sha, w) && Wedged(w, burst, index)
    ensures Wedged(Run(sha, w, steps), burst, index)
    decreases |steps|
  {
    hide Inv, Apply, Wedged;
    if steps != [] {
      var init := steps[..|steps| - 1];
      WedgedForever(sha, w, init, burst, index);
      RunKeeps(sha, w, init);
      WedgedStep(sha, Run(sha, w, init), steps[|steps| - 1], burst, index);
    }
  }

  // ---------- When an object gets its frame ----------

  ghost predicate HasFrame(frames: seq<Frame>, burst: Burst, index: int) {
    exists i :: 0 <= i < |frames| && IsAt(frames[i], burst, index)
  }

  lemma HasFrameGrows(frames: seq<Frame>, frames': seq<Frame>, burst: Burst, index: int)
    requires HasFrame(frames, burst, index) && frames <= frames'
    ensures HasFrame(frames', burst, index)
  {
    var i :| 0 <= i < |frames| && IsAt(frames[i], burst, index);
    assert IsAt(frames'[i], burst, index);
  }

  /** An open orphan whose capture has a row and whose address has none. */
  ghost predicate Linkable(w: World, committed: seq<Frame>, key: string, burst: Burst, index: int) {
    && ParseFrameKey(key) == Some(FrameAddress(burst.session, burst.capture, index))
    && burst.session in w.sessions && burst in w.captures
    && FindFrame(committed, burst, index).None?
  }

  /** A reliable pass gives it a row. */
  lemma {:induction false} PassLinks(sha: Sha256, w: World, positions: seq<nat>, oracle: nat -> Read, p: nat, burst: Burst, index: int)
    requires Inv(sha, w) && Increasing(positions) && forall i :: 0 <= i < |positions| ==> positions[i] < |w.orphans|
    requires forall q :: oracle(q) == Reliable
    requires p in positions && Linkable(w, w.frames, w.orphans[p].key, burst, index)
    ensures HasFrame(ReconcileAll(sha, w.frames, w, positions, oracle).frames, burst, index)
    decreases |positions|
  {
    hide Inv, ReconcileOne, Linkable, HasFrame, OnePassed, Later;
    var n := |positions| - 1;
    var before := ReconcileAll(sha, w.frames, w, positions[..n], oracle);
    ReconcileAllKeeps(sha, w, positions[..n], oracle);
    if positions[n] == p {
      LinkableStays(w, before, positions[..n], w.orphans[p].key, burst, index);
      OneLinks(sha, w.frames, before, p, burst, index);
    } else {
      PassFresh(sha, w, before, positions);
      ReconcileOneKeeps(sha, w.frames, before, positions[n], oracle(positions[n]));
      LaterFrames(before, ReconcileOne(sha, w.frames, before, positions[n], oracle(positions[n])));
      assert positions == positions[..n] + [positions[n]];
      PassLinks(sha, w, positions[..n], oracle, p, burst, index);
      HasFrameGrows(before.frames, ReconcileOne(sha, w.frames, before, positions[n], oracle(positions[n])).frames, burst, index);
    }
  }

  lemma LaterFrames(w: World, w': World)
    requires Later(w, w')
    ensures w.frames <= w'.frames
  {
  }

  lemma LinkableStays(w: World, w': World, positions: seq<nat>, key: string, burst: Burst, index: int)
    requires forall i :: 0 <= i < |positions| ==> positions[i] < |w.orphans|
    requires Passed(w, w', positions) && Linkable(w, w.frames, key, burst, index)
    ensures Linkable(w', w.frames, key, burst, index)
  {
    assert burst in w'.captures.Keys;
  }

  lemma OneLinks(sha: Sha256, committed: seq<Frame>, w: World, p: nat, burst: Burst, index: int)
    requires Inv(sha, w) && p < |w.orphans| && Linkable(w, committed, w.orphans[p].key, burst, index)
    ensures HasFrame(ReconcileOne(sha, committed, w, p, Reliable).frames, burst, index)
  {
    hide ParseFrameKey, FindFrame, CapturesOk, DistinctFrames, DistinctOrphans, FrameOk, FrameKey, CountFrames, Lower;
    var o := w.orphans[p];
    assert OrphanOk(sha, w, o);
    LowerDigest(sha(w.objects[Original(o.key)]));
    assert IsAt(ReconcileOne(sha, committed, w, p, Reliable).frames[|w.frames|], burst, index);
  }

  /** Opening the capture, if need be, and one reliable pass over all orphans. */
  lemma WaitingIsLinked(sha: Sha256, w: World, burst: Burst, index: int, oracle: nat -> Read)
    requires Inv(sha, w) && SlashFree(burst.session) && SlashFree(burst.capture)
    requires Waiting(w, FrameKey(burst.session, burst.capture, index)) && FindFrame(w.frames, burst, index).None?
    requires forall q :: oracle(q) == Reliable
    ensures var steps := [CreateCapture(burst), ReconcileStep(|w.orphans|, oracle, true)];
            FindFrame(Run(sha, w, steps).frames, burst, index).Some?
  {
    hide Inv, ReconcileAll, Reconcile, Unresolved, FrameKey, ParseFrameKey, FindFrame, DistinctFrames, EspId, HasFrame, Later, Passed;
    var key := FrameKey(burst.session, burst.capture, index);
    var p :| 0 <= p < |w.orphans| && w.orphans[p].key == key && w.orphans[p].resolution.None?;
    OrphanAddress(sha, w, p, burst, index);
    var ready := OpenCapture(w, burst);
    CaptureKeeps(sha, w, burst);
    var positions := Unresolved(ready.orphans, |w.orphans|);
    assert Increasing(positions);
    AtMostAll(ready.orphans, |w.orphans|);
    UnresolvedComplete(ready.orphans, |w.orphans|);
    ReconcileKeeps(sha, ready, |w.orphans|, oracle, true);
    PassLinks(sha, ready, positions, oracle, p, burst, index);
    TwoSteps(sha, w, CreateCapture(burst), ReconcileStep(|w.orphans|, oracle, true));
    FoundAt(Reconcile(sha, ready, |w.orphans|, oracle, true).frames, burst, index);
  }

  lemma OrphanAddress(sha: Sha256, w: World, p: nat, burst: Burst, index: int)
    requires Inv(sha, w) && SlashFree(burst.session) && SlashFree(burst.capture) && p < |w.orphans|
    requires w.orphans[p].key == FrameKey(burst.session, burst.capture, index)
    ensures ParseFrameKey(w.orphans[p].key) == Some(FrameAddress(burst.session, burst.capture, index))
    ensures burst.session in w.sessions && EspId(burst.capture)
  {
    hide FrameKey, ParseFrameKey;
    assert OrphanOk(sha, w, w.orphans[p]);
    ParseOfFrameKey(burst.session, burst.capture, index);
  }

  lemma AtMostAll(orphans: seq<Orphan>, limit: nat)
    requires |orphans| <= limit
    ensures |Unresolved(orphans, |orphans|)| <= limit
  {
  }

  lemma TwoSteps(sha: Sha256, w: World, a: Step, b: Step)
    ensures Run(sha, w, [a, b]) == Apply(sha, Apply(sha, w, a), b)
  {
    hide Apply;
    assert [a, b][..1] == [a] && [a][..0] == [];
    assert Run(sha, w, [a]) == Apply(sha, w, a);
  }

  lemma FoundAt(frames: seq<Frame>, burst: Burst, index: int)
    ensures HasFrame(frames, burst, index) ==> FindFrame(frames, burst, index).Some?
  {
  }

  /**
   * The object of an address without a frame row can still get one if and only if an open orphan names it:
   * a stored object whose orphan was never recorded blocks its address for good.
   */
  lemma StoredObjectFate(sha: Sha256, w: World, burst: Burst, index: int)
    requires Inv(sha, w) && SlashFree(burst.session) && SlashFree(burst.capture)
    requires var key := FrameKey(burst.session, burst.capture, index);
             Original(key) in w.objects && FindFrame(w.frames, burst, index).None?
    ensures (exists steps :: FindFrame(Run(sha, w, steps).frames, burst, index).Some?)
            <==> Waiting(w, FrameKey(burst.session, burst.capture, index))
  {
    hide Inv, FrameKey, FindFrame, Run, SlashFree, Waiting;
    if Waiting(w, FrameKey(burst.session, burst.capture, index)) {
      WaitingIsLinked(sha, w, burst, index, _ => Reliable);
    } else {
      forall steps: seq<Step>
        ensures FindFrame(Run(sha, w, steps).frames, burst, index).None?
      {
        WedgedForever(sha, w, steps, burst, index);
      }
    }
  }

  /** How an address comes to be blocked: the object is written, and then the request fails without an orphan. */
  lemma BlockedByFailure(sha: Sha256, w: World, req: Request, fault: Fault, steps: seq<Step>)
    requires Inv(sha, w)
    requires Upload(sha, w, req, NoFault).1.Ok? && !Upload(sha, w, req, NoFault).1.value.duplicate
    requires fault in {PutWritesThenFails, FlushFails(false), FailsAfterFlush}
    ensures var w' := Upload(sha, w, req, fault).0;
            FindFrame(Run(sha, w', steps).frames, req.burst, req.index).None?
  {
    hide FrameKey, Lower, Run, FrameOk, CapturesOk, DistinctFrames, DistinctOrphans;
    var w' := Upload(sha, w, req, fault).0;
    var key := FrameKey(req.burst.session, req.burst.capture, req.index);
    UploadKeeps(sha, w, req, fault);
    forall p | 0 <= p < |w.orphans|
      ensures w.orphans[p].key != key
    {
      assert OrphanOk(sha, w, w.orphans[p]);
    }
    if req.burst !in w.captures {
      forall i | 0 <= i < |w.frames|
        ensures !IsAt(w.frames[i], req.burst, req.index)
      {
        InvFrame(sha, w, i);
      }
      NoFrameAt(w.frames, req.burst, req.index);
    }
    assert Wedged(w', req.burst, req.index);
    WedgedForever(sha, w', steps, req.burst, req.index);
  }

  lemma InvFrame(sha: Sha256, w: World, i: nat)
    requires Inv(sha, w) && i < |w.frames|
    ensures w.frames[i].burst in w.captures && FrameOk(sha, w, w.frames[i])
  {
    assert FrameOk(sha, w, w.frames[i]);
  }
}
