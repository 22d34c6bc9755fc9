/** When an upload is accepted, what each failure leaves behind, and what a pass makes of each orphan. */
module FrameIngestOutcomes {
  import opened Wrappers
  import S = SessionStates
  import opened RgbCodec
  import opened StorageKeys
  import opened ObjectStore
  import opened FrameIngest
  import opened FrameIngestTheorems

  // ---------- Uploads ----------

  /** A capture id of 1 to 63 letters, digits, _ or -. */
  predicate WellFormedId(s: string) {
    1 <= |s| <= 63
    && forall i :: 0 <= i < |s| ==>
         'A' <= s[i] <= 'Z' || 'a' <= s[i] <= 'z' || '0' <= s[i] <= '9' || s[i] == '_' || s[i] == '-'
  }

  /** The same text, up to the case of ASCII letters. */
  predicate SameIgnoringCase(s: string, t: string) {
    && |s| == |t|
    && forall i :: 0 <= i < |s| ==>
         || s[i] == t[i]
         || ('A' <= s[i] <= 'Z' && t[i] as int == s[i] as int + 32)
         || ('A' <= t[i] <= 'Z' && s[i] as int == t[i] as int + 32)
  }

  /** The declared digest is that of the received bytes. */
  predicate DeclaredRight(sha: Sha256, req: Request) {
    SameIgnoringCase(sha(req.data), req.declared)
  }

  lemma LowerSame(s: string, t: string)
    ensures Lower(s) == Lower(t) <==> SameIgnoringCase(s, t)
  {
    if Lower(s) == Lower(t) {
      assert |s| == |Lower(s)| && |t| == |Lower(t)|;
      forall i | 0 <= i < |s|
        ensures LowerChar(s[i]) == LowerChar(t[i])
      {
        assert Lower(s)[i] == Lower(t)[i];
      }
    }
  }

  lemma IdForm(s: string)
    ensures EspId(s) <==> WellFormedId(s)
  {
  }

  predicate Open(status: S.State) {
    status in {S.CAPTURING, S.CAPTURE_END_CANDIDATE, S.CAPTURE_LOCKING}
  }

  /** A frame row has the address, with this digest. */
  ghost predicate Held(frames: seq<Frame>, burst: Burst, index: int, sha256: string) {
    exists i :: 0 <= i < |frames| && frames[i].burst == burst && frames[i].index == index && frames[i].sha256 == sha256
  }

  ghost predicate Taken(frames: seq<Frame>, burst: Burst, index: int) {
    exists i :: 0 <= i < |frames| && frames[i].burst == burst && frames[i].index == index
  }

  /** The content passes every check that needs no lookup. */
  predicate Proper(sha: Sha256, req: Request) {
    && WellFormedId(req.burst.capture) && req.index >= 0 && req.accepted
    && |req.data| <= 10485760
    && DeclaredRight(sha, req)
  }

  /** A new frame can be stored: the session is open, and neither a row nor an object has the address. */
  ghost predicate Storable(w: World, req: Request) {
    && req.burst.session in w.sessions && Open(w.sessions[req.burst.session])
    && !Taken(w.frames, req.burst, req.index)
    && Original(FrameKey(req.burst.session, req.burst.capture, req.index)) !in w.objects
  }

  lemma AddressFacts(sha: Sha256, w: World, req: Request)
    requires Inv(sha, w)
    ensures Taken(w.frames, req.burst, req.index) <==> FindFrame(w.frames, req.burst, req.index).Some?
    ensures Taken(w.frames, req.burst, req.index) ==> req.burst in w.captures && req.burst.session in w.sessions
    ensures Held(w.frames, req.burst, req.index, sha(req.data)) <==>
      var found := FindFrame(w.frames, req.burst, req.index);
      found.Some? && Lower(w.frames[found.value].sha256) == Lower(sha(req.data))
  {
    hide FrameKey, Lower, OrphanOk, DistinctOrphans, EspId;
    var found := FindFrame(w.frames, req.burst, req.index);
    LowerDigest(sha(req.data));
    if found.Some? {
      var f := w.frames[found.value];
      assert FrameOk(sha, w, f);
      assert IsAt(f, req.burst, req.index);
      LowerDigest(sha(w.objects[Original(f.key)]));
    }
    if Taken(w.frames, req.burst, req.index) {
      var i :| 0 <= i < |w.frames| && w.frames[i].burst == req.burst && w.frames[i].index == req.index;
      assert IsAt(w.frames[i], req.burst, req.index);
    }
  }

  /**
   An upload that nothing disturbs succeeds if and only if its form, size and declared digest are right, its session is
   known, and either its frame is already there or it can be stored.
   */
  lemma UploadAccepted(sha: Sha256, w: World, req: Request)
    requires Inv(sha, w)
    ensures Upload(sha, w, req, NoFault).1.Ok? <==>
      && Proper(sha, req)
      && req.burst.session in w.sessions
      && (Held(w.frames, req.burst, req.index, sha(req.data)) || Storable(w, req))
  {
    hide Inv, FrameKey, Lower, EspId, FindFrame, WellFormedId, SameIgnoringCase, Taken, Held;
    AddressFacts(sha, w, req);
    LowerSame(sha(req.data), req.declared);
    IdForm(req.burst.capture);
  }

  /** Whatever goes wrong, an accepted upload declared the right digest and had the right form. */
  lemma AcceptedIsProper(sha: Sha256, w: World, req: Request, fault: Fault)
    requires Upload(sha, w, req, fault).1.Ok?
    ensures Proper(sha, req) && req.burst.session in w.sessions
  {
    hide FrameKey, Lower, EspId, FindFrame, WellFormedId, SameIgnoringCase, StoreFrame;
    LowerSame(sha(req.data), req.declared);
    IdForm(req.burst.capture);
  }

  /** What a refused upload is refused for; nothing is written. */
  lemma UploadRefused(sha: Sha256, w: World, req: Request, fault: Fault)
    requires Inv(sha, w)
    ensures var (w', r) := Upload(sha, w, req, fault);
      && (r == Err(Rejected) <==> !(WellFormedId(req.burst.capture) && req.index >= 0 && req.accepted))
      && (r != Err(Rejected) ==> (r == Err(TooLarge) <==> |req.data| > 10485760))
      && (r != Err(Rejected) && r != Err(TooLarge) ==> (r == Err(HashMismatch) <==> !DeclaredRight(sha, req)))
      && (Proper(sha, req) ==>
            && (r == Err(SessionNotFound) <==> req.burst.session !in w.sessions)
            && (r == Err(DuplicateConflict) <==>
                  Taken(w.frames, req.burst, req.index) && !Held(w.frames, req.burst, req.index, sha(req.data)))
            && (r == Err(SessionClosed) <==>
                  req.burst.session in w.sessions && !Open(w.sessions[req.burst.session])
                  && !Taken(w.frames, req.burst, req.index)))
      && (r.Err? && r.error in {Rejected, TooLarge, HashMismatch, SessionNotFound, DuplicateConflict, SessionClosed} ==> w' == w)
  {
    hide Inv, FrameKey, Lower, EspId, FindFrame, WellFormedId, SameIgnoringCase, Taken, Held;
    AddressFacts(sha, w, req);
    LowerSame(sha(req.data), req.declared);
    IdForm(req.burst.capture);
  }

  /** A frame that is already there is answered again, whatever the fault, and nothing is written. */
  lemma HeldAgain(sha: Sha256, w: World, req: Request, fault: Fault)
    requires Inv(sha, w) && Proper(sha, req) && Held(w.frames, req.burst, req.index, sha(req.data))
    ensures var (w', r) := Upload(sha, w, req, fault);
      && w' == w && r.Ok? && r.value.duplicate && r.value.id < |w.frames|
      && var f := w.frames[r.value.id];
      && f.burst == req.burst && f.index == req.index
      && r.value == Uploaded(r.value.id, f.key, sha(req.data), |req.data|, true)
  {
    hide Inv, FrameKey, Lower, EspId, FindFrame, WellFormedId, SameIgnoringCase, Taken, Held;
    AddressFacts(sha, w, req);
    LowerSame(sha(req.data), req.declared);
    IdForm(req.burst.capture);
  }

  /**
   What storing a new frame writes: object, row and counter if nothing fails; nothing if the put fails; the object alone
   if the request fails later, and an open orphan beside it if the failing flush could record one. An object that is
   already there is never overwritten.
   */
  lemma StoreOutcome(sha: Sha256, w: World, req: Request, fault: Fault)
    requires Inv(sha, w) && Proper(sha, req)
    requires req.burst.session in w.sessions && Open(w.sessions[req.burst.session])
    requires !Taken(w.frames, req.burst, req.index)
    ensures var (w', r) := Upload(sha, w, req, fault);
      var key := FrameKey(req.burst.session, req.burst.capture, req.index);
      var objects := w.objects[Original(key) := req.data];
      if fault == PutFails then w' == w && r == Err(StorageFailed)
      else if !Storable(w, req) then w' == w && r == Err(OverwriteRefused)
      else
        match fault
        case NoFault =>
          && r == Ok(Uploaded(|w.frames|, key, sha(req.data), |req.data|, false))
          && w' == w.(objects := objects,
                      frames := w.frames + [Frame(req.burst, req.index, sha(req.data), key, |req.data|)],
                      captures := w'.captures)
          && w'.captures.Keys == w.captures.Keys + {req.burst}
          && (forall b :: b in w.captures && b != req.burst ==> w'.captures[b] == w.captures[b])
          && w'.captures[req.burst] ==
             if req.burst in w.captures
             then Capture(w.captures[req.burst].received + 1, w.captures[req.burst].complete) else Capture(1, false)
        case PutWritesThenFails => w' == w.(objects := objects) && r == Err(StorageFailed)
        case FlushFails(recorded) =>
          && r == Err(DatabaseFailed)
          && w' == w.(objects := objects,
                      orphans := if recorded then w.orphans + [Orphan(key, sha(req.data), None)] else w.orphans)
        case FailsAfterFlush => w' == w.(objects := objects) && r == Err(DatabaseFailed)
  {
    hide Inv, FrameKey, Lower, EspId, FindFrame, WellFormedId, SameIgnoringCase, Taken, Held;
    AddressFacts(sha, w, req);
    LowerSame(sha(req.data), req.declared);
    IdForm(req.burst.capture);
  }

  // ---------- Captures ----------

  /** The indices of a capture's frames. */
  function Indices(frames: seq<Frame>, burst: Burst): set<int> {
    set i | 0 <= i < |frames| && frames[i].burst == burst :: frames[i].index
  }

  lemma IndicesPush(frames: seq<Frame>, f: Frame, burst: Burst)
    ensures Indices(frames + [f], burst) == Indices(frames, burst) + if f.burst == burst then {f.index} else {}
  {
    var more := frames + [f];
    forall index | index in Indices(frames, burst)
      ensures index in Indices(more, burst)
    {
      var i :| 0 <= i < |frames| && frames[i].burst == burst && frames[i].index == index;
      assert more[i] == frames[i];
    }
    if f.burst == burst {
      assert more[|frames|] == f;
    }
  }

  lemma {:induction false} CountIndices(frames: seq<Frame>, burst: Burst)
    requires DistinctFrames(frames)
    ensures CountFrames(frames, burst) == |Indices(frames, burst)|
  {
    if frames == [] {
      assert Indices(frames, burst) == {};
    } else {
      var n := |frames| - 1;
      var last := frames[n];
      CountIndices(frames[..n], burst);
      assert frames == frames[..n] + [last];
      IndicesPush(frames[..n], last, burst);
      if last.burst == burst {
        NewIndex(frames);
      }
    }
  }

  lemma NewIndex(frames: seq<Frame>)
    requires DistinctFrames(frames) && frames != []
    ensures var n := |frames| - 1; frames[n].index !in Indices(frames[..n], frames[n].burst)
  {
  }

  /** A capture is opened, empty, exactly if its session is known, its id has the form and it is new. */
  lemma OpenOutcome(w: World, burst: Burst)
    ensures OpenCapture(w, burst) ==
      if burst.session in w.sessions && WellFormedId(burst.capture) && burst !in w.captures
      then w.(captures := w.captures[burst := Capture(0, false)]) else w
  {
    IdForm(burst.capture);
  }

  /** Completing a capture reports the number of different indices uploaded, which is what the counter says. */
  lemma CompleteOutcome(sha: Sha256, w: World, burst: Burst)
    requires Inv(sha, w)
    ensures var w' := CompleteCapture(w, burst);
      && (burst !in w.captures ==> w' == w)
      && (burst in w.captures ==>
            && w.captures[burst].received == |Indices(w.frames, burst)|
            && w' == w.(captures := w.captures[burst := Capture(|Indices(w.frames, burst)|, true)]))
  {
    hide FrameOk, OrphanOk, DistinctOrphans;
    CountIndices(w.frames, burst);
  }

  // ---------- Reconciliation ----------

  /** A pass selects open orphans only, and leaves one out only when the limit is used up by older ones. */
  lemma {:induction false} SelectsOldest(orphans: seq<Orphan>, limit: nat, p: nat)
    requires p < |orphans|
    ensures p in Unresolved(orphans, limit) ==> orphans[p].resolution.None?
    ensures orphans[p].resolution.None? && p !in Unresolved(orphans, limit) ==>
      |Unresolved(orphans, limit)| == limit && forall q :: q in Unresolved(orphans, limit) ==> q < p
  {
    var n := |orphans| - 1;
    var before := Unresolved(orphans[..n], limit);
    if p < n {
      SelectsOldest(orphans[..n], limit, p);
      assert orphans[..n][p] == orphans[p];
      assert p in before ==> p in Unresolved(orphans, limit);
      if orphans[p].resolution.None? && p !in Unresolved(orphans, limit) {
        assert Unresolved(orphans, limit) == before;
      }
    } else {
      assert forall q :: q in before ==> q < n;
    }
  }

  /** The address that an orphan's key names. */
  ghost predicate Names(o: Orphan, burst: Burst, index: int) {
    ParseFrameKey(o.key) == Some(FrameAddress(burst.session, burst.capture, index))
  }

  /**
   What a pass makes of an open orphan of some address, as long as the store answers: without a session or a capture it
   stays; a frame that is already there has its digest and settles it; else the frame is made from the orphan.
   */
  lemma ReconcileOneOutcome(sha: Sha256, committed: seq<Frame>, w: World, p: nat, burst: Burst, index: int)
    requires Inv(sha, w) && p < |w.orphans| && committed <= w.frames && Names(w.orphans[p], burst, index)
    ensures var w' := ReconcileOne(sha, committed, w, p, Reliable);
      var o := w.orphans[p];
      if burst.session !in w.sessions || burst !in w.captures then w' == w
      else if Taken(committed, burst, index) then
        && Held(committed, burst, index, o.sha256)
        && w' == w.(orphans := w.orphans[p := o.(resolution := Some(AlreadyLinked))])
      else
        && w'.orphans == w.orphans[p := o.(resolution := Some(Recreated))]
        && w'.frames == w.frames + [Frame(burst, index, o.sha256, o.key, |w.objects[Original(o.key)]|)]
        && w'.captures == w.captures[burst := Capture(w.captures[burst].received + 1, w.captures[burst].complete)]
        && w'.sessions == w.sessions && w'.objects == w.objects
  {
    hide CapturesOk, DistinctOrphans, FrameKey, CountFrames, Lower, ParseFrameKey, SlashFree, EspId, Held, Taken;
    var o := w.orphans[p];
    assert OrphanOk(sha, w, o);
    LowerDigest(sha(w.objects[Original(o.key)]));
    CommittedFacts(sha, committed, w, o, burst, index);
    var found := FindFrame(committed, burst, index);
    if found.Some? {
      assert FrameOk(sha, w, w.frames[found.value]);
      assert committed[found.value] == w.frames[found.value];
    }
  }

  /** The bytes stored for an orphan have its digest, up to case. */
  predicate Intact(sha: Sha256, w: World, o: Orphan) {
    Original(o.key) in w.objects && SameIgnoringCase(sha(w.objects[Original(o.key)]), o.sha256)
  }

  /**
   Orphans that no run leaves behind, such as those of an object removed by other means, are kept apart: each is settled
   under the name of what is wrong with it, and nothing else changes.
   */
  lemma DamagedOrphan(sha: Sha256, committed: seq<Frame>, w: World, p: nat)
    requires p < |w.orphans| && DistinctFrames(committed)
    ensures var o := w.orphans[p];
      var w' := ReconcileOne(sha, committed, w, p, Reliable);
      var settled := (r: Resolution) => w.(orphans := w.orphans[p := o.(resolution := Some(r))]);
      && (Original(o.key) !in w.objects ==> w' == settled(Discarded))
      && (Original(o.key) in w.objects && ParseFrameKey(o.key).None? ==> w' == settled(UnparseableKey))
      && (Original(o.key) in w.objects && ParseFrameKey(o.key).Some? ==>
            var a := ParseFrameKey(o.key).value;
            var burst := Burst(a.session, a.capture);
            a.session in w.sessions && burst in w.captures ==>
              && (forall i :: 0 <= i < |committed| && committed[i].burst == burst && committed[i].index == a.index ==>
                    (SameIgnoringCase(committed[i].sha256, o.sha256) || w' == settled(ConflictKept)))
              && (!Taken(committed, burst, a.index) && !Intact(sha, w, o) ==> w' == settled(HashMismatchKept)))
  {
    hide ParseFrameKey, Lower, SameIgnoringCase, FindFrame, DistinctFrames;
    var o := w.orphans[p];
    if Original(o.key) in w.objects && ParseFrameKey(o.key).Some? {
      var a := ParseFrameKey(o.key).value;
      var found := FindFrame(committed, Burst(a.session, a.capture), a.index);
      LowerSame(sha(w.objects[Original(o.key)]), o.sha256);
      FoundIsTaken(committed, Burst(a.session, a.capture), a.index);
      if found.Some? {
        LowerSame(committed[found.value].sha256, o.sha256);
        OnlyFrame(committed, found.value);
      }
    }
  }

  lemma OnlyFrame(frames: seq<Frame>, k: nat)
    requires DistinctFrames(frames) && k < |frames|
    ensures forall i :: 0 <= i < |frames| && frames[i].burst == frames[k].burst && frames[i].index == frames[k].index ==> i == k
  {
  }

  lemma FoundIsTaken(frames: seq<Frame>, burst: Burst, index: int)
    ensures FindFrame(frames, burst, index).Some? <==> Taken(frames, burst, index)
    ensures FindFrame(frames, burst, index).Some? ==>
      var k := FindFrame(frames, burst, index).value;
      k < |frames| && frames[k].burst == burst && frames[k].index == index
  {
    var found := FindFrame(frames, burst, index);
    if found.Some? {
      assert IsAt(frames[found.value], burst, index);
    }
    if Taken(frames, burst, index) {
      var i :| 0 <= i < |frames| && frames[i].burst == burst && frames[i].index == index;
      assert IsAt(frames[i], burst, index);
    }
  }

  lemma CommittedFacts(sha: Sha256, committed: seq<Frame>, w: World, o: Orphan, burst: Burst, index: int)
    requires Inv(sha, w) && committed <= w.frames && Lower(o.sha256) == o.sha256
    ensures Taken(committed, burst, index) <==> FindFrame(committed, burst, index).Some?
    ensures Held(committed, burst, index, o.sha256) <==>
      var found := FindFrame(committed, burst, index);
      found.Some? && Lower(committed[found.value].sha256) == Lower(o.sha256)
  {
    hide FrameKey, Lower, OrphanOk, DistinctOrphans, EspId, CapturesOk;
    var found := FindFrame(committed, burst, index);
    if found.Some? {
      var f := committed[found.value];
      assert f == w.frames[found.value];
      assert FrameOk(sha, w, f);
      assert IsAt(f, burst, index);
      LowerDigest(sha(w.objects[Original(f.key)]));
    }
    if Taken(committed, burst, index) {
      var i :| 0 <= i < |committed| && committed[i].burst == burst && committed[i].index == index;
      assert IsAt(committed[i], burst, index);
      assert committed[i] == w.frames[i] && committed[found.value] == w.frames[found.value];
    }
  }

  /** A store that does not answer leaves the orphan open, unless a frame that is already there settles it. */
  lemma UnreadableOrphan(sha: Sha256, committed: seq<Frame>, w: World, p: nat, burst: Burst, index: int, read: Read)
    requires Inv(sha, w) && p < |w.orphans| && committed <= w.frames && Names(w.orphans[p], burst, index)
    ensures ReconcileOne(sha, committed, w, p, HeadFails) == w
    ensures ReconcileOne(sha, committed, w, p, GetFails) ==
      if Taken(committed, burst, index) then ReconcileOne(sha, committed, w, p, Reliable) else w
  {
    hide CapturesOk, DistinctOrphans, FrameKey, CountFrames, Lower, ParseFrameKey, SlashFree, EspId, Held, Taken;
    var o := w.orphans[p];
    assert OrphanOk(sha, w, o);
    LowerDigest(sha(w.objects[Original(o.key)]));
    CommittedFacts(sha, committed, w, o, burst, index);
  }
}
