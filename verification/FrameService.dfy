/** The upload, capture and reconciliation requests as operations on the database rows and the object store. */
module FrameService {
  import opened Wrappers
  import S = SessionStates
  import opened RgbCodec
  import opened StorageKeys
  import opened ObjectStore
  import opened FrameIngest
  import opened FrameIngestTheorems

  class FrameStore {
    var sessions: map<string, S.State>
    var captures: map<Burst, Capture>
    var frames: seq<Frame>
    var orphans: seq<Orphan>
    const storage: FakeStorage

    ghost function Contents(): World
      reads this, storage
    {
      World(sessions, captures, frames, orphans, storage.objects)
    }

    ghost predicate Valid(sha: Sha256)
      reads this, storage
    {
      storage.Valid() && Inv(sha, Contents())
    }

    constructor (storage: FakeStorage)
      requires storage.Valid() && storage.objects == map[]
      ensures this.storage == storage && Contents() == EMPTY
      ensures forall sha: Sha256 :: Valid(sha)
    {
      this.storage := storage;
      sessions, captures, frames, orphans := map[], map[], [], [];
    }

    /** What the store's simulated failures make of a fault. */
    ghost function Actual(fault: Fault): Fault
      reads storage
    {
      if storage.simulateTimeout || storage.simulateUploadFail then PutFails else fault
    }

    /** put_object of an original, which may fail before or after the write. */
    method PutOriginal(key: string, data: seq<byte>, sha256: string, fault: Fault) returns (r: Result<(), Error>)
      requires storage.Valid()
      modifies storage
      ensures storage.Valid()
      ensures storage.simulateTimeout == old(storage.simulateTimeout)
      ensures storage.simulateUploadFail == old(storage.simulateUploadFail)
      ensures var f := old(Actual(fault));
              if f.PutFails? then r == Err(StorageFailed) && storage.objects == old(storage.objects)
              else if Original(key) in old(storage.objects) then
                r == Err(OverwriteRefused) && storage.objects == old(storage.objects)
              else
                && storage.objects == old(storage.objects)[Original(key) := data]
                && r == if f.PutWritesThenFails? then Err(StorageFailed) else Ok(())
    {
      if fault.PutFails? {
        return Err(StorageFailed);
      }
      var stored := storage.PutObject(ORIGINALS, key, data, "image/jpeg", sha256, false);
      if stored.Err? {
        // A refused overwrite is no StorageError: the caller's handler does not catch it.
        return Err(if stored.error == OverwriteForbidden then OverwriteRefused else StorageFailed);
      }
      if fault.PutWritesThenFails? {
        return Err(StorageFailed);
      }
      return Ok(());
    }

    /** The object and then the row; what fails in between is rolled back to the committed captures, except the object. */
    method StoreNew(req: Request, digest: Digest, fault: Fault, committed: map<Burst, Capture>) returns (r: Result<Uploaded, Error>)
      requires storage.Valid() && req.index >= 0
      requires captures == if req.burst in committed then committed else committed[req.burst := Capture(0, false)]
      modifies this, storage
      ensures storage.Valid()
      ensures (Contents(), r) == StoreFrame(old(Contents()).(captures := committed), req, digest, old(Actual(fault)))
    {
      hide FrameKey;
      var key := FrameKey(req.burst.session, req.burst.capture, req.index);
      var put := PutOriginal(key, req.data, digest, fault);
      if put.Err? {
        captures := committed;
        return Err(put.error);
      }
      var rows, id := frames, |frames|;
      frames := frames + [Frame(req.burst, req.index, digest, key, |req.data|)];
      captures := captures[req.burst := Capture(captures[req.burst].received + 1, captures[req.burst].complete)];
      assert captures == committed[req.burst := captures[req.burst]];
      if fault.FlushFails? || fault.FailsAfterFlush? {
        if fault.FlushFails? && fault.recorded {
          orphans := orphans + [Orphan(key, digest, None)];
        }
        captures, frames := committed, rows;
        return Err(DatabaseFailed);
      }
      return Ok(Uploaded(id, key, digest, |req.data|, false));
    }

    method UploadFrame(sha: Sha256, req: Request, fault: Fault) returns (r: Result<Uploaded, Error>)
      requires Valid(sha)
      modifies this, storage
      ensures Valid(sha)
      ensures (Contents(), r) == Upload(sha, old(Contents()), req, old(Actual(fault)))
    {
      hide Inv, StoreFrame, EspId, Lower;
      UploadKeeps(sha, Contents(), req, Actual(fault));
      if !EspId(req.burst.capture) || req.index < 0 || !req.accepted {
        return Err(Rejected);
      }
      if |req.data| > MAX_FRAME_SIZE {
        return Err(TooLarge);
      }
      var digest := sha(req.data);
      if Lower(digest) != Lower(req.declared) {
        return Err(HashMismatch);
      }
      if req.burst.session !in sessions {
        return Err(SessionNotFound);
      }
      var open_ := S.UploadOpen(sessions[req.burst.session]);
      var committed := captures;
      var existing: Option<nat> := None;
      if req.burst !in captures {
        if !open_ {
          return Err(SessionClosed);
        }
        captures := captures[req.burst := Capture(0, false)];
      } else {
        existing := FindFrame(frames, req.burst, req.index);
      }
      if existing.Some? {
        var frame := frames[existing.value];
        if Lower(frame.sha256) == Lower(digest) {
          return Ok(Uploaded(existing.value, frame.key, digest, |req.data|, true));
        }
        return Err(DuplicateConflict);
      }
      if !open_ {
        return Err(SessionClosed);
      }
      r := StoreNew(req, digest, fault, committed);
    }

    method CreateCapture(sha: Sha256, burst: Burst)
      requires Valid(sha)
      modifies this`captures
      ensures Valid(sha) && Contents() == OpenCapture(old(Contents()), burst)
    {
      CaptureKeeps(sha, Contents(), burst);
      if burst.session in sessions && EspId(burst.capture) && burst !in captures {
        captures := captures[burst := Capture(0, false)];
      }
    }

    method CaptureComplete(sha: Sha256, burst: Burst) returns (confirmed: Option<nat>)
      requires Valid(sha)
      modifies this`captures
      ensures Valid(sha) && Contents() == CompleteCapture(old(Contents()), burst)
      ensures confirmed == if burst in captures then Some(captures[burst].received) else None
      ensures burst in captures ==> captures[burst].received == old(captures)[burst].received
    {
      CaptureKeeps(sha, Contents(), burst);
      if burst !in captures {
        return None;
      }
      var count := CountFrames(frames, burst);
      captures := captures[burst := Capture(count, true)];
      return Some(count);
    }

    /** One orphan of a pass, on the working copy w of the rows. */
    method ReconcileOrphan(sha: Sha256, w: World, p: nat, read: Read, stats: Stats) returns (w': World, stats': Stats)
      requires p < |w.orphans| && w.orphans[p].resolution.None? && w.objects == storage.objects
      ensures w' == ReconcileOne(sha, frames, w, p, read)
      ensures Total(stats') == Total(stats) + 1
      ensures stats'.recreated - stats.recreated == |w'.frames| - |w.frames|
      ensures var after := w'.orphans[p].resolution;
              && stats'.linked == stats.linked + (if after == Some(AlreadyLinked) then 1 else 0)
              && stats'.recreated == stats.recreated + (if after == Some(Recreated) then 1 else 0)
              && stats'.discarded == stats.discarded + (if after == Some(Discarded) then 1 else 0)
    {
      hide ParseFrameKey, Lower, FindFrame;
      var orphan := w.orphans[p];
      if read == HeadFails {
        return w, stats.(kept := stats.kept + 1);
      }
      var present := storage.ObjectExists(ORIGINALS, orphan.key);
      if !present {
        return Resolve(w, p, Discarded), stats.(discarded := stats.discarded + 1);
      }
      var parsed := ParseFrameKey(orphan.key);
      if parsed.None? {
        return Resolve(w, p, UnparseableKey), stats.(kept := stats.kept + 1);
      }
      var burst := Burst(parsed.value.session, parsed.value.capture);
      if burst.session !in w.sessions || burst !in w.captures {
        return w, stats.(kept := stats.kept + 1);
      }
      var frame := FindFrame(frames, burst, parsed.value.index);
      if frame.Some? {
        if Lower(frames[frame.value].sha256) == Lower(orphan.sha256) {
          return Resolve(w, p, AlreadyLinked), stats.(linked := stats.linked + 1);
        }
        return Resolve(w, p, ConflictKept), stats.(kept := stats.kept + 1);
      }
      if read == GetFails {
        return w, stats.(kept := stats.kept + 1);
      }
      var raw := storage.GetObject(ORIGINALS, orphan.key);
      if Lower(sha(raw.value)) != Lower(orphan.sha256) {
        return Resolve(w, p, HashMismatchKept), stats.(kept := stats.kept + 1);
      }
      w' := AddFrame(w, Frame(burst, parsed.value.index, Lower(orphan.sha256), orphan.key, |raw.value|));
      return Resolve(w', p, Recreated), stats.(recreated := stats.recreated + 1);
    }

    /** The loop of a pass: every selected orphan is counted once, and every recreated one is a new row. */
    method ReconcileSelected(sha: Sha256, start: World, positions: seq<nat>, oracle: nat -> Read) returns (w: World, stats: Stats)
      requires start.objects == storage.objects && start.frames == frames
      requires Pending(start, positions)
      ensures w == ReconcileAll(sha, start.frames, start, positions, oracle)
      ensures Total(stats) == |positions|
      ensures stats.recreated == |w.frames| - |start.frames|
      ensures Counted(stats, start.orphans, w.orphans)
    {
      hide *;
      w, stats := start, Stats(0, 0, 0, 0);
      TotalNone();
      CountedNone(start.orphans);
      ReconcileNone(sha, w, oracle);
      PendingBounds(start, positions);
      var i := 0;
      while i < |positions|
        invariant 0 <= i <= |positions|
        invariant w == ReconcileAll(sha, start.frames, start, positions[..i], oracle)
        invariant w.objects == start.objects
        invariant Total(stats) == i && stats.recreated == |w.frames| - |start.frames|
        invariant Counted(stats, start.orphans, w.orphans)
      {
        ReconcileMore(sha, start, positions, i, oracle);
        ReconcileObjects(sha, frames, w, positions[i], oracle(positions[i]));
        StillOpen(sha, start, positions, i, oracle);
        ghost var before, counted := w, stats;
        w, stats := ReconcileOrphan(sha, w, positions[i], oracle(positions[i]), stats);
        OneTouched(sha, frames, before, positions[i], oracle(positions[i]));
        CountedMore(counted, stats, start.orphans, before.orphans, w.orphans, positions[i]);
        i := i + 1;
      }
      assert positions[..i] == positions;
    }

    /** reconcile. */
    method Reconcile(sha: Sha256, limit: nat, oracle: nat -> Read, commits: bool) returns (stats: Stats)
      requires Valid(sha)
      modifies this
      ensures Valid(sha)
      ensures Contents() == FrameIngest.Reconcile(sha, old(Contents()), limit, oracle, commits)
      ensures Total(stats) == |Unresolved(old(orphans), limit)|
      ensures commits ==> stats.recreated == |frames| - |old(frames)|
      ensures commits ==> Counted(stats, old(orphans), orphans)
    {
      hide Inv, FrameIngest.Reconcile, ReconcileOne, ReconcileAll, Unresolved, Later, Counted;
      ReconcileKeeps(sha, Contents(), limit, oracle, commits);
      var w;
      w, stats := ReconcileSelected(sha, World(sessions, captures, frames, orphans, storage.objects),
                                    Unresolved(orphans, limit), oracle);
      if commits {
        captures, frames, orphans := w.captures, w.frames, w.orphans;
      }
    }
  }

  lemma ReconcileObjects(sha: Sha256, committed: seq<Frame>, w: World, p: nat, read: Read)
    requires p < |w.orphans|
    ensures ReconcileOne(sha, committed, w, p, read).objects == w.objects
  {
    hide ParseFrameKey, FindFrame, Lower;
  }

  lemma TotalNone()
    ensures Total(Stats(0, 0, 0, 0)) == 0
  {
  }

  lemma ReconcileNone(sha: Sha256, w: World, oracle: nat -> Read)
    ensures ReconcileAll(sha, w.frames, w, [], oracle) == w
  {
  }

  lemma ReconcileMore(sha: Sha256, w: World, positions: seq<nat>, i: nat, oracle: nat -> Read)
    requires i < |positions| && forall k :: 0 <= k < |positions| ==> positions[k] < |w.orphans|
    ensures |ReconcileAll(sha, w.frames, w, positions[..i], oracle).orphans| == |w.orphans|
    ensures ReconcileAll(sha, w.frames, w, positions[..i + 1], oracle) ==
            ReconcileOne(sha, w.frames, ReconcileAll(sha, w.frames, w, positions[..i], oracle), positions[i], oracle(positions[i]))
  {
    hide ReconcileOne;
    assert positions[..i + 1][..i] == positions[..i];
  }

  function Total(stats: Stats): nat {
    stats.linked + stats.recreated + stats.discarded + stats.kept
  }

  // ---------- The statistics of a pass ----------

  function CountResolved(orphans: seq<Orphan>, resolution: Resolution): nat {
    if orphans == [] then 0
    else
      CountResolved(orphans[..|orphans| - 1], resolution)
      + (if orphans[|orphans| - 1].resolution == Some(resolution) then 1 else 0)
  }

  /** The statistics are the orphans newly linked, recreated and discarded. */
  ghost predicate Counted(stats: Stats, before: seq<Orphan>, after: seq<Orphan>) {
    && CountResolved(after, AlreadyLinked) == CountResolved(before, AlreadyLinked) + stats.linked
    && CountResolved(after, Recreated) == CountResolved(before, Recreated) + stats.recreated
    && CountResolved(after, Discarded) == CountResolved(before, Discarded) + stats.discarded
  }

  lemma CountedNone(orphans: seq<Orphan>)
    ensures Counted(Stats(0, 0, 0, 0), orphans, orphans)
  {
  }

  lemma {:induction false} CountUpdate(orphans: seq<Orphan>, p: nat, o: Orphan, resolution: Resolution)
    requires p < |orphans| && orphans[p].resolution.None?
    ensures CountResolved(orphans[p := o], resolution) ==
            CountResolved(orphans, resolution) + (if o.resolution == Some(resolution) then 1 else 0)
  {
    var n := |orphans| - 1;
    if p < n {
      assert orphans[p := o][..n] == orphans[..n][p := o];
      CountUpdate(orphans[..n], p, o, resolution);
    } else {
      assert orphans[p := o][..n] == orphans[..n];
    }
  }

  lemma CountedMore(stats: Stats, stats': Stats, start: seq<Orphan>, before: seq<Orphan>, after: seq<Orphan>, p: nat)
    requires Counted(stats, start, before)
    requires p < |before| && before[p].resolution.None? && |after| == |before| && after == before[p := after[p]]
    requires stats'.linked == stats.linked + (if after[p].resolution == Some(AlreadyLinked) then 1 else 0)
    requires stats'.recreated == stats.recreated + (if after[p].resolution == Some(Recreated) then 1 else 0)
    requires stats'.discarded == stats.discarded + (if after[p].resolution == Some(Discarded) then 1 else 0)
    ensures Counted(stats', start, after)
  {
    CountUpdate(before, p, after[p], AlreadyLinked);
    CountUpdate(before, p, after[p], Recreated);
    CountUpdate(before, p, after[p], Discarded);
  }

  /** Positions of different open orphans. */
  ghost predicate Pending(w: World, positions: seq<nat>) {
    && (forall i :: 0 <= i < |positions| ==> positions[i] < |w.orphans| && w.orphans[positions[i]].resolution.None?)
    && forall i, j :: 0 <= i < j < |positions| ==> positions[i] < positions[j]
  }

  lemma PendingBounds(w: World, positions: seq<nat>)
    requires Pending(w, positions)
    ensures forall i :: 0 <= i < |positions| ==> positions[i] < |w.orphans|
  {
  }

  lemma OneTouched(sha: Sha256, committed: seq<Frame>, w: World, p: nat, read: Read)
    requires p < |w.orphans|
    ensures var after := ReconcileOne(sha, committed, w, p, read).orphans;
            |after| == |w.orphans| && after == w.orphans[p := after[p]]
  {
    hide ParseFrameKey, FindFrame, Lower;
  }

  lemma {:induction false} OthersUntouched(sha: Sha256, w: World, positions: seq<nat>, oracle: nat -> Read, q: nat)
    requires forall k :: 0 <= k < |positions| ==> positions[k] < |w.orphans|
    requires q < |w.orphans| && q !in positions
    ensures ReconcileAll(sha, w.frames, w, positions, oracle).orphans[q] == w.orphans[q]
    decreases |positions|
  {
    hide ReconcileOne;
    if positions != [] {
      var n := |positions| - 1;
      OthersUntouched(sha, w, positions[..n], oracle, q);
      OneTouched(sha, w.frames, ReconcileAll(sha, w.frames, w, positions[..n], oracle), positions[n], oracle(positions[n]));
    }
  }

  lemma StillOpen(sha: Sha256, w: World, positions: seq<nat>, i: nat, oracle: nat -> Read)
    requires Pending(w, positions) && i < |positions|
    ensures var before := ReconcileAll(sha, w.frames, w, positions[..i], oracle);
            positions[i] < |before.orphans| && before.orphans[positions[i]].resolution.None?
  {
    hide ReconcileOne, ReconcileAll;
    OthersUntouched(sha, w, positions[..i], oracle, positions[i]);
  }
}
