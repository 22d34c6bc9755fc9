/**
 Frame ingest over two stores: capture/frame_upload.py and capture/orphans.py as steps on a database,
 which rolls a failed request back, and an object store, which does not.
 */
module FrameIngest {
  import opened Wrappers
  import S = SessionStates
  import opened RgbCodec
  import opened StorageKeys
  import opened ObjectStore

  const MAX_FRAME_SIZE: nat := 10 * 1024 * 1024

  datatype Burst = Burst(session: string, capture: string)

  datatype Capture = Capture(received: nat, complete: bool)

  /** A frame row; its position in the table stands for its generated id. */
  datatype Frame = Frame(burst: Burst, index: int, sha256: string, key: string, size: nat)

  datatype Resolution = Discarded | UnparseableKey | AlreadyLinked | ConflictKept | HashMismatchKept | Recreated

  /** An orphan row, in order of creation. */
  datatype Orphan = Orphan(key: string, sha256: string, resolution: Option<Resolution>)

  datatype World = World(
    sessions: map<string, S.State>, captures: map<Burst, Capture>, frames: seq<Frame>, orphans: seq<Orphan>, objects: Objects)

  /** A frame upload; accepted stands for the MIME, magic-byte, decoding and header checks. */
  datatype Request = Request(burst: Burst, index: int, declared: string, data: seq<byte>, accepted: bool)

  /** What goes wrong with an upload that passed every check. */
  datatype Fault =
    | NoFault
    | PutFails
    | PutWritesThenFails
    | FlushFails(recorded: bool)
    | FailsAfterFlush

  datatype Error =
    | Rejected | TooLarge | HashMismatch | SessionNotFound | SessionClosed | DuplicateConflict
    | StorageFailed | OverwriteRefused | DatabaseFailed

  datatype Uploaded = Uploaded(id: nat, key: string, sha256: string, size: nat, duplicate: bool)

  // ---------- Lookups ----------

  predicate IsAt(f: Frame, burst: Burst, index: int) {
    f.burst == burst && f.index == index
  }

  function FindFrame(frames: seq<Frame>, burst: Burst, index: int): (r: Option<nat>)
    ensures r.Some? ==> r.value < |frames| && IsAt(frames[r.value], burst, index)
    ensures r.None? ==> forall i :: 0 <= i < |frames| ==> !IsAt(frames[i], burst, index)
  {
    if frames == [] then None
    else if IsAt(frames[|frames| - 1], burst, index) then Some(|frames| - 1)
    else FindFrame(frames[..|frames| - 1], burst, index)
  }

  function CountFrames(frames: seq<Frame>, burst: Burst): nat {
    if frames == [] then 0
    else CountFrames(frames[..|frames| - 1], burst) + (if frames[|frames| - 1].burst == burst then 1 else 0)
  }

  function Original(key: string): ObjectId {
    ObjectId(ORIGINALS, key)
  }

  function LowerChar(c: char): char {
    if 'A' <= c <= 'Z' then (c as int + 32) as char else c
  }

  /** s.lower() on ASCII. */
  function Lower(s: string): string {
    seq(|s|, i requires 0 <= i < |s| => LowerChar(s[i]))
  }

  lemma LowerDigest(d: Digest)
    ensures Lower(d) == d
  {
  }

  predicate EspChar(c: char) {
    'A' <= c <= 'Z' || 'a' <= c <= 'z' || '0' <= c <= '9' || c == '_' || c == '-'
  }

  /** The ids a device may use: 1 to 63 letters, digits, _ or -. */
  predicate EspId(s: string) {
    1 <= |s| <= 63 && forall i :: 0 <= i < |s| ==> EspChar(s[i])
  }

  // ---------- Upload ----------

  /** The bytes, the index and the declared digest, before anything is looked up. */
  function Validated(sha: Sha256, req: Request): Result<Digest, Error> {
    if !EspId(req.burst.capture) || req.index < 0 || !req.accepted then Err(Rejected)
    else if |req.data| > MAX_FRAME_SIZE then Err(TooLarge)
    else if Lower(sha(req.data)) != Lower(req.declared) then Err(HashMismatch)
    else Ok(sha(req.data))
  }

  function ReceivedOf(w: World, burst: Burst): nat {
    if burst in w.captures then w.captures[burst].received else 0
  }

  function AddFrame(w: World, frame: Frame): World {
    w.(frames := w.frames + [frame],
       captures := w.captures[frame.burst := Capture(ReceivedOf(w, frame.burst) + 1,
                                                      frame.burst in w.captures && w.captures[frame.burst].complete)])
  }

  /** Writing the object and the row of a new frame. An Err keeps what was written outside the transaction. */
  function StoreFrame(w: World, req: Request, digest: Digest, fault: Fault): (World, Result<Uploaded, Error>)
    requires req.index >= 0
  {
    var key := FrameKey(req.burst.session, req.burst.capture, req.index);
    var stored := w.(objects := w.objects[Original(key) := req.data]);
    if fault.PutFails? then (w, Err(StorageFailed))
    else if Original(key) in w.objects then (w, Err(OverwriteRefused))
    else if fault.PutWritesThenFails? then (stored, Err(StorageFailed))
    else if fault.FlushFails? then
      (if fault.recorded then stored.(orphans := w.orphans + [Orphan(key, digest, None)]) else stored, Err(DatabaseFailed))
    else if fault.FailsAfterFlush? then (stored, Err(DatabaseFailed))
    else
      (AddFrame(stored, Frame(req.burst, req.index, digest, key, |req.data|)),
       Ok(Uploaded(|w.frames|, key, digest, |req.data|, false)))
  }

  /** upload_frame. */
  function Upload(sha: Sha256, w: World, req: Request, fault: Fault): (World, Result<Uploaded, Error>) {
    match Validated(sha, req)
    case Err(e) => (w, Err(e))
    case Ok(digest) =>
      if req.burst.session !in w.sessions then (w, Err(SessionNotFound))
      else
        var status := w.sessions[req.burst.session];
        if req.burst !in w.captures && !S.UploadOpen(status) then (w, Err(SessionClosed))
        else
          match if req.burst in w.captures then FindFrame(w.frames, req.burst, req.index) else None
          case Some(id) =>
            if Lower(w.frames[id].sha256) == Lower(digest) then
              (w, Ok(Uploaded(id, w.frames[id].key, digest, |req.data|, true)))
            else (w, Err(DuplicateConflict))
          case None =>
            if !S.UploadOpen(status) then (w, Err(SessionClosed)) else StoreFrame(w, req, digest, fault)
  }

  // ---------- Reconciliation ----------

  /** What the object store does when an orphan's object is looked at. */
  datatype Read = Reliable | HeadFails | GetFails

  datatype Stats = Stats(linked: nat, recreated: nat, discarded: nat, kept: nat)

  /** The positions of the first limit unresolved orphans. */
  function Unresolved(orphans: seq<Orphan>, limit: nat): (positions: seq<nat>)
    ensures |positions| <= limit
    ensures forall i :: 0 <= i < |positions| ==> positions[i] < |orphans| && orphans[positions[i]].resolution.None?
    ensures forall i, j :: 0 <= i < j < |positions| ==> positions[i] < positions[j]
  {
    if orphans == [] then []
    else
      var n := |orphans| - 1;
      var before := Unresolved(orphans[..n], limit);
      if orphans[n].resolution.None? && |before| < limit then before + [n] else before
  }

  function Resolve(w: World, p: nat, resolution: Resolution): World
    requires p < |w.orphans|
  {
    w.(orphans := w.orphans[p := w.orphans[p].(resolution := Some(resolution))])
  }

  /**
   * One orphan. The frames are looked up as committed before the pass, since the session does not
   * flush on its own.
   */
  function ReconcileOne(sha: Sha256, committed: seq<Frame>, w: World, p: nat, read: Read): World
    requires p < |w.orphans|
  {
    var orphan := w.orphans[p];
    if read == HeadFails then w
    else if Original(orphan.key) !in w.objects then Resolve(w, p, Discarded)
    else
      match ParseFrameKey(orphan.key)
      case None => Resolve(w, p, UnparseableKey)
      case Some(address) =>
        var burst := Burst(address.session, address.capture);
        if address.session !in w.sessions || burst !in w.captures then w
        else
          match FindFrame(committed, burst, address.index)
          case Some(id) =>
            Resolve(w, p, if Lower(committed[id].sha256) == Lower(orphan.sha256) then AlreadyLinked else ConflictKept)
          case None =>
            if read == GetFails then w
            else
              var raw := w.objects[Original(orphan.key)];
              if Lower(sha(raw)) != Lower(orphan.sha256) then Resolve(w, p, HashMismatchKept)
              else Resolve(AddFrame(w, Frame(burst, address.index, Lower(orphan.sha256), orphan.key, |raw|)), p, Recreated)
  }

  function ReconcileAll(sha: Sha256, committed: seq<Frame>, w: World, positions: seq<nat>, oracle: nat -> Read): (r: World)
    requires forall i :: 0 <= i < |positions| ==> positions[i] < |w.orphans|
    ensures |r.orphans| == |w.orphans|
    decreases |positions|
  {
    if positions == [] then w
    else
      var n := |positions| - 1;
      ReconcileOne(sha, committed, ReconcileAll(sha, committed, w, positions[..n], oracle), positions[n], oracle(positions[n]))
  }

  /** The unique constraint on (capture, index). */
  ghost predicate DistinctFrames(frames: seq<Frame>) {
    forall i, j :: 0 <= i < j < |frames| ==> !(frames[i].burst == frames[j].burst && frames[i].index == frames[j].index)
  }

  /** reconcile: a pass that cannot commit changes nothing. */
  ghost function Reconcile(sha: Sha256, w: World, limit: nat, oracle: nat -> Read, commits: bool): World {
    var after := ReconcileAll(sha, w.frames, w, Unresolved(w.orphans, limit), oracle);
    if commits && DistinctFrames(after.frames) then after else w
  }

  // ---------- Steps and runs ----------

  datatype Step =
    | NewSession(sid: string, status: S.State)
    | Transition(sid: string, target: S.State)
    | CreateCapture(burst: Burst)
    | CaptureComplete(burst: Burst)
    | UploadStep(request: Request, fault: Fault)
    | ReconcileStep(limit: nat, oracle: nat -> Read, commits: bool)

  /** create_capture: an existing capture keeps its count. */
  function OpenCapture(w: World, burst: Burst): World {
    if burst.session !in w.sessions || !EspId(burst.capture) || burst in w.captures then w
    else w.(captures := w.captures[burst := Capture(0, false)])
  }

  /** capture_complete: the count is taken from the frame rows. */
  function CompleteCapture(w: World, burst: Burst): World {
    if burst !in w.captures then w
    else w.(captures := w.captures[burst := Capture(CountFrames(w.frames, burst), true)])
  }

  ghost function Apply(sha: Sha256, w: World, step: Step): World {
    match step
    case NewSession(sid, status) =>
      if sid in w.sessions || !SlashFree(sid) then w else w.(sessions := w.sessions[sid := status])
    case Transition(sid, target) =>
      if sid in w.sessions && target in S.Allowed(w.sessions[sid]) then w.(sessions := w.sessions[sid := target]) else w
    case CreateCapture(burst) => OpenCapture(w, burst)
    case CaptureComplete(burst) => CompleteCapture(w, burst)
    case UploadStep(request, fault) => Upload(sha, w, request, fault).0
    case ReconcileStep(limit, oracle, commits) => Reconcile(sha, w, limit, oracle, commits)
  }

  ghost function Run(sha: Sha256, w: World, steps: seq<Step>): World
    decreases |steps|
  {
    if steps == [] then w else Apply(sha, Run(sha, w, steps[..|steps| - 1]), steps[|steps| - 1])
  }

  const EMPTY: World := World(map[], map[], [], [], map[])
}
