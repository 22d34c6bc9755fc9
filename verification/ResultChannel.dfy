/**
 The RGB result channel of a server: immutable sequence revisions, one visible delivery record per
 session, and the log of device events. Every operation is given here as a function on the database
 state; an Err is an exception, whose transaction is rolled back.
 */
module ResultChannel {
  import opened Wrappers
  import P = AnswerPolicy
  import S = SessionStates
  import opened RgbCodec
  import opened RgbJson

  datatype Command = RESULT_NOT_STARTED | RESULT_PROCESSING | RGB_SEQUENCE_READY | RESULT_CANCELLED

  datatype SequenceStatus = READY | RECEIVED | PLAYING | COMPLETED | INVALID | SUPERSEDED

  datatype EventName = Received | Started | Resumed | Completed | Invalid

  /** The columns of a sequence revision that are written once. */
  datatype Content = Content(
    sequenceId: string, revision: nat, answers: string, itemCount: nat, defaults: Defaults,
    palette: Palette, overrides: seq<Override>, sha256: string, payloadSize: nat)

  datatype Sequence = Sequence(content: Content, status: SequenceStatus, lastNextIndex: nat)

  datatype Delivery = Delivery(
    device: string, gateway: string, command: Command, cursor: nat, active: Option<nat>, reason: Option<string>)

  /** A session with its revisions in revision order; a row's position is its primary key. */
  datatype Session = Session(
    status: S.State, device: string, gateway: string, delivery: Option<Delivery>, sequences: seq<Sequence>)

  datatype Identity = Identity(
    device: string, session: string, row: nat, revision: nat, name: EventName, suffix: Option<nat>)

  datatype Event = Event(
    identity: Identity, gateway: string, nextIndex: nat, itemCount: nat, key: Option<string>, payload: string)

  datatype Db = Db(sessions: map<string, Session>, events: seq<Event>)

  datatype Error =
    | SessionNotFound | BindingConflict | ConfigUnreadable | PayloadRejected | JsonTooLarge | DatabaseConstraint
    | SessionMismatch | SequenceNotFound | SequenceGone | ProgressMismatch | KeyReused | IdentityReused
    | NotDeliverable | AlreadyCompleted | ReceivedNotReady | MovesBackwards | CompletedEarly | CannotCancel

  predicate Live(status: SequenceStatus) {
    status in {READY, RECEIVED, PLAYING}
  }

  predicate Deliverable(status: SequenceStatus) {
    status !in {INVALID, SUPERSEDED}
  }

  // ---------- The delivery record ----------

  /** get_or_create_delivery. */
  function Advance(s: Session, command: Command, active: Option<nat>, reason: Option<string>): Result<Session, Error> {
    match s.delivery
    case None => Ok(s.(delivery := Some(Delivery(s.device, s.gateway, command, 1, active, reason))))
    case Some(d) =>
      if d.device != s.device || d.gateway != s.gateway then Err(BindingConflict)
      else if d.command == command && d.active == active && d.reason == reason then Ok(s)
      else Ok(s.(delivery := Some(Delivery(d.device, d.gateway, command, d.cursor + 1, active, reason))))
  }

  function MarkProcessing(s: Session): Result<Session, Error> {
    if s.status == S.CANCELLED then Advance(s, RESULT_CANCELLED, None, Some("CANCELLED"))
    else if s.delivery.Some? && s.delivery.value.command in {RGB_SEQUENCE_READY, RESULT_CANCELLED} then Ok(s)
    else Advance(s, RESULT_PROCESSING, None, None)
  }

  function Cancel(s: Session): Result<Session, Error> {
    if s.status == S.CANCELLED then Ok(s)
    else if S.CANCELLED !in S.Allowed(s.status) then Err(CannotCancel)
    else Advance(s.(status := S.CANCELLED), RESULT_CANCELLED, None, Some("ADMIN_CANCELLED"))
  }

  /** The effect of end_signal on the session: walk to LOCKED if still capturing, then mark; marking never raises. */
  function EndSignal(s: Session): Session {
    if S.Terminal(s.status) then s
    else
      var locked := if S.UploadOpen(s.status) then s.(status := S.LOCKED) else s;
      match MarkProcessing(locked)
      case Ok(marked) => marked
      case Err(_) => locked
  }

  // ---------- Publishing ----------

  /** The deployment settings read at publication. */
  datatype Settings = Settings(enabled: bool, maxItems: int, maxJsonBytes: int, defaults: Defaults)

  /** A number of the config snapshot: absent, converted by int(), or something int() raises on. */
  datatype Setting = Absent | Number(value: int) | Unreadable

  /** The session's config snapshot; a palette entry is None when it is not a list of integers. */
  datatype Config = Config(
    brightness: Setting, onMs: Setting, offMs: Setting, palette: Option<map<char, Option<seq<int>>>>,
    handwritten: bool)

  datatype PublishRequest = PublishRequest(
    expected: int, candidates: seq<P.Candidate>, config: Config, freshId: string)

  datatype Publication = Publication(session: Session, row: Option<nat>, reused: bool)

  const DEFAULT_PALETTE: Palette := map[
    'A' := Color(255, 255, 255), 'B' := Color(255, 255, 0), 'C' := Color(0, 255, 255),
    'D' := Color(0, 0, 255), 'E' := Color(255, 0, 0)]

  const HANDWRITTEN_PALETTE: Palette := map[
    'A' := Color(0, 0, 255), 'B' := Color(255, 0, 0), 'C' := Color(0, 255, 0),
    'D' := Color(128, 0, 128), 'E' := Color(255, 255, 0)]

  function ReasonCode(reason: P.Reason): string {
    match reason
    case CountOutOfRange => "RGB_EXPECTED_QUESTION_COUNT_OUT_OF_RANGE"
    case NumberDuplicate => "RGB_QUESTION_NUMBER_DUPLICATE"
    case SequenceGap => "RGB_QUESTION_SEQUENCE_GAP"
    case QuestionFailed => "RGB_QUESTION_FAILED"
    case AnswerNotValidated => "RGB_ANSWER_NOT_VALIDATED"
    case InvalidAlternative => "RGB_ANSWER_INVALID_ALTERNATIVE"
  }

  predicate Readable(c: Config) {
    !c.brightness.Unreadable? && !c.onMs.Unreadable? && !c.offMs.Unreadable?
  }

  function Chosen(setting: Setting, default: int): int {
    if setting.Number? then setting.value else default
  }

  function ChosenDefaults(d: Defaults, c: Config): Defaults {
    Defaults(Chosen(c.brightness, d.brightness), Chosen(c.onMs, d.onMs), Chosen(c.offMs, d.offMs))
  }

  predicate UsableColor(c: Option<seq<int>>) {
    c.Some? && |c.value| == 3 && ValidColor(Color(c.value[0], c.value[1], c.value[2]))
  }

  /** _snapshot_palette: the snapshot's five colours if all are usable, else the default of the session type. */
  function SnapshotPalette(c: Config): (p: Palette)
    ensures ValidPalette(p)
  {
    if c.palette.Some? && c.palette.value.Keys == LETTERS
       && (forall k :: k in c.palette.value ==> UsableColor(c.palette.value[k]))
    then
      map k | k in c.palette.value ::
        Color(c.palette.value[k].value[0], c.palette.value[k].value[1], c.palette.value[k].value[2])
    else if c.handwritten then HANDWRITTEN_PALETTE
    else DEFAULT_PALETTE
  }

  function PayloadOf(sid: string, c: Content): Payload {
    Payload(1, sid, c.sequenceId, c.revision, c.itemCount, c.sha256, c.answers, c.defaults, c.palette, c.overrides)
  }

  function ContentOf(p: Payload): Content
    requires ValidPayload(p)
  {
    Content(p.sequenceId, p.revision, p.answers, p.itemCount, p.defaults, p.palette, p.overrides, p.sha256,
            |CanonicalBytes(p)|)
  }

  /** The highest revision with this digest that may still be delivered. */
  function FindReusable(rows: seq<Sequence>, digest: string): (r: Option<nat>)
    ensures r.Some? ==> r.value < |rows| && rows[r.value].content.sha256 == digest && Deliverable(rows[r.value].status)
    ensures r.None? ==> forall i :: 0 <= i < |rows| ==> !(rows[i].content.sha256 == digest && Deliverable(rows[i].status))
  {
    if rows == [] then None
    else
      var last := |rows| - 1;
      if rows[last].content.sha256 == digest && Deliverable(rows[last].status) then Some(last)
      else FindReusable(rows[..last], digest)
  }

  function SupersedeLatest(rows: seq<Sequence>): (r: seq<Sequence>)
    ensures |r| == |rows|
  {
    if rows != [] && Live(rows[|rows| - 1].status)
    then rows[|rows| - 1 := rows[|rows| - 1].(status := SUPERSEDED)]
    else rows
  }

  function NextRevision(rows: seq<Sequence>): nat {
    if rows == [] then 1 else rows[|rows| - 1].content.revision + 1
  }

  /** Insert a new revision and make it the one announced; taken says the fresh id is already in the table. */
  function InsertRevision(sha: Sha256, sid: string, s: Session, taken: bool, maxJsonBytes: int, freshId: string,
                          answers: string, defaults: Defaults, palette: Palette): Result<Publication, Error>
  {
    match BuildPayload(sha, sid, freshId, NextRevision(s.sequences), answers, defaults, palette, [])
    case None => Err(PayloadRejected)
    case Some(payload) =>
      if !ValidPayload(payload) then Err(PayloadRejected)
      else if |CompactJsonBytes(payload)| > maxJsonBytes then Err(JsonTooLarge)
      else if taken || payload.revision > MAX_INT32 then Err(DatabaseConstraint)
      else
        var rows := SupersedeLatest(s.sequences) + [Sequence(ContentOf(payload), READY, 0)];
        var ready :- Advance(s.(sequences := rows), RGB_SEQUENCE_READY, Some(|s.sequences|), None);
        Ok(Publication(ready, Some(|s.sequences|), false))
  }

  /** The answers are complete: announce the deliverable revision that shows them, or a new one. */
  function PublishAnswers(sha: Sha256, sid: string, s: Session, taken: bool, settings: Settings, req: PublishRequest,
                          answers: string): Result<Publication, Error>
  {
    var defaults := ChosenDefaults(settings.defaults, req.config);
    var palette := SnapshotPalette(req.config);
    if !Readable(req.config) then Err(ConfigUnreadable)
    else
      match BuildPayload(sha, sid, "rgb-probe", 1, answers, defaults, palette, [])
      case None => Err(PayloadRejected)
      case Some(probe) =>
        match FindReusable(s.sequences, probe.sha256)
        case Some(row) =>
          var ready :- Advance(s, RGB_SEQUENCE_READY, Some(row), None);
          Ok(Publication(ready, Some(row), true))
        case None =>
          InsertRevision(sha, sid, s, taken, settings.maxJsonBytes, req.freshId, answers, defaults, palette)
  }

  predicate Announced(s: Session) {
    s.delivery.Some? && s.delivery.value.command == RGB_SEQUENCE_READY
  }

  /** publish_rgb_for_session. */
  ghost function Publish(sha: Sha256, sid: string, s: Session, taken: bool, settings: Settings, req: PublishRequest)
    : Result<Publication, Error>
  {
    if s.status == S.CANCELLED then
      var fenced :- Advance(s, RESULT_CANCELLED, None, Some("SESSION_CANCELLED"));
      Ok(Publication(fenced, None, false))
    else if !settings.enabled then
      var disabled :- Advance(s, RESULT_CANCELLED, None, Some("RGB_RESULTS_DISABLED"));
      Ok(Publication(disabled, None, false))
    else
      var marked :- if Announced(s) then Ok(s) else Advance(s, RESULT_PROCESSING, None, None);
      match P.Verdict(req.expected, multiset(req.candidates), settings.maxItems)
      case Err(reason) =>
        var refused :- Advance(marked, RESULT_CANCELLED, None, Some(ReasonCode(reason)));
        Ok(Publication(refused, None, false))
      case Ok(answers) => PublishAnswers(sha, sid, marked, taken, settings, req, answers)
  }

  // ---------- Polling and download ----------

  datatype Announcement = Announcement(sequenceId: string, revision: nat, itemCount: nat, sha256: string)

  datatype Snapshot = Snapshot(command: Command, cursor: nat, sequence: Option<Announcement>)

  function AnnouncementOf(c: Content): Announcement {
    Announcement(c.sequenceId, c.revision, c.itemCount, c.sha256)
  }

  /** derive_command; started says whether processing_started_at is set. */
  function DeriveCommand(status: S.State, started: bool): Command {
    if (status == S.CREATED || S.UploadOpen(status) || status == S.LOCKED) && !started then RESULT_NOT_STARTED
    else if status in {S.BLOCKED_GATE_1, S.BLOCKED_GATE_2, S.FAILED_FATAL, S.CANCELLED} then RESULT_CANCELLED
    else if status in {S.READY, S.COMPLETED} then RESULT_CANCELLED
    else RESULT_PROCESSING
  }

  /** result_snapshot; None is the 204 answer "no update". */
  function Poll(s: Session, cursor: nat, started: bool): Option<Snapshot> {
    if s.delivery.None? || s.delivery.value.device != s.device || s.delivery.value.gateway != s.gateway then
      if cursor >= 1 then None else Some(Snapshot(DeriveCommand(s.status, started), 0, None))
    else
      var d := s.delivery.value;
      if cursor >= d.cursor then None
      else if d.active.None? then Some(Snapshot(d.command, d.cursor, None))
      else if d.active.value >= |s.sequences| || !Deliverable(s.sequences[d.active.value].status) then
        Some(Snapshot(RESULT_CANCELLED, d.cursor, None))
      else
        Some(Snapshot(d.command, d.cursor, Some(AnnouncementOf(s.sequences[d.active.value].content))))
  }

  function FindById(rows: seq<Sequence>, sequenceId: string): (r: Option<nat>)
    ensures r.Some? ==> r.value < |rows| && rows[r.value].content.sequenceId == sequenceId
    ensures r.None? ==> forall i :: 0 <= i < |rows| ==> rows[i].content.sequenceId != sequenceId
  {
    if rows == [] then None
    else if rows[|rows| - 1].content.sequenceId == sequenceId then Some(|rows| - 1)
    else FindById(rows[..|rows| - 1], sequenceId)
  }

  /** get_sequence_for_binding: rehydrate, re-validate, re-hash and serialize a stored revision. */
  function Download(sha: Sha256, sid: string, s: Session, sequenceId: string, maxJsonBytes: int)
    : Result<(Payload, seq<byte>), Error>
  {
    match FindById(s.sequences, sequenceId)
    case None => Err(SequenceNotFound)
    case Some(row) =>
      var payload := PayloadOf(sid, s.sequences[row].content);
      if !Deliverable(s.sequences[row].status) then Err(SequenceGone)
      else if !ValidPayload(payload) || PayloadSha(sha, payload) != payload.sha256 then Err(PayloadRejected)
      else if |CompactJsonBytes(payload)| > maxJsonBytes then Err(JsonTooLarge)
      else Ok((payload, CompactJsonBytes(payload)))
  }

  // ---------- Device events ----------

  datatype EventRequest = EventRequest(
    bodySession: string, sequenceId: string, revision: int, name: EventName, nextIndex: int, itemCount: int,
    key: Option<string>, payload: string)

  datatype Recorded = Recorded(db: Db, row: nat, duplicate: bool)

  /** An absent or empty Idempotency-Key is no key. */
  predicate HasKey(key: Option<string>) {
    key.Some? && key.value != ""
  }

  function FindKey(events: seq<Event>, gateway: string, key: Option<string>): Option<Event> {
    if events == [] then None
    else if events[0].gateway == gateway && events[0].key == key then Some(events[0])
    else FindKey(events[1..], gateway, key)
  }

  function FindIdentity(events: seq<Event>, identity: Identity): Option<Event> {
    if events == [] then None
    else if events[0].identity == identity then Some(events[0])
    else FindIdentity(events[1..], identity)
  }

  function EventIdentity(sid: string, s: Session, row: nat, name: EventName, nextIndex: nat): Identity
    requires row < |s.sequences|
  {
    Identity(s.device, sid, row, s.sequences[row].content.revision, name,
             if name == Completed then None else Some(nextIndex))
  }

  function FindRevision(rows: seq<Sequence>, sequenceId: string, revision: int): (r: Option<nat>)
    ensures r.Some? ==>
      r.value < |rows| && rows[r.value].content.sequenceId == sequenceId && rows[r.value].content.revision == revision
    ensures r.None? ==> forall i :: 0 <= i < |rows| ==>
      !(rows[i].content.sequenceId == sequenceId && rows[i].content.revision == revision)
  {
    if rows == [] then None
    else if rows[|rows| - 1].content.sequenceId == sequenceId && rows[|rows| - 1].content.revision == revision then
      Some(|rows| - 1)
    else FindRevision(rows[..|rows| - 1], sequenceId, revision)
  }

  function StatusAfter(name: EventName): SequenceStatus {
    match name
    case Received => RECEIVED
    case Started => PLAYING
    case Resumed => PLAYING
    case Completed => COMPLETED
    case Invalid => INVALID
  }

  /** Why a new event is refused, if it is. */
  function Refusal(q: Sequence, name: EventName, nextIndex: nat, itemCount: nat): Option<Error> {
    if !Deliverable(q.status) then Some(NotDeliverable)
    else if q.status == COMPLETED && name != Completed then Some(AlreadyCompleted)
    else if name == Received && q.status != READY then Some(ReceivedNotReady)
    else if nextIndex < q.lastNextIndex then Some(MovesBackwards)
    else if name == Completed && nextIndex != itemCount then Some(CompletedEarly)
    else None
  }

  /** A new event: move the sequence, append to the log and, for INVALID, withdraw the announcement. */
  function AcceptEvent(db: Db, sid: string, row: nat, req: EventRequest): Result<Recorded, Error>
    requires sid in db.sessions && row < |db.sessions[sid].sequences| && 0 <= req.nextIndex && 0 <= req.itemCount
  {
    var s := db.sessions[sid];
    var q := s.sequences[row];
    match Refusal(q, req.name, req.nextIndex, req.itemCount)
    case Some(error) => Err(error)
    case None =>
      var index := if req.nextIndex > q.lastNextIndex then req.nextIndex else q.lastNextIndex;
      var moved := s.(sequences := s.sequences[row := Sequence(q.content, StatusAfter(req.name), index)]);
      var event := Event(EventIdentity(sid, s, row, req.name, req.nextIndex), s.gateway, req.nextIndex, req.itemCount,
                         req.key, req.payload);
      var withdrawn :-
        if req.name == Invalid
        then Advance(moved, RESULT_CANCELLED, None, Some("RGB_SEQUENCE_INVALID_REPORTED_BY_DEVICE"))
        else Ok(moved);
      Ok(Recorded(Db(db.sessions[sid := withdrawn], db.events + [event]), row, false))
  }

  /** record_rgb_event. */
  function RecordEvent(db: Db, sid: string, req: EventRequest): Result<Recorded, Error> {
    if sid !in db.sessions then Err(SessionNotFound)
    else if req.bodySession != sid then Err(SessionMismatch)
    else
      var s := db.sessions[sid];
      match FindRevision(s.sequences, req.sequenceId, req.revision)
      case None => Err(SequenceNotFound)
      case Some(row) =>
        if req.itemCount != s.sequences[row].content.itemCount || !(0 <= req.nextIndex <= req.itemCount) then
          Err(ProgressMismatch)
        else
          match if HasKey(req.key) then FindKey(db.events, s.gateway, req.key) else None
          case Some(e) => if e.payload != req.payload then Err(KeyReused) else Ok(Recorded(db, row, true))
          case None =>
            match FindIdentity(db.events, EventIdentity(sid, s, row, req.name, req.nextIndex))
            case Some(e) => if e.payload != req.payload then Err(IdentityReused) else Ok(Recorded(db, row, true))
            case None => AcceptEvent(db, sid, row, req)
  }

  // ---------- Steps and runs ----------

  datatype Step =
    | CreateSession(sid: string, device: string, gateway: string)
    | PublishStep(sid: string, settings: Settings, request: PublishRequest)
    | MarkStep(sid: string)
    | EventStep(sid: string, event: EventRequest)
    | CancelStep(sid: string)
    | EndSignalStep(sid: string)
    | TransitionStep(sid: string, target: S.State)

  ghost predicate IdTaken(db: Db, sequenceId: string) {
    exists sid, i :: sid in db.sessions && 0 <= i < |db.sessions[sid].sequences|
      && db.sessions[sid].sequences[i].content.sequenceId == sequenceId
  }

  function Commit(db: Db, sid: string, r: Result<Session, Error>): Db {
    match r
    case Ok(s) => db.(sessions := db.sessions[sid := s])
    case Err(_) => db
  }

  ghost function Published(r: Result<Publication, Error>): Result<Session, Error> {
    match r
    case Ok(p) => Ok(p.session)
    case Err(e) => Err(e)
  }

  /**
   One request; a request that raises changes nothing. CANCELLED is entered in two ways: by the admin's
   cancellation, and by an admin's retry of a recoverable failure, which is a plain transition and leaves the
   delivery record alone.
   */
  ghost function Apply(sha: Sha256, db: Db, step: Step): Db {
    if step.CreateSession? then
      if step.sid in db.sessions then db
      else db.(sessions := db.sessions[step.sid := Session(S.CAPTURING, step.device, step.gateway, None, [])])
    else if step.sid !in db.sessions then db
    else
      var s := db.sessions[step.sid];
      match step
      case PublishStep(sid, settings, request) =>
        Commit(db, sid, Published(Publish(sha, sid, s, IdTaken(db, request.freshId), settings, request)))
      case MarkStep(sid) => Commit(db, sid, MarkProcessing(s))
      case EventStep(sid, event) =>
        (match RecordEvent(db, sid, event)
         case Ok(recorded) => recorded.db
         case Err(_) => db)
      case CancelStep(sid) => Commit(db, sid, Cancel(s))
      case EndSignalStep(sid) => Commit(db, sid, Ok(EndSignal(s)))
      case TransitionStep(sid, target) =>
        if target in S.Allowed(s.status) then Commit(db, sid, Ok(s.(status := target))) else db
      case CreateSession(_, _, _) => db
  }

  ghost function Run(sha: Sha256, db: Db, steps: seq<Step>): Db
    decreases |steps|
  {
    if steps == [] then db else Run(sha, Apply(sha, db, steps[0]), steps[1..])
  }

  const EMPTY: Db := Db(map[], [])
}
