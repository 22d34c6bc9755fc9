/** What a firmware client and an operator can rely on, over every run of the RGB result channel. */
module ResultChannelTheorems {
  import opened Wrappers
  import P = AnswerPolicy
  import S = SessionStates
  import opened RgbCodec
  import opened RgbJson
  import opened ResultChannel
  import opened ResultChannelInvariant

  // ---------- Announced sequences can be downloaded ----------

  lemma FindByIdUnique(rows: seq<Sequence>, i: nat)
    requires DistinctIds(rows) && i < |rows|
    ensures FindById(rows, rows[i].content.sequenceId) == Some(i)
  {
  }

  /** A delivered snapshot always shows the recorded command: the fallback to RESULT_CANCELLED is never taken. */
  lemma SnapshotShowsRecord(sha: Sha256, steps: seq<Step>, sid: string, cursor: nat, started: bool)
    requires sid in Run(sha, EMPTY, steps).sessions
    requires Run(sha, EMPTY, steps).sessions[sid].delivery.Some?
    requires Poll(Run(sha, EMPTY, steps).sessions[sid], cursor, started).Some?
    ensures var s := Run(sha, EMPTY, steps).sessions[sid];
      var snapshot := Poll(s, cursor, started).value;
      && snapshot.command == s.delivery.value.command
      && snapshot.cursor == s.delivery.value.cursor > cursor
      && (snapshot.sequence.Some? <==> snapshot.command == RGB_SEQUENCE_READY)
  {
    ReachableInv(sha, steps);
  }

  /**
   Whenever a poll announces RGB_SEQUENCE_READY, the announced payload passes its own validation and digest, and
   the download returns it exactly when its JSON is within the limit in force then; any limit of at least 262144
   bytes will do, whatever the limits were at publication.
   */
  lemma AnnouncedIsDownloadable(sha: Sha256, steps: seq<Step>, sid: string, cursor: nat, started: bool, limit: int)
    requires sid in Run(sha, EMPTY, steps).sessions
    requires var r := Poll(Run(sha, EMPTY, steps).sessions[sid], cursor, started);
      r.Some? && r.value.command == RGB_SEQUENCE_READY
    ensures var s := Run(sha, EMPTY, steps).sessions[sid];
      var snapshot := Poll(s, cursor, started).value;
      && snapshot.sequence.Some?
      && var row := s.delivery.value.active.value;
      && row < |s.sequences|
      && var p := PayloadOf(sid, s.sequences[row].content);
      && ValidPayload(p)
      && p.sessionId == sid
      && snapshot.sequence.value == Announcement(p.sequenceId, p.revision, p.itemCount, p.sha256)
      && p.sha256 == PayloadSha(sha, p)
      && |CompactJsonBytes(p)| < MAX_JSON_BYTES
      && Download(sha, sid, s, p.sequenceId, limit) ==
         (if |CompactJsonBytes(p)| <= limit then Ok((p, CompactJsonBytes(p))) else Err(JsonTooLarge))
  {
    ReachableInv(sha, steps);
    hide Run, CanonicalBytes, ValidPayload, LogsOk, EventOk;
    InvDownload(sha, sid, Run(sha, EMPTY, steps).sessions[sid], cursor, started, limit);
  }

  lemma InvDownload(sha: Sha256, sid: string, s: Session, cursor: nat, started: bool, limit: int)
    requires SessionInv(sha, sid, s)
    requires Poll(s, cursor, started).Some? && Poll(s, cursor, started).value.command == RGB_SEQUENCE_READY
    ensures s.delivery.Some? && s.delivery.value.active.Some?
    ensures var row := s.delivery.value.active.value;
      && row < |s.sequences|
      && var c, p := s.sequences[row].content, PayloadOf(sid, s.sequences[row].content);
      && Poll(s, cursor, started).value.sequence == Some(AnnouncementOf(c))
      && ValidPayload(p) && PayloadSha(sha, p) == c.sha256
      && |CompactJsonBytes(p)| < MAX_JSON_BYTES
      && Download(sha, sid, s, c.sequenceId, limit) ==
         (if |CompactJsonBytes(p)| <= limit then Ok((p, CompactJsonBytes(p))) else Err(JsonTooLarge))
  {
    hide CanonicalBytes, ValidPayload, CompactJsonBytes, FindById;
    var row := s.delivery.value.active.value;
    assert StoredOk(sha, sid, s.sequences[row].content, row);
    FindByIdUnique(s.sequences, row);
    CompactJsonFits(PayloadOf(sid, s.sequences[row].content));
  }

  // ---------- Revisions ----------

  /** Revisions are exactly 1..n and only the highest can be live, so the partial unique index always holds. */
  lemma RevisionHistory(sha: Sha256, steps: seq<Step>, sid: string)
    requires sid in Run(sha, EMPTY, steps).sessions
    ensures var rows := Run(sha, EMPTY, steps).sessions[sid].sequences;
      && (forall i :: 0 <= i < |rows| ==> rows[i].content.revision == i + 1)
      && (forall i :: 0 <= i < |rows| && Live(rows[i].status) ==> i == |rows| - 1)
      && (forall i :: 0 <= i < |rows| ==> rows[i].content.payloadSize == 13 * rows[i].content.itemCount)
  {
    ReachableInv(sha, steps);
    var rows := Run(sha, EMPTY, steps).sessions[sid].sequences;
    forall i | 0 <= i < |rows|
      ensures rows[i].content.revision == i + 1 && rows[i].content.payloadSize == 13 * rows[i].content.itemCount
    {
      assert StoredOk(sha, sid, rows[i].content, i);
    }
  }

  lemma ReusableUnique(rows: seq<Sequence>, row: nat)
    requires DistinctDeliverable(rows) && row < |rows| && Deliverable(rows[row].status)
    ensures FindReusable(rows, rows[row].content.sha256) == Some(row)
  {
  }

  /** The payload that a request asks for, if its settings are readable and its answers can be published. */
  ghost function Requested(sha: Sha256, sid: string, settings: Settings, req: PublishRequest): Option<Payload> {
    match P.Verdict(req.expected, multiset(req.candidates), settings.maxItems)
    case Err(_) => None
    case Ok(answers) =>
      if Readable(req.config) then
        BuildPayload(sha, sid, "rgb-probe", 1, answers, ChosenDefaults(settings.defaults, req.config),
                     SnapshotPalette(req.config), [])
      else None
  }

  /**
   While a revision is announced, a publication under any fresh id reuses it and leaves the session untouched if
   and only if the session is not cancelled, results are enabled and the requested payload has its digest.
   */
  lemma RepublishReuses(sha: Sha256, sid: string, s: Session, taken: bool, settings: Settings, req: PublishRequest)
    requires SessionInv(sha, sid, s) && Announced(s)
    ensures Publish(sha, sid, s, taken, settings, req) == Ok(Publication(s, s.delivery.value.active, true)) <==>
      && s.status != S.CANCELLED && settings.enabled
      && Requested(sha, sid, settings, req).Some?
      && Requested(sha, sid, settings, req).value.sha256 == s.sequences[s.delivery.value.active.value].content.sha256
  {
    hide BuildPayload, InsertRevision, FindReusable, StoredOk, ChosenDefaults, SnapshotPalette;
    ReusableUnique(s.sequences, s.delivery.value.active.value);
    var answers := P.Verdict(req.expected, multiset(req.candidates), settings.maxItems);
    var defaults, palette := ChosenDefaults(settings.defaults, req.config), SnapshotPalette(req.config);
    if answers.Ok?
       && InsertRevision(sha, sid, s, taken, settings.maxJsonBytes, req.freshId, answers.value, defaults, palette).Ok?
    {
      InsertIsNew(sha, sid, s, taken, settings.maxJsonBytes, req.freshId, answers.value, defaults, palette);
    }
  }

  lemma InsertIsNew(sha: Sha256, sid: string, s: Session, taken: bool, maxJsonBytes: int, freshId: string,
                    answers: string, defaults: Defaults, palette: Palette)
    requires InsertRevision(sha, sid, s, taken, maxJsonBytes, freshId, answers, defaults, palette).Ok?
    ensures !InsertRevision(sha, sid, s, taken, maxJsonBytes, freshId, answers, defaults, palette).value.reused
  {
    hide CompactJsonBytes, CanonicalBytes, ValidPayload, BuildPayload;
  }

  /** What a successful publication announces: a deliverable revision with the digest of the requested items. */
  ghost predicate Shows(sha: Sha256, sid: string, rows: seq<Sequence>, p: Publication, freshId: string,
                        answers: string, defaults: Defaults, palette: Palette)
  {
    var draft := Draft(sid, "rgb-probe", 1, answers, defaults, palette, []);
    && p.row.Some? && p.row.value < |p.session.sequences|
    && var c := p.session.sequences[p.row.value].content;
    && p.session.delivery.Some?
    && p.session.delivery.value.command == RGB_SEQUENCE_READY && p.session.delivery.value.active == p.row
    && Deliverable(p.session.sequences[p.row.value].status)
    && ValidPayload(draft) && c.sha256 == PayloadSha(sha, draft)
    && (p.reused <==> exists i :: 0 <= i < |rows| && rows[i].content.sha256 == c.sha256 && Deliverable(rows[i].status))
    && (p.reused ==> p.session.sequences == rows)
    && (!p.reused ==>
          && p.row.value == |rows| && |p.session.sequences| == |rows| + 1
          && c.answers == answers && c.defaults == defaults && c.palette == palette && c.overrides == []
          && c.sequenceId == freshId && c.itemCount == |answers| && c.revision == |rows| + 1)
  }

  lemma InsertShows(sha: Sha256, sid: string, s: Session, taken: bool, maxJsonBytes: int, freshId: string,
                    answers: string, defaults: Defaults, palette: Palette)
    requires RowsOk(sha, sid, s.sequences)
    requires InsertRevision(sha, sid, s, taken, maxJsonBytes, freshId, answers, defaults, palette).Ok?
    requires BuildPayload(sha, sid, "rgb-probe", 1, answers, defaults, palette, []).Some?
    requires FindReusable(s.sequences,
                          BuildPayload(sha, sid, "rgb-probe", 1, answers, defaults, palette, []).value.sha256).None?
    ensures Shows(sha, sid, s.sequences, InsertRevision(sha, sid, s, taken, maxJsonBytes, freshId, answers, defaults,
                                                        palette).value, freshId, answers, defaults, palette)
  {
    hide CompactJsonBytes, CanonicalBytes, ValidPayload, StoredOk;
    NextIsCount(sha, sid, s.sequences);
    FreshRow(sha, sid, freshId, |s.sequences| + 1, answers, defaults, palette);
  }

  lemma AnswersShow(sha: Sha256, sid: string, s: Session, taken: bool, settings: Settings, req: PublishRequest,
                    answers: string)
    requires RowsOk(sha, sid, s.sequences) && PublishAnswers(sha, sid, s, taken, settings, req, answers).Ok?
    ensures Shows(sha, sid, s.sequences, PublishAnswers(sha, sid, s, taken, settings, req, answers).value, req.freshId,
                  answers, ChosenDefaults(settings.defaults, req.config), SnapshotPalette(req.config))
  {
    hide CanonicalBytes, ValidPayload, InsertRevision, StoredOk;
    var defaults, palette := ChosenDefaults(settings.defaults, req.config), SnapshotPalette(req.config);
    var probe := BuildPayload(sha, sid, "rgb-probe", 1, answers, defaults, palette, []).value;
    if FindReusable(s.sequences, probe.sha256).None? {
      InsertShows(sha, sid, s, taken, settings.maxJsonBytes, req.freshId, answers, defaults, palette);
    }
  }

  lemma PublicationShowsAnswers(sha: Sha256, sid: string, s: Session, taken: bool, settings: Settings,
                                req: PublishRequest)
    requires SessionInv(sha, sid, s) && s.status != S.CANCELLED && settings.enabled
    requires Publish(sha, sid, s, taken, settings, req).Ok?
    requires P.Verdict(req.expected, multiset(req.candidates), settings.maxItems).Ok?
    ensures Shows(sha, sid, s.sequences, Publish(sha, sid, s, taken, settings, req).value, req.freshId,
                  P.Verdict(req.expected, multiset(req.candidates), settings.maxItems).value,
                  ChosenDefaults(settings.defaults, req.config), SnapshotPalette(req.config))
  {
    hide Shows, PublishAnswers, RowsOk, ChosenDefaults, SnapshotPalette;
    var marked := if Announced(s) then s else Advance(s, RESULT_PROCESSING, None, None).value;
    AnswersShow(sha, sid, marked, taken, settings, req,
                P.Verdict(req.expected, multiset(req.candidates), settings.maxItems).value);
  }

  // ---------- What can happen later ----------

  predicate RowLater(q: Sequence, q': Sequence) {
    && q'.content == q.content
    && q.lastNextIndex <= q'.lastNextIndex
    && (!Live(q.status) ==> q' == q)
  }

  predicate DeliveryLater(d: Option<Delivery>, d': Option<Delivery>) {
    d.Some? ==>
      && d'.Some?
      && d.value.cursor <= d'.value.cursor
      && (d.value.cursor == d'.value.cursor ==> d' == d)
  }

  predicate SessionLater(s: Session, s': Session) {
    && s'.device == s.device && s'.gateway == s.gateway
    && |s.sequences| <= |s'.sequences|
    && (forall i :: 0 <= i < |s.sequences| ==> RowLater(s.sequences[i], s'.sequences[i]))
    && DeliveryLater(s.delivery, s'.delivery)
    && (s.status == S.CANCELLED ==> s'.status == S.CANCELLED)
  }

  ghost predicate Later(db: Db, db': Db) {
    && (forall sid :: sid in db.sessions ==> sid in db'.sessions && SessionLater(db.sessions[sid], db'.sessions[sid]))
    && db.events <= db'.events
  }

  lemma AdvanceLater(s: Session, command: Command, active: Option<nat>, reason: Option<string>)
    requires Advance(s, command, active, reason).Ok?
    ensures SessionLater(s, Advance(s, command, active, reason).value)
  {
  }

  lemma SessionLaterTransitive(a: Session, b: Session, c: Session)
    requires SessionLater(a, b) && SessionLater(b, c)
    ensures SessionLater(a, c)
  {
    forall i | 0 <= i < |a.sequences|
      ensures RowLater(a.sequences[i], c.sequences[i])
    {
      assert RowLater(a.sequences[i], b.sequences[i]) && RowLater(b.sequences[i], c.sequences[i]);
    }
  }

  lemma MarkLater(s: Session)
    requires MarkProcessing(s).Ok?
    ensures SessionLater(s, MarkProcessing(s).value)
  {
  }

  lemma InsertLater(sha: Sha256, sid: string, s: Session, taken: bool, maxJsonBytes: int, freshId: string,
                    answers: string, defaults: Defaults, palette: Palette)
    requires InsertRevision(sha, sid, s, taken, maxJsonBytes, freshId, answers, defaults, palette).Ok?
    ensures SessionLater(s, InsertRevision(sha, sid, s, taken, maxJsonBytes, freshId, answers, defaults, palette).value.session)
  {
    hide CompactJsonBytes, CanonicalBytes, ValidPayload, BuildPayload;
  }

  lemma AnswersLater(sha: Sha256, sid: string, s: Session, taken: bool, settings: Settings, req: PublishRequest,
                     answers: string)
    requires PublishAnswers(sha, sid, s, taken, settings, req, answers).Ok?
    ensures SessionLater(s, PublishAnswers(sha, sid, s, taken, settings, req, answers).value.session)
  {
    hide BuildPayload, InsertRevision;
    var defaults := ChosenDefaults(settings.defaults, req.config);
    var palette := SnapshotPalette(req.config);
    if InsertRevision(sha, sid, s, taken, settings.maxJsonBytes, req.freshId, answers, defaults, palette).Ok? {
      InsertLater(sha, sid, s, taken, settings.maxJsonBytes, req.freshId, answers, defaults, palette);
    }
  }

  lemma PublishLater(sha: Sha256, sid: string, s: Session, taken: bool, settings: Settings, req: PublishRequest)
    requires Publish(sha, sid, s, taken, settings, req).Ok?
    ensures SessionLater(s, Publish(sha, sid, s, taken, settings, req).value.session)
  {
    hide PublishAnswers, SessionLater, Advance;
    if s.status == S.CANCELLED {
      AdvanceLater(s, RESULT_CANCELLED, None, Some("SESSION_CANCELLED"));
    } else if !settings.enabled {
      AdvanceLater(s, RESULT_CANCELLED, None, Some("RGB_RESULTS_DISABLED"));
    } else {
      var marked := if Announced(s) then s else Advance(s, RESULT_PROCESSING, None, None).value;
      SameIsLater(s);
      if !Announced(s) {
        AdvanceLater(s, RESULT_PROCESSING, None, None);
      }
      match P.Verdict(req.expected, multiset(req.candidates), settings.maxItems) {
        case Err(reason) => AdvanceLater(marked, RESULT_CANCELLED, None, Some(ReasonCode(reason)));
        case Ok(answers) => AnswersLater(sha, sid, marked, taken, settings, req, answers);
      }
      SessionLaterTransitive(s, marked, Publish(sha, sid, s, taken, settings, req).value.session);
    }
  }

  lemma SameIsLater(s: Session)
    ensures SessionLater(s, s)
  {
  }

  lemma AcceptLater(db: Db, sid: string, row: nat, req: EventRequest)
    requires sid in db.sessions && row < |db.sessions[sid].sequences| && 0 <= req.nextIndex && 0 <= req.itemCount
    requires db.sessions[sid].sequences[row].status != COMPLETED
    requires AcceptEvent(db, sid, row, req).Ok?
    ensures Later(db, AcceptEvent(db, sid, row, req).value.db)
  {
    var s := db.sessions[sid];
    var q := s.sequences[row];
    var index := if req.nextIndex > q.lastNextIndex then req.nextIndex else q.lastNextIndex;
    var moved := s.(sequences := s.sequences[row := Sequence(q.content, StatusAfter(req.name), index)]);
    assert SessionLater(s, moved);
    if req.name == Invalid {
      var reason := Some("RGB_SEQUENCE_INVALID_REPORTED_BY_DEVICE");
      AdvanceLater(moved, RESULT_CANCELLED, None, reason);
      SessionLaterTransitive(s, moved, Advance(moved, RESULT_CANCELLED, None, reason).value);
    }
    hide SessionLater;
    forall t | t in db.sessions
      ensures SessionLater(db.sessions[t], db.sessions[t])
    {
      SameIsLater(db.sessions[t]);
    }
  }

  /** A request that is not a duplicate is accepted for a sequence that has not completed. */
  lemma NewEventAccepted(sha: Sha256, db: Db, sid: string, req: EventRequest)
    requires DbInv(sha, db) && RecordEvent(db, sid, req).Ok? && !RecordEvent(db, sid, req).value.duplicate
    ensures var r := RecordEvent(db, sid, req).value;
      && sid in db.sessions && r.row < |db.sessions[sid].sequences| && 0 <= req.nextIndex && 0 <= req.itemCount
      && AcceptEvent(db, sid, r.row, req) == Ok(r)
      && db.sessions[sid].sequences[r.row].status != COMPLETED
  {
    hide DbInv, FindIdentity, FindKey;
    var r := RecordEvent(db, sid, req).value;
    if db.sessions[sid].sequences[r.row].status == COMPLETED {
      CompletedIsRecorded(sha, db, sid, r.row, req.nextIndex);
    }
  }

  lemma RecordLater(sha: Sha256, db: Db, sid: string, req: EventRequest)
    requires DbInv(sha, db) && RecordEvent(db, sid, req).Ok?
    ensures Later(db, RecordEvent(db, sid, req).value.db)
  {
    hide DbInv, SessionLater;
    if RecordEvent(db, sid, req).value.duplicate {
      hide AcceptEvent;
      forall t | t in db.sessions
        ensures SessionLater(db.sessions[t], db.sessions[t])
      {
        SameIsLater(db.sessions[t]);
      }
    } else {
      NewEventAccepted(sha, db, sid, req);
      hide RecordEvent;
      AcceptLater(db, sid, RecordEvent(db, sid, req).value.row, req);
    }
  }

  lemma CancelLater(s: Session)
    requires Cancel(s).Ok?
    ensures SessionLater(s, Cancel(s).value)
  {
  }

  lemma EndSignalLater(s: Session)
    ensures SessionLater(s, EndSignal(s))
  {
    var locked := if S.UploadOpen(s.status) then s.(status := S.LOCKED) else s;
    assert SessionLater(s, locked);
    if MarkProcessing(locked).Ok? {
      MarkLater(locked);
      SessionLaterTransitive(s, locked, MarkProcessing(locked).value);
    }
  }

  lemma TransitionLater(s: Session, target: S.State)
    requires target in S.Allowed(s.status)
    ensures SessionLater(s, s.(status := target))
  {
  }

  lemma SameDbLater(db: Db)
    ensures Later(db, db)
  {
    forall sid | sid in db.sessions
      ensures SessionLater(db.sessions[sid], db.sessions[sid])
    {
      SameIsLater(db.sessions[sid]);
    }
  }

  lemma CreateLater(sha: Sha256, db: Db, step: Step)
    requires step.CreateSession?
    ensures Later(db, Apply(sha, db, step))
  {
    hide SessionLater;
    SameDbLater(db);
  }

  lemma CommitLater(db: Db, sid: string, r: Result<Session, Error>)
    requires sid in db.sessions && (r.Ok? ==> SessionLater(db.sessions[sid], r.value))
    ensures Later(db, Commit(db, sid, r))
  {
    hide SessionLater;
    SameDbLater(db);
  }

  /** One step only adds: rows keep their content, cursors never fall, CANCELLED is final. */
  lemma ApplyLater(sha: Sha256, db: Db, step: Step)
    requires DbInv(sha, db)
    ensures Later(db, Apply(sha, db, step))
  {
    hide SessionLater, Later, DbInv, Publish, RecordEvent, MarkProcessing, Cancel, EndSignal, Commit, S.Allowed, IdTaken;
    SameDbLater(db);
    if step.CreateSession? {
      CreateLater(sha, db, step);
    } else if step.sid in db.sessions {
      var s := db.sessions[step.sid];
      match step
      case PublishStep(sid, settings, req) =>
        if Publish(sha, sid, s, IdTaken(db, req.freshId), settings, req).Ok? {
          PublishLater(sha, sid, s, IdTaken(db, req.freshId), settings, req);
        }
        CommitLater(db, sid, Published(Publish(sha, sid, s, IdTaken(db, req.freshId), settings, req)));
      case MarkStep(sid) =>
        if MarkProcessing(s).Ok? {
          MarkLater(s);
        }
        CommitLater(db, sid, MarkProcessing(s));
      case EventStep(sid, event) =>
        if RecordEvent(db, sid, event).Ok? {
          RecordLater(sha, db, sid, event);
        }
      case CancelStep(sid) =>
        if Cancel(s).Ok? {
          CancelLater(s);
        }
        CommitLater(db, sid, Cancel(s));
      case EndSignalStep(sid) =>
        EndSignalLater(s);
        CommitLater(db, sid, Ok(EndSignal(s)));
      case TransitionStep(sid, target) =>
        if target in S.Allowed(s.status) {
          TransitionLater(s, target);
          CommitLater(db, sid, Ok(s.(status := target)));
        }
      case CreateSession(_, _, _) =>
    }
  }

  lemma LaterTransitive(a: Db, b: Db, c: Db)
    requires Later(a, b) && Later(b, c)
    ensures Later(a, c)
  {
    forall sid | sid in a.sessions
      ensures SessionLater(a.sessions[sid], c.sessions[sid])
    {
      SessionLaterTransitive(a.sessions[sid], b.sessions[sid], c.sessions[sid]);
    }
  }

  lemma {:induction false} RunLater(sha: Sha256, db: Db, steps: seq<Step>)
    requires DbInv(sha, db)
    ensures DbInv(sha, Run(sha, db, steps)) && Later(db, Run(sha, db, steps))
    decreases |steps|
  {
    RunKeeps(sha, db, steps);
    if steps == [] {
      forall sid | sid in db.sessions
        ensures SessionLater(db.sessions[sid], db.sessions[sid])
      {
        SameIsLater(db.sessions[sid]);
      }
    } else {
      var next := Apply(sha, db, steps[0]);
      ApplyKeeps(sha, db, steps[0]);
      ApplyLater(sha, db, steps[0]);
      RunLater(sha, next, steps[1..]);
      LaterTransitive(db, next, Run(sha, next, steps[1..]));
    }
  }

  // ---------- Publishing again ----------

  lemma PublishedIsRequested(sha: Sha256, sid: string, s: Session, taken: bool, settings: Settings, req: PublishRequest)
    requires SessionInv(sha, sid, s) && Publish(sha, sid, s, taken, settings, req).Ok?
    requires Publish(sha, sid, s, taken, settings, req).value.row.Some?
    ensures var p := Publish(sha, sid, s, taken, settings, req).value;
      && p.row.value < |p.session.sequences|
      && Requested(sha, sid, settings, req).Some?
      && p.session.sequences[p.row.value].content.sha256 == Requested(sha, sid, settings, req).value.sha256
  {
    hide CanonicalBytes, ValidPayload, InsertRevision, StoredOk, SessionInv, FindReusable;
    PublicationShowsAnswers(sha, sid, s, taken, settings, req);
  }

  /** A request for a payload whose revision can still be delivered always announces that revision. */
  lemma DeliverableReused(sha: Sha256, sid: string, s: Session, row: nat, taken: bool, settings: Settings,
                          req: PublishRequest)
    requires SessionInv(sha, sid, s) && s.status != S.CANCELLED && settings.enabled
    requires row < |s.sequences| && Deliverable(s.sequences[row].status)
    requires Requested(sha, sid, settings, req).Some?
    requires Requested(sha, sid, settings, req).value.sha256 == s.sequences[row].content.sha256
    ensures var r := Publish(sha, sid, s, taken, settings, req);
      && r.Ok? && r.value.row == Some(row) && r.value.reused
      && r.value.session.sequences == s.sequences
      && Announced(r.value.session) && r.value.session.delivery.value.active == Some(row)
  {
    hide BuildPayload, InsertRevision, FindReusable, StoredOk, ChosenDefaults, SnapshotPalette;
    ReusableUnique(s.sequences, row);
  }

  /**
   Publishing the same payload again, after anything that left the revision deliverable and the session not
   cancelled, announces the same revision; if it was still the one announced, nothing at all is written.
   */
  lemma RepublishLater(sha: Sha256, before: seq<Step>, sid: string, settings: Settings, req: PublishRequest,
                       after: seq<Step>, settings': Settings, req': PublishRequest)
    requires sid in Run(sha, EMPTY, before).sessions
    requires var db := Run(sha, EMPTY, before);
      var r := Publish(sha, sid, db.sessions[sid], IdTaken(db, req.freshId), settings, req);
      && r.Ok? && r.value.row.Some?
      && var later := Run(sha, Apply(sha, db, PublishStep(sid, settings, req)), after);
      && sid in later.sessions && later.sessions[sid].status != S.CANCELLED
      && r.value.row.value < |later.sessions[sid].sequences|
      && Deliverable(later.sessions[sid].sequences[r.value.row.value].status)
    requires settings'.enabled && Requested(sha, sid, settings', req') == Requested(sha, sid, settings, req)
    ensures var db := Run(sha, EMPTY, before);
      var row := Publish(sha, sid, db.sessions[sid], IdTaken(db, req.freshId), settings, req).value.row;
      var later := Run(sha, Apply(sha, db, PublishStep(sid, settings, req)), after);
      var s := later.sessions[sid];
      var again := Publish(sha, sid, s, IdTaken(later, req'.freshId), settings', req');
      && again.Ok? && again.value.row == row && again.value.reused
      && again.value.session.sequences == s.sequences
      && Announced(again.value.session) && again.value.session.delivery.value.active == row
      && (Announced(s) && s.delivery.value.active == row ==>
            Apply(sha, later, PublishStep(sid, settings', req')) == later)
  {
    hide Publish, Requested, SessionInv, LogsOk, IdTaken;
    var db := Run(sha, EMPTY, before);
    var published := Apply(sha, db, PublishStep(sid, settings, req));
    var later := Run(sha, published, after);
    ReachableInv(sha, before);
    ApplyKeeps(sha, db, PublishStep(sid, settings, req));
    RunLater(sha, published, after);
    assert SessionInv(sha, sid, db.sessions[sid]) && SessionInv(sha, sid, later.sessions[sid]);
    hide DbInv, Run;
    PublishedIsRequested(sha, sid, db.sessions[sid], IdTaken(db, req.freshId), settings, req);
    var row := Publish(sha, sid, db.sessions[sid], IdTaken(db, req.freshId), settings, req).value.row.value;
    assert RowLater(published.sessions[sid].sequences[row], later.sessions[sid].sequences[row]);
    DeliverableReused(sha, sid, later.sessions[sid], row, IdTaken(later, req'.freshId), settings', req');
    if Announced(later.sessions[sid]) && later.sessions[sid].delivery.value.active == Some(row) {
      RepublishReuses(sha, sid, later.sessions[sid], IdTaken(later, req'.freshId), settings', req');
    }
  }

  // ---------- Cancellation is a permanent fence ----------

  /** A cancelled session that can show nothing but RESULT_CANCELLED. */
  predicate Withdrawn(s: Session) {
    s.status == S.CANCELLED && (s.delivery.Some? ==> s.delivery.value.command == RESULT_CANCELLED)
  }

  lemma WithdrawnPolls(s: Session, cursor: nat, started: bool)
    requires Withdrawn(s) && DeliveryOk(s)
    ensures Poll(s, cursor, started).Some? ==> Poll(s, cursor, started).value.command == RESULT_CANCELLED
  {
  }

  lemma RecordWithdrawn(db: Db, sid: string, target: string, req: EventRequest)
    requires sid in db.sessions && target in db.sessions && Withdrawn(db.sessions[sid])
    requires RecordEvent(db, target, req).Ok?
    ensures var db' := RecordEvent(db, target, req).value.db; sid in db'.sessions && Withdrawn(db'.sessions[sid])
  {
    hide FindKey, FindIdentity, FindRevision, Refusal;
  }

  /** No request ends the withdrawal of a cancelled session. */
  lemma WithdrawnStep(sha: Sha256, db: Db, sid: string, step: Step)
    requires sid in db.sessions && Withdrawn(db.sessions[sid])
    ensures var db' := Apply(sha, db, step); sid in db'.sessions && Withdrawn(db'.sessions[sid])
  {
    hide RecordEvent, PublishAnswers, IdTaken, P.Verdict;
    if step.EventStep? && step.sid in db.sessions && RecordEvent(db, step.sid, step.event).Ok? {
      RecordWithdrawn(db, sid, step.sid, step.event);
    }
  }

  lemma {:induction false} WithdrawnRun(sha: Sha256, db: Db, sid: string, steps: seq<Step>)
    requires sid in db.sessions && Withdrawn(db.sessions[sid])
    ensures var db' := Run(sha, db, steps); sid in db'.sessions && Withdrawn(db'.sessions[sid])
    decreases |steps|
  {
    if steps != [] {
      WithdrawnStep(sha, db, sid, steps[0]);
      WithdrawnRun(sha, Apply(sha, db, steps[0]), sid, steps[1..]);
    }
  }

  /** A poll of the session is answered with RESULT_CANCELLED, if it is answered. */
  predicate ShowsCancelled(db: Db, sid: string, cursor: nat, started: bool) {
    && sid in db.sessions
    && var answer := Poll(db.sessions[sid], cursor, started);
    (answer.Some? ==> answer.value.command == RESULT_CANCELLED)
  }

  /** From this state on, polls show RESULT_CANCELLED only, whatever requests follow. */
  ghost predicate FencedFrom(sha: Sha256, db: Db, sid: string) {
    forall after, cursor, started :: ShowsCancelled(Run(sha, db, after), sid, cursor, started)
  }

  lemma WithdrawnFences(sha: Sha256, db: Db, sid: string)
    requires DbInv(sha, db) && sid in db.sessions && Withdrawn(db.sessions[sid])
    ensures FencedFrom(sha, db, sid)
  {
    hide Poll, Run, SessionInv, LogsOk;
    forall after, cursor, started
      ensures ShowsCancelled(Run(sha, db, after), sid, cursor, started)
    {
      WithdrawnRun(sha, db, sid, after);
      RunKeeps(sha, db, after);
      var s := Run(sha, db, after).sessions[sid];
      assert SessionInv(sha, sid, s);
      InvDelivery(sha, sid, s);
      WithdrawnPolls(s, cursor, started);
    }
  }

  lemma InvDelivery(sha: Sha256, sid: string, s: Session)
    requires SessionInv(sha, sid, s)
    ensures DeliveryOk(s)
  {
  }

  /**
   The admin's cancellation withdraws the result in every later run if and only if the session was not CANCELLED
   already, or had no delivery record, or one that shows RESULT_CANCELLED: cancelling a CANCELLED session writes
   nothing, and a retry may have left it with any record.
   */
  lemma CancellationFence(sha: Sha256, before: seq<Step>, sid: string)
    requires sid in Run(sha, EMPTY, before).sessions
    requires Cancel(Run(sha, EMPTY, before).sessions[sid]).Ok?
    ensures var db := Run(sha, EMPTY, before);
      var s := db.sessions[sid];
      FencedFrom(sha, Apply(sha, db, CancelStep(sid)), sid) <==>
        s.status != S.CANCELLED || s.delivery.None? || s.delivery.value.command == RESULT_CANCELLED
  {
    hide RowsOk, LogsOk, Publish, RecordEvent;
    var db := Run(sha, EMPTY, before);
    var s := db.sessions[sid];
    ReachableInv(sha, before);
    var cancelled := Apply(sha, db, CancelStep(sid));
    ApplyKeeps(sha, db, CancelStep(sid));
    if s.status != S.CANCELLED || s.delivery.None? || s.delivery.value.command == RESULT_CANCELLED {
      WithdrawnFences(sha, cancelled, sid);
    } else {
      assert SessionInv(sha, sid, s);
      assert !ShowsCancelled(Run(sha, cancelled, []), sid, 0, true);
    }
  }

  /** Whatever record a CANCELLED session has, the next mark or publication withdraws it for good. */
  lemma NextMarkWithdraws(sha: Sha256, before: seq<Step>, sid: string, step: Step)
    requires sid in Run(sha, EMPTY, before).sessions
    requires Run(sha, EMPTY, before).sessions[sid].status == S.CANCELLED
    requires step.sid == sid && (step.MarkStep? || step.PublishStep?)
    ensures FencedFrom(sha, Apply(sha, Run(sha, EMPTY, before), step), sid)
  {
    hide RowsOk, LogsOk, RecordEvent, Run;
    var db := Run(sha, EMPTY, before);
    ReachableInv(sha, before);
    ApplyKeeps(sha, db, step);
    assert SessionInv(sha, sid, db.sessions[sid]);
    WithdrawnFences(sha, Apply(sha, db, step), sid);
  }

  // ---------- Device event logs ----------

  /** The last event of a log, if there is one, has this name. */
  predicate LastIs(log: seq<Event>, name: EventName) {
    log != [] && log[|log| - 1].identity.name == name
  }

  /** In every reachable state the log of a sequence is legal and explains the sequence's status and progress. */
  lemma EventLogs(sha: Sha256, steps: seq<Step>, sid: string, row: nat)
    requires sid in Run(sha, EMPTY, steps).sessions
    requires row < |Run(sha, EMPTY, steps).sessions[sid].sequences|
    ensures var db := Run(sha, EMPTY, steps);
      var q, log := db.sessions[sid].sequences[row], LogOf(db.events, sid, row);
      && LegalLog(log, q.content.itemCount)
      && (q.status != SUPERSEDED ==>
            && (q.status == READY <==> log == [])
            && (q.status == RECEIVED <==> LastIs(log, Received))
            && (q.status == PLAYING <==> LastIs(log, Started) || LastIs(log, Resumed))
            && (q.status == COMPLETED <==> LastIs(log, Completed))
            && (q.status == INVALID <==> LastIs(log, Invalid)))
      && q.lastNextIndex == (if log == [] then 0 else log[|log| - 1].nextIndex)
      && (q.status == COMPLETED ==> q.lastNextIndex == q.content.itemCount)
  {
    ReachableInv(sha, steps);
    var db := Run(sha, EMPTY, steps);
    assert ExplainedBy(db.sessions[sid].sequences[row], LogOf(db.events, sid, row));
  }

  lemma {:induction false} FindKeyExtends(events: seq<Event>, more: seq<Event>, gateway: string, key: Option<string>)
    ensures FindKey(events + more, gateway, key) ==
      if FindKey(events, gateway, key).Some? then FindKey(events, gateway, key) else FindKey(more, gateway, key)
  {
    if events == [] {
      assert events + more == more;
    } else {
      assert (events + more)[1..] == events[1..] + more;
      FindKeyExtends(events[1..], more, gateway, key);
    }
  }

  lemma {:induction false} FindIdentityExtends(events: seq<Event>, more: seq<Event>, identity: Identity)
    ensures FindIdentity(events + more, identity) ==
      if FindIdentity(events, identity).Some? then FindIdentity(events, identity) else FindIdentity(more, identity)
  {
    if events == [] {
      assert events + more == more;
    } else {
      assert (events + more)[1..] == events[1..] + more;
      FindIdentityExtends(events[1..], more, identity);
    }
  }

  /** The one event an accepted request appends carries its key, identity and payload. */
  lemma AcceptedEvent(db: Db, sid: string, req: EventRequest)
    requires RecordEvent(db, sid, req).Ok? && !RecordEvent(db, sid, req).value.duplicate
    ensures var r := RecordEvent(db, sid, req).value;
      && sid in db.sessions && r.row < |db.sessions[sid].sequences| && 0 <= req.nextIndex
      && FindRevision(db.sessions[sid].sequences, req.sequenceId, req.revision) == Some(r.row)
      && var e := Event(EventIdentity(sid, db.sessions[sid], r.row, req.name, req.nextIndex),
                        db.sessions[sid].gateway, req.nextIndex, req.itemCount, req.key, req.payload);
      && r.db.events == db.events + [e]
      && FindIdentity(db.events, e.identity).None?
      && (HasKey(req.key) ==> FindKey(db.events, e.gateway, req.key).None?)
  {
    hide FindIdentity, FindKey, FindRevision, Refusal;
  }

  lemma FindRevisionUnique(rows: seq<Sequence>, i: nat)
    requires DistinctIds(rows) && i < |rows|
    ensures FindRevision(rows, rows[i].content.sequenceId, rows[i].content.revision) == Some(i)
  {
  }

  /** Re-sending an accepted event, at any later time, changes nothing and reports a duplicate. */
  lemma ResendIsDuplicate(sha: Sha256, before: seq<Step>, sid: string, req: EventRequest, after: seq<Step>)
    requires var r := RecordEvent(Run(sha, EMPTY, before), sid, req); r.Ok? && !r.value.duplicate
    ensures var r := RecordEvent(Run(sha, EMPTY, before), sid, req).value;
      var later := Run(sha, r.db, after);
      RecordEvent(later, sid, req) == Ok(Recorded(later, r.row, true))
  {
    var db := Run(sha, EMPTY, before);
    ReachableInv(sha, before);
    AcceptedEvent(db, sid, req);
    RecordKeeps(sha, db, sid, req);
    RecordLater(sha, db, sid, req);
    var r := RecordEvent(db, sid, req).value;
    RunLater(sha, r.db, after);
    LaterTransitive(db, r.db, Run(sha, r.db, after));
    StillDuplicate(sha, db, sid, req, Run(sha, r.db, after));
  }

  /** The recorded event is still the one found by its identity and by its key. */
  lemma StillFound(events: seq<Event>, e: Event, rest: seq<Event>)
    requires FindIdentity(events, e.identity).None?
    requires HasKey(e.key) ==> FindKey(events, e.gateway, e.key).None?
    ensures FindIdentity(events + [e] + rest, e.identity) == Some(e)
    ensures HasKey(e.key) ==> FindKey(events + [e] + rest, e.gateway, e.key) == Some(e)
  {
    FindIdentityExtends(events + [e], rest, e.identity);
    FindIdentityExtends(events, [e], e.identity);
    FindKeyExtends(events + [e], rest, e.gateway, e.key);
    FindKeyExtends(events, [e], e.gateway, e.key);
  }

  lemma StillDuplicate(sha: Sha256, db: Db, sid: string, req: EventRequest, later: Db)
    requires DbInv(sha, db) && DbInv(sha, later) && Later(db, later)
    requires RecordEvent(db, sid, req).Ok? && !RecordEvent(db, sid, req).value.duplicate
    requires RecordEvent(db, sid, req).value.db.events <= later.events
    ensures RecordEvent(later, sid, req) == Ok(Recorded(later, RecordEvent(db, sid, req).value.row, true))
  {
    hide SessionInv, FindRevision, FindIdentity, FindKey, AcceptEvent, LogsOk, EventOk;
    AcceptedEvent(db, sid, req);
    var r := RecordEvent(db, sid, req).value;
    var s, s' := db.sessions[sid], later.sessions[sid];
    assert RowLater(s.sequences[r.row], s'.sequences[r.row]);
    SessionIdsDistinct(sha, sid, s');
    FindRevisionUnique(s'.sequences, r.row);
    var e := r.db.events[|db.events|];
    var rest := later.events[|db.events| + 1..];
    assert later.events == db.events + [e] + rest;
    StillFound(db.events, e, rest);
  }

  lemma SessionIdsDistinct(sha: Sha256, sid: string, s: Session)
    requires SessionInv(sha, sid, s)
    ensures DistinctIds(s.sequences)
  {
  }

  // ---------- Polling clients ----------

  datatype Act = Serve(step: Step) | PollNow(started: bool)

  /** A client that always polls with the cursor it last received. */
  datatype Client = Client(cursor: nat, last: Option<Snapshot>, received: seq<nat>)

  datatype World = World(db: Db, client: Client)

  function Receive(client: Client, answer: Option<Snapshot>): Client {
    match answer
    case None => client
    case Some(snapshot) => Client(snapshot.cursor, Some(snapshot), client.received + [snapshot.cursor])
  }

  ghost function Live1(sha: Sha256, sid: string, w: World, act: Act): World {
    match act
    case Serve(step) => World(Apply(sha, w.db, step), w.client)
    case PollNow(started) =>
      if sid !in w.db.sessions then w
      else World(w.db, Receive(w.client, Poll(w.db.sessions[sid], w.client.cursor, started)))
  }

  ghost function LiveOn(sha: Sha256, sid: string, w: World, acts: seq<Act>): World
    decreases |acts|
  {
    if acts == [] then w else LiveOn(sha, sid, Live1(sha, sid, w, acts[0]), acts[1..])
  }

  /** Virtual answers carry cursor 0; every later cursor is positive and larger than all before it. */
  predicate Increasing(cursors: seq<nat>) {
    forall i, j :: 0 <= i < j < |cursors| ==> cursors[i] < cursors[j] || (cursors[i] == cursors[j] == 0)
  }

  ghost predicate ClientInv(sha: Sha256, sid: string, w: World) {
    && DbInv(sha, w.db)
    && Increasing(w.client.received)
    && w.client.cursor == (if w.client.received == [] then 0 else w.client.received[|w.client.received| - 1])
    && (w.client.cursor >= 1 ==>
          && sid in w.db.sessions
          && var s := w.db.sessions[sid];
          && s.delivery.Some?
          && w.client.cursor <= s.delivery.value.cursor
          && (w.client.cursor == s.delivery.value.cursor ==> w.client.last == Poll(s, 0, true)))
  }

  /** The full answer to a poll depends only on the delivery record and immutable row content. */
  lemma SameRecordSamePoll(sha: Sha256, sid: string, s: Session, s': Session)
    requires SessionInv(sha, sid, s) && SessionInv(sha, sid, s') && SessionLater(s, s')
    requires s.delivery.Some? && s'.delivery == s.delivery
    ensures Poll(s, 0, true) == Poll(s', 0, true)
  {
    hide StoredOk;
    if s.delivery.value.active.Some? {
      var row := s.delivery.value.active.value;
      assert RowLater(s.sequences[row], s'.sequences[row]);
    }
  }

  lemma Live1Keeps(sha: Sha256, sid: string, w: World, act: Act)
    requires ClientInv(sha, sid, w)
    ensures ClientInv(sha, sid, Live1(sha, sid, w, act))
  {
    hide SessionInv, LogsOk;
    match act
    case Serve(step) =>
      ApplyKeeps(sha, w.db, step);
      ApplyLater(sha, w.db, step);
      if w.client.cursor >= 1 {
        var s, s' := w.db.sessions[sid], Apply(sha, w.db, step).sessions[sid];
        assert SessionLater(s, s');
        if s'.delivery == s.delivery {
          SameRecordSamePoll(sha, sid, s, s');
        }
      }
    case PollNow(started) =>
      if sid in w.db.sessions {
        PollKeeps(sha, sid, w, started);
      }
  }

  lemma PollKeeps(sha: Sha256, sid: string, w: World, started: bool)
    requires ClientInv(sha, sid, w) && sid in w.db.sessions
    ensures ClientInv(sha, sid, Live1(sha, sid, w, PollNow(started)))
  {
    hide LogsOk, StoredOk;
    var s := w.db.sessions[sid];
    assert SessionInv(sha, sid, s);
    var client := Receive(w.client, Poll(s, w.client.cursor, started));
    var received := w.client.received;
    forall i, j | 0 <= i < j < |client.received|
      ensures client.received[i] < client.received[j] || (client.received[i] == client.received[j] == 0)
    {
      if j == |received| && i < |received| - 1 {
        assert received[i] < received[|received| - 1] || (received[i] == received[|received| - 1] == 0);
      }
    }
  }

  lemma {:induction false} LiveOnKeeps(sha: Sha256, sid: string, w: World, acts: seq<Act>)
    requires ClientInv(sha, sid, w)
    ensures ClientInv(sha, sid, LiveOn(sha, sid, w, acts))
    decreases |acts|
  {
    if acts != [] {
      Live1Keeps(sha, sid, w, acts[0]);
      LiveOnKeeps(sha, sid, Live1(sha, sid, w, acts[0]), acts[1..]);
    }
  }

  /** The client's cursors strictly increase, and "no update" means its last snapshot is the current record. */
  lemma PollingClient(sha: Sha256, sid: string, acts: seq<Act>, started: bool)
    ensures var w := LiveOn(sha, sid, World(EMPTY, Client(0, None, [])), acts);
      && Increasing(w.client.received)
      && (sid in w.db.sessions && w.client.cursor >= 1 && Poll(w.db.sessions[sid], w.client.cursor, started).None? ==>
            w.client.last.Some? && w.client.last == Poll(w.db.sessions[sid], 0, started))
  {
    LiveOnKeeps(sha, sid, World(EMPTY, Client(0, None, [])), acts);
    var w := LiveOn(sha, sid, World(EMPTY, Client(0, None, [])), acts);
    if sid in w.db.sessions && w.client.cursor >= 1 {
      assert SessionInv(sha, sid, w.db.sessions[sid]);
    }
  }

  // ---------- When the cursor moves ----------

  predicate SameRecord(d: Delivery, d': Delivery) {
    d'.command == d.command && d'.active == d.active && d'.reason == d.reason
  }

  /** An enabled publication over RESULT_CANCELLED: it passes through RESULT_PROCESSING to its outcome. */
  predicate Restarts(s: Session, step: Step) {
    && step.PublishStep? && s.status != S.CANCELLED && step.settings.enabled
    && s.delivery.Some? && s.delivery.value.command == RESULT_CANCELLED
  }

  /** Where a request that commits leaves the cursor of a session. */
  predicate CursorLaw(s: Session, step: Step, s': Session) {
    match s.delivery
    case Some(d) =>
      && s'.delivery.Some?
      && var d' := s'.delivery.value;
      d'.cursor == if Restarts(s, step) then d.cursor + 2 else if SameRecord(d, d') then d.cursor else d.cursor + 1
    case None =>
      s'.delivery.Some? ==>
        s'.delivery.value.cursor == if step.PublishStep? && s.status != S.CANCELLED && step.settings.enabled then 2 else 1
  }

  lemma AnswersCursor(sha: Sha256, sid: string, s: Session, taken: bool, settings: Settings, req: PublishRequest,
                      answers: string)
    requires PublishAnswers(sha, sid, s, taken, settings, req, answers).Ok? && s.delivery.Some?
    ensures var s' := PublishAnswers(sha, sid, s, taken, settings, req, answers).value.session;
      && s'.delivery.Some?
      && var d, d' := s.delivery.value, s'.delivery.value;
      && d'.cursor == (if SameRecord(d, d') then d.cursor else d.cursor + 1)
      && d'.command == RGB_SEQUENCE_READY
  {
    hide BuildPayload, CompactJsonBytes, ValidPayload, CanonicalBytes, FindReusable;
  }

  lemma PublishCursor(sha: Sha256, sid: string, s: Session, taken: bool, step: Step)
    requires SessionInv(sha, sid, s) && step.PublishStep?
    requires Publish(sha, sid, s, taken, step.settings, step.request).Ok?
    ensures CursorLaw(s, step, Publish(sha, sid, s, taken, step.settings, step.request).value.session)
  {
    hide PublishAnswers, StoredOk;
    var settings, req := step.settings, step.request;
    if s.status != S.CANCELLED && settings.enabled {
      var marked := if Announced(s) then s else Advance(s, RESULT_PROCESSING, None, None).value;
      match P.Verdict(req.expected, multiset(req.candidates), settings.maxItems)
      case Err(_) =>
      case Ok(answers) => AnswersCursor(sha, sid, marked, taken, settings, req, answers);
    }
  }

  lemma RecordCursor(db: Db, step: Step)
    requires step.EventStep? && step.sid in db.sessions && RecordEvent(db, step.sid, step.event).Ok?
    ensures step.sid in RecordEvent(db, step.sid, step.event).value.db.sessions
    ensures CursorLaw(db.sessions[step.sid], step, RecordEvent(db, step.sid, step.event).value.db.sessions[step.sid])
  {
    hide FindKey, FindIdentity, FindRevision, Refusal;
  }

  /** The request is not a publication that raises. */
  ghost predicate Commits(sha: Sha256, db: Db, step: Step) {
    step.PublishStep? && step.sid in db.sessions ==>
      Publish(sha, step.sid, db.sessions[step.sid], IdTaken(db, step.request.freshId), step.settings, step.request).Ok?
  }

  /**
   Every request, from every reachable state: a publication that raises changes nothing; otherwise the cursor moves
   by two for an enabled publication over RESULT_CANCELLED, and else by one exactly when (command, active sequence,
   reason) changes. The first record starts at cursor 2 if an enabled publication makes it, else at cursor 1.
   */
  lemma CursorMoves(sha: Sha256, before: seq<Step>, sid: string, step: Step)
    requires step.sid == sid && sid in Run(sha, EMPTY, before).sessions
    ensures var db := Run(sha, EMPTY, before);
      var db' := Apply(sha, db, step);
      && sid in db'.sessions
      && if Commits(sha, db, step) then CursorLaw(db.sessions[sid], step, db'.sessions[sid]) else db' == db
  {
    hide Publish, RecordEvent, LogsOk, StoredOk, IdTaken;
    ReachableInv(sha, before);
    var db := Run(sha, EMPTY, before);
    var s := db.sessions[sid];
    assert SessionInv(sha, sid, s);
    hide SessionInv;
    match step
    case PublishStep(_, settings, req) =>
      if Publish(sha, sid, s, IdTaken(db, req.freshId), settings, req).Ok? {
        PublishCursor(sha, sid, s, IdTaken(db, req.freshId), step);
      }
    case EventStep(_, event) =>
      if RecordEvent(db, sid, event).Ok? {
        RecordCursor(db, step);
      }
    case _ =>
  }

  /**
   The promised law, one move per change of (command, active sequence, reason) and none otherwise, is met by a
   request on an existing record if and only if it is not an enabled publication over RESULT_CANCELLED that commits.
   */
  lemma CursorCountsChanges(sha: Sha256, before: seq<Step>, sid: string, step: Step)
    requires step.sid == sid && sid in Run(sha, EMPTY, before).sessions
    requires Run(sha, EMPTY, before).sessions[sid].delivery.Some?
    ensures var db := Run(sha, EMPTY, before);
      var db' := Apply(sha, db, step);
      && sid in db'.sessions && db'.sessions[sid].delivery.Some?
      && var d, d' := db.sessions[sid].delivery.value, db'.sessions[sid].delivery.value;
      (d'.cursor == (if SameRecord(d, d') then d.cursor else d.cursor + 1)) <==>
        !(Restarts(db.sessions[sid], step) && Commits(sha, db, step))
  {
    hide Run, Apply, Commits;
    CursorMoves(sha, before, sid, step);
  }
}
