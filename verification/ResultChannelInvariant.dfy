/** The invariant of the RGB result channel, and its proof over every run. */
module ResultChannelInvariant {
  import opened Wrappers
  import P = AnswerPolicy
  import S = SessionStates
  import opened RgbCodec
  import opened RgbJson
  import opened ResultChannel

  // ---------- Sequences and delivery of one session ----------

  ghost predicate StoredOk(sha: Sha256, sid: string, c: Content, i: nat) {
    && c.revision == i + 1 <= MAX_INT32
    && ValidPayload(PayloadOf(sid, c))
    && PayloadSha(sha, PayloadOf(sid, c)) == c.sha256
    && c.payloadSize == 13 * c.itemCount
  }

  /** Revisions are exactly 1..n, and every row passes its own digest and the table's check constraints. */
  ghost predicate RowsOk(sha: Sha256, sid: string, rows: seq<Sequence>) {
    forall i :: 0 <= i < |rows| ==>
      StoredOk(sha, sid, rows[i].content, i) && rows[i].lastNextIndex <= rows[i].content.itemCount
  }

  predicate OnlyLatestLive(rows: seq<Sequence>) {
    forall i :: 0 <= i < |rows| - 1 ==> !Live(rows[i].status)
  }

  predicate DistinctIds(rows: seq<Sequence>) {
    forall i, j :: 0 <= i < j < |rows| ==> rows[i].content.sequenceId != rows[j].content.sequenceId
  }

  /** No two deliverable revisions show the same digest. */
  predicate DistinctDeliverable(rows: seq<Sequence>) {
    forall i, j :: 0 <= i < j < |rows| && Deliverable(rows[i].status) && Deliverable(rows[j].status) ==>
      rows[i].content.sha256 != rows[j].content.sha256
  }

  predicate DeliveryOk(s: Session) {
    s.delivery.Some? ==>
      var d := s.delivery.value;
      && d.device == s.device && d.gateway == s.gateway
      && d.cursor >= 1
      && d.command != RESULT_NOT_STARTED
      && (d.command == RGB_SEQUENCE_READY <==> d.active.Some?)
      && (d.active.Some? ==> d.active.value < |s.sequences| && Deliverable(s.sequences[d.active.value].status))
      && (d.command == RGB_SEQUENCE_READY ==> d.reason.None?)
      && (d.command == RESULT_PROCESSING ==> d.reason.None?)
  }

  ghost predicate SessionInv(sha: Sha256, sid: string, s: Session) {
    && RowsOk(sha, sid, s.sequences)
    && OnlyLatestLive(s.sequences)
    && DistinctIds(s.sequences)
    && DistinctDeliverable(s.sequences)
    && DeliveryOk(s)
  }

  /** With a consistent delivery record, get_or_create_delivery never raises. */
  lemma AdvanceKeeps(sha: Sha256, sid: string, s: Session, command: Command, active: Option<nat>, reason: Option<string>)
    requires RowsOk(sha, sid, s.sequences) && OnlyLatestLive(s.sequences)
    requires DistinctIds(s.sequences) && DistinctDeliverable(s.sequences)
    requires s.delivery.Some? ==>
      s.delivery.value.device == s.device && s.delivery.value.gateway == s.gateway && s.delivery.value.cursor >= 1
    requires command != RESULT_NOT_STARTED && (command == RGB_SEQUENCE_READY <==> active.Some?)
    requires active.Some? ==> active.value < |s.sequences| && Deliverable(s.sequences[active.value].status)
    requires command != RESULT_CANCELLED ==> reason.None?
    ensures var r := Advance(s, command, active, reason); r.Ok? && SessionInv(sha, sid, r.value)
    ensures Advance(s, command, active, reason).value.sequences == s.sequences
  {
  }

  lemma MarkKeeps(sha: Sha256, sid: string, s: Session)
    requires SessionInv(sha, sid, s)
    ensures MarkProcessing(s).Ok? && SessionInv(sha, sid, MarkProcessing(s).value)
    ensures var s' := MarkProcessing(s).value; s'.sequences == s.sequences && s'.device == s.device && s'.gateway == s.gateway
  {
    AdvanceKeeps(sha, sid, s, RESULT_CANCELLED, None, Some("CANCELLED"));
    AdvanceKeeps(sha, sid, s, RESULT_PROCESSING, None, None);
  }

  lemma CancelKeeps(sha: Sha256, sid: string, s: Session)
    requires SessionInv(sha, sid, s) && Cancel(s).Ok?
    ensures SessionInv(sha, sid, Cancel(s).value)
    ensures var s' := Cancel(s).value; s'.sequences == s.sequences && s'.device == s.device && s'.gateway == s.gateway
  {
    if s.status != S.CANCELLED {
      AdvanceKeeps(sha, sid, s.(status := S.CANCELLED), RESULT_CANCELLED, None, Some("ADMIN_CANCELLED"));
    }
  }

  lemma EndSignalKeeps(sha: Sha256, sid: string, s: Session)
    requires SessionInv(sha, sid, s)
    ensures SessionInv(sha, sid, EndSignal(s))
    ensures var s' := EndSignal(s); s'.sequences == s.sequences && s'.device == s.device && s'.gateway == s.gateway
  {
    var locked := if S.UploadOpen(s.status) then s.(status := S.LOCKED) else s;
    MarkKeeps(sha, sid, locked);
  }

  /** The row stored for a fresh payload is consistent and carries the digest the probe was looked up by. */
  lemma FreshRow(sha: Sha256, sid: string, freshId: string, revision: nat,
                 answers: string, defaults: Defaults, palette: Palette)
    requires 1 <= revision <= MAX_INT32
    requires BuildPayload(sha, sid, freshId, revision, answers, defaults, palette, []).Some?
    requires BuildPayload(sha, sid, "rgb-probe", 1, answers, defaults, palette, []).Some?
    ensures var payload := BuildPayload(sha, sid, freshId, revision, answers, defaults, palette, []).value;
      && ValidPayload(payload)
      && StoredOk(sha, sid, ContentOf(payload), revision - 1)
      && ContentOf(payload).sequenceId == freshId
      && payload.sha256 == BuildPayload(sha, sid, "rgb-probe", 1, answers, defaults, palette, []).value.sha256
  {
    hide CompactJsonBytes, CanonicalBytes;
    var probe := BuildPayload(sha, sid, "rgb-probe", 1, answers, defaults, palette, []).value;
    var payload := BuildPayload(sha, sid, freshId, revision, answers, defaults, palette, []).value;
    BuiltPayload(sha, sid, "rgb-probe", 1, answers, defaults, palette, []);
    BuiltPayload(sha, sid, freshId, revision, answers, defaults, palette, []);
    ShaIgnoresIdentity(sha, probe, payload);
    CanonicalRoundTrip(payload);
    assert PayloadOf(sid, ContentOf(payload)) == payload;
  }

  lemma AppendedDistinct(rows: seq<Sequence>, kept: seq<Sequence>, c: Content)
    requires |kept| == |rows| && OnlyLatestLive(rows) && DistinctIds(rows) && DistinctDeliverable(rows)
    requires forall i :: 0 <= i < |rows| ==>
      kept[i].content == rows[i].content && !Live(kept[i].status) && (Deliverable(kept[i].status) ==> Deliverable(rows[i].status))
    requires forall i :: 0 <= i < |rows| ==> rows[i].content.sequenceId != c.sequenceId
    requires forall i :: 0 <= i < |rows| && Deliverable(rows[i].status) ==> rows[i].content.sha256 != c.sha256
    ensures var rows' := kept + [Sequence(c, READY, 0)];
      OnlyLatestLive(rows') && DistinctIds(rows') && DistinctDeliverable(rows')
  {
    var rows' := kept + [Sequence(c, READY, 0)];
    forall i, j | 0 <= i < j < |rows'|
      ensures rows'[i].content.sequenceId != rows'[j].content.sequenceId
      ensures Deliverable(rows'[i].status) && Deliverable(rows'[j].status) ==>
        rows'[i].content.sha256 != rows'[j].content.sha256
    {
      assert rows'[i] == kept[i];
      if j < |rows| {
        assert rows'[j] == kept[j];
      }
    }
  }

  /** Superseding the latest row and appending a fresh one keeps the rows consistent. */
  lemma AppendedRowsKeep(sha: Sha256, sid: string, rows: seq<Sequence>, c: Content)
    requires RowsOk(sha, sid, rows) && OnlyLatestLive(rows) && DistinctIds(rows) && DistinctDeliverable(rows)
    requires StoredOk(sha, sid, c, |rows|)
    requires forall i :: 0 <= i < |rows| ==> rows[i].content.sequenceId != c.sequenceId
    requires FindReusable(rows, c.sha256).None?
    ensures var rows' := SupersedeLatest(rows) + [Sequence(c, READY, 0)];
      RowsOk(sha, sid, rows') && OnlyLatestLive(rows') && DistinctIds(rows') && DistinctDeliverable(rows')
  {
    hide StoredOk, DistinctIds, DistinctDeliverable;
    ReusableNone(rows, c.sha256);
    var kept := SupersedeLatest(rows);
    SupersededRows(rows);
    AppendedDistinct(rows, kept, c);
    hide SupersedeLatest;
    forall i | 0 <= i < |kept|
      ensures StoredOk(sha, sid, kept[i].content, i) && kept[i].lastNextIndex <= kept[i].content.itemCount
    {
      assert kept[i].content == rows[i].content;
    }
  }

  lemma SupersededRows(rows: seq<Sequence>)
    requires OnlyLatestLive(rows)
    ensures |SupersedeLatest(rows)| == |rows|
    ensures forall i :: 0 <= i < |rows| ==>
      && SupersedeLatest(rows)[i].content == rows[i].content && SupersedeLatest(rows)[i].lastNextIndex == rows[i].lastNextIndex
      && !Live(SupersedeLatest(rows)[i].status)
      && (Deliverable(SupersedeLatest(rows)[i].status) ==> Deliverable(rows[i].status))
  {
  }

  lemma ReusableNone(rows: seq<Sequence>, sha256: string)
    requires FindReusable(rows, sha256).None?
    ensures forall i :: 0 <= i < |rows| && Deliverable(rows[i].status) ==> rows[i].content.sha256 != sha256
  {
  }

  lemma NextIsCount(sha: Sha256, sid: string, rows: seq<Sequence>)
    requires RowsOk(sha, sid, rows)
    ensures NextRevision(rows) == |rows| + 1
  {
    hide CanonicalBytes, ValidPayload;
  }

  lemma InsertKeeps(sha: Sha256, sid: string, s: Session, taken: bool, maxJsonBytes: int, freshId: string,
                    answers: string, defaults: Defaults, palette: Palette)
    requires SessionInv(sha, sid, s)
    requires forall i :: 0 <= i < |s.sequences| && s.sequences[i].content.sequenceId == freshId ==> taken
    requires InsertRevision(sha, sid, s, taken, maxJsonBytes, freshId, answers, defaults, palette).Ok?
    requires BuildPayload(sha, sid, "rgb-probe", 1, answers, defaults, palette, []).Some?
    requires FindReusable(s.sequences,
                          BuildPayload(sha, sid, "rgb-probe", 1, answers, defaults, palette, []).value.sha256).None?
    ensures SessionInv(sha, sid,
      InsertRevision(sha, sid, s, taken, maxJsonBytes, freshId, answers, defaults, palette).value.session)
  {
    hide CompactJsonBytes, CanonicalBytes, BuildPayload, StoredOk, FindReusable;
    var n := |s.sequences|;
    var revision := NextRevision(s.sequences);
    NextIsCount(sha, sid, s.sequences);
    BuiltPayload(sha, sid, freshId, revision, answers, defaults, palette, []);
    FreshRow(sha, sid, freshId, revision, answers, defaults, palette);
    var payload := BuildPayload(sha, sid, freshId, revision, answers, defaults, palette, []).value;
    AppendedRowsKeep(sha, sid, s.sequences, ContentOf(payload));
    var rows := SupersedeLatest(s.sequences) + [Sequence(ContentOf(payload), READY, 0)];
    AdvanceKeeps(sha, sid, s.(sequences := rows), RGB_SEQUENCE_READY, Some(n), None);
  }

  lemma PublishKeeps(sha: Sha256, sid: string, s: Session, taken: bool, settings: Settings, req: PublishRequest)
    requires SessionInv(sha, sid, s)
    requires forall i :: 0 <= i < |s.sequences| && s.sequences[i].content.sequenceId == req.freshId ==> taken
    requires Publish(sha, sid, s, taken, settings, req).Ok?
    ensures SessionInv(sha, sid, Publish(sha, sid, s, taken, settings, req).value.session)
  {
    hide CompactJsonBytes, CanonicalBytes, ValidPayload, BuildPayload, InsertRevision;
    if s.status == S.CANCELLED {
      AdvanceKeeps(sha, sid, s, RESULT_CANCELLED, None, Some("SESSION_CANCELLED"));
    } else if !settings.enabled {
      AdvanceKeeps(sha, sid, s, RESULT_CANCELLED, None, Some("RGB_RESULTS_DISABLED"));
    } else {
      var marked := s;
      if !Announced(s) {
        AdvanceKeeps(sha, sid, s, RESULT_PROCESSING, None, None);
        marked := Advance(s, RESULT_PROCESSING, None, None).value;
      }
      match P.Verdict(req.expected, multiset(req.candidates), settings.maxItems)
      case Err(reason) => AdvanceKeeps(sha, sid, marked, RESULT_CANCELLED, None, Some(ReasonCode(reason)));
      case Ok(answers) =>
        var defaults := ChosenDefaults(settings.defaults, req.config);
        var palette := SnapshotPalette(req.config);
        var probe := BuildPayload(sha, sid, "rgb-probe", 1, answers, defaults, palette, []).value;
        match FindReusable(marked.sequences, probe.sha256)
        case Some(row) => AdvanceKeeps(sha, sid, marked, RGB_SEQUENCE_READY, Some(row), None);
        case None =>
          InsertKeeps(sha, sid, marked, taken, settings.maxJsonBytes, req.freshId, answers, defaults, palette);
    }
  }

  // ---------- Event logs ----------

  predicate Concerns(e: Event, sid: string, row: nat) {
    e.identity.session == sid && e.identity.row == row
  }

  /** The recorded events of one sequence, oldest first. */
  function LogOf(events: seq<Event>, sid: string, row: nat): seq<Event> {
    if events == [] then []
    else
      var last := events[|events| - 1];
      LogOf(events[..|events| - 1], sid, row) + if Concerns(last, sid, row) then [last] else []
  }

  lemma LogOfAppend(events: seq<Event>, e: Event, sid: string, row: nat)
    ensures LogOf(events + [e], sid, row) ==
      if Concerns(e, sid, row) then LogOf(events, sid, row) + [e] else LogOf(events, sid, row)
  {
    assert (events + [e])[..|events|] == events;
  }

  lemma {:induction false} LogOfNobody(events: seq<Event>, sid: string, row: nat)
    requires forall e :: e in events ==> !Concerns(e, sid, row)
    ensures LogOf(events, sid, row) == []
  {
    if events != [] {
      assert events[|events| - 1] in events;
      LogOfNobody(events[..|events| - 1], sid, row);
    }
  }

  lemma {:induction false} LogOfMember(events: seq<Event>, sid: string, row: nat, e: Event)
    ensures e in LogOf(events, sid, row) <==> e in events && Concerns(e, sid, row)
  {
    if events != [] {
      LogOfMember(events[..|events| - 1], sid, row, e);
      assert events == events[..|events| - 1] + [events[|events| - 1]];
    }
  }

  /** RECEIVED? (STARTED | RESUMED)* (COMPLETED | INVALID)?, never moving backwards, COMPLETED at the end. */
  predicate LegalLog(log: seq<Event>, itemCount: nat) {
    && (forall i :: 0 <= i < |log| && log[i].identity.name == Received ==> i == 0)
    && (forall i :: 0 <= i < |log| && log[i].identity.name in {Completed, Invalid} ==> i == |log| - 1)
    && (forall i :: 0 < i < |log| ==> log[i - 1].nextIndex <= log[i].nextIndex)
    && (forall i :: 0 <= i < |log| ==> log[i].nextIndex <= log[i].itemCount == itemCount)
    && (forall i :: 0 <= i < |log| && log[i].identity.name == Completed ==> log[i].nextIndex == itemCount)
  }

  function FoldStatus(log: seq<Event>): SequenceStatus {
    if log == [] then READY else StatusAfter(log[|log| - 1].identity.name)
  }

  function FoldIndex(log: seq<Event>): nat {
    if log == [] then 0 else log[|log| - 1].nextIndex
  }

  /** A sequence is the fold of its log, unless a newer revision superseded it. */
  predicate ExplainedBy(q: Sequence, log: seq<Event>) {
    && LegalLog(log, q.content.itemCount)
    && (q.status != SUPERSEDED ==> q.status == FoldStatus(log))
    && q.lastNextIndex == FoldIndex(log)
  }

  predicate EventOk(db: Db, e: Event) {
    var id := e.identity;
    && id.session in db.sessions
    && id.row < |db.sessions[id.session].sequences|
    && e.gateway == db.sessions[id.session].gateway
    && id == EventIdentity(id.session, db.sessions[id.session], id.row, id.name, e.nextIndex)
  }

  ghost predicate LogsOk(events: seq<Event>, sid: string, rows: seq<Sequence>) {
    forall row :: 0 <= row < |rows| ==> ExplainedBy(rows[row], LogOf(events, sid, row))
  }

  ghost predicate DbInv(sha: Sha256, db: Db) {
    && (forall sid :: sid in db.sessions ==>
          SessionInv(sha, sid, db.sessions[sid]) && LogsOk(db.events, sid, db.sessions[sid].sequences))
    && (forall e :: e in db.events ==> EventOk(db, e))
  }

  lemma {:induction false} FindIdentityMember(events: seq<Event>, identity: Identity)
    ensures FindIdentity(events, identity).Some? <==> exists e :: e in events && e.identity == identity
    ensures FindIdentity(events, identity).Some? ==>
      FindIdentity(events, identity).value in events && FindIdentity(events, identity).value.identity == identity
  {
    if events != [] {
      assert events == [events[0]] + events[1..];
      FindIdentityMember(events[1..], identity);
    }
  }

  /** Replacing a session by one with the same rows leaves every log explained. */
  lemma SameRowsKeep(sha: Sha256, db: Db, sid: string, s: Session)
    requires DbInv(sha, db) && sid in db.sessions && SessionInv(sha, sid, s)
    requires s.sequences == db.sessions[sid].sequences
    requires s.device == db.sessions[sid].device && s.gateway == db.sessions[sid].gateway
    ensures DbInv(sha, db.(sessions := db.sessions[sid := s]))
  {
    var db' := db.(sessions := db.sessions[sid := s]);
    forall e | e in db.events
      ensures EventOk(db', e)
    {
      assert EventOk(db, e);
    }
  }

  /** What publishing does to the rows: at most the latest live one is superseded, at most one is added. */
  predicate RowsExtended(rows: seq<Sequence>, rows': seq<Sequence>) {
    && |rows| <= |rows'| <= |rows| + 1
    && (forall i :: 0 <= i < |rows| ==>
          rows'[i] == rows[i] || (Live(rows[i].status) && rows'[i] == rows[i].(status := SUPERSEDED)))
    && (forall i :: |rows| <= i < |rows'| ==> rows'[i].status == READY && rows'[i].lastNextIndex == 0)
  }

  lemma InsertExtends(sha: Sha256, sid: string, s: Session, taken: bool, maxJsonBytes: int, freshId: string,
                      answers: string, defaults: Defaults, palette: Palette)
    requires InsertRevision(sha, sid, s, taken, maxJsonBytes, freshId, answers, defaults, palette).Ok?
    ensures var s' := InsertRevision(sha, sid, s, taken, maxJsonBytes, freshId, answers, defaults, palette).value.session;
      RowsExtended(s.sequences, s'.sequences) && s'.device == s.device && s'.gateway == s.gateway && s'.status == s.status
  {
    hide CompactJsonBytes, CanonicalBytes, ValidPayload, BuildPayload;
  }

  lemma AnswersExtend(sha: Sha256, sid: string, s: Session, taken: bool, settings: Settings, req: PublishRequest,
                      answers: string)
    requires PublishAnswers(sha, sid, s, taken, settings, req, answers).Ok?
    ensures var s' := PublishAnswers(sha, sid, s, taken, settings, req, answers).value.session;
      RowsExtended(s.sequences, s'.sequences) && s'.device == s.device && s'.gateway == s.gateway && s'.status == s.status
  {
    hide BuildPayload, InsertRevision;
    var defaults := ChosenDefaults(settings.defaults, req.config);
    var palette := SnapshotPalette(req.config);
    if InsertRevision(sha, sid, s, taken, settings.maxJsonBytes, req.freshId, answers, defaults, palette).Ok? {
      InsertExtends(sha, sid, s, taken, settings.maxJsonBytes, req.freshId, answers, defaults, palette);
    }
  }

  /** Advancing the delivery record touches nothing else of the session. */
  lemma AdvanceSame(s: Session)
    ensures RowsExtended(s.sequences, s.sequences)
    ensures forall command, active, reason :: Advance(s, command, active, reason).Ok? ==>
      var s' := Advance(s, command, active, reason).value;
      s'.sequences == s.sequences && s'.device == s.device && s'.gateway == s.gateway && s'.status == s.status
  {
  }

  lemma PublishExtends(sha: Sha256, sid: string, s: Session, taken: bool, settings: Settings, req: PublishRequest)
    requires Publish(sha, sid, s, taken, settings, req).Ok?
    ensures var s' := Publish(sha, sid, s, taken, settings, req).value.session;
      RowsExtended(s.sequences, s'.sequences) && s'.device == s.device && s'.gateway == s.gateway && s'.status == s.status
  {
    hide PublishAnswers, Advance, RowsExtended, P.Verdict, ReasonCode;
    AdvanceSame(s);
    if s.status != S.CANCELLED && settings.enabled {
      var marked := if Announced(s) then s else Advance(s, RESULT_PROCESSING, None, None).value;
      AdvanceSame(marked);
      match P.Verdict(req.expected, multiset(req.candidates), settings.maxItems)
      case Err(_) =>
      case Ok(answers) => AnswersExtend(sha, sid, marked, taken, settings, req, answers);
    }
  }

  lemma ExtendedRowsKeep(sha: Sha256, db: Db, sid: string, s: Session)
    requires DbInv(sha, db) && sid in db.sessions && SessionInv(sha, sid, s)
    requires RowsExtended(db.sessions[sid].sequences, s.sequences)
    requires s.device == db.sessions[sid].device && s.gateway == db.sessions[sid].gateway
    ensures DbInv(sha, db.(sessions := db.sessions[sid := s]))
  {
    var db' := db.(sessions := db.sessions[sid := s]);
    var rows, rows' := db.sessions[sid].sequences, s.sequences;
    forall e | e in db.events
      ensures EventOk(db', e)
    {
      assert EventOk(db, e);
    }
    forall row | 0 <= row < |rows'|
      ensures ExplainedBy(rows'[row], LogOf(db.events, sid, row))
    {
      if row < |rows| {
        assert ExplainedBy(rows[row], LogOf(db.events, sid, row));
      } else {
        forall e | e in db.events
          ensures !Concerns(e, sid, row)
        {
          assert EventOk(db, e);
        }
        LogOfNobody(db.events, sid, row);
      }
    }
  }

  /** A refused event never follows a terminal one, so an accepted event extends the log legally. */
  lemma AcceptedExtendsLog(q: Sequence, log: seq<Event>, e: Event)
    requires ExplainedBy(q, log)
    requires e.nextIndex <= e.itemCount == q.content.itemCount
    requires Refusal(q, e.identity.name, e.nextIndex, e.itemCount).None?
    requires q.status != COMPLETED
    ensures ExplainedBy(Sequence(q.content, StatusAfter(e.identity.name), e.nextIndex), log + [e])
  {
    var longer := log + [e];
    assert forall i :: 0 <= i < |log| ==> longer[i] == log[i];
    if log != [] {
      assert log[|log| - 1].identity.name !in {Completed, Invalid};
    }
  }

  /** A completed sequence has its COMPLETED event on record, so a second one is found by identity. */
  lemma CompletedIsRecorded(sha: Sha256, db: Db, sid: string, row: nat, nextIndex: nat)
    requires DbInv(sha, db) && sid in db.sessions && row < |db.sessions[sid].sequences|
    requires db.sessions[sid].sequences[row].status == COMPLETED
    ensures FindIdentity(db.events, EventIdentity(sid, db.sessions[sid], row, Completed, nextIndex)).Some?
  {
    hide SessionInv, LogOf, FindIdentity;
    var log := LogOf(db.events, sid, row);
    assert ExplainedBy(db.sessions[sid].sequences[row], log);
    var e := log[|log| - 1];
    assert e in log;
    LogOfMember(db.events, sid, row, e);
    assert EventOk(db, e);
    FindIdentityMember(db.events, EventIdentity(sid, db.sessions[sid], row, Completed, nextIndex));
  }

  /** Moving one row by an event keeps the invariant of its session. */
  lemma MovedRowKeeps(sha: Sha256, sid: string, s: Session, row: nat, name: EventName, index: nat)
    requires SessionInv(sha, sid, s) && row < |s.sequences| && index <= s.sequences[row].content.itemCount
    requires Deliverable(s.sequences[row].status) && s.sequences[row].status != COMPLETED
    ensures var rows := s.sequences[row := Sequence(s.sequences[row].content, StatusAfter(name), index)];
      && RowsOk(sha, sid, rows) && OnlyLatestLive(rows) && DistinctIds(rows) && DistinctDeliverable(rows)
      && (name != Invalid ==> SessionInv(sha, sid, s.(sequences := rows)))
  {
    assert Live(s.sequences[row].status);
  }

  /** The session, the row and the event that an accepted request writes. */
  lemma AcceptedState(sha: Sha256, db: Db, sid: string, row: nat, req: EventRequest)
    requires DbInv(sha, db) && sid in db.sessions && row < |db.sessions[sid].sequences|
    requires 0 <= req.nextIndex <= req.itemCount == db.sessions[sid].sequences[row].content.itemCount
    requires db.sessions[sid].sequences[row].status != COMPLETED
    requires AcceptEvent(db, sid, row, req).Ok?
    ensures var db' := AcceptEvent(db, sid, row, req).value.db;
      var s, s' := db.sessions[sid], db'.sessions[sid];
      && db'.sessions == db.sessions[sid := s']
      && SessionInv(sha, sid, s')
      && s'.sequences ==
         s.sequences[row := Sequence(s.sequences[row].content, StatusAfter(req.name), req.nextIndex)]
      && s'.device == s.device && s'.gateway == s.gateway
      && db'.events == db.events + [Event(EventIdentity(sid, s, row, req.name, req.nextIndex), s.gateway,
                                          req.nextIndex, req.itemCount, req.key, req.payload)]
  {
    hide LogsOk, EventOk, StoredOk;
    var s := db.sessions[sid];
    MovedRowKeeps(sha, sid, s, row, req.name, req.nextIndex);
    var moved := s.(sequences := s.sequences[row := Sequence(s.sequences[row].content, StatusAfter(req.name), req.nextIndex)]);
    if req.name == Invalid {
      AdvanceKeeps(sha, sid, moved, RESULT_CANCELLED, None, Some("RGB_SEQUENCE_INVALID_REPORTED_BY_DEVICE"));
    }
  }

  lemma AcceptKeeps(sha: Sha256, db: Db, sid: string, row: nat, req: EventRequest)
    requires DbInv(sha, db) && sid in db.sessions && row < |db.sessions[sid].sequences|
    requires 0 <= req.nextIndex <= req.itemCount == db.sessions[sid].sequences[row].content.itemCount
    requires FindIdentity(db.events, EventIdentity(sid, db.sessions[sid], row, req.name, req.nextIndex)).None?
    requires AcceptEvent(db, sid, row, req).Ok?
    ensures DbInv(sha, AcceptEvent(db, sid, row, req).value.db)
  {
    hide SessionInv, FindIdentity, LogOf, FoldStatus, FoldIndex, LegalLog;
    var q := db.sessions[sid].sequences[row];
    if q.status == COMPLETED {
      CompletedIsRecorded(sha, db, sid, row, req.nextIndex);
    }
    AcceptedState(sha, db, sid, row, req);
    hide AcceptEvent;
    var db' := AcceptEvent(db, sid, row, req).value.db;
    var event := db'.events[|db.events|];
    forall e | e in db'.events
      ensures EventOk(db', e)
    {
      if e in db.events {
        assert EventOk(db, e);
      }
    }
    forall t, r | t in db'.sessions && 0 <= r < |db'.sessions[t].sequences|
      ensures ExplainedBy(db'.sessions[t].sequences[r], LogOf(db'.events, t, r))
    {
      LogOfAppend(db.events, event, t, r);
      assert ExplainedBy(db.sessions[t].sequences[r], LogOf(db.events, t, r));
      if t == sid && r == row {
        AcceptedExtendsLog(q, LogOf(db.events, t, r), event);
      }
    }
  }

  lemma RecordKeeps(sha: Sha256, db: Db, sid: string, req: EventRequest)
    requires DbInv(sha, db) && RecordEvent(db, sid, req).Ok?
    ensures DbInv(sha, RecordEvent(db, sid, req).value.db)
  {
    hide DbInv, FindKey, FindIdentity, EventIdentity, Advance, Refusal;
    var r := RecordEvent(db, sid, req).value;
    if !r.duplicate {
      AcceptKeeps(sha, db, sid, r.row, req);
    }
  }

  // ---------- Every run ----------

  lemma TransitionKeeps(sha: Sha256, sid: string, s: Session, target: S.State)
    requires SessionInv(sha, sid, s)
    ensures SessionInv(sha, sid, s.(status := target))
  {
  }

  lemma KnownIdsTaken(db: Db, sid: string, id: string)
    requires sid in db.sessions
    ensures forall i :: 0 <= i < |db.sessions[sid].sequences| && db.sessions[sid].sequences[i].content.sequenceId == id ==> IdTaken(db, id)
  {
  }

  lemma ApplyKeeps(sha: Sha256, db: Db, step: Step)
    requires DbInv(sha, db)
    ensures DbInv(sha, Apply(sha, db, step))
  {
    hide Publish, RecordEvent, MarkProcessing, Cancel, EndSignal, SessionInv, LogsOk, EventOk, RowsExtended, S.Allowed, IdTaken;
    var sid := step.sid;
    if step.CreateSession? {
      if sid !in db.sessions {
        CreateKeeps(sha, db, step);
      }
    } else if sid in db.sessions {
      var s := db.sessions[sid];
      assert SessionInv(sha, sid, s);
      match step
      case PublishStep(_, settings, req) =>
        var taken := IdTaken(db, req.freshId);
        KnownIdsTaken(db, sid, req.freshId);
        if Publish(sha, sid, s, taken, settings, req).Ok? {
          PublishKeeps(sha, sid, s, taken, settings, req);
          PublishExtends(sha, sid, s, taken, settings, req);
          ExtendedRowsKeep(sha, db, sid, Publish(sha, sid, s, taken, settings, req).value.session);
        }
      case MarkStep(_) =>
        MarkKeeps(sha, sid, s);
        SameRowsKeep(sha, db, sid, MarkProcessing(s).value);
      case EventStep(_, event) =>
        if RecordEvent(db, sid, event).Ok? {
          RecordKeeps(sha, db, sid, event);
        }
      case CancelStep(_) =>
        if Cancel(s).Ok? {
          CancelKeeps(sha, sid, s);
          SameRowsKeep(sha, db, sid, Cancel(s).value);
        }
      case EndSignalStep(_) =>
        EndSignalKeeps(sha, sid, s);
        SameRowsKeep(sha, db, sid, EndSignal(s));
      case TransitionStep(_, target) =>
        if target in S.Allowed(s.status) {
          TransitionKeeps(sha, sid, s, target);
          SameRowsKeep(sha, db, sid, s.(status := target));
        }
      case CreateSession(_, _, _) =>
    }
  }

  lemma CreateKeeps(sha: Sha256, db: Db, step: Step)
    requires DbInv(sha, db) && step.CreateSession? && step.sid !in db.sessions
    ensures DbInv(sha, Apply(sha, db, step))
  {
    var db' := Apply(sha, db, step);
    forall e | e in db'.events
      ensures EventOk(db', e)
    {
      assert EventOk(db, e);
    }
  }

  lemma {:induction false} RunKeeps(sha: Sha256, db: Db, steps: seq<Step>)
    requires DbInv(sha, db)
    ensures DbInv(sha, Run(sha, db, steps))
    decreases |steps|
  {
    if steps != [] {
      ApplyKeeps(sha, db, steps[0]);
      RunKeeps(sha, Apply(sha, db, steps[0]), steps[1..]);
    }
  }

  /** Every state reached from the empty database satisfies the invariant. */
  lemma ReachableInv(sha: Sha256, steps: seq<Step>)
    ensures DbInv(sha, Run(sha, EMPTY, steps))
  {
    RunKeeps(sha, EMPTY, steps);
  }
}
