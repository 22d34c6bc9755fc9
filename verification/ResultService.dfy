/** The publisher, the delivery record and the event recorder as operations on database rows. */
module ResultService {
  import opened Wrappers
  import P = AnswerPolicy
  import S = SessionStates
  import opened RgbCodec
  import opened RgbJson
  import opened ResultChannel
  import opened ResultChannelInvariant

  /** The unique index after one session's rows keep their ids and may gain one row with a fresh id. */
  lemma IdsAfter(db: Db, sid: string, s: Session, db': Db, added: Option<string>)
    requires sid in db.sessions && db'.sessions == db.sessions[sid := s]
    requires |s.sequences| == |db.sessions[sid].sequences| + (if added.Some? then 1 else 0)
    requires forall i :: 0 <= i < |db.sessions[sid].sequences| ==>
      s.sequences[i].content.sequenceId == db.sessions[sid].sequences[i].content.sequenceId
    requires added.Some? ==> s.sequences[|db.sessions[sid].sequences|].content.sequenceId == added.value
    ensures forall id :: IdTaken(db', id) <==> IdTaken(db, id) || added == Some(id)
  {
    forall id
      ensures IdTaken(db', id) <==> IdTaken(db, id) || added == Some(id)
    {
      if IdTaken(db, id) {
        var t, i :| t in db.sessions && 0 <= i < |db.sessions[t].sequences|
          && db.sessions[t].sequences[i].content.sequenceId == id;
        assert t in db'.sessions && db'.sessions[t].sequences[i].content.sequenceId == id;
      }
      if IdTaken(db', id) {
        var t, i :| t in db'.sessions && 0 <= i < |db'.sessions[t].sequences|
          && db'.sessions[t].sequences[i].content.sequenceId == id;
        if t != sid || i < |db.sessions[sid].sequences| {
          assert t in db.sessions && db.sessions[t].sequences[i].content.sequenceId == id;
        }
      }
      if added == Some(id) {
        var i := |db.sessions[sid].sequences|;
        assert sid in db'.sessions && db'.sessions[sid].sequences[i].content.sequenceId == id;
      }
    }
  }

  lemma InsertAdds(sha: Sha256, sid: string, s: Session, taken: bool, maxJsonBytes: int, freshId: string,
                   answers: string, defaults: Defaults, palette: Palette)
    requires InsertRevision(sha, sid, s, taken, maxJsonBytes, freshId, answers, defaults, palette).Ok?
    ensures var p := InsertRevision(sha, sid, s, taken, maxJsonBytes, freshId, answers, defaults, palette).value;
      && p.row.Some? && !p.reused
      && |p.session.sequences| == |s.sequences| + 1
      && p.session.sequences[|s.sequences|].content.sequenceId == freshId
      && forall i :: 0 <= i < |s.sequences| ==> p.session.sequences[i].content == s.sequences[i].content
  {
    hide CompactJsonBytes, CanonicalBytes, ValidPayload;
  }

  predicate Adds(s: Session, p: Publication, freshId: string) {
    && |p.session.sequences| == |s.sequences| + (if p.row.Some? && !p.reused then 1 else 0)
    && (p.row.Some? && !p.reused ==> p.session.sequences[|s.sequences|].content.sequenceId == freshId)
    && forall i :: 0 <= i < |s.sequences| ==> p.session.sequences[i].content == s.sequences[i].content
  }

  lemma AnswersAdd(sha: Sha256, sid: string, s: Session, taken: bool, settings: Settings, req: PublishRequest,
                   answers: string)
    requires PublishAnswers(sha, sid, s, taken, settings, req, answers).Ok?
    ensures Adds(s, PublishAnswers(sha, sid, s, taken, settings, req, answers).value, req.freshId)
  {
    hide BuildPayload, InsertRevision, ChosenDefaults, SnapshotPalette;
    var d, p := ChosenDefaults(settings.defaults, req.config), SnapshotPalette(req.config);
    if InsertRevision(sha, sid, s, taken, settings.maxJsonBytes, req.freshId, answers, d, p).Ok? {
      InsertAdds(sha, sid, s, taken, settings.maxJsonBytes, req.freshId, answers, d, p);
    }
  }

  /** A publication adds a row, with the fresh id, exactly when it announces without reusing. */
  lemma PublishAdds(sha: Sha256, sid: string, s: Session, taken: bool, settings: Settings, req: PublishRequest)
    requires Publish(sha, sid, s, taken, settings, req).Ok?
    ensures Adds(s, Publish(sha, sid, s, taken, settings, req).value, req.freshId)
  {
    hide PublishAnswers;
    if s.status != S.CANCELLED && settings.enabled {
      var marked := if Announced(s) then s else Advance(s, RESULT_PROCESSING, None, None).value;
      match P.Verdict(req.expected, multiset(req.candidates), settings.maxItems)
      case Err(_) =>
      case Ok(answers) => AnswersAdd(sha, sid, marked, taken, settings, req, answers);
    }
  }

  lemma PublishedIds(sha: Sha256, db: Db, sid: string, taken: bool, settings: Settings, req: PublishRequest, db': Db)
    requires sid in db.sessions && Publish(sha, sid, db.sessions[sid], taken, settings, req).Ok?
    requires var p := Publish(sha, sid, db.sessions[sid], taken, settings, req).value;
      db'.sessions == db.sessions[sid := p.session]
    ensures var p := Publish(sha, sid, db.sessions[sid], taken, settings, req).value;
      forall id :: IdTaken(db', id) <==> IdTaken(db, id) || (p.row.Some? && !p.reused && id == req.freshId)
  {
    PublishAdds(sha, sid, db.sessions[sid], taken, settings, req);
    hide Publish, IdTaken;
    var p := Publish(sha, sid, db.sessions[sid], taken, settings, req).value;
    IdsAfter(db, sid, p.session, db', if p.row.Some? && !p.reused then Some(req.freshId) else None);
  }

  lemma ApplyPublish(sha: Sha256, db: Db, sid: string, settings: Settings, req: PublishRequest)
    ensures sid !in db.sessions ==> Apply(sha, db, PublishStep(sid, settings, req)) == db
    ensures sid in db.sessions ==>
      var spec := Publish(sha, sid, db.sessions[sid], IdTaken(db, req.freshId), settings, req);
      Apply(sha, db, PublishStep(sid, settings, req)) ==
        if spec.Ok? then Db(db.sessions[sid := spec.value.session], db.events) else db
  {
    hide Publish;
  }

  lemma ApplyCancel(sha: Sha256, db: Db, sid: string)
    ensures sid !in db.sessions ==> Apply(sha, db, CancelStep(sid)) == db
    ensures sid in db.sessions ==>
      var s := db.sessions[sid];
      && Apply(sha, db, CancelStep(sid)) == (if Cancel(s).Ok? then Db(db.sessions[sid := Cancel(s).value], db.events) else db)
      && (s.status == S.CANCELLED ==> Cancel(s) == Ok(s))
      && (s.status != S.CANCELLED && (S.Terminal(s.status) || S.CANCELLED !in S.Allowed(s.status)) ==> Cancel(s).Err?)
      && (s.status != S.CANCELLED && !S.Terminal(s.status) && S.CANCELLED in S.Allowed(s.status) ==>
            Cancel(s) == Advance(s.(status := S.CANCELLED), RESULT_CANCELLED, None, Some("ADMIN_CANCELLED")))
  {
    hide Advance;
    if sid in db.sessions {
      assert S.Terminal(db.sessions[sid].status) ==> S.Allowed(db.sessions[sid].status) == {};
    }
  }

  /** Marking and cancelling never raise on a consistent session, and keep every sequence id. */
  lemma SettledIds(sha: Sha256, db: Db, step: Step)
    requires DbInv(sha, db) && (step.MarkStep? || step.CancelStep?)
    ensures DbInv(sha, Apply(sha, db, step))
    ensures forall id :: IdTaken(Apply(sha, db, step), id) <==> IdTaken(db, id)
    ensures step.sid in db.sessions && step.MarkStep? ==> MarkProcessing(db.sessions[step.sid]).Ok?
    ensures step.sid in db.sessions && step.CancelStep? ==>
      (Cancel(db.sessions[step.sid]).Ok? <==>
        db.sessions[step.sid].status == S.CANCELLED || S.CANCELLED in S.Allowed(db.sessions[step.sid].status))
  {
    hide IdTaken, Publish, RecordEvent, EndSignal, LogsOk, EventOk, RowsOk, DistinctIds, DistinctDeliverable;
    ApplyKeeps(sha, db, step);
    if step.sid in db.sessions {
      assert SessionInv(sha, step.sid, db.sessions[step.sid]);
      var db' := Apply(sha, db, step);
      if step.MarkStep? || Cancel(db.sessions[step.sid]).Ok? {
        IdsAfter(db, step.sid, db'.sessions[step.sid], db', None);
      }
    }
  }

  /** Publishing keeps the invariant and adds at most the fresh id. */
  lemma PublishSettled(sha: Sha256, db: Db, sid: string, settings: Settings, req: PublishRequest)
    requires DbInv(sha, db)
    ensures var db' := Apply(sha, db, PublishStep(sid, settings, req));
      && DbInv(sha, db')
      && (sid !in db.sessions ==> db' == db)
      && (sid in db.sessions ==>
            var spec := Publish(sha, sid, db.sessions[sid], IdTaken(db, req.freshId), settings, req);
            && (spec.Err? ==> db' == db)
            && (spec.Ok? ==>
                  && db' == Db(db.sessions[sid := spec.value.session], db.events)
                  && forall id :: IdTaken(db', id) <==>
                       IdTaken(db, id) || (spec.value.row.Some? && !spec.value.reused && id == req.freshId)))
  {
    hide DbInv, IdTaken, Publish;
    ApplyKeeps(sha, db, PublishStep(sid, settings, req));
    ApplyPublish(sha, db, sid, settings, req);
    hide Apply;
    if sid in db.sessions && Publish(sha, sid, db.sessions[sid], IdTaken(db, req.freshId), settings, req).Ok? {
      PublishedIds(sha, db, sid, IdTaken(db, req.freshId), settings, req, Apply(sha, db, PublishStep(sid, settings, req)));
    }
  }

  /** The delivery record, if there is one, names the session's device and gateway. */
  predicate BoundAsDelivered(s: Session) {
    s.delivery.Some? ==> s.delivery.value.device == s.device && s.delivery.value.gateway == s.gateway
  }

  /** The record shows what was asked for; its cursor never falls, and stands still exactly when the record does. */
  predicate Delivered(s: Session, s': Session, command: Command, active: Option<nat>, reason: Option<string>) {
    && s' == s.(delivery := s'.delivery) && s'.delivery.Some?
    && var d' := s'.delivery.value;
    && d'.command == command && d'.active == active && d'.reason == reason
    && (s.delivery.None? ==> d'.cursor == 1)
    && (s.delivery.Some? ==>
          var d := s.delivery.value;
          && d.cursor <= d'.cursor <= d.cursor + 1
          && (d.cursor == d'.cursor <==> d' == d))
  }

  class ResultStore {
    const sha: Sha256
    var sessions: map<string, Session>
    var events: seq<Event>
    /** The unique index on rgb_sequences.sequence_id. */
    var sequenceIds: set<string>

    ghost function State(): Db
      reads this
    {
      Db(sessions, events)
    }

    ghost predicate Valid()
      reads this
    {
      DbInv(sha, State()) && forall id :: id in sequenceIds <==> IdTaken(State(), id)
    }

    constructor (sha: Sha256)
      ensures Valid() && State() == EMPTY && this.sha == sha
    {
      this.sha := sha;
      sessions := map[];
      events := [];
      sequenceIds := {};
      new;
      ReachableInv(sha, []);
    }

    /** Create the session's delivery record, or advance it and its cursor if anything visible changes. */
    method GetOrCreateDelivery(sid: string, command: Command, active: Option<nat>, reason: Option<string>)
      returns (r: Result<(), Error>)
      requires sid in sessions
      modifies this`sessions
      ensures var spec := Advance(old(sessions[sid]), command, active, reason);
        && (spec.Ok? ==> r.Ok? && sessions == old(sessions)[sid := spec.value])
        && (spec.Err? ==> r == Err(spec.error) && sessions == old(sessions))
      ensures r == if BoundAsDelivered(old(sessions[sid])) then Ok(()) else Err(BindingConflict)
      ensures r.Ok? ==> sid in sessions && Delivered(old(sessions[sid]), sessions[sid], command, active, reason)
    {
      var s := sessions[sid];
      if s.delivery.None? {
        sessions := sessions[sid := s.(delivery := Some(Delivery(s.device, s.gateway, command, 1, active, reason)))];
        return Ok(());
      }
      var delivery := s.delivery.value;
      if delivery.device != s.device || delivery.gateway != s.gateway {
        return Err(BindingConflict);
      }
      var changed := delivery.command != command || delivery.active != active || delivery.reason != reason;
      if changed {
        delivery := delivery.(command := command, active := active, reason := reason, cursor := delivery.cursor + 1);
        sessions := sessions[sid := s.(delivery := Some(delivery))];
      } else {
        assert sessions == sessions[sid := s];
      }
      return Ok(());
    }

    method MarkResultProcessing(sid: string) returns (r: Result<(), Error>)
      requires Valid()
      modifies this
      ensures Valid() && State() == Apply(sha, old(State()), MarkStep(sid))
      ensures r == if sid in old(sessions) then Ok(()) else Err(SessionNotFound)
    {
      SettledIds(sha, State(), MarkStep(sid));
      hide DbInv, IdTaken, Delivered, BoundAsDelivered;
      if sid !in sessions {
        return Err(SessionNotFound);
      }
      if sessions[sid].status == S.CANCELLED {
        r := GetOrCreateDelivery(sid, RESULT_CANCELLED, None, Some("CANCELLED"));
        return;
      }
      var current := sessions[sid].delivery;
      assert sessions == sessions[sid := sessions[sid]];
      if current.Some? && current.value.command == RGB_SEQUENCE_READY {
        return Ok(());
      }
      if current.Some? && current.value.command == RESULT_CANCELLED {
        return Ok(());
      }
      r := GetOrCreateDelivery(sid, RESULT_PROCESSING, None, None);
    }

    method CancelSession(sid: string) returns (r: Result<(), Error>)
      requires Valid()
      modifies this
      ensures Valid() && State() == Apply(sha, old(State()), CancelStep(sid))
      ensures r == if sid !in old(sessions) then Err(SessionNotFound)
                   else if Cancel(old(sessions[sid])).Ok? then Ok(()) else Err(CannotCancel)
    {
      hide *;
      Indexed();
      SettledIds(sha, State(), CancelStep(sid));
      ApplyCancel(sha, State(), sid);
      if sid !in sessions {
        return Err(SessionNotFound);
      }
      var s := sessions[sid];
      if s.status == S.CANCELLED {
        assert sessions == sessions[sid := s];
        return Ok(());
      }
      if S.Terminal(s.status) || S.CANCELLED !in S.Allowed(s.status) {
        return Err(CannotCancel);
      }
      sessions := sessions[sid := s.(status := S.CANCELLED)];
      r := GetOrCreateDelivery(sid, RESULT_CANCELLED, None, Some("ADMIN_CANCELLED"));
      assert sessions == old(sessions)[sid := Cancel(s).value];
      Indexed();
    }

    /** Publish or reuse a revision; any raised error rolls every change of the request back. */
    method PublishRgbForSession(sid: string, settings: Settings, req: PublishRequest)
      returns (r: Result<(Option<nat>, bool), Error>)
      requires Valid()
      modifies this
      ensures Valid() && State() == Apply(sha, old(State()), PublishStep(sid, settings, req))
      ensures sid !in old(sessions) ==> r == Err(SessionNotFound)
      ensures sid in old(sessions) ==>
        var spec := Publish(sha, sid, old(sessions[sid]), old(IdTaken(State(), req.freshId)), settings, req);
        && (spec.Ok? ==> r == Ok((spec.value.row, spec.value.reused)))
        && (spec.Err? ==> r == Err(spec.error))
    {
      hide *;
      Indexed();
      ghost var db := State();
      PublishSettled(sha, db, sid, settings, req);
      if sid !in sessions {
        return Err(SessionNotFound);
      }
      var begin := sessions;
      r := PublishUnguarded(sid, settings, req, IdTaken(db, req.freshId));
      if r.Err? {
        sessions := begin;
      } else if r.value.0.Some? && !r.value.1 {
        sequenceIds := sequenceIds + {req.freshId};
      }
      Indexed();
    }

    lemma Indexed()
      ensures State() == Db(sessions, events)
      ensures Valid() <==> DbInv(sha, State()) && forall id :: id in sequenceIds <==> IdTaken(State(), id)
    {
      hide DbInv, IdTaken;
    }

    /** The statements of publish_rgb_for_session, before commit or rollback. */
    method PublishUnguarded(sid: string, settings: Settings, req: PublishRequest, ghost taken: bool)
      returns (r: Result<(Option<nat>, bool), Error>)
      requires sid in sessions && (req.freshId in sequenceIds <==> taken)
      modifies this`sessions
      ensures var spec := Publish(sha, sid, old(sessions[sid]), taken, settings, req);
        && (spec.Ok? ==> r == Ok((spec.value.row, spec.value.reused)) && sessions == old(sessions)[sid := spec.value.session])
        && (spec.Err? ==> r == Err(spec.error))
    {
      hide PublishAnswers, Advance, Delivered, BoundAsDelivered, P.Verdict, ReasonCode;
      var done: Result<(), Error>;
      if sessions[sid].status == S.CANCELLED {
        done := GetOrCreateDelivery(sid, RESULT_CANCELLED, None, Some("SESSION_CANCELLED"));
        return Finished(done, None, false);
      }
      if !settings.enabled {
        done := GetOrCreateDelivery(sid, RESULT_CANCELLED, None, Some("RGB_RESULTS_DISABLED"));
        return Finished(done, None, false);
      }
      var current := sessions[sid].delivery;
      if current.None? || current.value.command != RGB_SEQUENCE_READY {
        done := GetOrCreateDelivery(sid, RESULT_PROCESSING, None, None);
        if done.Err? {
          return Err(done.error);
        }
      }
      var verdict := P.ValidateCompleteAnswerSet(req.expected, req.candidates, settings.maxItems);
      if verdict.Err? {
        done := GetOrCreateDelivery(sid, RESULT_CANCELLED, None, Some(ReasonCode(verdict.error)));
        return Finished(done, None, false);
      }
      r := AnnounceAnswers(sid, settings, req, verdict.value, taken);
    }

    method AnnounceAnswers(sid: string, settings: Settings, req: PublishRequest, answers: string, ghost taken: bool)
      returns (r: Result<(Option<nat>, bool), Error>)
      requires sid in sessions && (req.freshId in sequenceIds <==> taken)
      modifies this`sessions
      ensures var spec := PublishAnswers(sha, sid, old(sessions[sid]), taken, settings, req, answers);
        && (spec.Ok? ==> r == Ok((spec.value.row, spec.value.reused)) && sessions == old(sessions)[sid := spec.value.session])
        && (spec.Err? ==> r == Err(spec.error))
    {
      hide BuildPayload, InsertRevision, SnapshotPalette, ChosenDefaults, Delivered, BoundAsDelivered;
      if req.config.brightness.Unreadable? || req.config.onMs.Unreadable? || req.config.offMs.Unreadable? {
        return Err(ConfigUnreadable);
      }
      var defaults := ChosenDefaults(settings.defaults, req.config);
      var palette := SnapshotPalette(req.config);
      var probe := BuildPayload(sha, sid, "rgb-probe", 1, answers, defaults, palette, []);
      if probe.None? {
        return Err(PayloadRejected);
      }
      var existing := FindReusable(sessions[sid].sequences, probe.value.sha256);
      if existing.Some? {
        var done := GetOrCreateDelivery(sid, RGB_SEQUENCE_READY, existing, None);
        return Finished(done, existing, true);
      }
      r := InsertSequence(sid, settings.maxJsonBytes, req.freshId, answers, defaults, palette, taken);
    }

    method InsertSequence(sid: string, maxJsonBytes: int, freshId: string, answers: string, defaults: Defaults,
                          palette: Palette, ghost taken: bool)
      returns (r: Result<(Option<nat>, bool), Error>)
      requires sid in sessions && (freshId in sequenceIds <==> taken)
      modifies this`sessions
      ensures var spec := InsertRevision(sha, sid, old(sessions[sid]), taken, maxJsonBytes, freshId, answers, defaults, palette);
        && (spec.Ok? ==> r == Ok((spec.value.row, spec.value.reused)) && sessions == old(sessions)[sid := spec.value.session])
        && (spec.Err? ==> r == Err(spec.error))
    {
      hide CanonicalBytes, ValidPayload, BuildPayload, CompactJsonBytes, Delivered, BoundAsDelivered;
      var rows := sessions[sid].sequences;
      var built := BuildPayload(sha, sid, freshId, NextRevision(rows), answers, defaults, palette, []);
      if built.None? || !ValidPayload(built.value) {
        return Err(PayloadRejected);
      }
      var payload := built.value;
      if |CompactJsonBytes(payload)| > maxJsonBytes {
        return Err(JsonTooLarge);
      }
      if freshId in sequenceIds || payload.revision > MAX_INT32 {
        return Err(DatabaseConstraint);
      }
      var latest := |rows| - 1;
      if rows != [] && rows[latest].status in {READY, RECEIVED, PLAYING} {
        rows := rows[latest := rows[latest].(status := SUPERSEDED)];
      }
      var row := |rows|;
      rows := rows + [Sequence(ContentOf(payload), READY, 0)];
      sessions := sessions[sid := sessions[sid].(sequences := rows)];
      var done := GetOrCreateDelivery(sid, RGB_SEQUENCE_READY, Some(row), None);
      return Finished(done, Some(row), false);
    }

    static function Finished(done: Result<(), Error>, row: Option<nat>, reused: bool): Result<(Option<nat>, bool), Error> {
      match done
      case Ok(_) => Ok((row, reused))
      case Err(e) => Err(e)
    }

    /** Record a device event under the sequence's row lock; a raised error changes nothing. */
    method RecordRgbEvent(sid: string, req: EventRequest) returns (r: Result<bool, Error>)
      requires Valid()
      modifies this
      ensures Valid() && State() == Apply(sha, old(State()), EventStep(sid, req))
      ensures var spec := RecordEvent(old(State()), sid, req);
        && (spec.Ok? ==> r == Ok(spec.value.duplicate))
        && (spec.Err? ==> r == Err(spec.error))
    {
      hide DbInv, IdTaken;
      ApplyKeeps(sha, State(), EventStep(sid, req));
      EventIds(State(), sid, req);
      if sid !in sessions {
        return Err(SessionNotFound);
      }
      if req.bodySession != sid {
        return Err(SessionMismatch);
      }
      var found := FindRevision(sessions[sid].sequences, req.sequenceId, req.revision);
      if found.None? {
        return Err(SequenceNotFound);
      }
      var row := found.value;
      var sequence := sessions[sid].sequences[row];
      if req.itemCount != sequence.content.itemCount || !(0 <= req.nextIndex <= req.itemCount) {
        return Err(ProgressMismatch);
      }
      var identity := EventIdentity(sid, sessions[sid], row, req.name, req.nextIndex);
      if HasKey(req.key) {
        var keyEvent := FindKey(events, sessions[sid].gateway, req.key);
        if keyEvent.Some? {
          if keyEvent.value.payload != req.payload {
            return Err(KeyReused);
          }
          return Ok(true);
        }
      }
      var existing := FindIdentity(events, identity);
      if existing.Some? {
        if existing.value.payload != req.payload {
          return Err(IdentityReused);
        }
        return Ok(true);
      }
      r := AppendEvent(sid, row, identity, req);
    }

    /** The part of record_rgb_event that writes: status, progress, the log entry and the withdrawal on INVALID. */
    method AppendEvent(sid: string, row: nat, identity: Identity, req: EventRequest) returns (r: Result<bool, Error>)
      requires sid in sessions && row < |sessions[sid].sequences| && 0 <= req.nextIndex && 0 <= req.itemCount
      requires identity == EventIdentity(sid, sessions[sid], row, req.name, req.nextIndex)
      modifies this`sessions, this`events
      ensures var spec := AcceptEvent(old(State()), sid, row, req);
        && (spec.Ok? ==> r == Ok(false) && State() == spec.value.db)
        && (spec.Err? ==> r == Err(spec.error) && State() == old(State()))
    {
      hide Delivered, BoundAsDelivered;
      var begin := sessions;
      var sequence := sessions[sid].sequences[row];
      if sequence.status in {INVALID, SUPERSEDED} {
        return Err(NotDeliverable);
      }
      if sequence.status == COMPLETED && req.name != Completed {
        return Err(AlreadyCompleted);
      }
      if req.name == Received && sequence.status != READY {
        return Err(ReceivedNotReady);
      }
      if req.nextIndex < sequence.lastNextIndex {
        return Err(MovesBackwards);
      }
      if req.name == Completed && req.nextIndex != req.itemCount {
        return Err(CompletedEarly);
      }
      sequence := sequence.(lastNextIndex := if req.nextIndex > sequence.lastNextIndex then req.nextIndex else sequence.lastNextIndex);
      if req.name == Received {
        sequence := sequence.(status := RECEIVED);
      } else if req.name in {Started, Resumed} {
        sequence := sequence.(status := PLAYING);
      } else if req.name == Completed {
        sequence := sequence.(status := COMPLETED);
      } else {
        sequence := sequence.(status := INVALID);
      }
      var s := sessions[sid];
      sessions := sessions[sid := s.(sequences := s.sequences[row := sequence])];
      if req.name == Invalid {
        var done := GetOrCreateDelivery(sid, RESULT_CANCELLED, None, Some("RGB_SEQUENCE_INVALID_REPORTED_BY_DEVICE"));
        if done.Err? {
          sessions := begin;
          return Err(done.error);
        }
      }
      events := events + [Event(identity, s.gateway, req.nextIndex, req.itemCount, req.key, req.payload)];
      assert sessions == begin[sid := AcceptEvent(Db(begin, old(events)), sid, row, req).value.db.sessions[sid]];
      return Ok(false);
    }
  }

  /** Events never touch the unique index. */
  lemma EventIds(db: Db, sid: string, req: EventRequest)
    ensures RecordEvent(db, sid, req).Ok? ==>
      forall id :: IdTaken(RecordEvent(db, sid, req).value.db, id) <==> IdTaken(db, id)
  {
    hide FindKey, FindIdentity, FindRevision, Refusal;
    if RecordEvent(db, sid, req).Ok? {
      var db' := RecordEvent(db, sid, req).value.db;
      assert db'.sessions == db.sessions[sid := db'.sessions[sid]];
      IdsAfter(db, sid, db'.sessions[sid], db', None);
    }
  }
}
