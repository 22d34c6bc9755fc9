/** What each request of the result channel comes to, in the states and commands themselves. */
module ResultChannelOutcomes {
  import opened Wrappers
  import P = AnswerPolicy
  import S = SessionStates
  import opened RgbCodec
  import opened RgbJson
  import opened ResultChannel
  import opened ResultChannelInvariant
  import opened ResultChannelTheorems

  // ---------- Publications that announce nothing ----------

  /** The delivery record withdraws whatever was announced, for this reason. */
  predicate Withdraws(s: Session, reason: string) {
    && s.delivery.Some?
    && s.delivery.value.command == RESULT_CANCELLED
    && s.delivery.value.active == None
    && s.delivery.value.reason == Some(reason)
  }

  /**
   On a consistent session a publication announces nothing exactly when the session is cancelled, results are switched
   off or the answers are refused. It then always succeeds, keeps every revision, and withdraws what was announced
   before; the reason names the first cause.
   */
  lemma WithdrawingPublication(sha: Sha256, sid: string, s: Session, taken: bool, settings: Settings, req: PublishRequest)
    requires SessionInv(sha, sid, s)
    ensures var r := Publish(sha, sid, s, taken, settings, req);
      var verdict := P.Verdict(req.expected, multiset(req.candidates), settings.maxItems);
      && (r.Ok? && r.value.row.None? <==> s.status == S.CANCELLED || !settings.enabled || verdict.Err?)
      && (r.Ok? && r.value.row.None? ==>
            var s' := r.value.session;
            && !r.value.reused
            && s' == s.(delivery := s'.delivery)
            && (s.status == S.CANCELLED ==> Withdraws(s', "SESSION_CANCELLED"))
            && (s.status != S.CANCELLED && !settings.enabled ==> Withdraws(s', "RGB_RESULTS_DISABLED"))
            && (s.status != S.CANCELLED && settings.enabled ==>
                  match verdict.error
                  case CountOutOfRange => Withdraws(s', "RGB_EXPECTED_QUESTION_COUNT_OUT_OF_RANGE")
                  case NumberDuplicate => Withdraws(s', "RGB_QUESTION_NUMBER_DUPLICATE")
                  case SequenceGap => Withdraws(s', "RGB_QUESTION_SEQUENCE_GAP")
                  case QuestionFailed => Withdraws(s', "RGB_QUESTION_FAILED")
                  case AnswerNotValidated => Withdraws(s', "RGB_ANSWER_NOT_VALIDATED")
                  case InvalidAlternative => Withdraws(s', "RGB_ANSWER_INVALID_ALTERNATIVE")))
  {
    hide PublishAnswers, RowsOk, P.Verdict;
    var verdict := P.Verdict(req.expected, multiset(req.candidates), settings.maxItems);
    if s.status != S.CANCELLED && settings.enabled && verdict.Ok? {
      var marked := if Announced(s) then s else Advance(s, RESULT_PROCESSING, None, None).value;
      AnswersHaveRow(sha, sid, marked, taken, settings, req, verdict.value);
    }
  }

  lemma AnswersHaveRow(sha: Sha256, sid: string, s: Session, taken: bool, settings: Settings, req: PublishRequest,
                       answers: string)
    ensures var r := PublishAnswers(sha, sid, s, taken, settings, req, answers); r.Ok? ==> r.value.row.Some?
  {
    hide BuildPayload, CompactJsonBytes, ValidPayload, CanonicalBytes;
  }

  /** After such a publication the next full poll shows RESULT_CANCELLED and no sequence, whatever it showed before. */
  lemma WithdrawnNextPoll(sha: Sha256, before: seq<Step>, sid: string, settings: Settings, req: PublishRequest,
                          started: bool)
    requires sid in Run(sha, EMPTY, before).sessions
    requires || Run(sha, EMPTY, before).sessions[sid].status == S.CANCELLED || !settings.enabled
             || P.Verdict(req.expected, multiset(req.candidates), settings.maxItems).Err?
    ensures var db := Apply(sha, Run(sha, EMPTY, before), PublishStep(sid, settings, req));
      && sid in db.sessions && db.sessions[sid].delivery.Some?
      && Poll(db.sessions[sid], 0, started) == Some(Snapshot(RESULT_CANCELLED, db.sessions[sid].delivery.value.cursor, None))
  {
    hide Publish, SessionInv, LogsOk, EventOk, IdTaken, P.Verdict, Run, Poll, DeliveryOk;
    var before' := Run(sha, EMPTY, before);
    ReachableInv(sha, before);
    ApplyKeeps(sha, before', PublishStep(sid, settings, req));
    var db := Apply(sha, before', PublishStep(sid, settings, req));
    assert SessionInv(sha, sid, before'.sessions[sid]) && SessionInv(sha, sid, db.sessions[sid]);
    WithdrawingPublication(sha, sid, before'.sessions[sid], IdTaken(before', req.freshId), settings, req);
    InvDelivery(sha, sid, db.sessions[sid]);
    WithdrawnPoll(db.sessions[sid], started);
  }

  lemma WithdrawnPoll(s: Session, started: bool)
    requires DeliveryOk(s) && s.delivery.Some? && s.delivery.value.command == RESULT_CANCELLED
    ensures Poll(s, 0, started) == Some(Snapshot(RESULT_CANCELLED, s.delivery.value.cursor, None))
  {
  }

  /** After a publication that announces a revision, the next full poll shows exactly that revision. */
  lemma PublishedNextPoll(sha: Sha256, before: seq<Step>, sid: string, settings: Settings, req: PublishRequest,
                          started: bool)
    requires sid in Run(sha, EMPTY, before).sessions
    requires var db := Run(sha, EMPTY, before);
      var r := Publish(sha, sid, db.sessions[sid], IdTaken(db, req.freshId), settings, req);
      r.Ok? && r.value.row.Some?
    ensures var db := Run(sha, EMPTY, before);
      var row := Publish(sha, sid, db.sessions[sid], IdTaken(db, req.freshId), settings, req).value.row.value;
      var db' := Apply(sha, db, PublishStep(sid, settings, req));
      && sid in db'.sessions && db'.sessions[sid].delivery.Some?
      && var s' := db'.sessions[sid];
      && row < |s'.sequences|
      && var c := s'.sequences[row].content;
      && Poll(s', 0, started) == Some(Snapshot(RGB_SEQUENCE_READY, s'.delivery.value.cursor,
                                               Some(Announcement(c.sequenceId, c.revision, c.itemCount, c.sha256))))
      && Requested(sha, sid, settings, req).Some?
      && c.sha256 == Requested(sha, sid, settings, req).value.sha256
  {
    hide Publish, SessionInv, LogsOk, IdTaken, Run, Requested;
    var db := Run(sha, EMPTY, before);
    ReachableInv(sha, before);
    ApplyKeeps(sha, db, PublishStep(sid, settings, req));
    var db' := Apply(sha, db, PublishStep(sid, settings, req));
    assert SessionInv(sha, sid, db.sessions[sid]) && SessionInv(sha, sid, db'.sessions[sid]);
    var taken := IdTaken(db, req.freshId);
    WithdrawingPublication(sha, sid, db.sessions[sid], taken, settings, req);
    PublishedAnnounces(sha, sid, db.sessions[sid], taken, settings, req);
    PublishedIsRequested(sha, sid, db.sessions[sid], taken, settings, req);
    InvDelivery(sha, sid, db'.sessions[sid]);
  }

  lemma PublishedAnnounces(sha: Sha256, sid: string, s: Session, taken: bool, settings: Settings, req: PublishRequest)
    requires SessionInv(sha, sid, s) && Publish(sha, sid, s, taken, settings, req).Ok?
    requires Publish(sha, sid, s, taken, settings, req).value.row.Some?
    ensures var p := Publish(sha, sid, s, taken, settings, req).value;
      && p.session.delivery.Some? && p.session.delivery.value.command == RGB_SEQUENCE_READY
      && p.session.delivery.value.active == p.row
  {
    hide Publish, SessionInv;
    WithdrawingPublication(sha, sid, s, taken, settings, req);
    PublicationShowsAnswers(sha, sid, s, taken, settings, req);
  }

  // ---------- What a publication asks for, and why it raises ----------

  /** The colour that the session's config snapshot gives a letter, if the snapshot's palette can be used at all. */
  function SnapshotColor(c: Config, letter: char): Option<Color> {
    if c.palette.None? || c.palette.value.Keys != {'A', 'B', 'C', 'D', 'E'} then None
    else
      var rgb := c.palette.value[if letter in c.palette.value then letter else 'A'];
      if rgb.Some? && |rgb.value| == 3
         && 0 <= rgb.value[0] <= 255 && 0 <= rgb.value[1] <= 255 && 0 <= rgb.value[2] <= 255
      then Some(Color(rgb.value[0], rgb.value[1], rgb.value[2]))
      else None
  }

  /** The shipped colours of a letter, in exams and in handwritten sessions. */
  function ShippedColor(handwritten: bool, letter: char): (int, int, int) {
    match (letter, handwritten)
    case ('A', false) => (255, 255, 255)
    case ('B', false) => (255, 255, 0)
    case ('C', false) => (0, 255, 255)
    case ('D', false) => (0, 0, 255)
    case ('A', true) => (0, 0, 255)
    case ('B', true) => (255, 0, 0)
    case ('C', true) => (0, 255, 0)
    case ('D', true) => (128, 0, 128)
    case (_, true) => (255, 255, 0)
    case (_, false) => (255, 0, 0)
  }

  /** A letter is shown in the snapshot's colour if all five of them can be used, and else in the shipped one. */
  lemma PaletteMeaning(c: Config, letter: char)
    requires letter in {'A', 'B', 'C', 'D', 'E'}
    ensures var p := SnapshotPalette(c);
      && letter in p
      && p[letter] ==
         if forall l :: l in {'A', 'B', 'C', 'D', 'E'} ==> SnapshotColor(c, l).Some? then SnapshotColor(c, letter).value
         else
           var (r, g, b) := ShippedColor(c.handwritten, letter);
           Color(r, g, b)
  {
    hide SnapshotColor, ShippedColor;
    if c.palette.Some? && c.palette.value.Keys == LETTERS {
      forall k | k in LETTERS
        ensures SnapshotColor(c, k).Some? <==> UsableColor(c.palette.value[k])
        ensures SnapshotColor(c, k).Some? ==>
          SnapshotColor(c, k).value == Color(c.palette.value[k].value[0], c.palette.value[k].value[1], c.palette.value[k].value[2])
      {
        SnapshotColorMeaning(c, k);
      }
    } else {
      NoSnapshotColor(c);
    }
    ShippedMeaning(letter);
  }

  lemma SnapshotColorMeaning(c: Config, k: char)
    requires c.palette.Some? && c.palette.value.Keys == LETTERS && k in LETTERS
    ensures SnapshotColor(c, k).Some? <==> UsableColor(c.palette.value[k])
    ensures SnapshotColor(c, k).Some? ==>
      SnapshotColor(c, k).value == Color(c.palette.value[k].value[0], c.palette.value[k].value[1], c.palette.value[k].value[2])
  {
  }

  lemma NoSnapshotColor(c: Config)
    requires c.palette.None? || c.palette.value.Keys != LETTERS
    ensures SnapshotColor(c, 'A').None?
  {
  }

  lemma ShippedMeaning(letter: char)
    requires letter in {'A', 'B', 'C', 'D', 'E'}
    ensures letter in DEFAULT_PALETTE && letter in HANDWRITTEN_PALETTE
    ensures var (r, g, b) := ShippedColor(false, letter); DEFAULT_PALETTE[letter] == Color(r, g, b)
    ensures var (r, g, b) := ShippedColor(true, letter); HANDWRITTEN_PALETTE[letter] == Color(r, g, b)
  {
  }

  /** The payload that is looked for: the accepted answers under the snapshot's numbers, else the deployment's. */
  lemma RequestedMeaning(sha: Sha256, sid: string, settings: Settings, req: PublishRequest)
    requires Requested(sha, sid, settings, req).Some?
    ensures var p := Requested(sha, sid, settings, req).value;
      var verdict := P.Verdict(req.expected, multiset(req.candidates), settings.maxItems);
      && verdict.Ok? && p.answers == verdict.value && p.overrides == []
      && p.palette == SnapshotPalette(req.config)
      && p.defaults.brightness ==
         (if req.config.brightness.Number? then req.config.brightness.value else settings.defaults.brightness)
      && p.defaults.onMs == (if req.config.onMs.Number? then req.config.onMs.value else settings.defaults.onMs)
      && p.defaults.offMs == (if req.config.offMs.Number? then req.config.offMs.value else settings.defaults.offMs)
      && ValidPayload(p) && p.sha256 == PayloadSha(sha, p)
  {
    hide CanonicalBytes, SnapshotPalette, P.Verdict;
    BuiltPayload(sha, sid, "rgb-probe", 1, P.Verdict(req.expected, multiset(req.candidates), settings.maxItems).value,
                 ChosenDefaults(settings.defaults, req.config), SnapshotPalette(req.config), []);
  }

  /** A payload can be asked for exactly if the snapshot's numbers can be read and all values are in range. */
  lemma RequestedIff(sha: Sha256, sid: string, settings: Settings, req: PublishRequest)
    ensures Requested(sha, sid, settings, req).Some? <==>
      && P.Verdict(req.expected, multiset(req.candidates), settings.maxItems).Ok?
      && req.config.brightness != Unreadable && req.config.onMs != Unreadable && req.config.offMs != Unreadable
      && 1 <= |sid| <= 128
      && var d := ChosenDefaults(settings.defaults, req.config);
      0 <= d.brightness <= 100 && 100 <= d.onMs <= 60000 && 0 <= d.offMs <= 60000
  {
    hide CanonicalBytes, SnapshotPalette, P.Verdict;
    var verdict := P.Verdict(req.expected, multiset(req.candidates), settings.maxItems);
    if verdict.Ok? {
      P.AcceptedForm(req.expected, multiset(req.candidates), settings.maxItems);
      assert ValidSequenceId("rgb-probe");
      var draft := Draft(sid, "rgb-probe", 1, verdict.value, ChosenDefaults(settings.defaults, req.config),
                         SnapshotPalette(req.config), []);
      assert ValidAnswers(draft.answers);
      assert IsHex64(draft.sha256);
      assert ValidOverrides(draft.overrides, draft.itemCount);
    }
  }

  /** Some deliverable revision shows this digest. */
  predicate Reusable(rows: seq<Sequence>, digest: string) {
    exists i :: 0 <= i < |rows| && rows[i].content.sha256 == digest && rows[i].status in {READY, RECEIVED, PLAYING, COMPLETED}
  }

  lemma ReusableFound(rows: seq<Sequence>, digest: string)
    ensures FindReusable(rows, digest).Some? <==> Reusable(rows, digest)
  {
    var found := FindReusable(rows, digest);
    if found.Some? {
      ActiveStatus(rows[found.value].status);
    } else if Reusable(rows, digest) {
      var i :| 0 <= i < |rows| && rows[i].content.sha256 == digest && rows[i].status in {READY, RECEIVED, PLAYING, COMPLETED};
      assert Deliverable(rows[i].status);
    }
  }

  lemma ActiveStatus(status: SequenceStatus)
    ensures Deliverable(status) <==> status in {READY, RECEIVED, PLAYING, COMPLETED}
  {
    match status
    case INVALID =>
    case _ =>
  }

  /** Why a publication of accepted answers raises: the first of the causes, in the order of the code. */
  lemma PublicationError(sha: Sha256, sid: string, s: Session, taken: bool, settings: Settings, req: PublishRequest)
    requires SessionInv(sha, sid, s) && s.status != S.CANCELLED && settings.enabled
    requires P.Verdict(req.expected, multiset(req.candidates), settings.maxItems).Ok?
    ensures var r := Publish(sha, sid, s, taken, settings, req);
      var asked := Requested(sha, sid, settings, req);
      && (r == Err(ConfigUnreadable) <==>
            req.config.brightness == Unreadable || req.config.onMs == Unreadable || req.config.offMs == Unreadable)
      && (asked.Some? && Reusable(s.sequences, asked.value.sha256) ==> r.Ok?)
      && (asked.Some? && !Reusable(s.sequences, asked.value.sha256) && ValidSequenceId(req.freshId) ==>
            var made := asked.value.(sequenceId := req.freshId, revision := |s.sequences| + 1);
            && ValidPayload(made)
            && r.Ok? == (|CompactJsonBytes(made)| <= settings.maxJsonBytes && !taken && |s.sequences| < 0x7FFF_FFFF)
            && (r == Err(JsonTooLarge) <==> |CompactJsonBytes(made)| > settings.maxJsonBytes)
            && (r.Err? && r != Err(JsonTooLarge) ==> r == Err(DatabaseConstraint)))
      && (asked.Some? && !Reusable(s.sequences, asked.value.sha256) && !ValidSequenceId(req.freshId) ==>
            r == Err(PayloadRejected))
      && (asked.None? && r != Err(ConfigUnreadable) ==> r == Err(PayloadRejected))
  {
    hide P.Verdict, RowsOk, SnapshotPalette, ChosenDefaults, CompactJsonBytes, CanonicalBytes, PublishAnswers, ValidPayload;
    var answers := P.Verdict(req.expected, multiset(req.candidates), settings.maxItems).value;
    var marked := if Announced(s) then s else Advance(s, RESULT_PROCESSING, None, None).value;
    AnswersError(sha, sid, marked, taken, settings, req, answers);
  }

  lemma AnswersError(sha: Sha256, sid: string, s: Session, taken: bool, settings: Settings, req: PublishRequest,
                     answers: string)
    requires RowsOk(sha, sid, s.sequences) && DeliveryOk(s)
    ensures var r := PublishAnswers(sha, sid, s, taken, settings, req, answers);
      var asked := if Readable(req.config) then
                     BuildPayload(sha, sid, "rgb-probe", 1, answers, ChosenDefaults(settings.defaults, req.config),
                                  SnapshotPalette(req.config), [])
                   else None;
      && (r == Err(ConfigUnreadable) <==>
            req.config.brightness == Unreadable || req.config.onMs == Unreadable || req.config.offMs == Unreadable)
      && (asked.Some? && Reusable(s.sequences, asked.value.sha256) ==> r.Ok?)
      && (asked.Some? && !Reusable(s.sequences, asked.value.sha256) && ValidSequenceId(req.freshId) ==>
            var made := asked.value.(sequenceId := req.freshId, revision := |s.sequences| + 1);
            && ValidPayload(made)
            && r.Ok? == (|CompactJsonBytes(made)| <= settings.maxJsonBytes && !taken && |s.sequences| < 0x7FFF_FFFF)
            && (r == Err(JsonTooLarge) <==> |CompactJsonBytes(made)| > settings.maxJsonBytes)
            && (r.Err? && r != Err(JsonTooLarge) ==> r == Err(DatabaseConstraint)))
      && (asked.Some? && !Reusable(s.sequences, asked.value.sha256) && !ValidSequenceId(req.freshId) ==>
            r == Err(PayloadRejected))
      && (asked.None? && r != Err(ConfigUnreadable) ==> r == Err(PayloadRejected))
  {
    hide CompactJsonBytes, CanonicalBytes, StoredOk, SnapshotPalette, ChosenDefaults, BuildPayload, FindReusable, Reusable,
      ValidPayload;
    var defaults, palette := ChosenDefaults(settings.defaults, req.config), SnapshotPalette(req.config);
    var asked := BuildPayload(sha, sid, "rgb-probe", 1, answers, defaults, palette, []);
    NextIsCount(sha, sid, s.sequences);
    if asked.Some? {
      ReusableFound(s.sequences, asked.value.sha256);
    }
    UnfitId(sha, sid, req.freshId, |s.sequences| + 1, answers, defaults, palette);
    if asked.Some? && ValidSequenceId(req.freshId) {
      var made := asked.value.(sequenceId := req.freshId, revision := |s.sequences| + 1);
      FreshPayload(sha, sid, req.freshId, |s.sequences| + 1, answers, defaults, palette);
    }
  }

  lemma UnfitId(sha: Sha256, sid: string, freshId: string, revision: nat, answers: string, defaults: Defaults, palette: Palette)
    ensures !ValidSequenceId(freshId) ==> BuildPayload(sha, sid, freshId, revision, answers, defaults, palette, []).None?
  {
    hide CanonicalBytes;
  }

  /** The digest is that of the probe, so the payload made is the probe under another id and revision. */
  lemma FreshPayload(sha: Sha256, sid: string, freshId: string, revision: nat, answers: string, defaults: Defaults,
                     palette: Palette)
    requires revision >= 1 && ValidSequenceId(freshId)
    requires BuildPayload(sha, sid, "rgb-probe", 1, answers, defaults, palette, []).Some?
    ensures var asked := BuildPayload(sha, sid, "rgb-probe", 1, answers, defaults, palette, []).value;
      var made := asked.(sequenceId := freshId, revision := revision);
      && ValidPayload(made)
      && BuildPayload(sha, sid, freshId, revision, answers, defaults, palette, []) == Some(made)
  {
    hide CanonicalBytes, CompactJsonBytes;
    ShaIgnoresIdentity(sha, Draft(sid, "rgb-probe", 1, answers, defaults, palette, []),
                       Draft(sid, freshId, revision, answers, defaults, palette, []));
    BuiltPayload(sha, sid, "rgb-probe", 1, answers, defaults, palette, []);
  }

  // ---------- Marks, cancellations and end signals ----------

  /**
   Asking for a record: one of another device or gateway is a conflict; else the record shows what was asked for, a new
   one with cursor 1, and an old one with its cursor or, if it changed, the next.
   */
  lemma AdvanceOutcome(s: Session, command: Command, active: Option<nat>, reason: Option<string>)
    ensures var r := Advance(s, command, active, reason);
      && (r == Err(BindingConflict) <==>
            s.delivery.Some? && (s.delivery.value.device != s.device || s.delivery.value.gateway != s.gateway))
      && (r.Err? ==> r.error == BindingConflict)
      && (r.Ok? ==>
            && r.value == s.(delivery := r.value.delivery) && r.value.delivery.Some?
            && var d := r.value.delivery.value;
            && d == Delivery(s.device, s.gateway, command, d.cursor, active, reason)
            && d.cursor == (if s.delivery.None? then 1
                            else if s.delivery == r.value.delivery then s.delivery.value.cursor
                            else s.delivery.value.cursor + 1)
            && (s.delivery.Some? && s.delivery != r.value.delivery ==>
                  var e := s.delivery.value; !(e.command == command && e.active == active && e.reason == reason)))
  {
  }

  predicate Shows(s: Session, command: Command) {
    s.delivery.Some? && s.delivery.value.command == command && s.delivery.value.active == None
  }

  /** Marking a consistent session: a shown result or withdrawal stays, a cancelled session withdraws, else PROCESSING. */
  lemma MarkOutcome(sha: Sha256, sid: string, s: Session)
    requires SessionInv(sha, sid, s)
    ensures var r := MarkProcessing(s);
      && r.Ok? && r.value == s.(delivery := r.value.delivery)
      && (s.status == S.CANCELLED ==> Withdraws(r.value, "CANCELLED"))
      && (s.status != S.CANCELLED ==>
            if s.delivery.Some? && s.delivery.value.command in {RGB_SEQUENCE_READY, RESULT_CANCELLED} then r.value == s
            else Shows(r.value, RESULT_PROCESSING) && r.value.delivery.value.reason == None)
  {
    hide RowsOk;
  }

  /** Which sessions can be cancelled, and what becomes of them. */
  lemma CancelOutcome(sha: Sha256, sid: string, s: Session)
    requires SessionInv(sha, sid, s)
    ensures var r := Cancel(s);
      && (r.Ok? <==> s.status in {S.CREATED, S.CAPTURING, S.CAPTURE_END_CANDIDATE, S.CAPTURE_LOCKING, S.LOCKED,
                                  S.FAILED_RECOVERABLE, S.CANCELLED})
      && (r.Err? ==> r.error == CannotCancel)
      && (r.Ok? && s.status == S.CANCELLED ==> r.value == s)
      && (r.Ok? && s.status != S.CANCELLED ==>
            r.value == s.(status := S.CANCELLED, delivery := r.value.delivery) && Withdraws(r.value, "ADMIN_CANCELLED"))
  {
    hide RowsOk;
  }

  /** The end signal locks exactly the open sessions, marks every session that is not terminal, and never raises. */
  lemma EndSignalOutcome(sha: Sha256, sid: string, s: Session)
    requires SessionInv(sha, sid, s)
    ensures var s' := EndSignal(s);
      && s' == s.(status := s'.status, delivery := s'.delivery)
      && s'.status ==
         (if s.status in {S.CAPTURING, S.CAPTURE_END_CANDIDATE, S.CAPTURE_LOCKING} then S.LOCKED else s.status)
      && (if s.status in {S.COMPLETED, S.FAILED_FATAL, S.CANCELLED}
             || (s.delivery.Some? && s.delivery.value.command in {RGB_SEQUENCE_READY, RESULT_CANCELLED})
          then s'.delivery == s.delivery
          else Shows(s', RESULT_PROCESSING))
  {
    hide RowsOk;
  }

  // ---------- Polls and downloads ----------

  /** The session has a record for its own device and gateway. */
  predicate Bound(s: Session) {
    s.delivery.Some? && s.delivery.value.device == s.device && s.delivery.value.gateway == s.gateway
  }

  /** Without such a record only cursor 0 is answered, with the command derived from the status of the session. */
  lemma VirtualPoll(s: Session, cursor: nat, started: bool)
    requires !Bound(s)
    ensures cursor >= 1 ==> Poll(s, cursor, started) == None
    ensures cursor == 0 ==>
      && Poll(s, 0, started).Some? && Poll(s, 0, started).value.cursor == 0 && Poll(s, 0, started).value.sequence == None
      && var command := Poll(s, 0, started).value.command;
      && (command == RESULT_NOT_STARTED <==>
            !started && s.status in {S.CREATED, S.CAPTURING, S.CAPTURE_END_CANDIDATE, S.CAPTURE_LOCKING, S.LOCKED})
      && (command == RESULT_CANCELLED <==>
            s.status in {S.BLOCKED_GATE_1, S.BLOCKED_GATE_2, S.FAILED_FATAL, S.CANCELLED, S.READY, S.COMPLETED})
      && command != RGB_SEQUENCE_READY
  {
  }

  /** In every run, with a record a poll is answered exactly if the client's cursor is behind. */
  lemma AnsweredPoll(sha: Sha256, steps: seq<Step>, sid: string, cursor: nat, started: bool)
    requires sid in Run(sha, EMPTY, steps).sessions && Run(sha, EMPTY, steps).sessions[sid].delivery.Some?
    ensures var s := Run(sha, EMPTY, steps).sessions[sid];
      Poll(s, cursor, started).Some? <==> cursor < s.delivery.value.cursor
  {
    hide Run, LogsOk;
    ReachableInv(sha, steps);
    assert SessionInv(sha, sid, Run(sha, EMPTY, steps).sessions[sid]);
  }

  /**
   In every run: an unknown id is not found; a known one is gone if it was reported invalid or superseded, and otherwise
   downloads its own content if that is within the limit.
   */
  lemma DownloadOutcome(sha: Sha256, steps: seq<Step>, sid: string, sequenceId: string, limit: int)
    requires sid in Run(sha, EMPTY, steps).sessions
    ensures var s := Run(sha, EMPTY, steps).sessions[sid];
      var r := Download(sha, sid, s, sequenceId, limit);
      && (r == Err(SequenceNotFound) <==> forall i :: 0 <= i < |s.sequences| ==> s.sequences[i].content.sequenceId != sequenceId)
      && (forall i :: 0 <= i < |s.sequences| && s.sequences[i].content.sequenceId == sequenceId ==>
            var q := s.sequences[i];
            var p := PayloadOf(sid, q.content);
            && (r == Err(SequenceGone) <==> q.status in {INVALID, SUPERSEDED})
            && (q.status in {READY, RECEIVED, PLAYING, COMPLETED} ==>
                  && ValidPayload(p) && p.sessionId == sid
                  && AnnouncementOf(q.content) == Announcement(p.sequenceId, p.revision, p.itemCount, p.sha256)
                  && p.sha256 == PayloadSha(sha, p)
                  && r == if |CompactJsonBytes(p)| <= limit then Ok((p, CompactJsonBytes(p))) else Err(JsonTooLarge)))
  {
    ReachableInv(sha, steps);
    hide Run, CanonicalBytes, ValidPayload, LogsOk, EventOk, FindById, CompactJsonBytes;
    var s := Run(sha, EMPTY, steps).sessions[sid];
    assert SessionInv(sha, sid, s);
    forall i | 0 <= i < |s.sequences|
      ensures StoredOk(sha, sid, s.sequences[i].content, i) && FindById(s.sequences, s.sequences[i].content.sequenceId) == Some(i)
    {
      FindByIdUnique(s.sequences, i);
    }
  }

  /**
   What no run produces is still answered safely: a record that names a missing, INVALID or SUPERSEDED revision polls as
   RESULT_CANCELLED, and content that is not valid or does not have its digest is not served.
   */
  lemma DamagedRecord(sha: Sha256, sid: string, s: Session, cursor: nat, started: bool, i: nat, limit: int)
    requires Bound(s) && DistinctIds(s.sequences) && i < |s.sequences|
    ensures var d := s.delivery.value;
      d.active.Some? && cursor < d.cursor
      && (d.active.value >= |s.sequences| || s.sequences[d.active.value].status in {INVALID, SUPERSEDED}) ==>
        Poll(s, cursor, started) == Some(Snapshot(RESULT_CANCELLED, d.cursor, None))
    ensures var q := s.sequences[i];
      var p := PayloadOf(sid, q.content);
      q.status in {READY, RECEIVED, PLAYING, COMPLETED} && !(ValidPayload(p) && PayloadSha(sha, p) == p.sha256) ==>
        Download(sha, sid, s, q.content.sequenceId, limit) == Err(PayloadRejected)
  {
    hide CanonicalBytes, ValidPayload, FindById, CompactJsonBytes;
    FindByIdUnique(s.sequences, i);
  }

  // ---------- Device events ----------

  /** A request that matches no recorded event, neither by its key nor by its identity. */
  predicate Unseen(db: Db, sid: string, row: nat, req: EventRequest)
    requires sid in db.sessions && row < |db.sessions[sid].sequences| && 0 <= req.nextIndex
  {
    var s := db.sessions[sid];
    && (req.key.Some? && req.key.value != "" ==>
          forall e :: e in db.events ==> !(e.gateway == s.gateway && e.key == req.key))
    && forall e :: e in db.events ==>
         !(e.identity == Identity(s.device, sid, row, s.sequences[row].content.revision, req.name,
                                  if req.name == Completed then None else Some(req.nextIndex)))
  }

  /** The sequence, in its present state, accepts the event. */
  predicate Acceptable(q: Sequence, req: EventRequest) {
    && q.status in {READY, RECEIVED, PLAYING}
    && q.lastNextIndex <= req.nextIndex
    && (req.name == Received ==> q.status == READY)
    && (req.name == Completed ==> req.nextIndex == req.itemCount)
  }

  lemma {:induction false} FindKeyNone(events: seq<Event>, gateway: string, key: Option<string>)
    ensures FindKey(events, gateway, key).None? <==> forall e :: e in events ==> !(e.gateway == gateway && e.key == key)
    ensures FindKey(events, gateway, key).Some? ==>
      var e := FindKey(events, gateway, key).value; e in events && e.gateway == gateway && e.key == key
  {
    if events != [] {
      assert events == [events[0]] + events[1..];
      FindKeyNone(events[1..], gateway, key);
    }
  }

  /** The first reason against an event that is not acceptable. */
  predicate RefusedAs(q: Sequence, req: EventRequest, error: Error) {
    if q.status in {INVALID, SUPERSEDED} then error == NotDeliverable
    else if q.status == COMPLETED then error == AlreadyCompleted
    else if req.name == Received && q.status in {RECEIVED, PLAYING} then error == ReceivedNotReady
    else if req.nextIndex < q.lastNextIndex then error == MovesBackwards
    else req.name == Completed && req.nextIndex < req.itemCount && error == CompletedEarly
  }

  /** What an accepted event leaves behind. */
  predicate Accepted(db: Db, sid: string, row: nat, req: EventRequest, db': Db)
    requires sid in db.sessions && row < |db.sessions[sid].sequences| && 0 <= req.nextIndex && 0 <= req.itemCount
  {
    var s, q := db.sessions[sid], db.sessions[sid].sequences[row];
    && db'.sessions.Keys == db.sessions.Keys
    && (forall t :: t in db.sessions && t != sid ==> db'.sessions[t] == db.sessions[t])
    && var s' := db'.sessions[sid];
    && |s'.sequences| == |s.sequences|
    && s' == s.(sequences := s'.sequences, delivery := s'.delivery)
    && (forall i :: 0 <= i < |s.sequences| && i != row ==> s'.sequences[i] == s.sequences[i])
    && var q' := s'.sequences[row];
    && q'.content == q.content && q'.lastNextIndex == req.nextIndex
    && (req.name == Received ==> q'.status == RECEIVED)
    && (req.name == Started || req.name == Resumed ==> q'.status == PLAYING)
    && (req.name == Completed ==> q'.status == COMPLETED)
    && (req.name == Invalid ==> q'.status == INVALID && Withdraws(s', "RGB_SEQUENCE_INVALID_REPORTED_BY_DEVICE"))
    && (req.name != Invalid ==> s'.delivery == s.delivery)
    && |db'.events| == |db.events| + 1 && db.events <= db'.events
    && db'.events[|db.events|] ==
       Event(Identity(s.device, sid, row, q.content.revision, req.name,
                      if req.name == Completed then None else Some(req.nextIndex)),
             s.gateway, req.nextIndex, req.itemCount, req.key, req.payload)
  }

  /**
   In every run, an event addressed to a stored revision that matches nothing recorded is accepted if and only if the
   sequence is not finished, does not move backwards, and is fresh for RECEIVED and at its end for COMPLETED; what an
   accepted event changes is given outright.
   */
  lemma NewEventOutcome(sha: Sha256, steps: seq<Step>, sid: string, row: nat, req: EventRequest)
    requires var db := Run(sha, EMPTY, steps);
      && sid in db.sessions && row < |db.sessions[sid].sequences|
      && var q := db.sessions[sid].sequences[row];
      && req.bodySession == sid && req.sequenceId == q.content.sequenceId && req.revision == q.content.revision
      && req.itemCount == q.content.itemCount && 0 <= req.nextIndex <= req.itemCount
      && Unseen(db, sid, row, req)
    ensures var db := Run(sha, EMPTY, steps);
      var r := RecordEvent(db, sid, req);
      && (r.Ok? <==> Acceptable(db.sessions[sid].sequences[row], req))
      && (r.Ok? ==> !r.value.duplicate && r.value.row == row && Accepted(db, sid, row, req, r.value.db))
      && (r.Err? ==> RefusedAs(db.sessions[sid].sequences[row], req, r.error))
  {
    var db := Run(sha, EMPTY, steps);
    var s := db.sessions[sid];
    ReachableInv(sha, steps);
    hide Run;
    assert SessionInv(sha, sid, s);
    hide LogOf, FindKey, FindIdentity, FindRevision, RowsOk, LogsOk, DistinctDeliverable, AcceptEvent, EventOk, Acceptable, Accepted,
      RefusedAs;
    FindRevisionUnique(s.sequences, row);
    FindKeyNone(db.events, s.gateway, req.key);
    FindIdentityMember(db.events, EventIdentity(sid, s, row, req.name, req.nextIndex));
    assert RecordEvent(db, sid, req) == AcceptEvent(db, sid, row, req);
    if s.sequences[row].status == COMPLETED {
      CompletedIsRecorded(sha, db, sid, row, req.nextIndex);
    }
    InvDelivery(sha, sid, s);
    hide RecordEvent, DbInv, Unseen;
    AcceptOutcome(db, sid, row, req);
  }

  lemma AcceptOutcome(db: Db, sid: string, row: nat, req: EventRequest)
    requires sid in db.sessions && row < |db.sessions[sid].sequences| && 0 <= req.nextIndex && 0 <= req.itemCount
    requires DeliveryOk(db.sessions[sid])
    requires db.sessions[sid].sequences[row].status == COMPLETED ==> req.name != Completed
    requires req.nextIndex <= req.itemCount
    ensures var r := AcceptEvent(db, sid, row, req);
      && (r.Ok? <==> Acceptable(db.sessions[sid].sequences[row], req))
      && (r.Ok? ==> !r.value.duplicate && r.value.row == row && Accepted(db, sid, row, req, r.value.db))
      && (r.Err? ==> RefusedAs(db.sessions[sid].sequences[row], req, r.error))
  {
  }

  /** In every run, an event that is not addressed to a stored revision of its session is refused for what is wrong. */
  lemma UnaddressedEvent(sha: Sha256, steps: seq<Step>, sid: string, req: EventRequest)
    ensures var db := Run(sha, EMPTY, steps);
      var r := RecordEvent(db, sid, req);
      && (r == Err(SessionNotFound) <==> sid !in db.sessions)
      && (r == Err(SessionMismatch) <==> sid in db.sessions && req.bodySession != sid)
      && (sid in db.sessions && req.bodySession == sid ==>
            var rows := db.sessions[sid].sequences;
            && (r == Err(SequenceNotFound) <==>
                  forall i :: 0 <= i < |rows| ==>
                    !(rows[i].content.sequenceId == req.sequenceId && rows[i].content.revision == req.revision))
            && forall i :: 0 <= i < |rows| && rows[i].content.sequenceId == req.sequenceId
                           && rows[i].content.revision == req.revision ==>
                 (r == Err(ProgressMismatch) <==>
                    req.itemCount != rows[i].content.itemCount || req.nextIndex < 0 || req.nextIndex > req.itemCount))
  {
    var db := Run(sha, EMPTY, steps);
    ReachableInv(sha, steps);
    hide Run, FindKey, FindIdentity, FindRevision, AcceptEvent;
    if sid in db.sessions {
      var rows := db.sessions[sid].sequences;
      assert SessionInv(sha, sid, db.sessions[sid]);
      hide DbInv;
      forall i | 0 <= i < |rows|
        ensures FindRevision(rows, rows[i].content.sequenceId, rows[i].content.revision) == Some(i)
      {
        FindRevisionUnique(rows, i);
      }
      forall row: nat | row < |rows| && 0 <= req.nextIndex && 0 <= req.itemCount
        ensures AcceptEvent(db, sid, row, req) !in
                {Err(SessionNotFound), Err(SessionMismatch), Err(SequenceNotFound), Err(ProgressMismatch)}
      {
        AcceptErrors(db, sid, row, req);
      }
    }
  }

  lemma AcceptErrors(db: Db, sid: string, row: nat, req: EventRequest)
    requires sid in db.sessions && row < |db.sessions[sid].sequences| && 0 <= req.nextIndex && 0 <= req.itemCount
    ensures AcceptEvent(db, sid, row, req) !in
            {Err(SessionNotFound), Err(SessionMismatch), Err(SequenceNotFound), Err(ProgressMismatch)}
  {
  }

  /**
   An accepted event sent again later under the same key, but with another payload, is refused; so is one without a key
   that says something else about the same progress.
   */
  lemma ResendChanged(sha: Sha256, before: seq<Step>, sid: string, req: EventRequest, after: seq<Step>, payload: string)
    requires var r := RecordEvent(Run(sha, EMPTY, before), sid, req); r.Ok? && !r.value.duplicate
    requires payload != req.payload
    ensures var r := RecordEvent(Run(sha, EMPTY, before), sid, req).value;
      var later := Run(sha, r.db, after);
      RecordEvent(later, sid, req.(payload := payload)) ==
        Err(if req.key.Some? && req.key.value != "" then KeyReused else IdentityReused)
  {
    var db := Run(sha, EMPTY, before);
    ReachableInv(sha, before);
    AcceptedEvent(db, sid, req);
    RecordKeeps(sha, db, sid, req);
    RecordLater(sha, db, sid, req);
    var r := RecordEvent(db, sid, req).value;
    RunLater(sha, r.db, after);
    LaterTransitive(db, r.db, Run(sha, r.db, after));
    StillRefused(sha, db, sid, req, Run(sha, r.db, after), payload);
  }

  lemma StillRefused(sha: Sha256, db: Db, sid: string, req: EventRequest, later: Db, payload: string)
    requires DbInv(sha, db) && DbInv(sha, later) && Later(db, later) && payload != req.payload
    requires RecordEvent(db, sid, req).Ok? && !RecordEvent(db, sid, req).value.duplicate
    requires RecordEvent(db, sid, req).value.db.events <= later.events
    ensures RecordEvent(later, sid, req.(payload := payload)) ==
      Err(if req.key.Some? && req.key.value != "" then KeyReused else IdentityReused)
  {
    hide SessionInv, FindRevision, FindIdentity, FindKey, AcceptEvent, LogsOk, EventOk;
    AcceptedEvent(db, sid, req);
    var r := RecordEvent(db, sid, req).value;
    var s, s' := db.sessions[sid], later.sessions[sid];
    assert RowLater(s.sequences[r.row], s'.sequences[r.row]);
    SessionIdsDistinct(sha, sid, s');
    FindRevisionUnique(s'.sequences, r.row);
    var e := r.db.events[|db.events|];
    var rest := later.events[|db.events| + 1..];
    assert later.events == db.events + [e] + rest;
    StillFound(db.events, e, rest);
  }
}
