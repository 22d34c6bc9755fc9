/** When a publication raises, and runs on which the promises of the result channel fail. */
module ResultChannelRuns {
  import opened Wrappers
  import P = AnswerPolicy
  import S = SessionStates
  import opened RgbCodec
  import opened RgbJson
  import opened ResultChannel
  import opened ResultChannelInvariant
  import opened ResultChannelTheorems

  lemma InsertSucceeds(sha: Sha256, sid: string, s: Session, maxJsonBytes: int, freshId: string,
                       answers: string, defaults: Defaults, palette: Palette)
    requires SessionInv(sha, sid, s) && |s.sequences| < MAX_INT32
    requires ValidSequenceId(freshId) && maxJsonBytes >= MAX_JSON_BYTES
    requires BuildPayload(sha, sid, "rgb-probe", 1, answers, defaults, palette, []).Some?
    ensures InsertRevision(sha, sid, s, false, maxJsonBytes, freshId, answers, defaults, palette).Ok?
  {
    hide CompactJsonBytes, CanonicalBytes, StoredOk;
    var n := NextRevision(s.sequences);
    NextIsCount(sha, sid, s.sequences);
    BuiltPayload(sha, sid, freshId, n, answers, defaults, palette, []);
    CompactJsonFits(BuildPayload(sha, sid, freshId, n, answers, defaults, palette, []).value);
  }

  /**
   With the default limit and a fresh id, a publication raises if and only if the answers are accepted and the
   settings are unreadable or out of range.
   */
  lemma PublicationSucceeds(sha: Sha256, sid: string, s: Session, settings: Settings, req: PublishRequest)
    requires SessionInv(sha, sid, s) && |s.sequences| < MAX_INT32
    requires ValidSequenceId(req.freshId) && settings.maxJsonBytes >= MAX_JSON_BYTES
    ensures Publish(sha, sid, s, false, settings, req).Ok? <==>
      || s.status == S.CANCELLED || !settings.enabled
      || P.Verdict(req.expected, multiset(req.candidates), settings.maxItems).Err?
      || Requested(sha, sid, settings, req).Some?
  {
    hide BuildPayload, InsertRevision, FindReusable, RowsOk, ChosenDefaults, SnapshotPalette;
    var verdict := P.Verdict(req.expected, multiset(req.candidates), settings.maxItems);
    if s.status != S.CANCELLED && settings.enabled && verdict.Ok? && Requested(sha, sid, settings, req).Some? {
      var marked := if Announced(s) then s else Advance(s, RESULT_PROCESSING, None, None).value;
      InsertSucceeds(sha, sid, marked, settings.maxJsonBytes, req.freshId, verdict.value,
                     ChosenDefaults(settings.defaults, req.config), SnapshotPalette(req.config));
    }
  }

  // ---------- One session with one answer ----------

  const SHIPPED: Settings := Settings(true, 1000, MAX_JSON_BYTES, Defaults(12, 3000, 5000))

  const PLAIN: Config := Config(Absent, Absent, Absent, None, false)

  const ANSWER: P.Candidate := P.Candidate(1, Some("A"), true, "ANSWERED")

  const CREATE: Step := CreateSession("exam", "device", "gateway")

  const ONE_ANSWER: PublishRequest := PublishRequest(1, [ANSWER], PLAIN, "rgb-1")

  lemma OneAnswerAccepted()
    ensures P.Verdict(1, multiset([ANSWER]), 1000) == Ok("A")
  {
    var cs := multiset([ANSWER]);
    assert ANSWER in cs;
    assert P.HasNumber(cs, 1);
    P.AcceptedExactly(1, cs, 1000);
    P.AcceptedLetters(1, cs, 1000, ANSWER);
    assert P.Verdict(1, cs, 1000).value == "A";
  }

  lemma OneAnswerRequested(sha: Sha256)
    ensures Requested(sha, "exam", SHIPPED, ONE_ANSWER).Some?
  {
    hide CanonicalBytes;
    OneAnswerAccepted();
    assert ValidSequenceId("rgb-probe");
    assert SnapshotPalette(PLAIN) == DEFAULT_PALETTE;
    assert ValidPayload(Draft("exam", "rgb-probe", 1, "A", SHIPPED.defaults, DEFAULT_PALETTE, []));
  }

  /** The answer is announced for any session that has no revision yet and is not cancelled. */
  lemma OneAnswerPublished(sha: Sha256, s: Session)
    requires s.sequences == [] && DeliveryOk(s) && s.status != S.CANCELLED
    ensures var r := Publish(sha, "exam", s, false, SHIPPED, ONE_ANSWER);
      && r.Ok? && Announced(r.value.session) && r.value.session.status == s.status
      && DeliveryOk(r.value.session)
      && CursorLaw(s, PublishStep("exam", SHIPPED, ONE_ANSWER), r.value.session)
  {
    hide Publish, Requested, CursorLaw, DeliveryOk;
    OneAnswerRequested(sha);
    OneAnswerAccepted();
    assert ValidSequenceId("rgb-1");
    PublicationSucceeds(sha, "exam", s, SHIPPED, ONE_ANSWER);
    PublicationShowsAnswers(sha, "exam", s, false, SHIPPED, ONE_ANSWER);
    PublishKeeps(sha, "exam", s, false, SHIPPED, ONE_ANSWER);
    PublishCursor(sha, "exam", s, false, PublishStep("exam", SHIPPED, ONE_ANSWER));
    PublishExtends(sha, "exam", s, false, SHIPPED, ONE_ANSWER);
  }

  predicate OnlyExam(db: Db, s: Session) {
    db.sessions == map["exam" := s]
  }

  lemma OneAnswerStep(sha: Sha256, db: Db, s: Session)
    requires OnlyExam(db, s) && s.sequences == [] && DeliveryOk(s) && s.status != S.CANCELLED
    ensures var db' := Apply(sha, db, PublishStep("exam", SHIPPED, ONE_ANSWER));
      && Commits(sha, db, PublishStep("exam", SHIPPED, ONE_ANSWER))
      && "exam" in db'.sessions
      && var s' := db'.sessions["exam"];
      && OnlyExam(db', s') && Announced(s') && s'.status == s.status && DeliveryOk(s')
      && CursorLaw(s, PublishStep("exam", SHIPPED, ONE_ANSWER), s')
  {
    hide Publish, CursorLaw, DeliveryOk;
    OneAnswerPublished(sha, s);
    assert !IdTaken(db, "rgb-1");
  }

  lemma RunOfOne(sha: Sha256, db: Db, step: Step)
    ensures Run(sha, db, [step]) == Apply(sha, db, step)
  {
    hide Apply;
    assert [step][1..] == [];
    assert Run(sha, Apply(sha, db, step), []) == Apply(sha, db, step);
  }

  lemma RunOfTwo(sha: Sha256, db: Db, first: Step, second: Step)
    ensures Run(sha, db, [first, second]) == Apply(sha, Apply(sha, db, first), second)
  {
    hide Apply;
    assert [first, second][1..] == [second];
    RunOfOne(sha, Apply(sha, db, first), second);
  }

  lemma Created(sha: Sha256)
    ensures OnlyExam(Apply(sha, EMPTY, CREATE), Session(S.CAPTURING, "device", "gateway", None, []))
  {
    hide Publish, RecordEvent;
  }

  // ---------- Cancelling what a retry has put into CANCELLED ----------

  function Transitions(sid: string, targets: seq<S.State>): (steps: seq<Step>)
    ensures |steps| == |targets|
    ensures forall i :: 0 <= i < |targets| ==> steps[i] == TransitionStep(sid, targets[i])
  {
    seq(|targets|, i requires 0 <= i < |targets| => TransitionStep(sid, targets[i]))
  }

  lemma {:induction false} RunAppend(sha: Sha256, db: Db, first: seq<Step>, second: seq<Step>)
    ensures Run(sha, db, first + second) == Run(sha, Run(sha, db, first), second)
    decreases |first|
  {
    if first == [] {
      assert first + second == second;
    } else {
      assert (first + second)[1..] == first[1..] + second;
      RunAppend(sha, Apply(sha, db, first[0]), first[1..], second);
    }
  }

  /** A path of the table can be walked by transitions; they change the status and nothing else. */
  lemma {:induction false} Walk(sha: Sha256, db: Db, s: Session, targets: seq<S.State>)
    requires OnlyExam(db, s) && S.IsPath([s.status] + targets) && targets != []
    ensures var db' := Run(sha, db, Transitions("exam", targets));
      OnlyExam(db', s.(status := targets[|targets| - 1]))
    decreases |targets|
  {
    hide Apply, S.Allowed;
    var steps := Transitions("exam", targets);
    var path := [s.status] + targets;
    assert path[1] in S.Allowed(path[0]);
    var moved := s.(status := targets[0]);
    TransitionOnly(sha, db, s, targets[0]);
    assert steps[0] == TransitionStep("exam", targets[0]);
    assert steps[1..] == Transitions("exam", targets[1..]);
    if |targets| == 1 {
      assert Run(sha, Apply(sha, db, steps[0]), steps[1..]) == Apply(sha, db, steps[0]);
    } else {
      assert [moved.status] + targets[1..] == path[1..];
      Walk(sha, Apply(sha, db, steps[0]), moved, targets[1..]);
    }
  }

  lemma TransitionOnly(sha: Sha256, db: Db, s: Session, target: S.State)
    requires OnlyExam(db, s) && target in S.Allowed(s.status)
    ensures OnlyExam(Apply(sha, db, TransitionStep("exam", target)), s.(status := target))
  {
    hide S.Allowed, Publish, RecordEvent;
  }

  const PROCESSING: seq<S.State> :=
    [S.IMAGE_PROCESSING, S.OCR_PROCESSING, S.RECONSTRUCTING, S.GATE_1, S.RAG_RETRIEVING, S.SOLVING, S.VERIFYING,
     S.GATE_2, S.TTS_GENERATING]

  /** The audio stages fail, and the admin retries from stage CANCELLED. */
  const RETRIED: seq<S.State> := [S.AUDIO_ASSEMBLING, S.AUDIO_VALIDATING, S.FAILED_RECOVERABLE, S.CANCELLED]

  const RETRY_RUN: seq<Step> :=
    [CREATE, EndSignalStep("exam")] + Transitions("exam", PROCESSING)
    + [PublishStep("exam", SHIPPED, ONE_ANSWER)] + Transitions("exam", RETRIED)

  lemma CapturedRun(sha: Sha256)
    ensures OnlyExam(Run(sha, EMPTY, [CREATE, EndSignalStep("exam")]),
                     Session(S.LOCKED, "device", "gateway",
                             Some(Delivery("device", "gateway", RESULT_PROCESSING, 1, None, None)), []))
  {
    hide Run, Publish, RecordEvent;
    RunOfTwo(sha, EMPTY, CREATE, EndSignalStep("exam"));
    Created(sha);
  }

  lemma Walkable()
    ensures S.IsPath([S.LOCKED] + PROCESSING) && S.IsPath([S.TTS_GENERATING] + RETRIED)
  {
  }

  lemma AnnouncedRun(sha: Sha256)
    ensures var db := Run(sha, EMPTY, [CREATE, EndSignalStep("exam")] + Transitions("exam", PROCESSING)
                                      + [PublishStep("exam", SHIPPED, ONE_ANSWER)]);
      && "exam" in db.sessions
      && var s := db.sessions["exam"];
      && OnlyExam(db, s) && s.status == S.TTS_GENERATING && Announced(s) && DeliveryOk(s)
  {
    hide Apply, Run, CursorLaw, S.IsPath, OnlyExam, DeliveryOk;
    var captured, publish := [CREATE, EndSignalStep("exam")], PublishStep("exam", SHIPPED, ONE_ANSWER);
    var locked := Session(S.LOCKED, "device", "gateway",
                          Some(Delivery("device", "gateway", RESULT_PROCESSING, 1, None, None)), []);
    CapturedRun(sha);
    Walkable();
    RunAppend(sha, EMPTY, captured, Transitions("exam", PROCESSING));
    Walk(sha, Run(sha, EMPTY, captured), locked, PROCESSING);
    var db := Run(sha, EMPTY, captured + Transitions("exam", PROCESSING));
    LockedOk();
    OneAnswerStep(sha, db, locked.(status := S.TTS_GENERATING));
    RunAppend(sha, EMPTY, captured + Transitions("exam", PROCESSING), [publish]);
    RunOfOne(sha, db, publish);
  }

  lemma LockedOk()
    ensures DeliveryOk(Session(S.TTS_GENERATING, "device", "gateway",
                               Some(Delivery("device", "gateway", RESULT_PROCESSING, 1, None, None)), []))
  {
  }

  lemma RetryRun(sha: Sha256)
    ensures var db := Run(sha, EMPTY, RETRY_RUN);
      && "exam" in db.sessions
      && var s := db.sessions["exam"];
      && OnlyExam(db, s) && s.status == S.CANCELLED && Announced(s) && DeliveryOk(s)
  {
    hide Apply, Run, S.IsPath;
    var published := [CREATE, EndSignalStep("exam")] + Transitions("exam", PROCESSING)
      + [PublishStep("exam", SHIPPED, ONE_ANSWER)];
    AnnouncedRun(sha);
    Walkable();
    var db := Run(sha, EMPTY, published);
    RunAppend(sha, EMPTY, published, Transitions("exam", RETRIED));
    Walk(sha, db, db.sessions["exam"], RETRIED);
  }

  /**
   The failing run: a session whose result is announced fails in the audio stages and is retried from stage
   CANCELLED. The admin's cancellation then succeeds, writes nothing, and polls still show RGB_SEQUENCE_READY.
   */
  lemma CancelAfterRetry(sha: Sha256)
    ensures var db := Run(sha, EMPTY, RETRY_RUN);
      && "exam" in db.sessions
      && var s := db.sessions["exam"];
      && s.status == S.CANCELLED && Cancel(s) == Ok(s)
      && Apply(sha, db, CancelStep("exam")) == db
      && Poll(s, 0, true).Some? && Poll(s, 0, true).value.command == RGB_SEQUENCE_READY
      && !FencedFrom(sha, Apply(sha, db, CancelStep("exam")), "exam")
  {
    hide Run, FencedFrom;
    RetryRun(sha);
    var db := Run(sha, EMPTY, RETRY_RUN);
    assert db.sessions["exam"] == db.sessions["exam"];
    CancellationFence(sha, RETRY_RUN, "exam");
    assert db.sessions == db.sessions["exam" := db.sessions["exam"]];
  }

  // ---------- Publications that move the cursor by two ----------

  const DISABLED: Settings := SHIPPED.(enabled := false)

  const NO_ANSWERS: PublishRequest := PublishRequest(0, [], PLAIN, "rgb-1")

  lemma Switched(sha: Sha256)
    ensures var s := Session(S.CAPTURING, "device", "gateway", None, []);
      var r := Publish(sha, "exam", s, false, DISABLED, ONE_ANSWER);
      && r.Ok? && DeliveryOk(r.value.session) && r.value.session.sequences == []
      && r.value.session == s.(delivery := Some(Delivery("device", "gateway", RESULT_CANCELLED, 1, None,
                                                         Some("RGB_RESULTS_DISABLED"))))
  {
  }

  /** Enabling results again announces the answers with a cursor two higher, although the record changed once. */
  lemma ReenabledMovesByTwo(sha: Sha256)
    ensures var db := Run(sha, EMPTY, [CREATE, PublishStep("exam", DISABLED, ONE_ANSWER)]);
      var db' := Apply(sha, db, PublishStep("exam", SHIPPED, ONE_ANSWER));
      && "exam" in db.sessions && "exam" in db'.sessions
      && db.sessions["exam"].delivery.Some? && db'.sessions["exam"].delivery.Some?
      && db.sessions["exam"].delivery.value.command == RESULT_CANCELLED
      && db'.sessions["exam"].delivery.value.command == RGB_SEQUENCE_READY
      && db'.sessions["exam"].delivery.value.cursor == db.sessions["exam"].delivery.value.cursor + 2
  {
    hide Run, Requested;
    RunOfTwo(sha, EMPTY, CREATE, PublishStep("exam", DISABLED, ONE_ANSWER));
    Created(sha);
    Switched(sha);
    hide Publish;
    var db := Run(sha, EMPTY, [CREATE, PublishStep("exam", DISABLED, ONE_ANSWER)]);
    OneAnswerStep(sha, db, db.sessions["exam"]);
  }

  /** A publication refused twice for the same reason moves the cursor by two and leaves the record the same. */
  lemma RefusedTwiceMovesByTwo(sha: Sha256)
    ensures var db := Run(sha, EMPTY, [CREATE, PublishStep("exam", SHIPPED, NO_ANSWERS)]);
      var db' := Apply(sha, db, PublishStep("exam", SHIPPED, NO_ANSWERS));
      && "exam" in db.sessions && "exam" in db'.sessions
      && db.sessions["exam"].delivery.Some? && db'.sessions["exam"].delivery.Some?
      && SameRecord(db.sessions["exam"].delivery.value, db'.sessions["exam"].delivery.value)
      && db'.sessions["exam"].delivery.value.cursor == db.sessions["exam"].delivery.value.cursor + 2
  {
    hide Run;
    RunOfTwo(sha, EMPTY, CREATE, PublishStep("exam", SHIPPED, NO_ANSWERS));
    Created(sha);
    hide Apply;
    var created := Apply(sha, EMPTY, CREATE);
    var refused := Session(S.CAPTURING, "device", "gateway", None, []);
    RefusedStep(sha, created, refused);
    RefusedStep(sha, Apply(sha, created, PublishStep("exam", SHIPPED, NO_ANSWERS)), refused.(delivery := Some(REFUSAL)));
  }

  const REFUSAL: Delivery :=
    Delivery("device", "gateway", RESULT_CANCELLED, 2, None, Some("RGB_EXPECTED_QUESTION_COUNT_OUT_OF_RANGE"))

  lemma RefusedStep(sha: Sha256, db: Db, s: Session)
    requires OnlyExam(db, s) && s.status == S.CAPTURING && s.device == "device" && s.gateway == "gateway"
    requires s.delivery == None || s.delivery == Some(REFUSAL)
    ensures OnlyExam(Apply(sha, db, PublishStep("exam", SHIPPED, NO_ANSWERS)),
                     s.(delivery := Some(REFUSAL.(cursor := if s.delivery == None then 2 else 4))))
  {
    hide PublishAnswers;
  }
}
