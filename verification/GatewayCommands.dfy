/** Persistent gateway commands of capture/commands.py: one numbered log per session. */
module GatewayCommands {
  import opened Wrappers
  import opened Decimal
  import S = SessionStates

  const MAX_EXACT_CURSOR: nat := 0x1F_FFFF_FFFF_FFFF

  datatype Name = CAPTURE_PROBE | CAPTURE_FULL | PAUSE | RESUME | PING | STOP

  datatype Shots = Shots(frames: int, gapMs: int, frameSize: string, quality: int)

  /** What the session's state asks for. */
  datatype Wish = Wish(name: Name, shots: Option<Shots>)

  datatype Payload = Payload(captureId: string, shots: Option<Shots>)

  datatype Row = Row(cursor: nat, name: Name, payload: Option<Payload>, acked: bool, attempts: nat)

  datatype Error = CursorOutOfRange | ResponseRejected | UnknownCursor

  // ---------- The command a state asks for ----------

  /** The operator's phase, normalized; Other stands for anything else. */
  datatype Phase = PausePhase | ResumePhase | StopPhase | ProbePhase | Other

  /** Settings of an ESP32 camera; a missing or zero setting takes the default. */
  datatype Camera = Android | Esp32(frames: Option<int>, gapMs: Option<int>, frameSize: Option<string>, quality: Option<int>)

  function OrInt(value: Option<int>, default_: int): int {
    if value.Some? && value.value != 0 then value.value else default_
  }

  function OrText(value: Option<string>, default_: string): string {
    if value.Some? && value.value != "" then value.value else default_
  }

  /** _desired_command. */
  function Desired(state: S.State, phase: Phase, camera: Camera): Wish {
    if state in {S.LOCKED, S.CAPTURE_LOCKING} || S.Terminal(state) then Wish(STOP, None)
    else if state != S.CAPTURING then Wish(PING, None)
    else
      match phase
      case PausePhase => Wish(PAUSE, None)
      case ResumePhase => Wish(RESUME, None)
      case StopPhase => Wish(STOP, None)
      case ProbePhase =>
        Wish(CAPTURE_PROBE, Some(if camera.Esp32? then Shots(1, 0, "UXGA", 10) else Shots(1, 180, "1280x720", 75)))
      case Other =>
        Wish(CAPTURE_FULL, Some(
          if camera.Esp32? then
            Shots(OrInt(camera.frames, 2), OrInt(camera.gapMs, 220), OrText(camera.frameSize, "UXGA"), OrInt(camera.quality, 10))
          else Shots(3, 180, "UXGA", 92)))
  }

  /** Exactly when each command is wanted. */
  lemma DesiredMeaning(state: S.State, phase: Phase, camera: Camera)
    ensures var w := Desired(state, phase, camera);
            var ended := state in {S.LOCKED, S.CAPTURE_LOCKING, S.COMPLETED, S.FAILED_FATAL, S.CANCELLED};
            && (w.name == STOP <==> ended || (state == S.CAPTURING && phase == StopPhase))
            && (w.name == PING <==> !ended && state != S.CAPTURING)
            && (w.name == PAUSE <==> state == S.CAPTURING && phase == PausePhase)
            && (w.name == RESUME <==> state == S.CAPTURING && phase == ResumePhase)
            && (w.name == CAPTURE_PROBE <==> state == S.CAPTURING && phase == ProbePhase)
            && (w.name == CAPTURE_FULL <==> state == S.CAPTURING && phase == Other)
  {
    match phase
    case PausePhase =>
    case ResumePhase =>
    case StopPhase =>
    case ProbePhase =>
    case Other =>
  }

  /** The shots of a capture; a missing, zero or empty setting of an ESP32 camera takes its default. */
  lemma DesiredShots(state: S.State, phase: Phase, camera: Camera)
    ensures var w := Desired(state, phase, camera);
            && (w.shots.Some? <==> w.name in {CAPTURE_PROBE, CAPTURE_FULL})
            && (w.name == CAPTURE_PROBE && camera.Android? ==> w.shots == Some(Shots(1, 180, "1280x720", 75)))
            && (w.name == CAPTURE_PROBE && camera.Esp32? ==> w.shots == Some(Shots(1, 0, "UXGA", 10)))
            && (w.name == CAPTURE_FULL && camera.Android? ==> w.shots == Some(Shots(3, 180, "UXGA", 92)))
            && (w.name == CAPTURE_FULL && camera.Esp32? ==>
                  var shots := w.shots.value;
                  && shots.frames == (if camera.frames in {None, Some(0)} then 2 else camera.frames.value)
                  && shots.gapMs == (if camera.gapMs in {None, Some(0)} then 220 else camera.gapMs.value)
                  && shots.frameSize == (if camera.frameSize in {None, Some("")} then "UXGA" else camera.frameSize.value)
                  && shots.quality == (if camera.quality in {None, Some(0)} then 10 else camera.quality.value))
  {
  }

  // ---------- The log ----------

  function CaptureId(name: Name, cursor: nat): string
    requires name in {CAPTURE_FULL, CAPTURE_PROBE}
  {
    "cap-" + Pad3(cursor) + if name == CAPTURE_FULL then "-full" else "-probe"
  }

  /** _payload_for: only captures carry a payload. */
  function PayloadFor(wish: Wish, cursor: nat): Option<Payload> {
    if wish.name in {CAPTURE_FULL, CAPTURE_PROBE} then Some(Payload(CaptureId(wish.name, cursor), wish.shots)) else None
  }

  function Find(log: seq<Row>, cursor: nat): (r: Option<nat>)
    ensures r.Some? ==> r.value < |log| && log[r.value].cursor == cursor
    ensures r.None? ==> forall i :: 0 <= i < |log| ==> log[i].cursor != cursor
  {
    if log == [] then None
    else if log[|log| - 1].cursor == cursor then Some(|log| - 1)
    else Find(log[..|log| - 1], cursor)
  }

  /** max(cursor), 0 for an empty log. */
  function MaxCursor(log: seq<Row>): (m: nat)
    ensures forall i :: 0 <= i < |log| ==> log[i].cursor <= m
    ensures log == [] ==> m == 0
    ensures log != [] ==> exists i :: 0 <= i < |log| && log[i].cursor == m
  {
    if log == [] then 0
    else
      var n := |log| - 1;
      var before := MaxCursor(log[..n]);
      assert forall i :: 0 <= i < n ==> log[..n][i] == log[i];
      if n == 0 || log[n].cursor > before then log[n].cursor else before
  }

  datatype Answer = Answer(log: seq<Row>, row: Row)

  /** next_persistent_command, with the wish left when the long poll ends, and the route's response model. */
  function Next(log: seq<Row>, client: int, wish: Wish): Result<Answer, Error> {
    var target := client + 1;
    if client < 0 || client > MAX_EXACT_CURSOR || target > MAX_EXACT_CURSOR then Err(CursorOutOfRange)
    else
      match Find(log, target)
      case Some(k) => Ok(Answer(log, log[k]))
      case None =>
        var next := if log != [] && MaxCursor(log) >= target then MaxCursor(log) + 1 else target;
        var row := Row(next, wish.name, PayloadFor(wish, next), false, 0);
        if next > MAX_EXACT_CURSOR then Err(ResponseRejected) else Ok(Answer(log + [row], row))
  }

  /** ack_command. */
  function Ack(log: seq<Row>, cursor: nat): Result<seq<Row>, Error> {
    match Find(log, cursor)
    case None => Err(UnknownCursor)
    case Some(k) =>
      if log[k].acked then Ok(log) else Ok(log[k := log[k].(acked := true, attempts := log[k].attempts + 1)])
  }

  // ---------- Steps and runs ----------

  datatype Step = NextStep(client: int, wish: Wish) | AckStep(cursor: nat)

  function Apply(log: seq<Row>, step: Step): seq<Row> {
    match step
    case NextStep(client, wish) => (match Next(log, client, wish) case Ok(a) => a.log case Err(_) => log)
    case AckStep(cursor) => (match Ack(log, cursor) case Ok(l) => l case Err(_) => log)
  }

  function Run(log: seq<Row>, steps: seq<Step>): seq<Row>
    decreases |steps|
  {
    if steps == [] then log else Apply(Run(log, steps[..|steps| - 1]), steps[|steps| - 1])
  }

  // ---------- Every run ----------

  /** Cursors increase in the order of issue and stay exact; a capture's id is made from its cursor. */
  ghost predicate LogOk(log: seq<Row>) {
    && (forall i, j :: 0 <= i < j < |log| ==> log[i].cursor < log[j].cursor)
    && (forall i :: 0 <= i < |log| ==> 1 <= log[i].cursor <= MAX_EXACT_CURSOR)
    && (forall i :: 0 <= i < |log| ==>
          log[i].payload.Some? ==>
            log[i].name in {CAPTURE_FULL, CAPTURE_PROBE} && log[i].payload.value.captureId == CaptureId(log[i].name, log[i].cursor))
  }

  /** Issued rows keep their cursor, command and payload. */
  ghost predicate Extends(log: seq<Row>, log': seq<Row>) {
    && |log| <= |log'|
    && forall i :: 0 <= i < |log| ==>
         log'[i].cursor == log[i].cursor && log'[i].name == log[i].name && log'[i].payload == log[i].payload
         && (log[i].acked ==> log'[i] == log[i])
  }

  lemma ApplyKeeps(log: seq<Row>, step: Step)
    requires LogOk(log)
    ensures LogOk(Apply(log, step)) && Extends(log, Apply(log, step))
  {
    hide CaptureId;
  }

  lemma {:induction false} RunKeeps(log: seq<Row>, steps: seq<Step>)
    requires LogOk(log)
    ensures LogOk(Run(log, steps)) && Extends(log, Run(log, steps))
    decreases |steps|
  {
    hide Apply, LogOk;
    if steps != [] {
      RunKeeps(log, steps[..|steps| - 1]);
      ApplyKeeps(Run(log, steps[..|steps| - 1]), steps[|steps| - 1]);
    }
  }

  lemma ReachableOk(steps: seq<Step>)
    ensures LogOk(Run([], steps))
  {
    RunKeeps([], steps);
  }

  /** A capture id is its cursor in three or more digits, with its kind behind. */
  lemma CaptureIdMeaning(name: Name, cursor: nat)
    requires name in {CAPTURE_FULL, CAPTURE_PROBE}
    ensures var digits := Pad3(cursor);
            && CaptureId(name, cursor) == "cap-" + (digits + if name == CAPTURE_FULL then "-full" else "-probe")
            && Value(digits) == cursor && |digits| >= 3 && (|digits| > 3 ==> digits[0] != '0')
  {
    ValueOfDec(cursor);
    if |Dec(cursor)| < 3 {
      ValueOfLeadingZeros(3 - |Dec(cursor)|, Dec(cursor));
    }
    NoLeadingZero(cursor);
    var tail := if name == CAPTURE_FULL then "-full" else "-probe";
    assert "cap-" + Pad3(cursor) + tail == "cap-" + (Pad3(cursor) + tail);
  }

  lemma {:induction false} NoLeadingZero(n: nat)
    ensures n > 0 ==> Dec(n)[0] != '0'
  {
    if n >= 10 {
      NoLeadingZero(n / 10);
      assert Dec(n)[0] == Dec(n / 10)[0];
    }
  }

  /** A new command carries what the state asks for; a capture's payload is its id and its shots. */
  lemma NewCommand(log: seq<Row>, client: int, wish: Wish)
    requires LogOk(log) && Next(log, client, wish).Ok? && Next(log, client, wish).value.log != log
    ensures var a := Next(log, client, wish).value;
            && a.log == log + [a.row] && a.row.name == wish.name && !a.row.acked && a.row.attempts == 0
            && (a.row.cursor == client + 1 || a.row.cursor == MaxCursor(log) + 1)
            && (a.row.payload.Some? <==> wish.name in {CAPTURE_FULL, CAPTURE_PROBE})
            && (a.row.payload.Some? ==> a.row.payload.value == Payload(CaptureId(wish.name, a.row.cursor), wish.shots))
  {
    hide CaptureId;
  }

  /** A request is refused exactly if its number, or the number it would be given, is not an exact cursor. */
  lemma RefusedRequest(log: seq<Row>, client: int, wish: Wish)
    requires LogOk(log)
    ensures var r := Next(log, client, wish);
            && (r == Err(CursorOutOfRange) <==> client < 0 || client >= 0x1F_FFFF_FFFF_FFFF)
            && (r == Err(ResponseRejected) <==>
                  0 <= client < 0x1F_FFFF_FFFF_FFFF && !Issued(log, client + 1)
                  && client + 1 <= MaxCursor(log) == 0x1F_FFFF_FFFF_FFFF)
  {
    hide PayloadFor;
  }

  /** A capture id determines its kind and its cursor. */
  lemma CaptureIdInjective(a: Name, m: nat, b: Name, n: nat)
    requires a in {CAPTURE_FULL, CAPTURE_PROBE} && b in {CAPTURE_FULL, CAPTURE_PROBE}
    requires CaptureId(a, m) == CaptureId(b, n)
    ensures a == b && m == n
  {
    var s, t := CaptureId(a, m), CaptureId(b, n);
    var tailA, tailB := if a == CAPTURE_FULL then "-full" else "-probe", if b == CAPTURE_FULL then "-full" else "-probe";
    assert s[|s| - 1] == tailA[|tailA| - 1] && t[|t| - 1] == tailB[|tailB| - 1];
    assert s[4..|s| - |tailA|] == Pad3(m) && t[4..|t| - |tailB|] == Pad3(n);
    Pad3Injective(m, n);
  }

  /** No two captures of a session share an id. */
  lemma CapturesDistinct(steps: seq<Step>, i: nat, j: nat)
    requires i < j < |Run([], steps)|
    requires Run([], steps)[i].payload.Some? && Run([], steps)[j].payload.Some?
    ensures Run([], steps)[i].payload.value.captureId != Run([], steps)[j].payload.value.captureId
  {
    hide Run, CaptureId;
    var log := Run([], steps);
    ReachableOk(steps);
    if log[i].payload.value.captureId == log[j].payload.value.captureId {
      CaptureIdInjective(log[i].name, log[i].cursor, log[j].name, log[j].cursor);
    }
  }

  // ---------- Clients that follow the log ----------

  /** The log is numbered 1 to n. */
  ghost predicate Numbered(log: seq<Row>) {
    forall i :: 0 <= i < |log| ==> log[i].cursor == i + 1
  }

  predicate Issued(log: seq<Row>, cursor: int) {
    exists i :: 0 <= i < |log| && log[i].cursor == cursor
  }

  /** Every request sends 0 or a cursor that was issued before it. */
  ghost predicate Disciplined(log: seq<Row>, steps: seq<Step>) {
    forall k :: 0 <= k < |steps| && steps[k].NextStep? ==>
      steps[k].client == 0 || Issued(Run(log, steps[..k]), steps[k].client)
  }

  /**
   * On a numbered log, a request below n returns the stored command and writes nothing, and a request at n
   * appends command n + 1 as long as that is an exact cursor.
   */
  lemma NumberedNext(log: seq<Row>, client: int, wish: Wish)
    requires Numbered(log) && |log| <= MAX_EXACT_CURSOR && 0 <= client <= |log|
    ensures client < |log| ==> Next(log, client, wish) == Ok(Answer(log, log[client]))
    ensures client == |log| < MAX_EXACT_CURSOR ==>
      var row := Row(|log| + 1, wish.name, PayloadFor(wish, |log| + 1), false, 0);
      Next(log, client, wish) == Ok(Answer(log + [row], row))
    ensures client == |log| == MAX_EXACT_CURSOR ==> Next(log, client, wish) == Err(CursorOutOfRange)
  {
    hide PayloadFor;
    if client < |log| {
      assert log[client].cursor == client + 1;
    }
  }

  lemma NumberedStep(log: seq<Row>, step: Step)
    requires Numbered(log) && LogOk(log) && (step.NextStep? ==> step.client == 0 || Issued(log, step.client))
    ensures Numbered(Apply(log, step))
  {
    hide PayloadFor, CaptureId;
    if step.NextStep? {
      assert |log| > 0 ==> log[|log| - 1].cursor == |log|;
      NumberedNext(log, step.client, step.wish);
    }
  }

  /** If clients only send 0 or a cursor already issued, the log is always exactly 1 to n. */
  lemma {:induction false} DisciplinedNumbered(steps: seq<Step>)
    requires Disciplined([], steps)
    ensures Numbered(Run([], steps))
  {
    hide Apply, LogOk, Issued;
    if steps != [] {
      var n := |steps| - 1;
      forall k | 0 <= k < n && steps[..n][k].NextStep?
        ensures steps[..n][k].client == 0 || Issued(Run([], steps[..n][..k]), steps[..n][k].client)
      {
        assert steps[..n][..k] == steps[..k] && steps[..n][k] == steps[k];
      }
      DisciplinedNumbered(steps[..n]);
      ReachableOk(steps[..n]);
      NumberedStep(Run([], steps[..n]), steps[n]);
    }
  }

  // ---------- Repeating a request ----------

  /**
   * Repeating a request at once returns the same command without a write exactly when the first answer
   * was the cursor asked for; a request for a number that was jumped over appends a new command each time.
   */
  lemma RepeatedRequest(log: seq<Row>, client: int, wish: Wish, wish': Wish)
    requires LogOk(log) && Next(log, client, wish).Ok?
    ensures var a := Next(log, client, wish).value;
            && (Next(a.log, client, wish') == Ok(a) <==> a.row.cursor == client + 1)
            && (a.row.cursor == client + 1 <==> Issued(log, client + 1) || MaxCursor(log) < client + 1)
  {
    hide PayloadFor;
    var a := Next(log, client, wish).value;
    ApplyKeeps(log, NextStep(client, wish));
    assert a.log == Apply(log, NextStep(client, wish));
    match Find(log, client + 1)
    case Some(k) =>
    case None =>
      assert a.log[|log|] == a.row;
      assert Find(a.log, a.row.cursor) == Some(|log|);
      if a.row.cursor != client + 1 {
        assert Find(a.log, client + 1).None?;
      }
  }

  /** A request for a number that was jumped over appends the next command, and that number stays jumped over. */
  lemma JumpedNext(log: seq<Row>, client: nat, wish: Wish)
    requires !Issued(log, client + 1) && client + 1 <= MaxCursor(log) < MAX_EXACT_CURSOR
    ensures var r := Next(log, client, wish);
            && r.Ok? && r.value.row.cursor == MaxCursor(log) + 1 == MaxCursor(r.value.log)
            && |r.value.log| == |log| + 1 && !Issued(r.value.log, client + 1)
  {
    hide PayloadFor;
    assert Find(log, client + 1).None?;
    var a := Next(log, client, wish).value;
    assert a.log[|log|] == a.row;
    assert a.log[..|log|] == log;
  }

  /** A client that starts at 4 makes command 5; after that every request from 0 appends another command. */
  lemma JumpedOver(wish: Wish)
    ensures var log := Run([], [NextStep(4, wish)]);
            && Next(log, 0, wish).Ok? && Next(log, 0, wish).value.row.cursor == 6
            && var again := Next(Next(log, 0, wish).value.log, 0, wish);
            again.Ok? && again.value.row.cursor == 7 && |again.value.log| == 3
  {
    FirstJump(wish);
    hide Run, Next, MaxCursor, Issued;
    var log := Run([], [NextStep(4, wish)]);
    JumpedNext(log, 0, wish);
    JumpedNext(Next(log, 0, wish).value.log, 0, wish);
  }

  lemma FirstJump(wish: Wish)
    ensures var log := Run([], [NextStep(4, wish)]);
            |log| == 1 && !Issued(log, 1) && MaxCursor(log) == 5
  {
    hide PayloadFor;
    var row := Row(5, wish.name, PayloadFor(wish, 5), false, 0);
    assert Next([], 4, wish) == Ok(Answer([] + [row], row));
    hide Next;
    assert [NextStep(4, wish)][..0] == [];
    assert Run([], []) == [];
    assert Run([], [NextStep(4, wish)]) == Apply([], NextStep(4, wish));
    assert [] + [row] == [row];
  }

  /** Confirming twice is confirming once, and changes no command. */
  lemma AckTwice(log: seq<Row>, cursor: nat)
    requires LogOk(log) && Ack(log, cursor).Ok?
    ensures Ack(Ack(log, cursor).value, cursor) == Ack(log, cursor)
  {
    ApplyKeeps(log, AckStep(cursor));
    var k := Find(log, cursor).value;
    var log' := Ack(log, cursor).value;
    assert log'[k].cursor == cursor;
    assert Find(log', cursor) == Some(k);
  }

  // ---------- The rows ----------

  class CommandLog {
    var rows: seq<Row>

    ghost predicate Valid()
      reads this
    {
      LogOk(rows)
    }

    constructor ()
      ensures Valid() && rows == []
    {
      rows := [];
    }

    method NextPersistentCommand(client: int, wish: Wish) returns (r: Result<Row, Error>)
      requires Valid()
      modifies this
      ensures Valid() && rows == Apply(old(rows), NextStep(client, wish)) && Extends(old(rows), rows)
      ensures var spec := Next(old(rows), client, wish);
              r == if spec.Ok? then Ok(spec.value.row) else Err(spec.error)
    {
      hide LogOk, PayloadFor;
      ApplyKeeps(rows, NextStep(client, wish));
      if client < 0 || client > MAX_EXACT_CURSOR {
        return Err(CursorOutOfRange);
      }
      var target := client + 1;
      if target > MAX_EXACT_CURSOR {
        return Err(CursorOutOfRange);
      }
      var existing := Find(rows, target);
      if existing.Some? {
        return Ok(rows[existing.value]);
      }
      if rows != [] {
        var maxCursor := MaxCursor(rows);
        if maxCursor >= target {
          target := maxCursor + 1;
        }
      }
      var row := Row(target, wish.name, PayloadFor(wish, target), false, 0);
      if row.cursor > MAX_EXACT_CURSOR {
        // The response model refuses the cursor, which rolls the new row back.
        return Err(ResponseRejected);
      }
      rows := rows + [row];
      return Ok(row);
    }

    method AckCommand(cursor: nat) returns (r: Option<Row>)
      requires Valid()
      modifies this
      ensures Valid() && rows == Apply(old(rows), AckStep(cursor))
      ensures r.Some? <==> Issued(old(rows), cursor)
      ensures r.Some? ==> r.value in rows && r.value.cursor == cursor && r.value.acked
    {
      hide LogOk;
      ApplyKeeps(rows, AckStep(cursor));
      var k := Find(rows, cursor);
      if k.None? {
        return None;
      }
      if !rows[k.value].acked {
        rows := rows[k.value := rows[k.value].(acked := true, attempts := rows[k.value].attempts + 1)];
      }
      return Some(rows[k.value]);
    }
  }
}
