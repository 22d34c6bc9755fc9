/** The session state machine: the transition table and the one operation that changes a session's status. */
module SessionStates {
  import opened Wrappers

  datatype State =
    | CREATED | CAPTURING | CAPTURE_END_CANDIDATE | CAPTURE_LOCKING | LOCKED
    | IMAGE_PROCESSING | OCR_PROCESSING | RECONSTRUCTING | RESCUE_PROCESSING
    | GATE_1 | BLOCKED_GATE_1 | RAG_RETRIEVING | SOLVING | VERIFYING | ARBITRATING
    | GATE_2 | BLOCKED_GATE_2 | STATUS_AUDIO | TTS_GENERATING | AUDIO_ASSEMBLING
    | AUDIO_VALIDATING | READY | COMPLETED | FAILED_RECOVERABLE | FAILED_FATAL | CANCELLED

  function Allowed(s: State): set<State> {
    match s
    case CREATED => {CAPTURING, CANCELLED}
    case CAPTURING => {CAPTURE_END_CANDIDATE, CANCELLED, FAILED_RECOVERABLE}
    case CAPTURE_END_CANDIDATE => {CAPTURING, CAPTURE_LOCKING, CANCELLED}
    case CAPTURE_LOCKING => {LOCKED, FAILED_RECOVERABLE, CANCELLED}
    case LOCKED => {IMAGE_PROCESSING, CANCELLED}
    case IMAGE_PROCESSING => {OCR_PROCESSING, FAILED_RECOVERABLE}
    case OCR_PROCESSING => {RECONSTRUCTING, FAILED_RECOVERABLE}
    case RECONSTRUCTING => {RESCUE_PROCESSING, GATE_1, FAILED_RECOVERABLE}
    case RESCUE_PROCESSING => {GATE_1, FAILED_RECOVERABLE}
    case GATE_1 => {BLOCKED_GATE_1, RAG_RETRIEVING}
    case BLOCKED_GATE_1 => {STATUS_AUDIO, FAILED_FATAL}
    case RAG_RETRIEVING => {SOLVING, FAILED_RECOVERABLE}
    case SOLVING => {VERIFYING, FAILED_RECOVERABLE}
    case VERIFYING => {ARBITRATING, GATE_2, FAILED_RECOVERABLE}
    case ARBITRATING => {GATE_2, RESCUE_PROCESSING, FAILED_RECOVERABLE}
    case GATE_2 => {BLOCKED_GATE_2, STATUS_AUDIO, TTS_GENERATING}
    case BLOCKED_GATE_2 => {STATUS_AUDIO, FAILED_FATAL}
    case STATUS_AUDIO => {TTS_GENERATING, COMPLETED, FAILED_FATAL}
    case TTS_GENERATING => {AUDIO_ASSEMBLING, FAILED_RECOVERABLE}
    case AUDIO_ASSEMBLING => {AUDIO_VALIDATING, FAILED_RECOVERABLE}
    case AUDIO_VALIDATING => {READY, FAILED_RECOVERABLE}
    case READY => {COMPLETED}
    case FAILED_RECOVERABLE =>
      {IMAGE_PROCESSING, OCR_PROCESSING, RECONSTRUCTING, RESCUE_PROCESSING, RAG_RETRIEVING, SOLVING,
       VERIFYING, ARBITRATING, AUDIO_ASSEMBLING, AUDIO_VALIDATING, FAILED_FATAL, CANCELLED}
    case COMPLETED => {}
    case FAILED_FATAL => {}
    case CANCELLED => {}
  }

  /** The table read the other way: the states from which a state can be entered. */
  function Sources(target: State): set<State> {
    match target
    case CREATED => {}
    case CAPTURING => {CREATED, CAPTURE_END_CANDIDATE}
    case CAPTURE_END_CANDIDATE => {CAPTURING}
    case CAPTURE_LOCKING => {CAPTURE_END_CANDIDATE}
    case LOCKED => {CAPTURE_LOCKING}
    case IMAGE_PROCESSING => {LOCKED, FAILED_RECOVERABLE}
    case OCR_PROCESSING => {IMAGE_PROCESSING, FAILED_RECOVERABLE}
    case RECONSTRUCTING => {OCR_PROCESSING, FAILED_RECOVERABLE}
    case RESCUE_PROCESSING => {RECONSTRUCTING, ARBITRATING, FAILED_RECOVERABLE}
    case GATE_1 => {RECONSTRUCTING, RESCUE_PROCESSING}
    case BLOCKED_GATE_1 => {GATE_1}
    case RAG_RETRIEVING => {GATE_1, FAILED_RECOVERABLE}
    case SOLVING => {RAG_RETRIEVING, FAILED_RECOVERABLE}
    case VERIFYING => {SOLVING, FAILED_RECOVERABLE}
    case ARBITRATING => {VERIFYING, FAILED_RECOVERABLE}
    case GATE_2 => {VERIFYING, ARBITRATING}
    case BLOCKED_GATE_2 => {GATE_2}
    case STATUS_AUDIO => {BLOCKED_GATE_1, GATE_2, BLOCKED_GATE_2}
    case TTS_GENERATING => {GATE_2, STATUS_AUDIO}
    case AUDIO_ASSEMBLING => {TTS_GENERATING, FAILED_RECOVERABLE}
    case AUDIO_VALIDATING => {AUDIO_ASSEMBLING, FAILED_RECOVERABLE}
    case READY => {AUDIO_VALIDATING}
    case FAILED_RECOVERABLE =>
      {CAPTURING, CAPTURE_LOCKING, IMAGE_PROCESSING, OCR_PROCESSING, RECONSTRUCTING, RESCUE_PROCESSING, RAG_RETRIEVING,
       SOLVING, VERIFYING, ARBITRATING, TTS_GENERATING, AUDIO_ASSEMBLING, AUDIO_VALIDATING}
    case COMPLETED => {STATUS_AUDIO, READY}
    case FAILED_FATAL => {BLOCKED_GATE_1, BLOCKED_GATE_2, STATUS_AUDIO, FAILED_RECOVERABLE}
    case CANCELLED => {CREATED, CAPTURING, CAPTURE_END_CANDIDATE, CAPTURE_LOCKING, LOCKED, FAILED_RECOVERABLE}
  }

  predicate CaptureState(s: State) {
    s in {CREATED, CAPTURING, CAPTURE_END_CANDIDATE, CAPTURE_LOCKING, LOCKED, IMAGE_PROCESSING, OCR_PROCESSING, RECONSTRUCTING}
  }

  predicate ReadingState(s: State) {
    s in {RESCUE_PROCESSING, GATE_1, BLOCKED_GATE_1, RAG_RETRIEVING, SOLVING, VERIFYING, ARBITRATING}
  }

  predicate AudioState(s: State) {
    s in {GATE_2, BLOCKED_GATE_2, STATUS_AUDIO, TTS_GENERATING, AUDIO_ASSEMBLING, AUDIO_VALIDATING, READY}
  }

  predicate EndState(s: State) {
    s in {FAILED_RECOVERABLE, COMPLETED, FAILED_FATAL, CANCELLED}
  }

  lemma CaptureAllowed(source: State, target: State)
    requires CaptureState(source)
    ensures target in Allowed(source) ==> source in Sources(target)
  {
    match source
    case CREATED =>
    case CAPTURING =>
    case CAPTURE_END_CANDIDATE =>
    case CAPTURE_LOCKING =>
    case LOCKED =>
    case IMAGE_PROCESSING =>
    case OCR_PROCESSING =>
    case _ =>
  }

  lemma ReadingAllowed(source: State, target: State)
    requires ReadingState(source)
    ensures target in Allowed(source) ==> source in Sources(target)
  {
    match source
    case RESCUE_PROCESSING =>
    case GATE_1 =>
    case BLOCKED_GATE_1 =>
    case RAG_RETRIEVING =>
    case SOLVING =>
    case VERIFYING =>
    case _ =>
  }

  lemma AudioAllowed(source: State, target: State)
    requires AudioState(source)
    ensures target in Allowed(source) ==> source in Sources(target)
  {
    match source
    case GATE_2 =>
    case BLOCKED_GATE_2 =>
    case STATUS_AUDIO =>
    case TTS_GENERATING =>
    case AUDIO_ASSEMBLING =>
    case AUDIO_VALIDATING =>
    case _ =>
  }

  lemma EndAllowed(source: State, target: State)
    requires EndState(source)
    ensures target in Allowed(source) ==> source in Sources(target)
  {
    match source
    case FAILED_RECOVERABLE =>
    case COMPLETED =>
    case FAILED_FATAL =>
    case _ =>
  }

  lemma CaptureSources(source: State, target: State)
    requires CaptureState(target)
    ensures source in Sources(target) ==> target in Allowed(source)
  {
    match target
    case CREATED =>
    case CAPTURING =>
    case CAPTURE_END_CANDIDATE =>
    case CAPTURE_LOCKING =>
    case LOCKED =>
    case IMAGE_PROCESSING =>
    case OCR_PROCESSING =>
    case _ =>
  }

  lemma ReadingSources(source: State, target: State)
    requires ReadingState(target)
    ensures source in Sources(target) ==> target in Allowed(source)
  {
    match target
    case RESCUE_PROCESSING =>
    case GATE_1 =>
    case BLOCKED_GATE_1 =>
    case RAG_RETRIEVING =>
    case SOLVING =>
    case VERIFYING =>
    case _ =>
  }

  lemma AudioSources(source: State, target: State)
    requires AudioState(target)
    ensures source in Sources(target) ==> target in Allowed(source)
  {
    match target
    case GATE_2 =>
    case BLOCKED_GATE_2 =>
    case STATUS_AUDIO =>
    case TTS_GENERATING =>
    case AUDIO_ASSEMBLING =>
    case AUDIO_VALIDATING =>
    case _ =>
  }

  lemma EndSources(source: State, target: State)
    requires EndState(target)
    ensures source in Sources(target) ==> target in Allowed(source)
  {
    match target
    case FAILED_RECOVERABLE =>
    case COMPLETED =>
    case FAILED_FATAL =>
    case _ =>
  }

  /** Both tables allow the same transitions. */
  lemma TableBothWays(source: State, target: State)
    ensures target in Allowed(source) <==> source in Sources(target)
  {
    hide Allowed, Sources;
    if CaptureState(source) {
      CaptureAllowed(source, target);
    } else if ReadingState(source) {
      ReadingAllowed(source, target);
    } else if AudioState(source) {
      AudioAllowed(source, target);
    } else {
      EndAllowed(source, target);
    }
    if CaptureState(target) {
      CaptureSources(source, target);
    } else if ReadingState(target) {
      ReadingSources(source, target);
    } else if AudioState(target) {
      AudioSources(source, target);
    } else {
      EndSources(source, target);
    }
  }

  predicate Terminal(s: State) {
    s in {COMPLETED, FAILED_FATAL, CANCELLED}
  }

  /** The states that still accept new captures and frames. */
  predicate UploadOpen(s: State) {
    s in {CAPTURING, CAPTURE_END_CANDIDATE, CAPTURE_LOCKING}
  }

  /** The states of a session that has left capture. */
  predicate Closed(s: State) {
    s != CREATED && !UploadOpen(s)
  }

  // ---------- Paths through the table ----------

  predicate IsPath(path: seq<State>) {
    forall i :: 0 < i < |path| ==> path[i] in Allowed(path[i - 1])
  }

  ghost predicate Reachable(from: State, to: State) {
    exists path :: IsPath(path) && |path| > 0 && path[0] == from && path[|path| - 1] == to
  }

  lemma {:induction false} ClosedPath(path: seq<State>)
    requires IsPath(path) && |path| > 0 && Closed(path[0])
    ensures Closed(path[|path| - 1])
  {
    if |path| > 1 {
      ClosedPath(path[..|path| - 1]);
    }
  }

  /** A session that has left capture never becomes open again. */
  lemma ClosedForever(from: State, to: State)
    requires Closed(from) && Reachable(from, to)
    ensures !UploadOpen(to) && to != CREATED
  {
    var path :| IsPath(path) && |path| > 0 && path[0] == from && path[|path| - 1] == to;
    ClosedPath(path);
  }

  lemma TerminalForever(from: State, to: State)
    requires Terminal(from) && Reachable(from, to)
    ensures to == from
  {
    var path :| IsPath(path) && |path| > 0 && path[0] == from && path[|path| - 1] == to;
    assert |path| > 1 ==> path[1] in Allowed(path[0]);
  }

  lemma ReachableStep(from: State, mid: State, to: State)
    requires Reachable(from, mid) && to in Allowed(mid)
    ensures Reachable(from, to)
  {
    var path :| IsPath(path) && |path| > 0 && path[0] == from && path[|path| - 1] == mid;
    var longer := path + [to];
    assert IsPath(longer) && longer[0] == from && longer[|longer| - 1] == to;
  }

  // ---------- The audited transition ----------

  datatype Audit =
    | StateTransition(source: State, target: State)
    | InvalidTransition(source: State, target: State)

  /** The status an audit trail leads to, or None if the trail could not have been written. */
  function Replay(initial: State, trail: seq<Audit>): Option<State> {
    if trail == [] then Some(initial)
    else
      match Replay(initial, trail[..|trail| - 1])
      case None => None
      case Some(current) =>
        match trail[|trail| - 1]
        case StateTransition(source, target) =>
          if source == current && target in Allowed(current) then Some(target) else None
        case InvalidTransition(source, target) =>
          if source == current && target !in Allowed(current) then Some(current) else None
  }

  lemma {:induction false} ReplayIsReachable(initial: State, trail: seq<Audit>)
    requires Replay(initial, trail).Some?
    ensures Reachable(initial, Replay(initial, trail).value)
  {
    if trail == [] {
      assert IsPath([initial]) && [initial][0] == initial;
    } else {
      var before := trail[..|trail| - 1];
      ReplayIsReachable(initial, before);
      if trail[|trail| - 1].StateTransition? {
        ReachableStep(initial, Replay(initial, before).value, trail[|trail| - 1].target);
      }
    }
  }

  /** An event can be added to a trail exactly if it starts from its status and tells rightly whether the table allows it. */
  lemma TrailMeaning(initial: State, trail: seq<Audit>, e: Audit)
    ensures Replay(initial, trail + [e]).Some? <==>
            && Replay(initial, trail).Some?
            && e.source == Replay(initial, trail).value
            && (e.StateTransition? <==> e.target in Allowed(e.source))
  {
    hide Allowed;
    assert (trail + [e])[..|trail|] == trail;
  }

  /** Both audit events continue a trail, the one with the new status and the other with the old. */
  lemma ReplayPush(initial: State, trail: seq<Audit>, target: State)
    requires Replay(initial, trail).Some?
    ensures var current := Replay(initial, trail).value;
            if target in Allowed(current) then
              Replay(initial, trail + [StateTransition(current, target)]) == Some(target)
            else
              Replay(initial, trail + [InvalidTransition(current, target)]) == Some(current)
  {
    hide Allowed;
    var current := Replay(initial, trail).value;
    assert (trail + [StateTransition(current, target)])[..|trail|] == trail;
    assert (trail + [InvalidTransition(current, target)])[..|trail|] == trail;
  }

  lemma ClosedStep(from: State, to: State)
    ensures Closed(from) && to in Allowed(from) ==> Closed(to)
  {
  }

  class SessionRow {
    const initial: State
    var status: State
    var trail: seq<Audit>

    /** The audit trail explains the status. */
    ghost predicate Valid()
      reads this
    {
      Replay(initial, trail) == Some(status)
    }

    constructor (initial: State)
      ensures Valid() && status == initial && this.initial == initial && trail == []
    {
      this.initial := initial;
      status := initial;
      trail := [];
    }

    /** transition_session: false stands for InvalidStateTransition, raised after its audit event. */
    method TransitionSession(target: State) returns (ok: bool)
      requires Valid()
      modifies this
      ensures Valid()
      ensures ok <==> target in Allowed(old(status))
      ensures status == if ok then target else old(status)
      ensures |trail| == |old(trail)| + 1 && trail[..|old(trail)|] == old(trail)
      ensures trail[|old(trail)|] ==
        if ok then StateTransition(old(status), target) else InvalidTransition(old(status), target)
      ensures old(Closed(status)) ==> Closed(status)
    {
      hide Replay, Allowed, Closed;
      ReplayPush(initial, trail, target);
      ClosedStep(status, target);
      var current := status;
      if target !in Allowed(current) {
        trail := trail + [InvalidTransition(current, target)];
        return false;
      }
      status := target;
      trail := trail + [StateTransition(current, target)];
      return true;
    }
  }

  /** Whatever transitions were attempted, a valid trail of a session that closed keeps it closed. */
  lemma {:induction false} TrailNeverReopens(initial: State, earlier: seq<Audit>, later: seq<Audit>)
    requires Replay(initial, earlier).Some? && Closed(Replay(initial, earlier).value)
    requires Replay(initial, earlier + later).Some?
    ensures Closed(Replay(initial, earlier + later).value)
  {
    if later == [] {
      assert earlier + later == earlier;
    } else {
      var init := later[..|later| - 1];
      assert (earlier + later)[..|earlier + later| - 1] == earlier + init;
      TrailNeverReopens(initial, earlier, init);
    }
  }
}
