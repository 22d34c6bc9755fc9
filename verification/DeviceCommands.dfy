/** Manual RGB commands of rgb/device_commands.py: a status that is the fold of an event log, and one test at a time. */
module DeviceCommands {
  import opened Wrappers

  datatype Status = QUEUED | FORWARDED | RECEIVED | APPLIED | OFF | EXPIRED | FAILED | CANCELLED

  /** Events are named like the status they lead to. */
  type Event = s: Status | s != QUEUED witness FORWARDED

  /** An event row; system marks the ones the server writes itself. */
  datatype Entry = Entry(event: Event, key: string, payload: string, at: int, system: bool)

  /** A command row with its events in order; times are in milliseconds. */
  datatype Command = Command(id: string, status: Status, log: seq<Entry>, attempts: nat, expiresAt: int)

  datatype Device = Device(enabled: bool, commands: seq<Command>)

  type Desk = map<string, Device>

  datatype Error =
    | DeviceNotFound | DeviceDisabled | Busy | SequenceActive | LinkRefused | CommandNotFound
    | KeyMissing | KeyReused | InvalidTransition | CommandTimeout | ConstraintViolated

  predicate Active(s: Status) {
    s in {QUEUED, FORWARDED, RECEIVED, APPLIED}
  }

  /** The statuses that keep the device busy. */
  predicate Locks(s: Status) {
    Active(s) || s == CANCELLED
  }

  predicate Final(s: Status) {
    s in {OFF, FAILED, EXPIRED}
  }

  /** _next_status. */
  function NextStatus(current: Status, event: Event): Option<Status> {
    var allowed :=
      match event
      case FORWARDED => {QUEUED, FORWARDED}
      case RECEIVED => {FORWARDED, RECEIVED}
      case APPLIED => {RECEIVED, APPLIED}
      case OFF => {APPLIED, CANCELLED, OFF}
      case FAILED => {QUEUED, FORWARDED, RECEIVED, APPLIED}
      case EXPIRED => {QUEUED, FORWARDED, RECEIVED, APPLIED}
      case CANCELLED => {QUEUED, FORWARDED, RECEIVED, APPLIED, CANCELLED};
    if current in allowed then Some(event) else None
  }

  function TimeoutKey(id: string): string {
    "timeout:" + id
  }

  function StopKey(id: string): string {
    "stop:" + id
  }

  // ---------- Expiry ----------

  predicate Overdue(c: Command, now: int) {
    Active(c.status) && c.expiresAt <= now
  }

  function Expire(c: Command, now: int): Command {
    if Overdue(c, now) then
      c.(status := EXPIRED, log := c.log + [Entry(EXPIRED, TimeoutKey(c.id), "command_timeout", now, true)])
    else c
  }

  /** _expire_overdue. */
  function ExpireAll(commands: seq<Command>, now: int): (r: seq<Command>)
    ensures |r| == |commands| && forall k :: 0 <= k < |commands| ==> r[k] == Expire(commands[k], now)
  {
    seq(|commands|, k requires 0 <= k < |commands| => Expire(commands[k], now))
  }

  // ---------- Requests ----------

  function Find(commands: seq<Command>, id: string): (r: Option<nat>)
    ensures r.Some? ==> r.value < |commands| && commands[r.value].id == id
    ensures r.None? ==> forall k :: 0 <= k < |commands| ==> commands[k].id != id
  {
    if commands == [] then None
    else if commands[|commands| - 1].id == id then Some(|commands| - 1)
    else Find(commands[..|commands| - 1], id)
  }

  function FindKey(log: seq<Entry>, key: string): (r: Option<Entry>)
    ensures r.Some? ==> r.value in log && r.value.key == key
    ensures r.None? ==> forall i :: 0 <= i < |log| ==> log[i].key != key
  {
    if log == [] then None
    else if log[|log| - 1].key == key then Some(log[|log| - 1])
    else FindKey(log[..|log| - 1], key)
  }

  /** The unique constraint on (command, key). */
  predicate DistinctKeys(log: seq<Entry>) {
    forall i, j :: 0 <= i < j < |log| ==> log[i].key != log[j].key
  }

  /** Flush and commit. */
  function Settle(d: Device, commands: seq<Command>): Result<Device, Error> {
    if forall k :: 0 <= k < |commands| ==> DistinctKeys(commands[k].log) then Ok(d.(commands := commands))
    else Err(ConstraintViolated)
  }

  datatype TestRequest = TestRequest(onMs: nat, offMs: nat, repeatCount: nat)

  function Duration(req: TestRequest): nat {
    (req.onMs + req.offMs) * req.repeatCount
  }

  function ExpiresAt(req: TestRequest, now: int): int {
    now + if Duration(req) + 30000 > 30000 then Duration(req) + 30000 else 30000
  }

  predicate Busied(commands: seq<Command>) {
    exists k :: 0 <= k < |commands| && Locks(commands[k].status)
  }

  /**
   * create_manual_command, reading the clock at now and again at now2. The lookup of a running test goes
   * to the database, where the expiries just made are not flushed yet.
   */
  function Create(d: Device, id: string, idTaken: bool, req: TestRequest, sequenceActive: bool, linkRefused: bool,
                  now: int, now2: int): Result<Device, Error> {
    var expired := ExpireAll(d.commands, now);
    if !d.enabled then Err(DeviceDisabled)
    else if Busied(d.commands) then Err(Busy)
    else if sequenceActive then Err(SequenceActive)
    else if linkRefused then Err(LinkRefused)
    else if idTaken then Err(ConstraintViolated)
    else Settle(d, expired + [Command(id, QUEUED, [], 0, ExpiresAt(req, now2))])
  }

  /** get_command, as the read route runs it. */
  function Get(d: Device, id: string, now: int): Result<Device, Error> {
    if !d.enabled then Err(DeviceDisabled)
    else if Find(d.commands, id).None? then Err(CommandNotFound)
    else Settle(d, ExpireAll(d.commands, now))
  }

  /** stop_command. */
  function Stop(d: Device, id: string, actor: string, now: int, now2: int): Result<Device, Error> {
    if !d.enabled then Err(DeviceDisabled)
    else
      match Find(d.commands, id)
      case None => Err(CommandNotFound)
      case Some(k) =>
        var expired := ExpireAll(d.commands, now);
        var c := expired[k];
        if c.status in {OFF, CANCELLED, EXPIRED, FAILED} then Settle(d, expired)
        else Settle(d, expired[k := c.(status := CANCELLED, log := c.log + [Entry(CANCELLED, StopKey(id), actor, now2, true)])])
  }

  datatype Report = Report(id: string, event: Event, key: string, payload: string)

  datatype Reported = Reported(device: Device, duplicate: bool)

  /** record_event. */
  function Record(d: Device, r: Report, now: int, now2: int): Result<Reported, Error> {
    if r.key == "" then Err(KeyMissing)
    else if !d.enabled then Err(DeviceDisabled)
    else
      match Find(d.commands, r.id)
      case None => Err(CommandNotFound)
      case Some(k) =>
        var expired := ExpireAll(d.commands, now);
        var c := expired[k];
        match FindKey(d.commands[k].log, r.key)
        case Some(e) =>
          if e.payload != r.payload then Err(KeyReused) else Noted(Settle(d, expired), true)
        case None =>
          match NextStatus(c.status, r.event)
          case None => Err(InvalidTransition)
          case Some(status) =>
            if r.event == APPLIED && now2 >= c.expiresAt then Err(CommandTimeout)
            else
              var c' := c.(status := status, log := c.log + [Entry(r.event, r.key, r.payload, now2, false)],
                           attempts := c.attempts + if r.event == FORWARDED then 1 else 0);
              Noted(Settle(d, expired[k := c']), false)
  }

  function Noted(r: Result<Device, Error>, duplicate: bool): Result<Reported, Error> {
    match r
    case Ok(d) => Ok(Reported(d, duplicate))
    case Err(e) => Err(e)
  }

  // ---------- Steps and runs ----------

  datatype Step =
    | AddDevice(code: string, enabled: bool)
    | CreateStep(code: string, id: string, request: TestRequest, sequenceActive: bool, linkRefused: bool, now: int, now2: int)
    | GetStep(code: string, id: string, now: int)
    | StopStep(code: string, id: string, actor: string, now: int, now2: int)
    | RecordStep(code: string, report: Report, now: int, now2: int)

  ghost predicate IdTaken(desk: Desk, id: string) {
    exists code, k :: code in desk && 0 <= k < |desk[code].commands| && desk[code].commands[k].id == id
  }

  ghost function Outcome(desk: Desk, step: Step): Result<Device, Error>
    requires step.code in desk
  {
    var d := desk[step.code];
    match step
    case AddDevice(_, _) => Ok(d)
    case CreateStep(_, id, request, sequenceActive, linkRefused, now, now2) =>
      Create(d, id, IdTaken(desk, id), request, sequenceActive, linkRefused, now, now2)
    case GetStep(_, id, now) => Get(d, id, now)
    case StopStep(_, id, actor, now, now2) => Stop(d, id, actor, now, now2)
    case RecordStep(_, report, now, now2) =>
      (match Record(d, report, now, now2)
       case Ok(reported) => Ok(reported.device)
       case Err(e) => Err(e))
  }

  /** A request that raises is rolled back. */
  ghost function Apply(desk: Desk, step: Step): Desk {
    if step.code !in desk then
      if step.AddDevice? then desk[step.code := Device(step.enabled, [])] else desk
    else
      match Outcome(desk, step)
      case Ok(d) => desk[step.code := d]
      case Err(_) => desk
  }

  ghost function Run(desk: Desk, steps: seq<Step>): Desk
    decreases |steps|
  {
    if steps == [] then desk else Apply(Run(desk, steps[..|steps| - 1]), steps[|steps| - 1])
  }

  // ---------- The invariant ----------

  function StatusOf(log: seq<Entry>): Status {
    if log == [] then QUEUED else log[|log| - 1].event
  }

  function CountForwarded(log: seq<Entry>): nat {
    if log == [] then 0
    else CountForwarded(log[..|log| - 1]) + (if log[|log| - 1].event == FORWARDED then 1 else 0)
  }

  /** Every event was allowed after the ones before it. */
  ghost predicate LegalLog(log: seq<Entry>) {
    forall i :: 0 <= i < |log| ==> NextStatus(StatusOf(log[..i]), log[i].event).Some?
  }

  /** The light is reported on before the command's time is up, and the server gives up after it. */
  predicate Timely(e: Entry, expiresAt: int) {
    (e.event == APPLIED ==> e.at < expiresAt) && (e.event == EXPIRED && e.system ==> expiresAt <= e.at)
  }

  ghost predicate CommandOk(c: Command) {
    && c.status == StatusOf(c.log)
    && LegalLog(c.log)
    && c.attempts == CountForwarded(c.log)
    && DistinctKeys(c.log)
    && forall i :: 0 <= i < |c.log| ==> Timely(c.log[i], c.expiresAt)
  }

  /** The log explains each command, ids are unique, and at most one command keeps the device busy. */
  ghost predicate DeviceOk(d: Device) {
    && (forall k :: 0 <= k < |d.commands| ==> CommandOk(d.commands[k]))
    && (forall k, l :: 0 <= k < l < |d.commands| ==> d.commands[k].id != d.commands[l].id)
    && (forall k, l :: 0 <= k < l < |d.commands| ==> !(Locks(d.commands[k].status) && Locks(d.commands[l].status)))
  }

  ghost predicate DeskOk(desk: Desk) {
    forall code :: code in desk ==> DeviceOk(desk[code])
  }

  /** What one step may do to a command: nothing, or append events, without ever leaving a final status. */
  ghost predicate Grows(c: Command, c': Command) {
    && c'.id == c.id && c'.expiresAt == c.expiresAt
    && c.log <= c'.log
    && (Final(c.status) ==> c'.status == c.status)
    && (c.status == CANCELLED ==> c'.status in {CANCELLED, OFF})
    && (Locks(c'.status) ==> Locks(c.status))
  }

  ghost predicate DeviceGrows(d: Device, d': Device) {
    && |d.commands| <= |d'.commands|
    && forall k :: 0 <= k < |d.commands| ==> Grows(d.commands[k], d'.commands[k])
  }

  lemma AppendKeeps(c: Command, e: Entry, c': Command)
    requires CommandOk(c) && NextStatus(c.status, e.event).Some? && Timely(e, c.expiresAt)
    requires c' == c.(status := e.event, log := c.log + [e], attempts := c.attempts + if e.event == FORWARDED then 1 else 0)
    requires DistinctKeys(c'.log)
    ensures CommandOk(c') && Grows(c, c')
  {
    hide LegalLog, NextStatus, DistinctKeys, Timely, CountForwarded;
    LegalAppend(c.log, e);
    CountAppend(c.log, e);
    forall i | 0 <= i < |c'.log|
      ensures Timely(c'.log[i], c.expiresAt)
    {
      assert i < |c.log| ==> c'.log[i] == c.log[i];
    }
    NextStays(c.status, e.event);
  }

  lemma NextStays(current: Status, event: Event)
    requires NextStatus(current, event).Some?
    ensures Final(current) ==> current == OFF == event
    ensures current == CANCELLED ==> event in {CANCELLED, OFF}
    ensures Locks(event) ==> Locks(current)
  {
  }

  lemma NextIsEvent(event: Event)
    ensures forall current: Status :: NextStatus(current, event).Some? ==> NextStatus(current, event).value == event
  {
  }

  lemma CountAppend(log: seq<Entry>, e: Entry)
    ensures CountForwarded(log + [e]) == CountForwarded(log) + (if e.event == FORWARDED then 1 else 0)
  {
    assert (log + [e])[..|log|] == log;
  }

  lemma LegalAppend(log: seq<Entry>, e: Entry)
    requires LegalLog(log) && NextStatus(StatusOf(log), e.event).Some?
    ensures LegalLog(log + [e])
  {
    hide NextStatus, StatusOf;
    var more := log + [e];
    forall i | 0 <= i < |more|
      ensures NextStatus(StatusOf(more[..i]), more[i].event).Some?
    {
      if i < |log| {
        assert more[..i] == log[..i];
      } else {
        assert more[..i] == log;
      }
    }
  }

  lemma ExpireKeeps(c: Command, now: int)
    requires CommandOk(c) && DistinctKeys(Expire(c, now).log)
    ensures CommandOk(Expire(c, now)) && Grows(c, Expire(c, now))
  {
    if Overdue(c, now) {
      AppendKeeps(c, Entry(EXPIRED, TimeoutKey(c.id), "command_timeout", now, true), Expire(c, now));
    }
  }

  /** The commands after the expiries of a request and at most one more event. */
  lemma SettledKeeps(d: Device, commands: seq<Command>)
    requires DeviceOk(d) && |commands| == |d.commands| && Settle(d, commands).Ok?
    requires forall k :: 0 <= k < |commands| ==> CommandOk(commands[k]) && Grows(d.commands[k], commands[k])
    ensures DeviceOk(d.(commands := commands)) && DeviceGrows(d, d.(commands := commands))
  {
  }

  lemma ExpiredKeeps(d: Device, now: int, commands: seq<Command>, j: nat)
    requires DeviceOk(d) && j < |d.commands| && |commands| == |d.commands|
    requires forall k :: 0 <= k < |commands| && k != j ==> commands[k] == Expire(d.commands[k], now)
    requires DistinctKeys(commands[j].log) ==> CommandOk(commands[j]) && Grows(d.commands[j], commands[j])
    requires Settle(d, commands).Ok?
    ensures DeviceOk(d.(commands := commands)) && DeviceGrows(d, d.(commands := commands))
  {
    hide CommandOk, Grows, DistinctKeys;
    forall k | 0 <= k < |commands|
      ensures CommandOk(commands[k]) && Grows(d.commands[k], commands[k])
    {
      if k != j {
        ExpireKeeps(d.commands[k], now);
      }
    }
    SettledKeeps(d, commands);
  }

  lemma KeysBefore(log: seq<Entry>, e: Entry)
    requires DistinctKeys(log + [e])
    ensures DistinctKeys(log)
  {
    assert forall i :: 0 <= i < |log| ==> (log + [e])[i] == log[i];
  }

  lemma GrowsTwice(a: Command, b: Command, c: Command)
    requires Grows(a, b) && Grows(b, c)
    ensures Grows(a, c)
  {
  }

  lemma ReadKeeps(d: Device, now: int)
    requires DeviceOk(d) && Settle(d, ExpireAll(d.commands, now)).Ok?
    ensures var d' := d.(commands := ExpireAll(d.commands, now)); DeviceOk(d') && DeviceGrows(d, d')
  {
    hide CommandOk, Grows, DistinctKeys;
    var commands := ExpireAll(d.commands, now);
    if commands == [] {
    } else {
      ExpiredOne(d, now, 0);
      ExpiredKeeps(d, now, commands, 0);
    }
  }

  lemma ExpiredOne(d: Device, now: int, k: nat)
    requires DeviceOk(d) && k < |d.commands|
    ensures var c := Expire(d.commands[k], now);
            DistinctKeys(c.log) ==> CommandOk(c) && Grows(d.commands[k], c)
  {
    hide CommandOk, Grows;
    if DistinctKeys(Expire(d.commands[k], now).log) {
      ExpireKeeps(d.commands[k], now);
    }
  }

  /** One more event after the expiries. */
  lemma EventKeeps(d: Device, now: int, k: nat, e: Entry)
    requires DeviceOk(d) && k < |d.commands|
    requires var c := Expire(d.commands[k], now); NextStatus(c.status, e.event).Some? && Timely(e, c.expiresAt)
    requires var c := Expire(d.commands[k], now);
             var c' := c.(status := e.event, log := c.log + [e], attempts := c.attempts + if e.event == FORWARDED then 1 else 0);
             Settle(d, ExpireAll(d.commands, now)[k := c']).Ok?
    ensures var c := Expire(d.commands[k], now);
            var c' := c.(status := e.event, log := c.log + [e], attempts := c.attempts + if e.event == FORWARDED then 1 else 0);
            var d' := d.(commands := ExpireAll(d.commands, now)[k := c']);
            DeviceOk(d') && DeviceGrows(d, d')
  {
    hide CommandOk, Grows, NextStatus, Timely, Expire;
    var c := Expire(d.commands[k], now);
    var c' := c.(status := e.event, log := c.log + [e], attempts := c.attempts + if e.event == FORWARDED then 1 else 0);
    var commands := ExpireAll(d.commands, now)[k := c'];
    assert DistinctKeys(commands[k].log);
    KeysBefore(c.log, e);
    ExpiredOne(d, now, k);
    AppendKeeps(c, e, c');
    GrowsTwice(d.commands[k], c, c');
    ExpiredKeeps(d, now, commands, k);
  }

  // ---------- Every request, every run ----------

  lemma CreateOutcome(d: Device, id: string, idTaken: bool, req: TestRequest, sequenceActive: bool, linkRefused: bool,
                      now: int, now2: int)
    requires DeviceOk(d)
    ensures var r := Create(d, id, idTaken, req, sequenceActive, linkRefused, now, now2);
            && (r.Ok? <==> d.enabled && !Busied(d.commands) && !sequenceActive && !linkRefused && !idTaken)
            && (r.Ok? ==> r.value == d.(commands := d.commands + [Command(id, QUEUED, [], 0, ExpiresAt(req, now2))]))
  {
    hide LegalLog, Timely, CountForwarded, StatusOf;
    if !Busied(d.commands) {
      assert forall k :: 0 <= k < |d.commands| ==> Expire(d.commands[k], now) == d.commands[k];
      assert ExpireAll(d.commands, now) == d.commands;
      var commands := d.commands + [Command(id, QUEUED, [], 0, ExpiresAt(req, now2))];
      forall k | 0 <= k < |commands|
        ensures DistinctKeys(commands[k].log)
      {
        assert k < |d.commands| ==> CommandOk(commands[k]);
      }
    }
  }

  lemma CreateKeeps(d: Device, id: string, idTaken: bool, req: TestRequest, sequenceActive: bool, linkRefused: bool,
                    now: int, now2: int)
    requires DeviceOk(d) && Create(d, id, idTaken, req, sequenceActive, linkRefused, now, now2).Ok?
    requires idTaken || forall k :: 0 <= k < |d.commands| ==> d.commands[k].id != id
    ensures var d' := Create(d, id, idTaken, req, sequenceActive, linkRefused, now, now2).value;
            DeviceOk(d') && DeviceGrows(d, d')
  {
    hide Create, LegalLog, Timely, CountForwarded;
    CreateOutcome(d, id, idTaken, req, sequenceActive, linkRefused, now, now2);
    FreshOk(id, ExpiresAt(req, now2));
  }

  lemma FreshOk(id: string, expiresAt: int)
    ensures CommandOk(Command(id, QUEUED, [], 0, expiresAt))
  {
  }

  lemma GetKeeps(d: Device, id: string, now: int)
    requires DeviceOk(d) && Get(d, id, now).Ok?
    ensures DeviceOk(Get(d, id, now).value) && DeviceGrows(d, Get(d, id, now).value)
  {
    hide CommandOk, Grows, DistinctKeys;
    ReadKeeps(d, now);
  }

  lemma ActiveOtherwise(s: Status)
    ensures Active(s) <==> s !in {OFF, CANCELLED, EXPIRED, FAILED}
  {
    match s
    case OFF =>
    case _ =>
  }

  lemma StopKeeps(d: Device, id: string, actor: string, now: int, now2: int)
    requires DeviceOk(d) && Stop(d, id, actor, now, now2).Ok?
    ensures var d' := Stop(d, id, actor, now, now2).value; DeviceOk(d') && DeviceGrows(d, d')
  {
    hide DeviceOk, DeviceGrows, DistinctKeys, Expire;
    var k := Find(d.commands, id).value;
    var c := ExpireAll(d.commands, now)[k];
    if c.status in {OFF, CANCELLED, EXPIRED, FAILED} {
      ReadKeeps(d, now);
    } else {
      var e := Entry(CANCELLED, StopKey(id), actor, now2, true);
      assert c == Expire(d.commands[k], now);
      ActiveOtherwise(c.status);
      assert c.(status := CANCELLED, log := c.log + [e])
          == c.(status := e.event, log := c.log + [e], attempts := c.attempts + if e.event == FORWARDED then 1 else 0);
      EventKeeps(d, now, k, e);
    }
  }

  lemma RecordKeeps(d: Device, r: Report, now: int, now2: int)
    requires DeviceOk(d) && Record(d, r, now, now2).Ok?
    ensures var d' := Record(d, r, now, now2).value.device; DeviceOk(d') && DeviceGrows(d, d')
  {
    hide DeviceOk, DeviceGrows, DistinctKeys, Expire, FindKey;
    var k := Find(d.commands, r.id).value;
    if FindKey(d.commands[k].log, r.key).Some? {
      ReadKeeps(d, now);
    } else {
      EventKeeps(d, now, k, Entry(r.event, r.key, r.payload, now2, false));
    }
  }

  lemma GrowsRefl(d: Device)
    ensures DeviceGrows(d, d)
  {
  }

  /** One request on its device. */
  lemma OutcomeKeeps(desk: Desk, step: Step)
    requires DeskOk(desk) && step.code in desk && Outcome(desk, step).Ok?
    ensures DeviceOk(Outcome(desk, step).value) && DeviceGrows(desk[step.code], Outcome(desk, step).value)
  {
    hide DeviceOk, DeviceGrows, Create, Get, Stop, Record;
    var d := desk[step.code];
    match step
    case AddDevice(_, _) => GrowsRefl(d);
    case CreateStep(_, id, request, sequenceActive, linkRefused, now, now2) =>
      forall k | 0 <= k < |d.commands|
        ensures d.commands[k].id == id ==> IdTaken(desk, id)
      {
      }
      CreateKeeps(d, id, IdTaken(desk, id), request, sequenceActive, linkRefused, now, now2);
    case GetStep(_, id, now) => GetKeeps(d, id, now);
    case StopStep(_, id, actor, now, now2) => StopKeeps(d, id, actor, now, now2);
    case RecordStep(_, report, now, now2) => RecordKeeps(d, report, now, now2);
  }

  lemma ApplyKeeps(desk: Desk, step: Step)
    requires DeskOk(desk)
    ensures DeskOk(Apply(desk, step))
    ensures forall code :: code in desk ==> code in Apply(desk, step) && DeviceGrows(desk[code], Apply(desk, step)[code])
  {
    hide Outcome, DeviceOk, DeviceGrows;
    forall code | code in desk
      ensures DeviceGrows(desk[code], desk[code])
    {
      GrowsRefl(desk[code]);
    }
    if step.code in desk {
      if Outcome(desk, step).Ok? {
        OutcomeKeeps(desk, step);
      }
    } else if step.AddDevice? {
      EmptyOk(step.enabled);
    }
  }

  lemma EmptyOk(enabled: bool)
    ensures DeviceOk(Device(enabled, []))
  {
  }

  lemma DeviceGrowsTwice(a: Device, b: Device, c: Device)
    requires DeviceGrows(a, b) && DeviceGrows(b, c)
    ensures DeviceGrows(a, c)
  {
    hide Grows;
    forall k | 0 <= k < |a.commands|
      ensures Grows(a.commands[k], c.commands[k])
    {
      GrowsTwice(a.commands[k], b.commands[k], c.commands[k]);
    }
  }

  lemma {:induction false} RunKeeps(desk: Desk, steps: seq<Step>)
    requires DeskOk(desk)
    ensures DeskOk(Run(desk, steps))
    ensures forall code :: code in desk ==> code in Run(desk, steps) && DeviceGrows(desk[code], Run(desk, steps)[code])
    decreases |steps|
  {
    hide Apply, DeskOk, DeviceGrows;
    if steps == [] {
      forall code | code in desk
        ensures DeviceGrows(desk[code], desk[code])
      {
        GrowsRefl(desk[code]);
      }
    } else {
      var before := Run(desk, steps[..|steps| - 1]);
      RunKeeps(desk, steps[..|steps| - 1]);
      ApplyKeeps(before, steps[|steps| - 1]);
      forall code | code in desk
        ensures DeviceGrows(desk[code], Apply(before, steps[|steps| - 1])[code])
      {
        DeviceGrowsTwice(desk[code], before[code], Apply(before, steps[|steps| - 1])[code]);
      }
    }
  }

  /** In every run, the log explains every command and no device has two commands that keep it busy. */
  lemma ReachableOk(steps: seq<Step>)
    ensures DeskOk(Run(map[], steps))
  {
    RunKeeps(map[], steps);
  }

  /** OFF, FAILED and EXPIRED are never left, and no command loses an event. */
  lemma FinalForever(desk: Desk, steps: seq<Step>, code: string, k: nat)
    requires DeskOk(desk) && code in desk && k < |desk[code].commands|
    ensures code in Run(desk, steps) && k < |Run(desk, steps)[code].commands|
    ensures var d' := Run(desk, steps)[code];
            && desk[code].commands[k].log <= d'.commands[k].log
            && (Final(desk[code].commands[k].status) ==> d'.commands[k].status == desk[code].commands[k].status)
  {
    hide Run, DeskOk;
    RunKeeps(desk, steps);
    assert Grows(desk[code].commands[k], Run(desk, steps)[code].commands[k]);
  }

  // ---------- What frees a device ----------

  predicate ReportsOff(step: Step, code: string, id: string) {
    step.RecordStep? && step.code == code && step.report.event == OFF && step.report.id == id
  }

  lemma OffNeedsReport(desk: Desk, step: Step, code: string, k: nat)
    requires DeskOk(desk) && code in desk && k < |desk[code].commands|
    ensures code in Apply(desk, step) && k < |Apply(desk, step)[code].commands|
    ensures var d' := Apply(desk, step)[code];
            desk[code].commands[k].status != OFF && d'.commands[k].status == OFF ==>
              ReportsOff(step, code, desk[code].commands[k].id)
  {
    hide DeskOk, DeviceOk, Grows, DistinctKeys, IdTaken, FindKey, Busied, NextStatus, ExpiresAt;
    ApplyKeeps(desk, step);
    if step.RecordStep? {
      NextIsEvent(step.report.event);
    }
  }

  /**
   * A stopped command never expires: it keeps its device busy, so that no test can be created on it,
   * until the device reports OFF for that command.
   */
  lemma {:induction false} CancelledHoldsDevice(desk: Desk, steps: seq<Step>, code: string, k: nat)
    requires DeskOk(desk) && code in desk && k < |desk[code].commands| && desk[code].commands[k].status == CANCELLED
    requires forall i :: 0 <= i < |steps| ==> !ReportsOff(steps[i], code, desk[code].commands[k].id)
    ensures var desk' := Run(desk, steps);
            && code in desk' && k < |desk'[code].commands|
            && desk'[code].commands[k].id == desk[code].commands[k].id && desk'[code].commands[k].status == CANCELLED
            && Busied(desk'[code].commands)
    decreases |steps|
  {
    hide Apply, DeskOk, ReportsOff;
    if steps != [] {
      var init, last := steps[..|steps| - 1], steps[|steps| - 1];
      CancelledHoldsDevice(desk, init, code, k);
      RunKeeps(desk, init);
      var before := Run(desk, init);
      ApplyKeeps(before, last);
      OffNeedsReport(before, last, code, k);
      assert Grows(before[code].commands[k], Apply(before, last)[code].commands[k]);
    }
  }

  /**
   The other half: a report of OFF for a stopped command frees the device at once if and only if the device is
   enabled and the report has a key that its log does not hold yet.
   */
  lemma OffFreesDevice(d: Device, k: nat, r: Report, now: int, now2: int)
    requires DeviceOk(d) && k < |d.commands| && d.commands[k].status == CANCELLED
    requires r.id == d.commands[k].id && r.event == OFF
    ensures var reported := Record(d, r, now, now2);
            && ((reported.Ok? && !Busied(reported.value.device.commands)) <==>
                  d.enabled && r.key != "" && FindKey(d.commands[k].log, r.key).None?)
            && (reported.Ok? && !Busied(reported.value.device.commands) ==>
                  !reported.value.duplicate && |reported.value.device.commands| == |d.commands|
                  && reported.value.device.commands[k].status == OFF)
  {
    hide CommandOk, FindKey, DistinctKeys;
    assert Find(d.commands, r.id) == Some(k);
    assert forall l :: 0 <= l < |d.commands| ==> Expire(d.commands[l], now) == d.commands[l];
    assert ExpireAll(d.commands, now) == d.commands;
    forall l | 0 <= l < |d.commands|
      ensures DistinctKeys(d.commands[l].log)
    {
      CommandKeys(d.commands[l]);
    }
    NewKey(d.commands[k].log, Entry(OFF, r.key, r.payload, now2, false));
  }

  /** A read writes the expiries down exactly when no overdue command has spent its timeout key. */
  lemma ReadOutcome(d: Device, id: string, now: int)
    requires DeviceOk(d) && d.enabled && Find(d.commands, id).Some?
    ensures Get(d, id, now).Ok? <==>
            forall k :: 0 <= k < |d.commands| && Overdue(d.commands[k], now) ==>
              FindKey(d.commands[k].log, TimeoutKey(d.commands[k].id)).None?
  {
    hide FindKey, TimeoutKey, LegalLog, Timely, CountForwarded, StatusOf;
    var expired := ExpireAll(d.commands, now);
    forall k | 0 <= k < |d.commands|
      ensures DistinctKeys(expired[k].log) <==>
              (Overdue(d.commands[k], now) ==> FindKey(d.commands[k].log, TimeoutKey(d.commands[k].id)).None?)
    {
      var c := d.commands[k];
      assert CommandOk(c);
      if Overdue(c, now) {
        NewKey(c.log, Entry(EXPIRED, TimeoutKey(c.id), "command_timeout", now, true));
      }
    }
  }

  lemma NewKey(log: seq<Entry>, e: Entry)
    requires DistinctKeys(log)
    ensures DistinctKeys(log + [e]) <==> FindKey(log, e.key).None?
  {
    if FindKey(log, e.key).Some? {
      var i :| 0 <= i < |log| && log[i] == FindKey(log, e.key).value;
      assert (log + [e])[i].key == (log + [e])[|log|].key;
    }
  }

  /**
   * When the only busy command is overdue, a new test is still refused and nothing is written, however
   * late it is; once any read has written the expiry down, the test is accepted.
   */
  lemma OverdueNeedsRead(d: Device, id: string, now: int, newId: string, req: TestRequest, later: int, later2: int)
    requires DeviceOk(d) && Get(d, id, now).Ok? && Busied(d.commands)
    requires forall k :: 0 <= k < |d.commands| && Locks(d.commands[k].status) ==> Overdue(d.commands[k], now)
    ensures Create(d, newId, false, req, false, false, later, later2) == Err(Busy)
    ensures Create(Get(d, id, now).value, newId, false, req, false, false, later, later2).Ok?
  {
    hide CommandOk, DistinctKeys, Settle, ExpiresAt;
    assert d.enabled;
    GetKeeps(d, id, now);
    SettleOk(d, ExpireAll(d.commands, now));
    CreateOutcome(Get(d, id, now).value, newId, false, req, false, false, later, later2);
  }

  const TEST: TestRequest := TestRequest(100, 100, 1)

  /** A test of 30.2 seconds that nobody reads: forty seconds later another one is still refused. */
  lemma OverdueRun()
    ensures var desk := Run(map[], [AddDevice("rgb", true), CreateStep("rgb", "a", TEST, false, false, 0, 0)]);
            && "rgb" in desk
            && var d := desk["rgb"];
            && |d.commands| == 1 && Overdue(d.commands[0], 40000)
            && Create(d, "b", false, TEST, false, false, 40000, 40000) == Err(Busy)
            && Apply(desk, CreateStep("rgb", "b", TEST, false, false, 40000, 40000)) == desk
            && Get(d, "a", 40000).Ok?
            && Create(Get(d, "a", 40000).value, "b", false, TEST, false, false, 40000, 40000).Ok?
  {
    var first, second := AddDevice("rgb", true), CreateStep("rgb", "a", TEST, false, false, 0, 0);
    RunOfTwo(first, second);
    ReachableOk([first, second]);
    hide Run, DeviceOk, Record, Stop;
    var d := Device(true, [Command("a", QUEUED, [], 0, 30200)]);
    FirstTest();
    var desk := Run(map[], [first, second]);
    assert desk == map["rgb" := d];
    DeskDevice(desk, "rgb");
    assert d.commands[0].status == QUEUED;
    ReadOutcome(d, "a", 40000);
    OverdueNeedsRead(d, "a", 40000, "b", TEST, 40000, 40000);
  }

  lemma RunOfTwo(first: Step, second: Step)
    ensures Run(map[], [first, second]) == Apply(Apply(map[], first), second)
  {
    hide Apply;
    assert [first, second][..1] == [first] && [first][..0] == [];
    assert Run(map[], [first]) == Apply(map[], first);
  }

  lemma FirstTest()
    ensures Apply(map["rgb" := Device(true, [])], CreateStep("rgb", "a", TEST, false, false, 0, 0))
            == map["rgb" := Device(true, [Command("a", QUEUED, [], 0, 30200)])]
  {
    hide Record, Stop, Get;
    var desk: Desk := map["rgb" := Device(true, [])];
    assert !IdTaken(desk, "a");
    EmptyOk(true);
    CreateOutcome(Device(true, []), "a", false, TEST, false, false, 0, 0);
    hide Create;
    assert [] + [Command("a", QUEUED, [], 0, ExpiresAt(TEST, 0))] == [Command("a", QUEUED, [], 0, 30200)];
    assert desk["rgb" := Device(true, [Command("a", QUEUED, [], 0, 30200)])]
        == map["rgb" := Device(true, [Command("a", QUEUED, [], 0, 30200)])];
  }

  lemma SettleOk(d: Device, commands: seq<Command>)
    ensures Settle(d, commands).Ok? ==> Settle(d, commands).value == d.(commands := commands)
  {
  }

  // ---------- Idempotent reports ----------

  lemma RecordedKey(d: Device, r: Report, now: int, now2: int)
    requires DeviceOk(d) && Record(d, r, now, now2).Ok?
    ensures var d' := Record(d, r, now, now2).value.device;
            && Find(d.commands, r.id).Some? && r.key != ""
            && |d'.commands| == |d.commands|
            && var c := d'.commands[Find(d.commands, r.id).value];
            c.id == r.id && exists i :: 0 <= i < |c.log| && c.log[i].key == r.key && c.log[i].payload == r.payload
  {
    hide CommandOk, NextStatus;
    var k := Find(d.commands, r.id).value;
    var d' := Record(d, r, now, now2).value.device;
    match FindKey(d.commands[k].log, r.key)
    case Some(e) =>
      var i :| 0 <= i < |d.commands[k].log| && d.commands[k].log[i] == e;
      assert d'.commands[k].log[i].key == r.key;
    case None =>
      assert d'.commands[k].log[|d'.commands[k].log| - 1].key == r.key;
  }

  lemma FoundKey(log: seq<Entry>, key: string, payload: string)
    requires DistinctKeys(log) && exists i :: 0 <= i < |log| && log[i].key == key && log[i].payload == payload
    ensures FindKey(log, key).Some? && FindKey(log, key).value.payload == payload
  {
    var i :| 0 <= i < |log| && log[i].key == key && log[i].payload == payload;
    var j :| 0 <= j < |log| && log[j] == FindKey(log, key).value;
  }

  /** Sending an accepted event again, whatever happened since, does exactly what reading the command does. */
  lemma ResendIsRead(desk: Desk, code: string, r: Report, now: int, now2: int, steps: seq<Step>, later: int, later2: int)
    requires DeskOk(desk) && code in desk && Record(desk[code], r, now, now2).Ok?
    ensures var desk' := Run(Apply(desk, RecordStep(code, r, now, now2)), steps);
            code in desk' && Record(desk'[code], r, later, later2) == Noted(Get(desk'[code], r.id, later), true)
  {
    hide DeskOk, Run, CommandOk, Settle, FindKey, Record;
    var first := Apply(desk, RecordStep(code, r, now, now2));
    ApplyKeeps(desk, RecordStep(code, r, now, now2));
    RunKeeps(first, steps);
    var desk' := Run(first, steps);
    DeskDevice(desk, code);
    DeskDevice(desk', code);
    RecordedKey(desk[code], r, now, now2);
    var k := Find(desk[code].commands, r.id).value;
    assert Grows(first[code].commands[k], desk'[code].commands[k]);
    var c, c' := first[code].commands[k], desk'[code].commands[k];
    var i :| 0 <= i < |c.log| && c.log[i].key == r.key && c.log[i].payload == r.payload;
    assert c'.log[i] == c.log[i];
    CommandKeys(c');
    FoundKey(c'.log, r.key, r.payload);
    assert Find(desk'[code].commands, r.id) == Some(k);
    RecordAgain(desk'[code], r, later, later2);
  }

  lemma CommandKeys(c: Command)
    requires CommandOk(c)
    ensures DistinctKeys(c.log)
  {
  }

  lemma DeskDevice(desk: Desk, code: string)
    requires DeskOk(desk) && code in desk
    ensures DeviceOk(desk[code])
  {
  }

  lemma RecordAgain(d: Device, r: Report, now: int, now2: int)
    requires r.key != "" && Find(d.commands, r.id).Some?
    requires var e := FindKey(d.commands[Find(d.commands, r.id).value].log, r.key); e.Some? && e.value.payload == r.payload
    ensures Record(d, r, now, now2) == Noted(Get(d, r.id, now), true)
  {
  }
}
