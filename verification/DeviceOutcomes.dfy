/** What each request on a device comes to, in the statuses, keys and times themselves. */
module DeviceOutcomes {
  import opened Wrappers
  import opened DeviceCommands

  // ---------- The table ----------

  /** The statuses from which an event is allowed. */
  predicate AllowedFrom(event: Event, current: Status) {
    match current
    case QUEUED => event in {FORWARDED, FAILED, EXPIRED, CANCELLED}
    case FORWARDED => event in {FORWARDED, RECEIVED, FAILED, EXPIRED, CANCELLED}
    case RECEIVED => event in {RECEIVED, APPLIED, FAILED, EXPIRED, CANCELLED}
    case APPLIED => event in {APPLIED, OFF, FAILED, EXPIRED, CANCELLED}
    case CANCELLED => event in {CANCELLED, OFF}
    case OFF => event == OFF
    case FAILED => false
    case EXPIRED => false
  }

  /** The table by events and the one by statuses agree, and an allowed event leads to the status of its name. */
  lemma TableBothWays(event: Event, current: Status)
    ensures NextStatus(current, event) == if AllowedFrom(event, current) then Some(event) else None
  {
    match current
    case QUEUED =>
    case FORWARDED =>
    case RECEIVED =>
    case APPLIED =>
    case CANCELLED =>
    case OFF =>
    case FAILED =>
    case EXPIRED =>
  }

  /** In every run, what stands before an event in the log of a command. */
  lemma Neighbours(steps: seq<Step>, code: string, k: nat, i: nat)
    requires code in Run(map[], steps) && k < |Run(map[], steps)[code].commands|
    requires i < |Run(map[], steps)[code].commands[k].log|
    ensures var log := Run(map[], steps)[code].commands[k].log;
      var before := if i == 0 then QUEUED else log[i - 1].event;
      && (log[i].event == FORWARDED ==> before in {QUEUED, FORWARDED})
      && (log[i].event == RECEIVED ==> before in {FORWARDED, RECEIVED})
      && (log[i].event == APPLIED ==> before in {RECEIVED, APPLIED})
      && (log[i].event == OFF ==> before in {APPLIED, CANCELLED, OFF})
      && (log[i].event in {FAILED, EXPIRED} ==> before in {QUEUED, FORWARDED, RECEIVED, APPLIED})
      && (log[i].event == CANCELLED ==> before in {QUEUED, FORWARDED, RECEIVED, APPLIED, CANCELLED})
  {
    hide Run;
    ReachableOk(steps);
    DeskDevice(Run(map[], steps), code);
    var c := Run(map[], steps)[code].commands[k];
    assert CommandOk(c);
    assert NextStatus(StatusOf(c.log[..i]), c.log[i].event).Some?;
    assert i > 0 ==> c.log[..i][i - 1] == c.log[i - 1];
  }

  // ---------- Expiries ----------

  predicate RunsLate(c: Command, now: int) {
    c.status in {QUEUED, FORWARDED, RECEIVED, APPLIED} && c.expiresAt <= now
  }

  /** What a request that looks at the clock at now makes of a command. */
  function GivenUp(c: Command, now: int): Command {
    if RunsLate(c, now) then
      c.(status := EXPIRED, log := c.log + [Entry(EXPIRED, "timeout:" + c.id, "command_timeout", now, true)])
    else c
  }

  /** Every command, given up if late. */
  function AllGivenUp(commands: seq<Command>, now: int): seq<Command> {
    seq(|commands|, k requires 0 <= k < |commands| => GivenUp(commands[k], now))
  }

  predicate KeyUsed(log: seq<Entry>, key: string) {
    exists i :: 0 <= i < |log| && log[i].key == key
  }

  /** No late command has an entry under its timeout key already. */
  predicate CanGiveUp(commands: seq<Command>, now: int) {
    forall k :: 0 <= k < |commands| && RunsLate(commands[k], now) ==>
      !KeyUsed(commands[k].log, "timeout:" + commands[k].id)
  }

  lemma ExpireMeaning(commands: seq<Command>, now: int)
    ensures ExpireAll(commands, now) == AllGivenUp(commands, now)
  {
  }

  lemma KeyUsedMeaning(log: seq<Entry>, key: string)
    ensures FindKey(log, key).Some? <==> KeyUsed(log, key)
  {
    if FindKey(log, key).Some? {
      var i :| 0 <= i < |log| && log[i] == FindKey(log, key).value;
    }
  }

  lemma GivenUpKeys(c: Command, now: int)
    requires CommandOk(c)
    ensures DistinctKeys(GivenUp(c, now).log) <==> !(RunsLate(c, now) && KeyUsed(c.log, "timeout:" + c.id))
  {
    hide DistinctKeys, KeyUsed, FindKey;
    CommandKeys(c);
    KeyUsedMeaning(c.log, "timeout:" + c.id);
    if RunsLate(c, now) {
      NewKey(c.log, Entry(EXPIRED, "timeout:" + c.id, "command_timeout", now, true));
    }
  }

  lemma SettleGivenUp(d: Device, now: int)
    requires DeviceOk(d)
    ensures Settle(d, AllGivenUp(d.commands, now)) ==
      if CanGiveUp(d.commands, now) then Ok(d.(commands := AllGivenUp(d.commands, now))) else Err(ConstraintViolated)
  {
    hide DistinctKeys, KeyUsed, CommandOk, GivenUp, RunsLate;
    forall k | 0 <= k < |d.commands|
      ensures DistinctKeys(AllGivenUp(d.commands, now)[k].log) <==>
        !(RunsLate(d.commands[k], now) && KeyUsed(d.commands[k].log, "timeout:" + d.commands[k].id))
    {
      GivenUpKeys(d.commands[k], now);
    }
  }

  // ---------- Reads, tests and stops ----------

  /** The command with this id, which is unique. */
  predicate IsAt(d: Device, k: nat, id: string) {
    k < |d.commands| && d.commands[k].id == id
  }

  lemma FoundAt(d: Device, k: nat, id: string)
    requires DeviceOk(d) && IsAt(d, k, id)
    ensures Find(d.commands, id) == Some(k)
  {
    hide CommandOk;
  }

  lemma GetOutcome(d: Device, id: string, now: int)
    requires DeviceOk(d)
    ensures var r := Get(d, id, now);
      if !d.enabled then r == Err(DeviceDisabled)
      else if forall k :: 0 <= k < |d.commands| ==> d.commands[k].id != id then r == Err(CommandNotFound)
      else if CanGiveUp(d.commands, now) then r == Ok(d.(commands := AllGivenUp(d.commands, now)))
      else r == Err(ConstraintViolated)
  {
    hide CommandOk, Settle, CanGiveUp;
    ExpireMeaning(d.commands, now);
    SettleGivenUp(d, now);
  }

  /** A test runs for its repetitions and half a minute more. */
  lemma CreateExpiry(d: Device, id: string, idTaken: bool, req: TestRequest, sequenceActive: bool, linkRefused: bool,
                     now: int, now2: int)
    requires DeviceOk(d)
    ensures var r := Create(d, id, idTaken, req, sequenceActive, linkRefused, now, now2);
      && (r.Ok? ==> r.value == d.(commands := d.commands +
            [Command(id, QUEUED, [], 0, now2 + (req.onMs + req.offMs) * req.repeatCount + 30000)]))
      && (r.Err? ==>
            if !d.enabled then r.error == DeviceDisabled
            else if exists k :: 0 <= k < |d.commands| && d.commands[k].status in {QUEUED, FORWARDED, RECEIVED, APPLIED, CANCELLED}
            then r.error == Busy
            else if sequenceActive then r.error == SequenceActive
            else if linkRefused then r.error == LinkRefused
            else r.error == ConstraintViolated)
  {
    hide CommandOk, Settle, ExpireAll;
    CreateOutcome(d, id, idTaken, req, sequenceActive, linkRefused, now, now2);
    assert (req.onMs + req.offMs) * req.repeatCount >= 0;
    assert forall k :: 0 <= k < |d.commands| ==>
      (Locks(d.commands[k].status) <==> d.commands[k].status in {QUEUED, FORWARDED, RECEIVED, APPLIED, CANCELLED});
  }

  /**
   Stopping a running command that is not late ends it as CANCELLED, unless its stop key is spent; stopping any other
   command is reading it.
   */
  lemma StopOutcome(d: Device, k: nat, id: string, actor: string, now: int, now2: int)
    requires DeviceOk(d) && d.enabled && IsAt(d, k, id)
    ensures var r := Stop(d, id, actor, now, now2);
      var c := d.commands[k];
      if c.status in {QUEUED, FORWARDED, RECEIVED, APPLIED} && !RunsLate(c, now) then
        r == if KeyUsed(c.log, "stop:" + id) then Err(ConstraintViolated)
             else Ok(d.(commands := d.commands[k := c.(status := CANCELLED,
                                                      log := c.log + [Entry(CANCELLED, "stop:" + id, actor, now2, true)])]))
      else r == Get(d, id, now)
  {
    hide CommandOk, DistinctKeys, KeyUsed, FindKey, Find;
    FoundAt(d, k, id);
    ExpireMeaning(d.commands, now);
    var c := d.commands[k];
    ActiveOtherwise(c.status);
    if c.status in {QUEUED, FORWARDED, RECEIVED, APPLIED} && !RunsLate(c, now) {
      NobodyLate(d, k, now);
      var e := Entry(CANCELLED, "stop:" + id, actor, now2, true);
      CommandKeys(c);
      KeyUsedMeaning(c.log, e.key);
      NewKey(c.log, e);
      OneChanged(d, k, c.(status := CANCELLED, log := c.log + [e]));
    }
  }

  /** Stopping a command of a disabled device, or an unknown one, is refused. */
  lemma UnaddressedStop(d: Device, id: string, actor: string, now: int, now2: int)
    ensures !d.enabled ==> Stop(d, id, actor, now, now2) == Err(DeviceDisabled)
    ensures d.enabled && (forall k :: 0 <= k < |d.commands| ==> d.commands[k].id != id) ==>
      Stop(d, id, actor, now, now2) == Err(CommandNotFound)
  {
  }

  /** While one command locks the device no other one is running, so if that one is not late, none is. */
  lemma NobodyLate(d: Device, k: nat, now: int)
    requires DeviceOk(d) && k < |d.commands|
    requires d.commands[k].status in {QUEUED, FORWARDED, RECEIVED, APPLIED, CANCELLED} && !RunsLate(d.commands[k], now)
    ensures AllGivenUp(d.commands, now) == d.commands
  {
    hide CommandOk;
  }

  lemma OneChanged(d: Device, k: nat, c: Command)
    requires DeviceOk(d) && k < |d.commands|
    ensures Settle(d, d.commands[k := c]) ==
      if DistinctKeys(c.log) then Ok(d.(commands := d.commands[k := c])) else Err(ConstraintViolated)
  {
    hide DistinctKeys;
    forall l | 0 <= l < |d.commands|
      ensures DistinctKeys(d.commands[l].log)
    {
      CommandKeys(d.commands[l]);
    }
    assert d.commands[k := c][k] == c;
  }

  // ---------- Reports ----------

  /**
   A report under a key that the command's log does not hold is accepted if and only if the command is not late, the
   table allows the event from its status, the light is reported on before its time is up, and the expiries of other
   commands can be written. It then adds one entry, and counts the attempt if it is FORWARDED.
   */
  lemma ReportOutcome(d: Device, k: nat, r: Report, now: int, now2: int)
    requires DeviceOk(d) && d.enabled && r.key != "" && IsAt(d, k, r.id) && !KeyUsed(d.commands[k].log, r.key)
    ensures var out := Record(d, r, now, now2);
      var c := d.commands[k];
      if RunsLate(c, now) || !AllowedFrom(r.event, c.status) then out == Err(InvalidTransition)
      else if r.event == APPLIED && c.expiresAt <= now2 then out == Err(CommandTimeout)
      else if !CanGiveUp(d.commands, now) then out == Err(ConstraintViolated)
      else
        var c' := Command(c.id, r.event, c.log + [Entry(r.event, r.key, r.payload, now2, false)],
                          c.attempts + (if r.event == FORWARDED then 1 else 0), c.expiresAt);
        out == Ok(Reported(d.(commands := AllGivenUp(d.commands, now)[k := c']), false))
  {
    hide CommandOk, DistinctKeys, KeyUsed, FindKey, Find, Settle, AllowedFrom, NextStatus, CanGiveUp;
    var c := d.commands[k];
    FoundAt(d, k, r.id);
    ExpireMeaning(d.commands, now);
    KeyUsedMeaning(c.log, r.key);
    TableBothWays(r.event, c.status);
    NothingFromExpired(r.event);
    if !RunsLate(c, now) && AllowedFrom(r.event, c.status) {
      var c' := Command(c.id, r.event, c.log + [Entry(r.event, r.key, r.payload, now2, false)],
                        c.attempts + (if r.event == FORWARDED then 1 else 0), c.expiresAt);
      SettleReport(d, k, now, Entry(r.event, r.key, r.payload, now2, false), c');
    }
  }

  lemma NothingFromExpired(event: Event)
    ensures NextStatus(EXPIRED, event).None?
  {
  }

  lemma SettleReport(d: Device, k: nat, now: int, e: Entry, c: Command)
    requires DeviceOk(d) && k < |d.commands| && !RunsLate(d.commands[k], now)
    requires c.log == d.commands[k].log + [e] && !KeyUsed(d.commands[k].log, e.key)
    ensures var commands := AllGivenUp(d.commands, now)[k := c];
      Settle(d, commands) == if CanGiveUp(d.commands, now) then Ok(d.(commands := commands)) else Err(ConstraintViolated)
  {
    hide DistinctKeys, KeyUsed, CommandOk, GivenUp, FindKey, RunsLate;
    var commands := AllGivenUp(d.commands, now)[k := c];
    forall l | 0 <= l < |d.commands|
      ensures DistinctKeys(commands[l].log) <==>
        !(RunsLate(d.commands[l], now) && KeyUsed(d.commands[l].log, "timeout:" + d.commands[l].id))
    {
      if l == k {
        CommandKeys(d.commands[k]);
        KeyUsedMeaning(d.commands[k].log, e.key);
        NewKey(d.commands[k].log, e);
      } else {
        GivenUpKeys(d.commands[l], now);
      }
    }
  }

  /** A report under a key that the log holds repeats the entry, or is refused if it says something else. */
  lemma KnownKeyOutcome(d: Device, k: nat, r: Report, now: int, now2: int, i: nat)
    requires DeviceOk(d) && d.enabled && r.key != "" && IsAt(d, k, r.id)
    requires i < |d.commands[k].log| && d.commands[k].log[i].key == r.key
    ensures Record(d, r, now, now2) ==
      if d.commands[k].log[i].payload != r.payload then Err(KeyReused) else Noted(Get(d, r.id, now), true)
  {
    hide CommandOk, Settle, NextStatus;
    FoundAt(d, k, r.id);
    CommandKeys(d.commands[k]);
    var e := FindKey(d.commands[k].log, r.key);
    var j :| 0 <= j < |d.commands[k].log| && d.commands[k].log[j] == e.value;
  }

  /** What a report without a key, for a disabled device or for an unknown command is refused for. */
  lemma UnaddressedReport(d: Device, r: Report, now: int, now2: int)
    ensures var out := Record(d, r, now, now2);
      && (r.key == "" ==> out == Err(KeyMissing))
      && (r.key != "" && !d.enabled ==> out == Err(DeviceDisabled))
      && (r.key != "" && d.enabled && (forall k :: 0 <= k < |d.commands| ==> d.commands[k].id != r.id) ==>
            out == Err(CommandNotFound))
  {
  }

  // ---------- A test from its creation to its end ----------

  /** A report in time, on a desk of one device with one command. */
  lemma ReportStep(c: Command, event: Event, key: string)
    requires CommandOk(c) && c.id == "a" && c.expiresAt > 1 && key != "" && !KeyUsed(c.log, key)
    requires AllowedFrom(event, c.status)
    ensures Apply(map["rgb" := Device(true, [c])], RecordStep("rgb", Report("a", event, key, ""), 1, 1)) ==
      map["rgb" := Device(true, [Command("a", event, c.log + [Entry(event, key, "", 1, false)],
                                         c.attempts + (if event == FORWARDED then 1 else 0), c.expiresAt)])]
    ensures CommandOk(Command("a", event, c.log + [Entry(event, key, "", 1, false)],
                              c.attempts + (if event == FORWARDED then 1 else 0), c.expiresAt))
  {
    hide CommandOk, AllowedFrom, KeyUsed, Record, DistinctKeys, FindKey, NextStatus;
    var d := Device(true, [c]);
    assert DeviceOk(d);
    ReportOutcome(d, 0, Report("a", event, key, ""), 1, 1);
    assert AllGivenUp(d.commands, 1) == [c];
    assert CanGiveUp(d.commands, 1);
    var c' := Command("a", event, c.log + [Entry(event, key, "", 1, false)],
                      c.attempts + (if event == FORWARDED then 1 else 0), c.expiresAt);
    var desk: Desk := map["rgb" := d];
    assert [c][0 := c'] == [c'];
    assert desk["rgb" := Device(true, [c'])] == map["rgb" := Device(true, [c'])];
    TableBothWays(event, c.status);
    KeyUsedMeaning(c.log, key);
    CommandKeys(c);
    NewKey(c.log, Entry(event, key, "", 1, false));
    AppendKeeps(c, Entry(event, key, "", 1, false), c');
  }

  lemma RunMore(desk: Desk, steps: seq<Step>, step: Step)
    ensures Run(desk, steps + [step]) == Apply(Run(desk, steps), step)
  {
    hide Apply;
    assert (steps + [step])[..|steps|] == steps;
  }

  function Reporting(event: Event, key: string): Step {
    RecordStep("rgb", Report("a", event, key, ""), 1, 1)
  }

  const TEST_RUN: seq<Step> := [AddDevice("rgb", true), CreateStep("rgb", "a", TEST, false, false, 0, 0)]

  /** A test whose reports arrive in time goes from QUEUED through FORWARDED, RECEIVED and APPLIED to OFF. */
  lemma WholeLife()
    ensures Run(map[], TEST_RUN) == map["rgb" := Device(true, [Command("a", QUEUED, [], 0, 30200)])]
    ensures var desk := Run(map[], TEST_RUN + [Reporting(FORWARDED, "1")] + [Reporting(RECEIVED, "2")]
                                   + [Reporting(APPLIED, "3")] + [Reporting(OFF, "4")]);
      && "rgb" in desk
      && desk["rgb"] == Device(true, [Command("a", OFF, [Entry(FORWARDED, "1", "", 1, false), Entry(RECEIVED, "2", "", 1, false),
                                                         Entry(APPLIED, "3", "", 1, false), Entry(OFF, "4", "", 1, false)],
                                              1, 30200)])
  {
    hide Run, Apply, KeyUsed;
    RunOfTwo(TEST_RUN[0], TEST_RUN[1]);
    DeviceAdded();
    FirstTest();
    FirstReports();
    var one := TEST_RUN + [Reporting(FORWARDED, "1")];
    var two := one + [Reporting(RECEIVED, "2")];
    var three := two + [Reporting(APPLIED, "3")];
    RunMore(map[], TEST_RUN, Reporting(FORWARDED, "1"));
    RunMore(map[], one, Reporting(RECEIVED, "2"));
    RunMore(map[], two, Reporting(APPLIED, "3"));
    RunMore(map[], three, Reporting(OFF, "4"));
    assert [Entry(FORWARDED, "1", "", 1, false)] + [Entry(RECEIVED, "2", "", 1, false)] + [Entry(APPLIED, "3", "", 1, false)]
      + [Entry(OFF, "4", "", 1, false)] == [Entry(FORWARDED, "1", "", 1, false), Entry(RECEIVED, "2", "", 1, false),
                                            Entry(APPLIED, "3", "", 1, false), Entry(OFF, "4", "", 1, false)];
  }

  lemma DeviceAdded()
    ensures Apply(map[], AddDevice("rgb", true)) == map["rgb" := Device(true, [])]
  {
  }

  /** The reports of the life, one after the other. */
  lemma FirstReports()
    ensures var one := [Entry(FORWARDED, "1", "", 1, false)];
      var two := one + [Entry(RECEIVED, "2", "", 1, false)];
      var three := two + [Entry(APPLIED, "3", "", 1, false)];
      var four := three + [Entry(OFF, "4", "", 1, false)];
      && Apply(map["rgb" := Device(true, [Command("a", QUEUED, [], 0, 30200)])], Reporting(FORWARDED, "1"))
         == map["rgb" := Device(true, [Command("a", FORWARDED, one, 1, 30200)])]
      && Apply(map["rgb" := Device(true, [Command("a", FORWARDED, one, 1, 30200)])], Reporting(RECEIVED, "2"))
         == map["rgb" := Device(true, [Command("a", RECEIVED, two, 1, 30200)])]
      && Apply(map["rgb" := Device(true, [Command("a", RECEIVED, two, 1, 30200)])], Reporting(APPLIED, "3"))
         == map["rgb" := Device(true, [Command("a", APPLIED, three, 1, 30200)])]
      && Apply(map["rgb" := Device(true, [Command("a", APPLIED, three, 1, 30200)])], Reporting(OFF, "4"))
         == map["rgb" := Device(true, [Command("a", OFF, four, 1, 30200)])]
  {
    hide Apply, CommandOk;
    var one := [Entry(FORWARDED, "1", "", 1, false)];
    var two := one + [Entry(RECEIVED, "2", "", 1, false)];
    var three := two + [Entry(APPLIED, "3", "", 1, false)];
    FreshOk("a", 30200);
    assert [] + [Entry(FORWARDED, "1", "", 1, false)] == one;
    ReportStep(Command("a", QUEUED, [], 0, 30200), FORWARDED, "1");
    ReportStep(Command("a", FORWARDED, one, 1, 30200), RECEIVED, "2");
    ReportStep(Command("a", RECEIVED, two, 1, 30200), APPLIED, "3");
    ReportStep(Command("a", APPLIED, three, 1, 30200), OFF, "4");
  }
}
