/** The device command requests as operations on the device and command rows. */
module DeviceService {
  import opened Wrappers
  import opened DeviceCommands

  class CommandDesk {
    var devices: Desk

    ghost predicate Valid()
      reads this
    {
      DeskOk(devices)
    }

    constructor ()
      ensures Valid() && devices == map[]
    {
      devices := map[];
    }

    /** The rows of a device after its overdue commands have been given up, in memory. */
    method ExpireOverdue(commands: seq<Command>, now: int) returns (expired: seq<Command>)
      ensures expired == ExpireAll(commands, now)
    {
      expired := commands;
      var k := 0;
      while k < |commands|
        invariant 0 <= k <= |commands| == |expired|
        invariant forall i :: 0 <= i < k ==> expired[i] == Expire(commands[i], now)
        invariant forall i :: k <= i < |commands| ==> expired[i] == commands[i]
      {
        var c := expired[k];
        if Active(c.status) && c.expiresAt <= now {
          var e := Entry(EXPIRED, TimeoutKey(c.id), "command_timeout", now, true);
          expired := expired[k := c.(status := EXPIRED, log := c.log + [e])];
        }
        k := k + 1;
      }
      assert expired == ExpireAll(commands, now);
    }

    /** Flush and commit, or roll back. */
    method Commit(code: string, commands: seq<Command>) returns (r: Result<(), Error>)
      requires code in devices
      modifies this
      ensures var settled := Settle(old(devices)[code], commands);
              devices == (if settled.Ok? then old(devices)[code := settled.value] else old(devices))
              && r == if settled.Ok? then Ok(()) else Err(ConstraintViolated)
    {
      var settled := Settle(devices[code], commands);
      if settled.Err? {
        return Err(ConstraintViolated);
      }
      devices := devices[code := settled.value];
      return Ok(());
    }

    method CreateManualCommand(code: string, id: string, taken: bool, req: TestRequest, sequenceActive: bool, linkRefused: bool,
                               now: int, now2: int)
      returns (r: Result<(), Error>)
      requires Valid() && (taken <==> IdTaken(devices, id))
      modifies this
      ensures Valid()
      ensures devices == Apply(old(devices), CreateStep(code, id, req, sequenceActive, linkRefused, now, now2))
      ensures code !in old(devices) ==> r == Err(DeviceNotFound)
      ensures code in old(devices) ==>
        var spec := Create(old(devices)[code], id, taken, req, sequenceActive, linkRefused, now, now2);
        r == if spec.Ok? then Ok(()) else Err(spec.error)
    {
      hide DeskOk, IdTaken, Settle, ExpiresAt;
      ApplyKeeps(devices, CreateStep(code, id, req, sequenceActive, linkRefused, now, now2));
      if code !in devices {
        return Err(DeviceNotFound);
      }
      var d := devices[code];
      if !d.enabled {
        return Err(DeviceDisabled);
      }
      var expired := ExpireOverdue(d.commands, now);
      if Busied(d.commands) {
        return Err(Busy);
      }
      if sequenceActive {
        return Err(SequenceActive);
      }
      if linkRefused {
        return Err(LinkRefused);
      }
      if taken {
        return Err(ConstraintViolated);
      }
      SettleError(d, expired + [Command(id, QUEUED, [], 0, ExpiresAt(req, now2))]);
      r := Commit(code, expired + [Command(id, QUEUED, [], 0, ExpiresAt(req, now2))]);
    }

    method GetCommand(code: string, id: string, now: int) returns (r: Result<Command, Error>)
      requires Valid()
      modifies this
      ensures Valid()
      ensures devices == Apply(old(devices), GetStep(code, id, now))
      ensures code !in old(devices) ==> r == Err(DeviceNotFound)
      ensures code in old(devices) ==>
        var spec := Get(old(devices)[code], id, now);
        && (spec.Err? ==> r == Err(spec.error))
        && (spec.Ok? ==>
              && r.Ok? && devices[code] == spec.value && r.value.id == id
              && exists k :: 0 <= k < |spec.value.commands| && spec.value.commands[k] == r.value)
    {
      hide DeskOk, Settle;
      ApplyKeeps(devices, GetStep(code, id, now));
      if code !in devices {
        return Err(DeviceNotFound);
      }
      var d := devices[code];
      if !d.enabled {
        return Err(DeviceDisabled);
      }
      var expired := ExpireOverdue(d.commands, now);
      var k := Find(d.commands, id);
      if k.None? {
        return Err(CommandNotFound);
      }
      SettleError(d, expired);
      SettleOk(d, expired);
      var done := Commit(code, expired);
      if done.Err? {
        return Err(done.error);
      }
      return Ok(expired[k.value]);
    }

    /** stop_command; true when there was nothing left to stop. */
    method StopCommand(code: string, id: string, actor: string, now: int, now2: int) returns (r: Result<bool, Error>)
      requires Valid()
      modifies this
      ensures Valid()
      ensures devices == Apply(old(devices), StopStep(code, id, actor, now, now2))
      ensures code !in old(devices) ==> r == Err(DeviceNotFound)
      ensures code in old(devices) ==>
        var d := old(devices)[code];
        var spec := Stop(d, id, actor, now, now2);
        && (spec.Err? ==> r == Err(spec.error))
        && (spec.Ok? ==>
              && r.Ok? && Find(d.commands, id).Some?
              && var c := d.commands[Find(d.commands, id).value];
              (r.value <==> c.status in {OFF, CANCELLED, EXPIRED, FAILED} || c.expiresAt <= now))
    {
      hide DeskOk, Settle;
      ApplyKeeps(devices, StopStep(code, id, actor, now, now2));
      if code !in devices {
        return Err(DeviceNotFound);
      }
      var d := devices[code];
      if !d.enabled {
        return Err(DeviceDisabled);
      }
      var commands := ExpireOverdue(d.commands, now);
      var k := Find(d.commands, id);
      if k.None? {
        return Err(CommandNotFound);
      }
      var c := commands[k.value];
      ActiveOtherwise(d.commands[k.value].status);
      var stopped := c.status in {OFF, CANCELLED, EXPIRED, FAILED};
      if !stopped {
        commands := commands[k.value := c.(status := CANCELLED, log := c.log + [Entry(CANCELLED, StopKey(id), actor, now2, true)])];
      }
      SettleError(d, commands);
      var done := Commit(code, commands);
      if done.Err? {
        return Err(done.error);
      }
      return Ok(stopped);
    }

    /** record_event; true for a duplicate. */
    method RecordEvent(code: string, report: Report, now: int, now2: int) returns (r: Result<bool, Error>)
      requires Valid()
      modifies this
      ensures Valid()
      ensures devices == Apply(old(devices), RecordStep(code, report, now, now2))
      ensures code !in old(devices) ==> r == Err(if report.key == "" then KeyMissing else DeviceNotFound)
      ensures code in old(devices) ==>
        var spec := Record(old(devices)[code], report, now, now2);
        r == if spec.Ok? then Ok(spec.value.duplicate) else Err(spec.error)
    {
      hide DeskOk, Settle, Expire, NextStatus, FindKey;
      ApplyKeeps(devices, RecordStep(code, report, now, now2));
      if report.key == "" {
        return Err(KeyMissing);
      }
      if code !in devices {
        return Err(DeviceNotFound);
      }
      var d := devices[code];
      if !d.enabled {
        return Err(DeviceDisabled);
      }
      var commands := ExpireOverdue(d.commands, now);
      var k := Find(d.commands, report.id);
      if k.None? {
        return Err(CommandNotFound);
      }
      var c := commands[k.value];
      var existing := FindKey(d.commands[k.value].log, report.key);
      if existing.Some? {
        if existing.value.payload != report.payload {
          return Err(KeyReused);
        }
      } else {
        var status := NextStatus(c.status, report.event);
        if status.None? {
          return Err(InvalidTransition);
        }
        if report.event == APPLIED && now2 >= c.expiresAt {
          return Err(CommandTimeout);
        }
        c := c.(status := status.value, log := c.log + [Entry(report.event, report.key, report.payload, now2, false)],
                attempts := c.attempts + if report.event == FORWARDED then 1 else 0);
        commands := commands[k.value := c];
      }
      SettleError(d, commands);
      var done := Commit(code, commands);
      if done.Err? {
        return Err(done.error);
      }
      return Ok(existing.Some?);
    }
  }

  lemma SettleError(d: Device, commands: seq<Command>)
    ensures Settle(d, commands).Err? ==> Settle(d, commands).error == ConstraintViolated
  {
  }
}
