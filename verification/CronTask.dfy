/** A cron task on the timing wheel: one pending entry that re-arms itself each time it fires. */
module CronTasks {
  import opened Buckets
  import opened CronModel
  import opened FlatTimers
  import opened TimingLevels
  import opened TimingWheels
  import opened WheelMachine
  import opened WheelRuns

  class CronTask {
    const id: string
    const fields: seq<string>
    const calendar: Calendar
    const wheel: TimingWheel

    constructor (id: string, fields: seq<string>, calendar: Calendar, wheel: TimingWheel)
      ensures this.id == id && this.fields == fields && this.calendar == calendar && this.wheel == wheel
    {
      this.id, this.fields, this.calendar, this.wheel := id, fields, calendar, wheel;
    }

    /** Arm for the next matching minute after the one `now` is in; `e` is the wheel's entry for it. */
    method Arm(now: int) returns (error: ScheduleError, ghost e: WheelEntry?)
      requires |fields| == 5 && wheel.Valid(now)
      modifies wheel`entries, wheel`fired, wheel`tower, wheel`model, wheel.entries.Values`cancelled
      modifies wheel.queue`h, AllBuckets(wheel.tower), AllLevels(wheel.tower)`overflow, AllEntries(wheel.tower)`next
      ensures wheel.Valid(now)
      ensures error == NoError ==>
        && e != null && e.taskID == id && e.expirationMs % 60000 == 0
        && IsNext(calendar, fields, now / 60000, e.expirationMs / 60000)
        && wheel.model == WheelMachine.Schedule(old(wheel.model), e, now)
      ensures error != NoError ==> wheel.model == old(wheel.model)
    {
      hide TimingWheel.Valid;
      var next := NextExecution(calendar, now / MINUTE, fields);
      error, e := wheel.Schedule(id, next * MINUTE, true, now);
    }

    /** The wheel started the callback of the entry in `f`: arm again, unless the scheduler has stopped. The new
        instant is later than the one that fired. */
    method Fire(now: int, stopped: bool, ghost f: Firing) returns (error: ScheduleError, ghost e: WheelEntry?)
      requires |fields| == 5 && wheel.Valid(now) && MINUTE % BaseTick(wheel.model) == 0
      requires f in wheel.model.fired && f.at <= now && f.entry.taskID == id && f.entry.expirationMs % MINUTE == 0
      modifies wheel`entries, wheel`fired, wheel`tower, wheel`model, wheel.entries.Values`cancelled
      modifies wheel.queue`h, AllBuckets(wheel.tower), AllLevels(wheel.tower)`overflow, AllEntries(wheel.tower)`next
      ensures wheel.Valid(now)
      ensures !stopped && error == NoError ==>
        && e != null && e.taskID == id && e.expirationMs % 60000 == 0
        && IsNext(calendar, fields, now / 60000, e.expirationMs / 60000)
        && e.expirationMs > f.entry.expirationMs
        && wheel.model == WheelMachine.Schedule(old(wheel.model), e, now)
      ensures stopped || error != NoError ==> wheel.model == old(wheel.model)
    {
      ghost var tick := BaseTick(wheel.model);
      FiredOnTime(now, f);
      hide TimingWheel.Valid, IsNext, Due, BaseTick, AllBuckets, AllLevels, AllEntries;
      error, e := NoError, null;
      if !stopped {
        error, e := Arm(now);
        if error == NoError {
          LaterThanFired(tick, f, now, e);
        }
      }
    }

    lemma LaterThanFired(tick: int, f: Firing, now: int, e: WheelEntry)
      requires |fields| == 5 && tick > 0 && MINUTE % tick == 0
      requires Due(f.entry, tick, f.at) && f.at <= now
      requires f.entry.expirationMs % MINUTE == 0 && e.expirationMs % MINUTE == 0
      requires IsNext(calendar, fields, now / MINUTE, e.expirationMs / MINUTE)
      ensures e.expirationMs > f.entry.expirationMs
    {
      MinutesAdvance(tick, f.entry.expirationMs / MINUTE, f.at, now, e.expirationMs / MINUTE);
    }

    lemma FiredOnTime(now: int, f: Firing)
      requires wheel.Valid(now) && f in wheel.model.fired
      ensures Due(f.entry, BaseTick(wheel.model), f.at)
    {
      StateSafety(wheel.model, now);
    }
  }
}
