/**
 * The scheduler's job store as a map from job id to job: what
 * `schedule_oneoff`, `schedule_recurring`, the recurring snooze and
 * `job.remove()` put in it and take out of it. Jobs added with
 * `replace_existing=True` overwrite whatever was stored under their id.
 */
module Jobs {
  import opened Common
  import opened Text
  import opened Calendar
  import opened IsoText
  import opened TimeZones
  import opened Reminders

  /** A job id: `rem-{id}` for a reminder's own job, `snooze-{id}` for a recurring reminder's extra firing. */
  datatype JobKey = RemJob(id: int) | SnoozeJob(id: int)

  /** The id string the scheduler stores. */
  function KeyName(k: JobKey): (r: string)
    ensures k.RemJob? <==> StartsWith(r, "rem-")
    ensures k.SnoozeJob? <==> StartsWith(r, "snooze-")
  {
    match k
    case RemJob(id) =>
      var r := "rem-" + IntToString(id);
      assert r[..4] == "rem-" && r[0] != "snooze-"[0];
      r
    case SnoozeJob(id) =>
      var r := "snooze-" + IntToString(id);
      assert r[..7] == "snooze-" && r[0] != "rem-"[0];
      r
  }

  /** When a job fires: once at a time (`DateTrigger`), or by calendar fields (`CronTrigger`). */
  datatype Trigger =
    | At(run: DateTime)
    | Cron(dayOfWeek: Option<string>, day: Option<int>, hour: int, minute: int, tz: TzInfo)

  /** `job.data`, what `fire_reminder` reads. */
  datatype JobData = JobData(chatId: int, remId: int, title: string, kind: string)

  /** A stored job: its trigger, `misfire_grace_time` in seconds, `name`, and data. */
  datatype Job = Job(trigger: Trigger, grace: int, name: string, data: JobData)

  /** The job `schedule_oneoff` stores for a reminder firing at `run`. */
  function OneOffJob(remId: int, userId: int, run: DateTime, title: string, kind: string): Job
  {
    Job(At(run), 60, "rem " + IntToString(remId), JobData(userId, remId, title, kind))
  }

  /** The job `schedule_recurring` stores. */
  function RecurringJob(remId: int, userId: int, trigger: Trigger, title: string): Job
  {
    Job(trigger, 300, "rem " + IntToString(remId), JobData(userId, remId, title, "recurring"))
  }

  /** The job a snooze of a recurring reminder stores. */
  function SnoozeJobFor(remId: int, userId: int, run: DateTime, title: string): Job
  {
    Job(At(run), 60, "snooze " + IntToString(remId), JobData(userId, remId, title, "oneoff"))
  }

  /** What `schedule_recurring` ends in before it touches the store. */
  datatype Plan =
    | Raises          // the timezone, the `time` field or `day` is unusable
    | Skip            // a `type` other than daily, weekly or monthly: plain `return`
    | Fire(trigger: Trigger)

  /** `hh, mm = map(int, time_str.split(":"))`. */
  function ClockOf(time: string): (r: Option<(int, int)>)
    ensures r.Some? ==> |Split(time, ":")| == 2
    ensures !Occurs(time, ":") ==> r.None?
    ensures r.Some? ==> ParseInt(Split(time, ":")[0]) == Some(r.value.0) && ParseInt(Split(time, ":")[1]) == Some(r.value.1)
  {
    var parts := Split(time, ":");
    if |parts| != 2 then None
    else match (ParseInt(parts[0]), ParseInt(parts[1]))
      case (Some(h), Some(m)) => Some((h, m))
      case _ => None
  }

  /** `recurrence.get(key)`. */
  function Get(rec: Recurrence, key: string): Option<string>
  {
    if key in rec then Some(rec[key]) else None
  }

  /** The trigger `schedule_recurring` builds, or where it stops. */
  function RecurringPlan(rec: Recurrence, tzStr: string, zones: set<string>): (p: Plan)
    ensures p.Fire? ==> Get(rec, "type") in {Some("daily"), Some("weekly"), Some("monthly")}
    ensures p.Fire? ==> TzinfoFromUser(tzStr, zones).Ok? && p.trigger.Cron? && p.trigger.tz == TzinfoFromUser(tzStr, zones).value
    ensures p.Fire? ==> Get(rec, "time").Some? && ClockOf(Get(rec, "time").value) == Some((p.trigger.hour, p.trigger.minute))
    ensures p.Skip? <==>
      TzinfoFromUser(tzStr, zones).Ok? && Get(rec, "time").Some? && ClockOf(Get(rec, "time").value).Some?
      && Get(rec, "type") !in {Some("daily"), Some("weekly"), Some("monthly")}
    ensures TzinfoFromUser(tzStr, zones).Ok? && Get(rec, "time").Some? && ClockOf(Get(rec, "time").value).Some? ==>
      var tz := TzinfoFromUser(tzStr, zones).value;
      var (h, m) := ClockOf(Get(rec, "time").value).value;
      (Get(rec, "type") == Some("daily") ==> p == Fire(Cron(None, None, h, m, tz)))
      && (Get(rec, "type") == Some("weekly") ==> p == Fire(Cron(Get(rec, "weekday"), None, h, m, tz)))
      && (Get(rec, "type") == Some("monthly") ==>
            if Get(rec, "day").Some? && ParseInt(Get(rec, "day").value).Some?
            then p == Fire(Cron(None, ParseInt(Get(rec, "day").value), h, m, tz))
            else p == Raises)
  {
    match TzinfoFromUser(tzStr, zones)
    case Err(_) => Raises
    case Ok(tz) =>
      match Get(rec, "time")
      case None => Raises
      case Some(time) =>
        match ClockOf(time)
        case None => Raises
        case Some((hh, mm)) =>
          var rtype := Get(rec, "type");
          if rtype == Some("daily") then Fire(Cron(None, None, hh, mm, tz))
          else if rtype == Some("weekly") then Fire(Cron(Get(rec, "weekday"), None, hh, mm, tz))
          else if rtype == Some("monthly") then
            match Get(rec, "day")
            case None => Raises
            case Some(d) =>
              match ParseInt(d)
              case None => Raises
              case Some(day) => Fire(Cron(None, Some(day), hh, mm, tz))
          else Skip
  }

  class JobTable {
    /** At most one job per id, by construction of the map. */
    var jobs: map<JobKey, Job>

    constructor ()
      ensures jobs == map[]
    {
      jobs := map[];
    }

    /**
     * `schedule_oneoff`: `rem-{id}` now holds a job firing at the parsed
     * time, replacing any job stored there; a time that does not parse
     * raises before the store is touched.
     */
    method ScheduleOneOff(remId: int, userId: int, whenIso: string, title: string, kind: string) returns (scheduled: bool)
      modifies this
      ensures scheduled <==> ParseIso(whenIso).Some?
      ensures scheduled ==> jobs == old(jobs)[RemJob(remId) := OneOffJob(remId, userId, ParseIso(whenIso).value, title, kind)]
      ensures !scheduled ==> jobs == old(jobs)
    {
      var dt := ParseIso(whenIso);
      scheduled := dt.Some?;
      if scheduled {
        jobs := jobs[RemJob(remId) := OneOffJob(remId, userId, dt.value, title, kind)];
      }
    }

    /**
     * `schedule_recurring`: `rem-{id}` now holds the cron job, replacing any
     * job stored there; an unknown type, or a failure on the way, leaves the
     * store as it was.
     */
    method ScheduleRecurring(remId: int, userId: int, title: string, rec: Recurrence, tzStr: string, zones: set<string>)
      returns (plan: Plan)
      modifies this
      ensures plan == RecurringPlan(rec, tzStr, zones)
      ensures plan.Fire? ==> jobs == old(jobs)[RemJob(remId) := RecurringJob(remId, userId, plan.trigger, title)]
      ensures !plan.Fire? ==> jobs == old(jobs)
    {
      plan := RecurringPlan(rec, tzStr, zones);
      if plan.Fire? {
        jobs := jobs[RemJob(remId) := RecurringJob(remId, userId, plan.trigger, title)];
      }
    }

    /** The recurring snooze: `snooze-{id}` holds a one-time job; `rem-{id}` is not touched. */
    method AddSnoozeJob(remId: int, userId: int, run: DateTime, title: string)
      modifies this
      ensures jobs == old(jobs)[SnoozeJob(remId) := SnoozeJobFor(remId, userId, run, title)]
    {
      jobs := jobs[SnoozeJob(remId) := SnoozeJobFor(remId, userId, run, title)];
    }

    /** `get_job(key)` then `job.remove()` when there is one. */
    method RemoveJob(key: JobKey)
      modifies this
      ensures jobs == old(jobs) - {key}
    {
      if key in jobs {
        jobs := jobs - {key};
      }
    }
  }

  /** Distinct job keys have distinct id strings: `rem-` and `snooze-` ids never collide. */
  lemma KeyNameInjective(a: JobKey, b: JobKey)
    requires KeyName(a) == KeyName(b)
    ensures a == b
  {
    var s := KeyName(a);
    KeyNameHead(a);
    KeyNameHead(b);
    if a.RemJob? {
      assert b.RemJob?;
      assert IntToString(a.id) == s[4..] == IntToString(b.id);
      IntToStringInjective(a.id, b.id);
    } else {
      assert b.SnoozeJob?;
      assert IntToString(a.id) == s[7..] == IntToString(b.id);
      IntToStringInjective(a.id, b.id);
    }
  }

  /** The first letter of an id string tells the two kinds of job apart. */
  lemma KeyNameHead(k: JobKey)
    ensures |KeyName(k)| > 0 && KeyName(k)[0] == if k.RemJob? then 'r' else 's'
  {
  }

  /** A `time` written as `str(h):str(m)` gives the cron trigger that hour and minute. */
  lemma ClockOfWritten(h: int, m: int)
    ensures ClockOf(IntToString(h) + ":" + IntToString(m)) == Some((h, m))
  {
    var a, b := IntToString(h), IntToString(m);
    SplitAfter(a, ':', b);
    SplitAbsent(b, ':');
    assert Split(a + ":" + b, ":") == [a, b];
    ParseIntToString(h);
    ParseIntToString(m);
  }

  /**
   * Whether a cron trigger fires at a local time given by its weekday name,
   * day of the month, hour and minute: an unset field matches every value.
   */
  predicate Fires(tr: Trigger, weekday: string, day: int, hour: int, minute: int)
  {
    tr.Cron? && (tr.dayOfWeek.None? || tr.dayOfWeek.value == weekday)
    && (tr.day.None? || tr.day.value == day) && hour == tr.hour && minute == tr.minute
  }

  /** A daily recurrence at a readable `h:m` fires on every day, at `h:m` and at no other minute. */
  lemma DailyPlan(rec: Recurrence, tzStr: string, zones: set<string>, h: int, m: int)
    requires Get(rec, "type") == Some("daily") && Get(rec, "time").Some? && ClockOf(Get(rec, "time").value) == Some((h, m))
    requires TzinfoFromUser(tzStr, zones).Ok?
    ensures RecurringPlan(rec, tzStr, zones).Fire?
    ensures RecurringPlan(rec, tzStr, zones).trigger.tz == TzinfoFromUser(tzStr, zones).value
    ensures forall w, d, hour, minute ::
      Fires(RecurringPlan(rec, tzStr, zones).trigger, w, d, hour, minute) <==> hour == h && minute == m
  {
  }

  /** A weekly recurrence fires only on its `weekday`, at its `h:m`. */
  lemma WeeklyPlan(rec: Recurrence, tzStr: string, zones: set<string>, h: int, m: int, weekday: string)
    requires Get(rec, "type") == Some("weekly") && Get(rec, "weekday") == Some(weekday)
    requires Get(rec, "time").Some? && ClockOf(Get(rec, "time").value) == Some((h, m))
    requires TzinfoFromUser(tzStr, zones).Ok?
    ensures RecurringPlan(rec, tzStr, zones).Fire?
    ensures forall w, d, hour, minute ::
      Fires(RecurringPlan(rec, tzStr, zones).trigger, w, d, hour, minute) <==> w == weekday && hour == h && minute == m
  {
  }

  /** A monthly recurrence with a readable `day` fires only on that day of the month, at its `h:m`. */
  lemma MonthlyPlan(rec: Recurrence, tzStr: string, zones: set<string>, h: int, m: int, day: int)
    requires Get(rec, "type") == Some("monthly") && Get(rec, "day").Some? && ParseInt(Get(rec, "day").value) == Some(day)
    requires Get(rec, "time").Some? && ClockOf(Get(rec, "time").value) == Some((h, m))
    requires TzinfoFromUser(tzStr, zones).Ok?
    ensures RecurringPlan(rec, tzStr, zones).Fire?
    ensures forall w, d, hour, minute ::
      Fires(RecurringPlan(rec, tzStr, zones).trigger, w, d, hour, minute) <==> d == day && hour == h && minute == m
  {
  }

  /** A `time` zero-padded as `HH:MM` reads back as the same hour and minute. */
  lemma ClockOfPadded(h: nat, m: nat)
    requires h < 24 && m < 60
    ensures ClockOf(Pad2(h) + ":" + Pad2(m)) == Some((h as int, m as int))
  {
    var a, b := Pad2(h), Pad2(m);
    assert ':' !in a && ':' !in b by {
      assert forall i | 0 <= i < 2 :: IsDigit(a[i]) && IsDigit(b[i]);
    }
    SplitAfter(a, ':', b);
    SplitAbsent(b, ':');
    assert Split(a + ":" + b, ":") == [a, b];
  }

}
