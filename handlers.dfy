/**
 * The Telegram handlers as operations on the reminders table, the job store
 * and the per-user data: `cb_inline`, `cb_pick`, `cb_tz`, `cb_answer` and
 * `handle_text`. Every handler keeps the job store in step with the table:
 * a reminder's own job exists only for a scheduled row and carries that
 * row's owner, title and kind, and a one-off job fires at the row's stored time.
 */
module Handlers {
  import opened Common
  import opened Text
  import opened Calendar
  import opened IsoText
  import opened TimeZones
  import opened Callbacks
  import opened Reminders
  import opened Jobs
  import opened Clarify

  /** The `rem-{id}` job agrees with row `id`. */
  predicate MatchesRow(job: Job, id: int, row: Row)
  {
    job.data == JobData(row.userId, id, row.title, if row.kind == OneOff then "oneoff" else "recurring")
    && (row.kind == OneOff ==>
          job.trigger.At? && row.whenIso.Some? && ParseIso(row.whenIso.value) == Some(job.trigger.run))
  }

  /**
   * Every job is about the reminder its id names, and a reminder's own job
   * exists only for a scheduled row it agrees with.
   */
  ghost predicate JobsAgree(rows: map<int, Row>, jobs: map<JobKey, Job>)
  {
    (forall k | k in jobs :: jobs[k].data.remId == k.id)
    && (forall id | RemJob(id) in jobs ::
          id in rows && rows[id].status == Scheduled && MatchesRow(jobs[RemJob(id)], id, rows[id]))
  }

  /** The table and the job store agree. */
  ghost predicate Synced(db: ReminderTable, sched: JobTable)
    reads db, sched
  {
    db.Valid() && JobsAgree(db.rows, sched.jobs)
  }

  /** A new id never inherits a job: nothing is stored under `rem-{id}` for an id the table has not used. */
  lemma FreshIdHasNoJob(db: ReminderTable, sched: JobTable)
    requires Synced(db, sched)
    ensures RemJob(db.nextId) !in sched.jobs
  {
  }

  /** A row without a job of its own can be added or replaced freely. */
  lemma AgreeAfterRow(rows: map<int, Row>, jobs: map<JobKey, Job>, id: int, row: Row)
    requires JobsAgree(rows, jobs) && RemJob(id) !in jobs
    ensures JobsAgree(rows[id := row], jobs)
  {
  }

  /** A job that agrees with its scheduled row can be stored under `rem-{id}`. */
  lemma AgreeAfterSchedule(rows: map<int, Row>, jobs: map<JobKey, Job>, id: int, job: Job)
    requires JobsAgree(rows, jobs) && id in rows && rows[id].status == Scheduled
    requires job.data.remId == id && MatchesRow(job, id, rows[id])
    ensures JobsAgree(rows, jobs[RemJob(id) := job])
  {
  }

  // ---------- cb_inline ----------

  /** What `cb_inline` answers with. */
  datatype InlineReply =
    | Deleted                       // "Удалено ✅"
    | SnoozedFor(minutes: int)      // "⏲ Отложено на {mins} мин."
    | SnoozedOnceFor(minutes: int)  // "... (одноразово)", for a recurring reminder
    | MarkedAsDone                  // "✅ Выполнено"
    | ReminderMissing               // "Ошибка: напоминание не найдено."
    | Unhandled                     // a payload without one of its prefixes
    | InlineFailed                  // an exception: a piece `int()` rejects, a time that does not parse or overflows

  /** Exactly one of the three prefixes `cb_inline` tests can hold. */
  lemma InlinePrefixesExclusive(data: string)
    ensures !(StartsWith(data, "del:") && StartsWith(data, "snooze:"))
    ensures !(StartsWith(data, "del:") && StartsWith(data, "done:"))
    ensures !(StartsWith(data, "snooze:") && StartsWith(data, "done:"))
  {
    if StartsWith(data, "del:") {
      assert data[1] == 'e';
    } else if StartsWith(data, "snooze:") {
      assert data[0] == 's';
    }
  }

  /** `del:{id}` takes the row and `rem-{id}` out; an unreadable id changes nothing. */
  predicate DeleteEffect(rows: map<int, Row>, jobs: map<JobKey, Job>, data: string,
                         reply: InlineReply, newRows: map<int, Row>, newJobs: map<JobKey, Job>)
  {
    if ReadDelete(data).None? then reply == InlineFailed && newRows == rows && newJobs == jobs
    else
      var id := ReadDelete(data).value.id;
      reply == Deleted && newRows == rows - {id} && newJobs == jobs - {RemJob(id)}
  }

  /** `done:{id}` marks the row done, if there is one, and takes `rem-{id}` out. */
  predicate DoneEffect(rows: map<int, Row>, jobs: map<JobKey, Job>, data: string,
                       reply: InlineReply, newRows: map<int, Row>, newJobs: map<JobKey, Job>)
  {
    if ReadDone(data).None? then reply == InlineFailed && newRows == rows && newJobs == jobs
    else
      var id := ReadDone(data).value.id;
      reply == MarkedAsDone
      && newRows == (if id in rows then rows[id := rows[id].(status := MarkedDone)] else rows)
      && newJobs == jobs - {RemJob(id)}
  }

  /**
   * `snooze:{m}:{id}`: a missing row and a failure change nothing; a one-off
   * row moves to its stored time plus `m` and `rem-{id}` follows it; a
   * recurring row stays and `snooze-{id}` fires once, `m` minutes from `now`.
   */
  predicate SnoozeEffect(rows: map<int, Row>, jobs: map<JobKey, Job>, data: string, now: DateTime,
                         reply: InlineReply, newRows: map<int, Row>, newJobs: map<JobKey, Job>)
    requires ValidDateTime(now)
  {
    if ReadSnooze(data).None? then reply == InlineFailed && newRows == rows && newJobs == jobs
    else
      var m, id := ReadSnooze(data).value.minutes, ReadSnooze(data).value.id;
      match SnoozedTime(rows, id, m)
      case NotFound =>
        reply == ReminderMissing && newRows == rows && newJobs == jobs
      case SnoozeFailed =>
        reply == InlineFailed && newRows == rows && newJobs == jobs
      case Moved(t) =>
        var row := rows[id];
        reply == SnoozedFor(m)
        && newRows == rows[id := row.(whenIso := Some(IsoNoSeconds(t)), status := Scheduled)]
        && newJobs == jobs[RemJob(id) := OneOffJob(id, row.userId, t.(second := 0), row.title, "oneoff")]
      case RecurringRow =>
        var row := rows[id];
        newRows == rows
        && (AddMinutes(now, m).None? ==> reply == InlineFailed && newJobs == jobs)
        && (AddMinutes(now, m).Some? ==>
              reply == SnoozedOnceFor(m)
              && newJobs == jobs[SnoozeJob(id) := SnoozeJobFor(id, row.userId, AddMinutes(now, m).value.(second := 0), row.title)])
  }

  /** `del:{id}`: the row and `rem-{id}` go; a pending `snooze-{id}` stays. */
  method InlineDelete(db: ReminderTable, sched: JobTable, data: string) returns (reply: InlineReply)
    requires Synced(db, sched)
    modifies db, sched
    ensures Synced(db, sched) && db.userTz == old(db.userTz)
    ensures DeleteEffect(old(db.rows), old(sched.jobs), data, reply, db.rows, sched.jobs)
  {
    var c := ReadDelete(data);
    if c.None? {
      return InlineFailed;
    }
    var id := c.value.id;
    db.Delete(id);
    sched.RemoveJob(RemJob(id));
    reply := Deleted;
  }

  /** `done:{id}`: only that row's status changes, and only `rem-{id}` goes; a pending `snooze-{id}` stays. */
  method InlineDone(db: ReminderTable, sched: JobTable, data: string) returns (reply: InlineReply)
    requires Synced(db, sched)
    modifies db, sched
    ensures Synced(db, sched) && db.userTz == old(db.userTz)
    ensures DoneEffect(old(db.rows), old(sched.jobs), data, reply, db.rows, sched.jobs)
  {
    var c := ReadDone(data);
    if c.None? {
      return InlineFailed;
    }
    var id := c.value.id;
    db.MarkDone(id);
    sched.RemoveJob(RemJob(id));
    reply := MarkedAsDone;
  }

  /** The one-off half of a snooze: the row moves and `rem-{id}` is rescheduled to the new minute. */
  method SnoozeOneOff(db: ReminderTable, sched: JobTable, id: int, m: int)
    requires Synced(db, sched) && SnoozedTime(db.rows, id, m).Moved?
    modifies db, sched
    ensures Synced(db, sched) && db.userTz == old(db.userTz)
    ensures var t := SnoozedTime(old(db.rows), id, m).time;
      var row := old(db.rows)[id];
      db.rows == old(db.rows)[id := row.(whenIso := Some(IsoNoSeconds(t)), status := Scheduled)]
      && sched.jobs == old(sched.jobs)[RemJob(id) := OneOffJob(id, row.userId, t.(second := 0), row.title, "oneoff")]
  {
    var outcome := db.Snooze(id, m);
    var row := db.rows[id];
    var scheduled := sched.ScheduleOneOff(id, row.userId, row.whenIso.value, row.title, "oneoff");
  }

  /**
   * The recurring half of a snooze: the row and `rem-{id}` stay, and
   * `snooze-{id}` fires once, `m` minutes from `now` to the minute.
   */
  method SnoozeOnce(db: ReminderTable, sched: JobTable, id: int, m: int, now: DateTime) returns (reply: InlineReply)
    requires Synced(db, sched) && ValidDateTime(now) && now.offset == Some(0) && id in db.rows && db.rows[id].kind == Recurring
    modifies sched
    ensures Synced(db, sched)
    ensures AddMinutes(now, m).None? ==> reply == InlineFailed && sched.jobs == old(sched.jobs)
    ensures AddMinutes(now, m).Some? ==>
      reply == SnoozedOnceFor(m)
      && sched.jobs == old(sched.jobs)[SnoozeJob(id) := SnoozeJobFor(id, db.rows[id].userId, AddMinutes(now, m).value.(second := 0), db.rows[id].title)]
  {
    var shifted := AddMinutes(now, m);
    if shifted.None? {
      return InlineFailed;
    }
    var when := IsoNoSeconds(shifted.value);
    var run := ParseIso(when);
    sched.AddSnoozeJob(id, db.rows[id].userId, run.value, db.rows[id].title);
    reply := SnoozedOnceFor(m);
  }

  /**
   * `snooze:{m}:{id}`: a one-off reminder moves to its stored time plus `m`
   * minutes and `rem-{id}` is rescheduled to it; a recurring reminder keeps
   * its row and its `rem-{id}` job and gets one extra firing under
   * `snooze-{id}`, `m` minutes from `now`.
   */
  method InlineSnooze(db: ReminderTable, sched: JobTable, data: string, now: DateTime) returns (reply: InlineReply)
    requires Synced(db, sched) && ValidDateTime(now) && now.offset == Some(0)
    modifies db, sched
    ensures Synced(db, sched) && db.userTz == old(db.userTz)
    ensures SnoozeEffect(old(db.rows), old(sched.jobs), data, now, reply, db.rows, sched.jobs)
  {
    var c := ReadSnooze(data);
    if c.None? {
      return InlineFailed;
    }
    var m, id := c.value.minutes, c.value.id;
    var outcome := SnoozedTime(db.rows, id, m);
    match outcome
    case NotFound =>
      reply := ReminderMissing;
    case SnoozeFailed =>
      reply := InlineFailed;
    case Moved(_) =>
      SnoozeOneOff(db, sched, id, m);
      reply := SnoozedFor(m);
    case RecurringRow =>
      reply := SnoozeOnce(db, sched, id, m, now);
  }

  /** `cb_inline`: the payload's prefix picks the action. */
  method CbInline(db: ReminderTable, sched: JobTable, data: string, now: DateTime) returns (reply: InlineReply)
    requires Synced(db, sched) && ValidDateTime(now) && now.offset == Some(0)
    modifies db, sched
    ensures Synced(db, sched) && db.userTz == old(db.userTz)
    ensures StartsWith(data, "del:") ==> DeleteEffect(old(db.rows), old(sched.jobs), data, reply, db.rows, sched.jobs)
    ensures StartsWith(data, "snooze:") ==> SnoozeEffect(old(db.rows), old(sched.jobs), data, now, reply, db.rows, sched.jobs)
    ensures StartsWith(data, "done:") ==> DoneEffect(old(db.rows), old(sched.jobs), data, reply, db.rows, sched.jobs)
    ensures !StartsWith(data, "del:") && !StartsWith(data, "snooze:") && !StartsWith(data, "done:") ==>
      reply == Unhandled && db.rows == old(db.rows) && sched.jobs == old(sched.jobs)
  {
    InlinePrefixesExclusive(data);
    if StartsWith(data, "del:") {
      reply := InlineDelete(db, sched, data);
    } else if StartsWith(data, "snooze:") {
      reply := InlineSnooze(db, sched, data, now);
    } else if StartsWith(data, "done:") {
      reply := InlineDone(db, sched, data);
    } else {
      reply := Unhandled;
    }
  }

  // ---------- cb_pick, cb_tz ----------

  /** The title a picked time gets. */
  const PickedTitle: string := "Напоминание"

  datatype PickReply = Picked(id: int, scheduled: bool) | PickIgnored | PickFailed

  /**
   * `cb_pick`: a one-off reminder at the picked text, and `rem-{id}` firing
   * at it when it parses.
   */
  method CbPick(db: ReminderTable, sched: JobTable, data: string, user: int) returns (reply: PickReply)
    requires Synced(db, sched)
    modifies db, sched
    ensures Synced(db, sched) && db.userTz == old(db.userTz)
    ensures !StartsWith(data, "pick:") ==> reply == PickIgnored && db.rows == old(db.rows) && sched.jobs == old(sched.jobs)
    ensures StartsWith(data, "pick:") && ReadPick(data).None? ==> reply == PickFailed && db.rows == old(db.rows) && sched.jobs == old(sched.jobs)
    ensures StartsWith(data, "pick:") && ReadPick(data).Some? ==>
      var iso := ReadPick(data).value.iso;
      reply.Picked? && reply.id == old(db.nextId) && reply.id !in old(db.rows)
      && db.rows == old(db.rows)[reply.id := Row(user, PickedTitle, None, Some(iso), Scheduled, OneOff, None)]
      && (reply.scheduled <==> ParseIso(iso).Some?)
      && (reply.scheduled ==> sched.jobs == old(sched.jobs)[RemJob(reply.id) := OneOffJob(reply.id, user, ParseIso(iso).value, PickedTitle, "oneoff")])
      && (!reply.scheduled ==> sched.jobs == old(sched.jobs))
  {
    if !StartsWith(data, "pick:") {
      return PickIgnored;
    }
    var c := ReadPick(data);
    if c.None? {
      return PickFailed;
    }
    var iso := c.value.iso;
    FreshIdHasNoJob(db, sched);
    var id := db.AddOneOff(user, PickedTitle, None, iso);
    AgreeAfterRow(old(db.rows), sched.jobs, id, db.rows[id]);
    if ParseIso(iso).Some? {
      AgreeAfterSchedule(db.rows, sched.jobs, id, OneOffJob(id, user, ParseIso(iso).value, PickedTitle, "oneoff"));
    }
    var scheduled := sched.ScheduleOneOff(id, user, iso, PickedTitle, "oneoff");
    reply := Picked(id, scheduled);
  }

  /** `cb_tz`: a city button stores its offset as the user's timezone; `other` asks for free input. */
  method CbTz(db: ReminderTable, data: string, chat: int) returns (stored: Option<string>)
    modifies db
    ensures db.rows == old(db.rows) && db.nextId == old(db.nextId)
    ensures StartsWith(data, "tz:") && ReadTz(data) == Some(TzOther) ==> stored.None? && db.userTz == old(db.userTz)
    ensures StartsWith(data, "tz:") && ReadTz(data).Some? && ReadTz(data).value.TzChoice? ==>
      stored == Some(ReadTz(data).value.offset) && db.userTz == old(db.userTz)[chat := ReadTz(data).value.offset]
    ensures !StartsWith(data, "tz:") ==> stored.None? && db.userTz == old(db.userTz)
  {
    stored := None;
    if StartsWith(data, "tz:") {
      var c := ReadTz(data);
      if c.Some? && c.value.TzChoice? {
        db.SetUserTz(chat, c.value.offset);
        stored := Some(c.value.offset);
      }
    }
  }

  // ---------- handle_text ----------

  /** What `handle_text` answers with. */
  datatype TextReply =
    | TzSet(tz: string)                              // the text was a timezone
    | ShowList(ids: seq<int>, buttons: seq<seq<Button>>) // `cmd_list`
    | SettingsStub                                   // "Раздел «Настройки» в разработке."
    | AskTz                                          // no timezone stored yet
    | NotUnderstood                                  // the model raised
    | Question(question: string, buttons: seq<seq<Button>>)
    | CreatedRecurring(id: int, plan: Plan)
    | CreatedOneOff(id: int)
    | NoTime                                         // a reminder without a time
    | TextFailed                                     // `fixed_datetime` that does not parse
    | Fallback                                       // any other intent

  const ListButtonText: string := "📝 Список напоминаний"
  const SettingsButtonText: string := "⚙️ Настройки"
  const DefaultQuestion: string := "Уточни, пожалуйста."

  /** The text `handle_text` works on: a pending button answer, else the stripped message, else empty. */
  function Incoming(auto: Option<string>, message: Option<string>): (t: string)
    ensures auto.Some? && auto.value != [] ==> t == auto.value
    ensures (auto.None? || auto.value == []) && message.Some? ==> t == Strip(message.value)
  {
    if auto.Some? && auto.value != [] then auto.value
    else if message.Some? && message.value != [] then Strip(message.value)
    else []
  }

  /** Whether `try_handle_tz_input` takes the message, and the timezone it stores. */
  function TzFromMessage(message: Option<string>, zones: set<string>): (tz: Option<string>)
    ensures message.None? || message.value == [] ==> tz.None?
    ensures message.Some? && message.value != [] ==> tz == ParseTzInputChecked(message.value, zones)
    ensures tz.Some? ==> message.Some? && ParseTzInput(message.value, zones) == tz
  {
    if message.None? || message.value == [] then None
    else
      StripThenParse(message.value, zones);
      ParseTzInputChecked(Strip(message.value), zones)
  }

  /** `parse_tz_input` strips its text itself, so stripping first changes nothing. */
  lemma StripThenParse(text: string, zones: set<string>)
    requires text != []
    ensures ParseTzInput(Strip(text), zones) == ParseTzInput(text, zones)
  {
    var t := Strip(text);
    StripTwice(text, t);
    if t == [] {
      EmptyNotParsed(zones);
    }
  }

  /** Stripping twice is stripping once. */
  lemma StripTwice(text: string, t: string)
    requires t == Strip(text)
    ensures Strip(t) == t
  {
    assert Unpadded(t);
  }

  /** Nothing is left of a blank text, and nothing is accepted. */
  lemma EmptyNotParsed(zones: set<string>)
    ensures ParseStripped([], zones).None?
  {
    assert MatchOffset([]).None?;
  }

  /** `create_reminder` with a recurrence: a recurring row and, when its fields are usable, its cron job. */
  method CreateRecurring(db: ReminderTable, sched: JobTable, user: int, userTz: string, title: string,
                         body: Option<string>, rec: Recurrence, zones: set<string>)
    returns (reply: TextReply)
    requires Synced(db, sched)
    modifies db, sched
    ensures Synced(db, sched) && db.userTz == old(db.userTz)
    ensures reply.CreatedRecurring? && reply.id == old(db.nextId)
    ensures db.rows == old(db.rows)[reply.id := Row(user, title, body, None, Scheduled, Recurring, Some(WithTz(Some(rec), userTz)))]
    ensures reply.plan == RecurringPlan(rec, userTz, zones)
    ensures reply.plan.Fire? ==> sched.jobs == old(sched.jobs)[RemJob(reply.id) := RecurringJob(reply.id, user, reply.plan.trigger, title)]
    ensures !reply.plan.Fire? ==> sched.jobs == old(sched.jobs)
  {
    FreshIdHasNoJob(db, sched);
    var id := db.AddRecurring(user, title, body, Some(rec), userTz);
    AgreeAfterRow(old(db.rows), sched.jobs, id, db.rows[id]);
    var plan := RecurringPlan(rec, userTz, zones);
    if plan.Fire? {
      AgreeAfterSchedule(db.rows, sched.jobs, id, RecurringJob(id, user, plan.trigger, title));
    }
    plan := sched.ScheduleRecurring(id, user, title, rec, userTz, zones);
    reply := CreatedRecurring(id, plan);
  }

  /**
   * `create_reminder` with a time: a one-off row at the time without seconds,
   * and `rem-{id}` firing at that minute.
   */
  method CreateOneOff(db: ReminderTable, sched: JobTable, user: int, title: string, body: Option<string>, when: string)
    returns (reply: TextReply)
    requires Synced(db, sched)
    modifies db, sched
    ensures Synced(db, sched) && db.userTz == old(db.userTz)
    ensures ParseIso(when).None? ==> reply == TextFailed && db.rows == old(db.rows) && sched.jobs == old(sched.jobs)
    ensures ParseIso(when).Some? ==>
      var dt := ParseIso(when).value;
      reply == CreatedOneOff(old(db.nextId))
      && db.rows == old(db.rows)[reply.id := Row(user, title, body, Some(IsoNoSeconds(dt)), Scheduled, OneOff, None)]
      && sched.jobs == old(sched.jobs)[RemJob(reply.id) := OneOffJob(reply.id, user, dt.(second := 0), title, "oneoff")]
  {
    var dt := ParseIso(when);
    if dt.None? {
      return TextFailed;
    }
    var clean := IsoNoSeconds(dt.value);
    FreshIdHasNoJob(db, sched);
    var id := db.AddOneOff(user, title, body, clean);
    AgreeAfterRow(old(db.rows), sched.jobs, id, db.rows[id]);
    var job := OneOffJob(id, user, dt.value.(second := 0), title, "oneoff");
    AgreeAfterSchedule(db.rows, sched.jobs, id, job);
    var scheduled := sched.ScheduleOneOff(id, user, clean, title, "oneoff");
    reply := CreatedOneOff(id);
  }

  /**
   * What the `create_reminder` branch does to the tables: the title defaults
   * to "Напоминание"; a non-empty recurrence gives a recurring row and, when
   * its fields are usable, its cron job; otherwise a time that parses gives a
   * one-off row at that minute and `rem-{id}` firing at it; no time, or one
   * that does not parse, changes nothing.
   */
  predicate CreatedEffect(rows: map<int, Row>, jobs: map<JobKey, Job>, next: int, user: int, userTz: string,
                          r: LlmReply, zones: set<string>, reply: TextReply,
                          newRows: map<int, Row>, newJobs: map<JobKey, Job>)
  {
    var title := Or(r.title, PickedTitle);
    if r.recurrence.Some? && r.recurrence.value != map[] then
      var rec := r.recurrence.value;
      var plan := RecurringPlan(rec, userTz, zones);
      reply == CreatedRecurring(next, plan)
      && newRows == rows[next := Row(user, title, r.description, None, Scheduled, Recurring, Some(WithTz(Some(rec), userTz)))]
      && newJobs == (if plan.Fire? then jobs[RemJob(next) := RecurringJob(next, user, plan.trigger, title)] else jobs)
    else if Or(r.fixedDatetime, "") == [] then
      reply == NoTime && newRows == rows && newJobs == jobs
    else if ParseIso(r.fixedDatetime.value).None? then
      reply == TextFailed && newRows == rows && newJobs == jobs
    else
      var dt := ParseIso(r.fixedDatetime.value).value;
      reply == CreatedOneOff(next)
      && newRows == rows[next := Row(user, title, r.description, Some(IsoNoSeconds(dt)), Scheduled, OneOff, None)]
      && newJobs == jobs[RemJob(next) := OneOffJob(next, user, dt.(second := 0), title, "oneoff")]
  }

  /**
   * What the model's answer leads to: a raised call and any intent other than
   * the two the bot knows change nothing; a question comes back with at most
   * six variant buttons; a reminder is created as `CreatedEffect` says.
   */
  predicate AnswerEffect(rows: map<int, Row>, jobs: map<JobKey, Job>, next: int, user: int, userTz: string,
                         llm: LlmResult, zones: set<string>, reply: TextReply,
                         newRows: map<int, Row>, newJobs: map<JobKey, Job>)
  {
    if llm.Raised? then
      reply == NotUnderstood && newRows == rows && newJobs == jobs
    else if Asks(llm) then
      var vs := llm.reply.variants;
      reply.Question? && reply.question == Or(llm.reply.question, DefaultQuestion)
      && |reply.buttons| == Min(|vs|, 6)
      && (forall k | 0 <= k < |reply.buttons| :: reply.buttons[k] == [VariantButton(vs[k])])
      && newRows == rows && newJobs == jobs
    else if llm.reply.intent == Some("create_reminder") then
      CreatedEffect(rows, jobs, next, user, userTz, llm.reply, zones, reply, newRows, newJobs)
    else
      reply == Fallback && newRows == rows && newJobs == jobs
  }

  /** The `create_reminder` branch: a recurring reminder when the model gave a recurrence, else a one-off one. */
  method CreateReminder(db: ReminderTable, sched: JobTable, user: int, userTz: string, r: LlmReply, zones: set<string>)
    returns (reply: TextReply)
    requires Synced(db, sched)
    modifies db, sched
    ensures Synced(db, sched) && db.userTz == old(db.userTz)
    ensures CreatedEffect(old(db.rows), old(sched.jobs), old(db.nextId), user, userTz, r, zones, reply, db.rows, sched.jobs)
  {
    var title := Or(r.title, PickedTitle);
    if r.recurrence.Some? && r.recurrence.value != map[] {
      reply := CreateRecurring(db, sched, user, userTz, title, r.description, r.recurrence.value, zones);
    } else if Or(r.fixedDatetime, "") == [] {
      reply := NoTime;
    } else {
      reply := CreateOneOff(db, sched, user, title, r.description, r.fixedDatetime.value);
    }
  }

  /**
   * The part of `handle_text` after the timezone check: the model is sent
   * the incoming text (inside a session, with the original request), and its
   * answer sets, keeps or clears the session and may create a reminder.
   */
  method Converse(db: ReminderTable, sched: JobTable, ud: UserData, user: int, userTz: string, incoming: string,
                  llm: LlmResult, zones: set<string>)
    returns (reply: TextReply, prompt: string)
    requires Synced(db, sched)
    modifies db, sched, ud
    ensures Synced(db, sched) && db.userTz == old(db.userTz)
    ensures prompt == LlmInput(old(ud.clarify), incoming)
    ensures ud.clarify == NextClarify(old(ud.clarify), llm, incoming) && ud.autoAnswer == old(ud.autoAnswer)
    ensures AnswerEffect(old(db.rows), old(sched.jobs), old(db.nextId), user, userTz, llm, zones, reply, db.rows, sched.jobs)
  {
    var cstate := ud.clarify;
    prompt := LlmInput(cstate, incoming);
    if llm.Raised? {
      return NotUnderstood, prompt;
    }
    var r := llm.reply;
    if r.intent == Some("ask_clarification") {
      ud.SetClarifyState(NextClarify(cstate, llm, incoming));
      var buttons := VariantKeyboard(r.variants);
      return Question(Or(r.question, DefaultQuestion), buttons), prompt;
    }
    ud.SetClarifyState(None);
    if r.intent == Some("create_reminder") {
      reply := CreateReminder(db, sched, user, userTz, r, zones);
    } else {
      reply := Fallback;
    }
  }

  /**
   * `handle_text` once the text to work on is known: the list and settings
   * commands, the timezone check, and then the model.
   */
  method Route(db: ReminderTable, sched: JobTable, ud: UserData, user: int, incoming: string,
               llm: LlmResult, zones: set<string>)
    returns (reply: TextReply, prompt: Option<string>)
    requires Synced(db, sched)
    modifies db, sched, ud
    ensures Synced(db, sched) && db.userTz == old(db.userTz) && ud.autoAnswer == old(ud.autoAnswer)
    ensures prompt.None? ==> ud.clarify == old(ud.clarify)
    ensures var isList := incoming == ListButtonText || LowerAscii(incoming) == "/list";
      var isSettings := incoming == SettingsButtonText || LowerAscii(incoming) == "/settings";
      (isList ==>
         reply.ShowList? && reply.ids == old(db.Future(user)) && |reply.buttons| == |reply.ids|
         && (forall k | 0 <= k < |reply.ids| :: reply.buttons[k] == [DeleteButton(reply.ids[k])]))
      && (!isList && isSettings ==> reply == SettingsStub)
      && (!isList && !isSettings && old(db.UserTz(user)).None? ==> reply == AskTz)
      && (isList || isSettings || old(db.UserTz(user)).None? ==>
            prompt.None? && db.rows == old(db.rows) && sched.jobs == old(sched.jobs))
      && (!isList && !isSettings && old(db.UserTz(user)).Some? ==>
            prompt == Some(LlmInput(old(ud.clarify), incoming))
            && ud.clarify == NextClarify(old(ud.clarify), llm, incoming)
            && AnswerEffect(old(db.rows), old(sched.jobs), old(db.nextId), user, old(db.UserTz(user)).value,
                            llm, zones, reply, db.rows, sched.jobs))
  {
    if incoming == ListButtonText || LowerAscii(incoming) == "/list" {
      var ids := db.Future(user);
      var buttons := ListKeyboard(ids);
      return ShowList(ids, buttons), None;
    }
    if incoming == SettingsButtonText || LowerAscii(incoming) == "/settings" {
      return SettingsStub, None;
    }
    var userTz := db.UserTz(user);
    if userTz.None? {
      return AskTz, None;
    }
    var text;
    reply, text := Converse(db, sched, ud, user, userTz.value, incoming, llm, zones);
    prompt := Some(text);
  }

  /**
   * `handle_text`. `message` is the message text (`None` for a button
   * press), `llm` what `call_llm` does with the text it is sent, which is
   * returned as `prompt` when the model is consulted.
   */
  method HandleText(db: ReminderTable, sched: JobTable, ud: UserData, user: int, message: Option<string>,
                    llm: LlmResult, zones: set<string>)
    returns (reply: TextReply, prompt: Option<string>)
    requires Synced(db, sched)
    modifies db, sched, ud
    ensures Synced(db, sched)
    ensures TzFromMessage(message, zones).Some? ==>
      reply == TzSet(TzFromMessage(message, zones).value) && prompt.None?
      && db.userTz == old(db.userTz)[user := reply.tz] && db.rows == old(db.rows) && sched.jobs == old(sched.jobs)
      && ud.clarify == old(ud.clarify) && ud.autoAnswer == old(ud.autoAnswer)
    ensures TzFromMessage(message, zones).None? ==> ud.autoAnswer.None? && db.userTz == old(db.userTz)
    ensures prompt.None? ==> ud.clarify == old(ud.clarify)
    ensures TzFromMessage(message, zones).None? ==>
      var incoming := Incoming(old(ud.autoAnswer), message);
      var isList := incoming == ListButtonText || LowerAscii(incoming) == "/list";
      var isSettings := incoming == SettingsButtonText || LowerAscii(incoming) == "/settings";
      (isList ==>
         reply.ShowList? && reply.ids == old(db.Future(user)) && |reply.buttons| == |reply.ids|
         && (forall k | 0 <= k < |reply.ids| :: reply.buttons[k] == [DeleteButton(reply.ids[k])]))
      && (!isList && isSettings ==> reply == SettingsStub)
      && (!isList && !isSettings && old(db.UserTz(user)).None? ==> reply == AskTz)
      && (isList || isSettings || old(db.UserTz(user)).None? ==>
            prompt.None? && db.rows == old(db.rows) && sched.jobs == old(sched.jobs))
      && (!isList && !isSettings && old(db.UserTz(user)).Some? ==>
            prompt == Some(LlmInput(old(ud.clarify), incoming))
            && ud.clarify == NextClarify(old(ud.clarify), llm, incoming)
            && AnswerEffect(old(db.rows), old(sched.jobs), old(db.nextId), user, old(db.UserTz(user)).value,
                            llm, zones, reply, db.rows, sched.jobs))
  {
    var tz := TzFromMessage(message, zones);
    if tz.Some? {
      db.SetUserTz(user, tz.value);
      return TzSet(tz.value), None;
    }
    var auto := ud.PopAutoAnswer();
    reply, prompt := Route(db, sched, ud, user, Incoming(auto, message), llm, zones);
  }

  /** `cb_answer`: the caption becomes the next incoming text, and `handle_text` runs on it. */
  method CbAnswer(db: ReminderTable, sched: JobTable, ud: UserData, user: int, data: string,
                  llm: LlmResult, zones: set<string>)
    returns (reply: Option<TextReply>, prompt: Option<string>)
    requires Synced(db, sched)
    modifies db, sched, ud
    ensures Synced(db, sched)
    ensures !StartsWith(data, "answer:") ==>
      reply.None? && db.rows == old(db.rows) && sched.jobs == old(sched.jobs) && ud.clarify == old(ud.clarify)
    ensures StartsWith(data, "answer:") && ReadAnswer(data).Some? && prompt.Some? ==>
      prompt.value == LlmInput(old(ud.clarify), ReadAnswer(data).value.caption)
  {
    reply, prompt := None, None;
    if !StartsWith(data, "answer:") {
      return;
    }
    var c := ReadAnswer(data);
    if c.None? {
      return;
    }
    ud.SetAutoAnswer(c.value.caption);
    var r;
    r, prompt := HandleText(db, sched, ud, user, None, llm, zones);
    reply := Some(r);
  }
}
