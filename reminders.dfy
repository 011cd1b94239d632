/**
 * The `users` and `reminders` tables as in-memory maps: rows keyed by an
 * autoincrement id, the per-user timezone text, and the queries and updates
 * the bot runs on them.
 */
module Reminders {
  import opened Common
  import opened Calendar
  import opened IsoText

  /** `kind`: `'oneoff'` or `'recurring'`. */
  datatype Kind = OneOff | Recurring

  /** `status`: `'scheduled'` until the done button sets it to `'done'`. */
  datatype Status = Scheduled | MarkedDone

  /** The recurrence object the model returns (`type`, `time`, `weekday`, `day`, ...), string-valued. */
  type Recurrence = map<string, string>

  /** One row of `reminders`. `recurrence` is the stored `recurrence_json`. */
  datatype Row = Row(
    userId: int,
    title: string,
    body: Option<string>,
    whenIso: Option<string>,
    status: Status,
    kind: Kind,
    recurrence: Option<Recurrence>)

  /** What `db_snooze` reports. */
  datatype SnoozeOutcome =
    | NotFound              // `(None, None)`: no row with that id
    | RecurringRow          // `("recurring", None)`: the row is left alone
    | Moved(time: DateTime) // `("oneoff", dt)`: the row now fires at `dt`
    | SnoozeFailed          // the stored time does not parse, or the shift leaves years 1..9999

  /** A row `db_future(user)` lists. */
  predicate Listed(r: Row, user: int)
  {
    r.userId == user && r.status == Scheduled
  }

  /**
   * The ids in `1..n` whose rows `db_future(user)` selects, largest first
   * (`order by id desc`).
   */
  function SelectDescending(rows: map<int, Row>, user: int, n: nat): (ids: seq<int>)
    ensures forall i, j | 0 <= i < j < |ids| :: ids[i] > ids[j]
    ensures forall i | 0 <= i < |ids| :: 1 <= ids[i] <= n && ids[i] in rows && Listed(rows[ids[i]], user)
    ensures forall id | 1 <= id <= n && id in rows && Listed(rows[id], user) :: id in ids
  {
    if n == 0 then []
    else
      var rest := SelectDescending(rows, user, n - 1);
      if n in rows && Listed(rows[n], user) then [n] + rest else rest
  }

  class ReminderTable {
    /** `reminders`, keyed by `id`. */
    var rows: map<int, Row>
    /** The next id `autoincrement` hands out: ids start at 1 and are never reused. */
    var nextId: int
    /** `users.tz`, keyed by `user_id`. */
    var userTz: map<int, string>

    ghost predicate Valid()
      reads this
    {
      1 <= nextId && forall id | id in rows :: 1 <= id < nextId
    }

    constructor ()
      ensures Valid() && rows == map[] && userTz == map[] && nextId == 1
    {
      rows := map[];
      nextId := 1;
      userTz := map[];
    }

    /** `db_get_user_tz`: the stored text, or `None` when there is none or it is empty. */
    function UserTz(user: int): (tz: Option<string>)
      reads this
      ensures tz.Some? <==> user in userTz && userTz[user] != []
      ensures tz.Some? ==> tz.value == userTz[user]
    {
      if user in userTz && userTz[user] != [] then Some(userTz[user]) else None
    }

    /** `db_set_user_tz`: insert, or overwrite on conflict. */
    method SetUserTz(user: int, tz: string)
      modifies this
      ensures userTz == old(userTz)[user := tz]
      ensures rows == old(rows) && nextId == old(nextId)
      ensures UserTz(user) == if tz == [] then None else Some(tz)
      ensures forall u | u != user :: UserTz(u) == old(UserTz(u))
    {
      userTz := userTz[user := tz];
    }

    /** `db_get_reminder`. */
    function Reminder(id: int): (r: Option<Row>)
      reads this
      ensures r.Some? <==> id in rows
      ensures r.Some? ==> r.value == rows[id]
    {
      if id in rows then Some(rows[id]) else None
    }

    /** `db_add_reminder_oneoff`: a fresh id for a scheduled one-off row. */
    method AddOneOff(user: int, title: string, body: Option<string>, whenIso: string) returns (id: int)
      requires Valid()
      modifies this
      ensures Valid()
      ensures id == old(nextId) && id !in old(rows) && nextId == id + 1
      ensures rows == old(rows)[id := Row(user, title, body, Some(whenIso), Scheduled, OneOff, None)]
      ensures Reminder(id) == Some(Row(user, title, body, Some(whenIso), Scheduled, OneOff, None))
      ensures forall other | other != id :: Reminder(other) == old(Reminder(other))
      ensures userTz == old(userTz)
    {
      id := nextId;
      rows := rows[id := Row(user, title, body, Some(whenIso), Scheduled, OneOff, None)];
      nextId := nextId + 1;
    }

    /**
     * `db_add_reminder_recurring`: a fresh id for a scheduled recurring row
     * without a time; the stored recurrence gets the user's timezone as `tz`.
     */
    method AddRecurring(user: int, title: string, body: Option<string>, recurrence: Option<Recurrence>, tz: string)
      returns (id: int)
      requires Valid()
      modifies this
      ensures Valid()
      ensures id == old(nextId) && id !in old(rows) && nextId == id + 1
      ensures rows == old(rows)[id := Row(user, title, body, None, Scheduled, Recurring, Some(WithTz(recurrence, tz)))]
      ensures userTz == old(userTz)
    {
      id := nextId;
      var rec := WithTz(recurrence, tz);
      rows := rows[id := Row(user, title, body, None, Scheduled, Recurring, Some(rec))];
      nextId := nextId + 1;
    }

    /** `db_mark_done`: only that row's status changes; an unknown id changes nothing. */
    method MarkDone(id: int)
      requires Valid()
      modifies this
      ensures Valid()
      ensures id in old(rows) ==> rows == old(rows)[id := old(rows)[id].(status := MarkedDone)]
      ensures id !in old(rows) ==> rows == old(rows)
      ensures nextId == old(nextId) && userTz == old(userTz)
    {
      if id in rows {
        rows := rows[id := rows[id].(status := MarkedDone)];
      }
    }

    /** `db_delete`. */
    method Delete(id: int)
      requires Valid()
      modifies this
      ensures Valid()
      ensures rows == old(rows) - {id}
      ensures Reminder(id).None? && forall other | other != id :: Reminder(other) == old(Reminder(other))
      ensures nextId == old(nextId) && userTz == old(userTz)
    {
      rows := rows - {id};
    }

    /**
     * `db_snooze`: a one-off row moves to its STORED time plus `minutes`
     * (not to now plus `minutes`), written without seconds, and is scheduled
     * again; a recurring row and a missing id change nothing.
     */
    method Snooze(id: int, minutes: int) returns (outcome: SnoozeOutcome)
      requires Valid()
      modifies this
      ensures Valid()
      ensures outcome == SnoozedTime(old(rows), id, minutes)
      ensures outcome.Moved? ==>
        rows == old(rows)[id := old(rows)[id].(whenIso := Some(IsoNoSeconds(outcome.time)), status := Scheduled)]
      ensures !outcome.Moved? ==> rows == old(rows)
      ensures nextId == old(nextId) && userTz == old(userTz)
    {
      outcome := SnoozedTime(rows, id, minutes);
      if outcome.Moved? {
        var newIso := IsoNoSeconds(outcome.time);
        rows := rows[id := rows[id].(whenIso := Some(newIso), status := Scheduled)];
      }
    }

    /** `db_future(user)`: the ids of the user's scheduled rows, newest first. */
    function Future(user: int): (ids: seq<int>)
      requires Valid()
      reads this
      ensures forall i, j | 0 <= i < j < |ids| :: ids[i] > ids[j]
      ensures forall id :: id in ids <==> id in rows && Listed(rows[id], user)
    {
      SelectDescending(rows, user, nextId - 1)
    }
  }

  /** `dict(recurrence or {})` with `tz` set. */
  function WithTz(recurrence: Option<Recurrence>, tz: string): (rec: Recurrence)
    ensures "tz" in rec && rec["tz"] == tz
    ensures recurrence.Some? ==> forall k | k in recurrence.value && k != "tz" :: k in rec && rec[k] == recurrence.value[k]
    ensures forall k | k in rec && k != "tz" :: recurrence.Some? && k in recurrence.value
  {
    var base := if recurrence.Some? then recurrence.value else map[];
    base["tz" := tz]
  }

  /** What `db_snooze` decides for a row: the new time for a one-off row. */
  function SnoozedTime(rows: map<int, Row>, id: int, minutes: int): (outcome: SnoozeOutcome)
    ensures outcome.NotFound? <==> id !in rows
    ensures outcome.RecurringRow? <==> id in rows && rows[id].kind == Recurring
    ensures outcome.Moved? ==>
      id in rows && rows[id].whenIso.Some? && ParseIso(rows[id].whenIso.value).Some?
      && var stored := ParseIso(rows[id].whenIso.value).value;
         ValidDateTime(outcome.time) && Ordinal(outcome.time) == Ordinal(stored) + minutes
         && outcome.time.second == stored.second && outcome.time.offset == stored.offset
    ensures id in rows && rows[id].kind == OneOff && rows[id].whenIso.Some? && ParseIso(rows[id].whenIso.value).Some?
            && AddMinutes(ParseIso(rows[id].whenIso.value).value, minutes).Some? ==>
      outcome == Moved(AddMinutes(ParseIso(rows[id].whenIso.value).value, minutes).value)
  {
    if id !in rows then NotFound
    else if rows[id].kind == Recurring then RecurringRow
    else if rows[id].whenIso.None? then SnoozeFailed
    else match ParseIso(rows[id].whenIso.value)
      case None => SnoozeFailed
      case Some(stored) =>
        match AddMinutes(stored, minutes)
        case None => SnoozeFailed
        case Some(t) => Moved(t)
  }

  /**
   * With the corrected `IsoNoSeconds`, two snoozes of the same one-off row add
   * up: the second starts from where the first left it.
   */
  lemma SnoozeTwice(rows: map<int, Row>, id: int, a: int, b: int)
    requires SnoozedTime(rows, id, a).Moved?
    requires var t := SnoozedTime(rows, id, a).time;
      var rows1 := rows[id := rows[id].(whenIso := Some(IsoNoSeconds(t)), status := Scheduled)];
      SnoozedTime(rows1, id, b).Moved?
    ensures var t := SnoozedTime(rows, id, a).time;
      var rows1 := rows[id := rows[id].(whenIso := Some(IsoNoSeconds(t)), status := Scheduled)];
      Ordinal(SnoozedTime(rows1, id, b).time) == Ordinal(ParseIso(rows[id].whenIso.value).value) + a + b
  {
    var t := SnoozedTime(rows, id, a).time;
    var rows1 := rows[id := rows[id].(whenIso := Some(IsoNoSeconds(t)), status := Scheduled)];
    assert ParseIso(rows1[id].whenIso.value) == Some(t.(second := 0));
  }

  /**
   * With `iso_no_seconds` as written, a snooze of a row stored without
   * seconds is written back on the hour: the minutes it moved to are lost.
   */
  lemma SnoozeAsWrittenLandsOnTheHour(rows: map<int, Row>, id: int, minutes: int)
    requires SnoozedTime(rows, id, minutes).Moved?
    requires ParseIso(rows[id].whenIso.value).value.second == 0
    ensures var t := SnoozedTime(rows, id, minutes).time;
      ParseIso(IsoNoSecondsAsWritten(t)) == Some(t.(minute := 0))
  {
    AsWrittenReadsBackWrongMinute(SnoozedTime(rows, id, minutes).time);
  }
}
