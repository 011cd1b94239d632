# PlannerBot reminder core in Dafny

PlannerBot is a Telegram bot. It turns free-text requests, interpreted by a language model, into reminders. The reminders live in an SQLite table and are fired by an in-process job scheduler. This project models the bot's core (`bot.py`) and proves properties of it:

- **Timezones.** `parse_tz_input` and `normalize_offset` read what the user types. `tzinfo_from_user` turns the stored text into a fixed offset or a named zone. This lives in module `TimeZones`, with the character-level helpers in `Text`.
- **ISO date-times.** `isoformat`, the `isoparse` forms the bot reads (its own texts and the model's `fixed_datetime`), and `iso_no_seconds` are in `IsoText`. `datetime + timedelta(minutes=n)` is in `Calendar`.
- **Button payloads.** The `callback_data` strings (`tz:`, `del:`, `snooze:`, `done:`, `pick:`, `answer:`) and the keyboards built from them are in `Callbacks`.
- **The `users` and `reminders` tables.** They are the class `Reminders.ReminderTable`, whose fields are maps that its methods reassign.
- **The scheduler's job store.** It is the class `Jobs.JobTable`: a map from job id (`rem-{id}`, `snooze-{id}`) to trigger and data.
- **The clarification dialogue.** The `clarify_state` and `__auto_answer` entries of the per-user data are the class `Clarify.UserData`, together with the transition function `Clarify.NextClarify`.
- **The handlers.** `cb_inline`, `cb_pick`, `cb_tz`, `cb_answer` and `handle_text` are methods in `Handlers`. Each keeps the invariant `Synced`: every `rem-{id}` job agrees with a scheduled row `id`, and row ids stay below the next id handed out. `cb_tz` keeps it because it changes neither the rows nor the next id, which its contract states.

Some things are parameters of the model, not part of it:

- The language model's answer is an input (`LlmResult`): a reply, or the exception `call_llm` raised.
- The IANA zone database is the parameter `zones`.
- `datetime.now(timezone.utc)` is the parameter `now`.
- A reply to the user is a value of a reply datatype (`InlineReply`, `PickReply`, `TextReply`), not a Telegram call.

## Model

| member | source | states |
|---|---|---|
| Text.Strip | bot.py:227 | `str.strip()`: the result has no whitespace at either end, is no longer than the input, and an unpadded text is returned unchanged |
| Text.TrimLeftRemovesSpace | bot.py:227 | every character the leading-whitespace pass removes is whitespace |
| Text.TrimRightRemovesSpace | bot.py:227 | every character the trailing-whitespace pass removes is whitespace |
| Text.StripRemovesOnlySpace | bot.py:227 | the stripped text is the slice of the input that starts where the leading whitespace ends, with only whitespace before and after it |
| Text.StripIsSpaceTrimmedSlice | bot.py:227 | the same of `Strip(s)` directly: it returns `Strip(s)` and its start in the input, with only whitespace before and after it |
| Text.FindLeftmost | bot.py:443 | the index `Find` gives is the leftmost occurrence of the separator, and there is none when it gives nothing, as `str.find` and `split` require |
| Text.ParseInt | bot.py:444 | `int()` rejects what is not an optional sign and ASCII digits; the result's sign is the written sign, and plain digits give their value; `ParseIntToString` proves `int(str(i)) == i` |
| Text.ParseIntToString | bot.py:444 | `int(str(i)) == i` for every integer, so ids and minutes written into payloads read back |
| Text.IntToStringInjective | bot.py:309 | distinct integers are written as distinct decimal strings |
| Calendar.AddMinutes | bot.py:128 | `dt + timedelta(minutes=n)` moves the wall clock by exactly `n` minutes and keeps seconds and offset; it fails (OverflowError) exactly when the result leaves years 1..9999 |
| IsoText.ParseIso | bot.py:177-178 | whatever `isoparse` returns is a valid date-time |
| IsoText.IsoFormatRoundTrip | bot.py:173 | parsing `dt.isoformat()` gives back `dt` |
| IsoText.IsoNoSeconds | bot.py:171-175 | the text written reads back as the same date-time with seconds set to zero (the evidently intended behaviour; see Findings) |
| IsoText.DropColonPairsIso | bot.py:174 | the substitution as written deletes characters 13..15 of an isoformat text, i.e. the `:MM` minutes group |
| IsoText.IsoNoSecondsAsWritten | bot.py:171-175 | `iso_no_seconds` as written deletes characters 13..15 of the `isoformat` text, the `:MM` group, not the seconds; `AsWrittenDropsMinutes` spells out the result |
| IsoText.AsWrittenDropsMinutes | bot.py:174 | `iso_no_seconds` as written yields the date, the hour, then the seconds in place of the minutes |
| IsoText.AsWrittenReadsBackWrongMinute | bot.py:171-175 | the as-written text reads back with the minute replaced by the old seconds |
| IsoText.AsWrittenAgreesOnlyWhenMinuteIsSecond | bot.py:171-175 | the as-written and corrected texts agree if and only if minute == second |
| IsoText.AsWrittenCounterexample | bot.py:171-175 | 2025-01-02T10:30:00+03:00 is stored as a reminder at 10:00 |
| TimeZones.MatchOffset | bot.py:158 | a match of `([+-])(\d{1,2})(?::?(\d{2}))?` has well-formed groups that spell the text |
| TimeZones.MatchOffsetComplete | bot.py:232 | the pattern matches every text its groups can spell, with exactly those groups |
| TimeZones.MatchedHasNoSlashOrSpace | bot.py:232-236 | an offset text never reaches the zone-key branch: it has no '/' and no space |
| TimeZones.NormalizeOffset | bot.py:219-221 | `±HH:MM` with the sign, the hour value and the minute value kept, standing for the same signed minutes as the groups |
| TimeZones.NormalizeNormalOffset | bot.py:219-221 | normalising a text already in `±HH:MM` form changes nothing |
| TimeZones.NormalOffsetUnpadded | bot.py:227 | a `±HH:MM` text survives `strip()` unchanged |
| TimeZones.NormalOffsetMatches | bot.py:232-234 | a `±HH:MM` text matches the offset pattern with its hour and minute fields as groups |
| TimeZones.NotCityLabel | bot.py:229 | text that starts with a sign, or has no space, is not a city label |
| TimeZones.CityLabelsUnsigned | bot.py:193-203 | every city label is unsigned and holds a space |
| TimeZones.CityOffsetsNormal | bot.py:193-203 | every city offset is in `±HH:MM` form |
| TimeZones.CityOffsetsInRange | bot.py:193-203 | every city offset is less than a day, so `timezone()` accepts it |
| TimeZones.ParseTzInput | bot.py:223-242 | empty text is not a timezone; a text is accepted if and only if, stripped, it is a city label, matches the offset pattern, or is a known zone key with '/' and no space; an accepted text becomes a `±HH:MM` offset or that zone key |
| TimeZones.ParseStripped | bot.py:227-242 | after stripping: a city gives its offset; otherwise a pattern match gives `normalize_offset` of its groups; otherwise the text itself exactly when it is a known key with '/' and no space; nothing else is accepted |
| TimeZones.ParseTzInputCity | bot.py:229-230 | a city label, padded or not, gives that city's offset |
| TimeZones.NormalOffsetAccepted | bot.py:232-234 | a `±HH:MM` text is accepted unchanged |
| TimeZones.ZoneKeyAccepted | bot.py:236-239 | a known zone key with '/' and no padding or space is accepted unchanged |
| TimeZones.ParseTzInputIdempotent | bot.py:223-242 | feeding an accepted result back in gives the same result |
| TimeZones.FixedOffset | bot.py:158-165 | a pattern failure is `invalid offset`; a success is a fixed offset strictly inside one day |
| TimeZones.TzinfoFromUser | bot.py:152-166 | empty text is +03:00; all-blank text fails with IndexError and nothing else does; fixed offsets lie strictly inside a day; a zone is the stripped text and is known |
| TimeZones.TzinfoStripped | bot.py:156-166 | after stripping: IndexError exactly on empty text; fixed offsets lie inside a day; a zone is the text itself |
| TimeZones.OffsetAcceptedByBoth | bot.py:158-165 | for offset text, `parse_tz_input` gives the normal form, `tzinfo_from_user` agrees on raw and normal form, and the result is `sign·(60h+m)` minutes when under a day and an error otherwise |
| TimeZones.NormalOffsetTzinfo | bot.py:152-166 | a `±HH:MM` text converts to its signed minutes, or fails when they reach a whole day |
| TimeZones.ParseTzInputChecked | bot.py:223-242 | the corrected parse only accepts what `parse_tz_input` accepts |
| TimeZones.ParseTzInputCheckedUsable | bot.py:223-242 | with unsigned zone keys, the corrected parse accepts exactly those accepted texts that `tzinfo_from_user` can convert |
| TimeZones.ParseTzInputCheckedIdempotent | bot.py:223-242 | the corrected parse is idempotent like the original |
| TimeZones.AsWrittenAcceptsFullDay | bot.py:232-234 | `parse_tz_input("+24")` accepts a value that `tzinfo_from_user` rejects; the corrected parse rejects it |
| Callbacks.DecodeSnooze | bot.py:442-444 | `snooze:{m}:{id}` decodes back to the same minutes and id |
| Callbacks.DecodeDone | bot.py:471-472 | `done:{id}` decodes back to the same id |
| Callbacks.DecodeDelete | bot.py:434-435 | `del:{id}` decodes back to the same id |
| Callbacks.DecodeTz | bot.py:385-391 | `tz:{value}` decodes to that value, and `tz:other` to the free-input request |
| Callbacks.DecodePick | bot.py:483-484 | `pick:{iso}` decodes back to `iso` if and only if `iso` itself holds no `pick:` (`split("pick:")[1]` stops there) |
| Callbacks.DecodeAnswer | bot.py:497-499 | `answer:{caption}` decodes back to the whole caption, whatever it holds |
| Callbacks.RouteSnooze | bot.py:618-621 | a `snooze:` payload goes to the `cb_inline` snooze branch and no other handler |
| Callbacks.RouteDone | bot.py:618-621 | a `done:` payload goes to the `cb_inline` done branch |
| Callbacks.RouteDelete | bot.py:618-621 | a `del:` payload goes to the `cb_inline` delete branch |
| Callbacks.RoutePick | bot.py:618-621 | a `pick:` payload goes to `cb_pick` |
| Callbacks.RouteAnswer | bot.py:618-621 | an `answer:` payload goes to `cb_answer` |
| Callbacks.Encode | bot.py:296-300 | each payload starts with the prefix under which its handler takes that kind of action; `DecodeEncode` proves it reads back |
| Callbacks.Decode | bot.py:618-621 | a decoded action is of the kind whose registered prefix the payload starts with; `DecodeEncode` and the `Route*` lemmas give the dispatch |
| Callbacks.DecodeEncode | bot.py:618-621 | every payload the bot writes (except a `pick:` iso holding `pick:`) decodes back to itself |
| Callbacks.EncodeInjective | bot.py:618-621 | distinct buttons the bot writes carry distinct payloads |
| Callbacks.FireKeyboard | bot.py:295-300 | two rows for a one-off reminder, one for a recurring one |
| Callbacks.FireKeyboardActions | bot.py:295-300 | the buttons under a fired reminder decode to snooze 10, snooze 60 and, for one-off reminders, done, all on that reminder |
| Callbacks.TzRowsCovered | bot.py:186-203 | every caption on the timezone keyboard is a city or the free-input button, and every city is on it |
| Callbacks.TzKeyboard | bot.py:205-216 | the keyboard has the shape of `_TZ_ROWS`, one button per caption |
| Callbacks.TzButtonDecodes | bot.py:205-216 | a city button decodes to its offset, which `parse_tz_input` accepts unchanged and `tzinfo_from_user` converts to its minutes; the free-input button decodes to `other` |
| Callbacks.ListKeyboard | bot.py:425 | one delete button per listed reminder, in order |
| Callbacks.VariantLabel | bot.py:555 | a dict variant always gets a non-empty caption |
| Callbacks.VariantKeyboard | bot.py:552-559 | at most six buttons, one per variant, in order |
| Callbacks.VariantButtonDecodes | bot.py:553-559 | a variant with a date-time decodes to a pick of it, and every other variant to an answer of its caption |
| Reminders.SelectDescending | bot.py:139-145 | the listed ids are strictly decreasing, and exactly the user's scheduled rows among ids 1..n are listed |
| Reminders.ReminderTable.constructor | bot.py:55-80 | empty tables; the first id is 1 |
| Reminders.ReminderTable.SetUserTz | bot.py:82-94 | afterwards `get_user_tz` reads back the stored text for that user (none for an empty text) and the same as before for every other user; reminders untouched |
| Reminders.ReminderTable.AddOneOff | bot.py:96-103 | a fresh id, never used before, now holds a scheduled one-off row with the given fields, `get_reminder` reads it back, and every other id reads as before |
| Reminders.ReminderTable.AddRecurring | bot.py:105-114 | a fresh id now holds a scheduled recurring row without a time, whose recurrence carries the user's timezone |
| Reminders.ReminderTable.MarkDone | bot.py:116-119 | only that row's status changes, to done; an unknown id changes nothing |
| Reminders.ReminderTable.Delete | bot.py:134-137 | exactly that row is removed: `get_reminder` finds nothing under the id and the same as before under every other id |
| Reminders.ReminderTable.Snooze | bot.py:121-132 | the outcome is the one `SnoozedTime` decides; a moved row gets the new time without seconds and is scheduled again; otherwise nothing changes |
| Reminders.ReminderTable.Future | bot.py:139-145 | ids newest first, and an id is listed if and only if its row is the user's and scheduled |
| Reminders.WithTz | bot.py:106-107 | the recurrence with `tz` set to the user's timezone, every other key kept, none added |
| Reminders.SnoozedTime | bot.py:121-132 | not found exactly for a missing id; recurring exactly for a recurring row; a move lands exactly `minutes` after the STORED time, keeping its seconds and offset |
| Reminders.SnoozeTwice | bot.py:121-132 | with the corrected `iso_no_seconds` (see Findings), two snoozes of a one-off row add up, because the second starts from the first's stored result |
| Reminders.SnoozeAsWrittenLandsOnTheHour | bot.py:128-130 | with `iso_no_seconds` as written, a snoozed time with zero seconds is stored as minute 0 of its hour |
| Jobs.RecurringPlan | bot.py:319-331 | a cron trigger only for daily, weekly or monthly, at the parsed `time`, in the user's tzinfo: daily with hour and minute only, weekly adding the `weekday` value, monthly adding `int(day)` (raising when it does not read); a plain return exactly for another type with usable tz and time |
| Jobs.JobTable.constructor | bot.py:285 | an empty job store |
| Jobs.JobTable.ScheduleOneOff | bot.py:304-317 | `rem-{id}` holds a date job at the parsed time exactly when the text parses; otherwise the store is unchanged |
| Jobs.JobTable.ScheduleRecurring | bot.py:319-343 | `rem-{id}` holds the cron job of `RecurringPlan` when it fires; otherwise the store is unchanged |
| Jobs.JobTable.AddSnoozeJob | bot.py:455-467 | `snooze-{id}` holds a one-off date job; nothing else changes |
| Jobs.JobTable.RemoveJob | bot.py:437-438 | exactly that job is gone, if it was there |
| Jobs.KeyName | bot.py:309 | `rem-` names exactly the reminder jobs and `snooze-` exactly the snooze jobs; `KeyNameInjective` proves the names never collide |
| Jobs.KeyNameInjective | bot.py:455 | `rem-{id}` and `snooze-{id}` ids never collide, and distinct ids give distinct job ids |
| Jobs.ClockOf | bot.py:323 | `map(int, time.split(":"))` unpacks only a time with exactly one ':', and a time without one fails; the hour and minute are `int()` of the two pieces; `ClockOfWritten` proves `h:m` reads back |
| Jobs.ClockOfWritten | bot.py:323 | `hh, mm = map(int, time.split(":"))` reads back the hour and minute written as `h:m` |
| Jobs.DailyPlan | bot.py:323-325 | a daily recurrence at a readable `h:m` in a usable timezone gives a cron trigger in that timezone that matches every weekday and day, at `h:m` and at no other minute |
| Jobs.WeeklyPlan | bot.py:326-327 | a weekly recurrence matches exactly its `weekday` value, at `h:m` |
| Jobs.MonthlyPlan | bot.py:328-329 | a monthly recurrence with a readable `day` matches exactly that day of the month, at `h:m` |
| Jobs.ClockOfPadded | bot.py:323 | a `time` written as `HH:MM` for a real clock time reads back as that hour and minute |
| Clarify.NextClarify | bot.py:540-596 | an exception leaves the session alone; a question keeps a running session or starts one whose original request is the model's `text_original`, else the incoming text; any other answer ends it |
| Clarify.LlmInputReadBack | bot.py:536-538 | inside a session whose original request is one line, the request and the incoming answer can both be read back from the text sent to the model |
| Clarify.OriginalSurvivesQuestions | bot.py:549-550 | however many questions come in a row, the session keeps its original request |
| Clarify.SessionEndsOnAnswer | bot.py:563-596 | the first answer that is not a question ends the session |
| Clarify.UserData.constructor | bot.py:504-505 | no session and no pending answer |
| Clarify.UserData.SetClarifyState | bot.py:507-511 | `None` pops the session, anything else stores it; the pending answer is untouched |
| Clarify.UserData.SetAutoAnswer | bot.py:500 | the caption waits as the pending answer |
| Clarify.UserData.PopAutoAnswer | bot.py:519 | returns the pending answer and clears it |
| Handlers.FreshIdHasNoJob | bot.py:96-103 | while the table and the job store agree, no job is stored under the next id |
| Handlers.InlineDelete | bot.py:434-440 | `DeleteEffect`: the row and `rem-{id}` go, and nothing else does; an unreadable id changes nothing; the table and job store stay in agreement |
| Handlers.InlineDone | bot.py:471-477 | `DoneEffect`: only the row's status changes and only `rem-{id}` goes; an unreadable id changes nothing |
| Handlers.SnoozeOneOff | bot.py:445-452 | the one-off row moves and `rem-{id}` is rescheduled to the same minute |
| Handlers.SnoozeOnce | bot.py:453-468 | the recurring row is untouched; `snooze-{id}` fires once at now plus the minutes; an overflow changes nothing |
| Handlers.InlineSnooze | bot.py:442-469 | `SnoozeEffect`: the four snooze outcomes, each with its exact effect on the rows and the jobs, with the table and job store kept in agreement |
| Handlers.CbInline | bot.py:429-477 | the prefix picks the action, whose full effect on rows and jobs is `DeleteEffect`, `SnoozeEffect` or `DoneEffect`; a payload without one changes nothing |
| Handlers.CbPick | bot.py:479-491 | a fresh one-off row at the picked text, plus `rem-{id}` at the parsed time exactly when it parses, with the table and job store kept in agreement |
| Handlers.CbTz | bot.py:381-397 | a city button stores its offset as the user's timezone; `other` and foreign payloads store nothing |
| Handlers.TzFromMessage | bot.py:362-371 | no message or an empty one is not a timezone; otherwise the result is the corrected parse of the message (see Findings), and a timezone taken is what `parse_tz_input` returns |
| Handlers.StripThenParse | bot.py:366-369 | stripping before `parse_tz_input` changes nothing |
| Handlers.CreateRecurring | bot.py:570-580 | a fresh recurring row carrying the user's timezone; `rem-{id}` holds the cron job exactly when the plan fires |
| Handlers.CreateOneOff | bot.py:582-594 | an unparsable time changes nothing; otherwise a fresh row at the time without seconds, with its job at the same minute |
| Handlers.CreateReminder | bot.py:563-594 | `CreatedEffect`: the title defaults to "Напоминание"; a non-empty recurrence adds the recurring row and, when the plan fires, its cron job; no time changes nothing; a time that parses adds the one-off row and `rem-{id}`, one that does not changes nothing |
| Handlers.Converse | bot.py:536-597 | the model is sent `LlmInput`; the session moves as `NextClarify` says; `AnswerEffect`: an exception or an unknown intent changes nothing, a question comes back with at most six variant buttons in order, and creation is `CreatedEffect` |
| Handlers.Route | bot.py:522-597 | a list command shows the user's future ids with one delete button each, settings the stub, a user without a timezone is asked for one, all without touching the tables; otherwise the model is sent `LlmInput`, the session moves as `NextClarify` says, and the answer has `AnswerEffect` |
| Handlers.HandleText | bot.py:514-597 | a timezone message only stores the timezone; otherwise the pending answer is consumed and the text it gives is routed as `Route` states |
| Handlers.CbAnswer | bot.py:493-501 | the caption becomes the text the model is sent; a foreign payload changes nothing |

## Left out

- Telegram I/O: messages, edits, keyboards as sent, the reply texts and `q.answer()`. Replies are reply values. In particular, after an answer button `handle_text` runs without a message, so its final `update.message.reply_text` raises AttributeError. That happens after the state changes the model shows. The failure itself is not modelled.
- SQLite itself, the `ALTER TABLE` migrations, and the `with db()` connection handling. The tables are maps, and autoincrement is a counter that is never reused.
- `call_llm`, `load_prompts` and the prompt text. The model's answer is an input. Non-string JSON values in `recurrence` or in variants are not modelled: recurrence values are strings.
- How APScheduler runs jobs: firing, misfire grace and coalescing at run time, next-fire computation, and CronTrigger's validation of out-of-range hours, minutes, days or weekday names. The job store records the fields that are passed.
- `ZoneInfo` is the set `zones` of known keys; DST and zone rules are not modelled. `zones` may hold signed keys, which real ones never are (`UnsignedZones`).
- IsoText.ParseIso: `dateutil.isoparse` is modelled on `YYYY-MM-DDTHH:MM[:SS]` followed by nothing, `Z` or `±HH:MM`. It also reads the model's `fixed_datetime` (bot.py:584), where it accepts more: a space instead of 'T', `24:00`, other ISO forms, fractional seconds. Those texts are rejected here. So `create_reminder` answers them with TextFailed where the bot would create a reminder. `cb_pick` (bot.py:487-488) adds the row but no `rem-{id}` job where the bot schedules one. `db_snooze` (bot.py:128) on a row stored in such a form reports SnoozeFailed where the bot moves it.
- `strftime` rendering in `cmd_list`, `cb_pick` and `handle_text`, and `astimezone` for display.
- `int()` is modelled on an optional '+' or '-' followed by ASCII digits. Its leniency (surrounding whitespace, underscores, non-ASCII digits) is not.
- Handlers.HandleText: `str.lower()` is ASCII-only (`LowerAscii`).
- Telegram's 64-byte limit on `callback_data`.
- `cmd_start`, `now_in_user_tz` and `main` (beyond the handler patterns). Jobs are not reloaded at startup.
- Reminders.ReminderTable.Future: returns ids, not full rows.
- Handlers.InlineDelete: deleting a recurring reminder leaves any pending `snooze-{id}` job, as the source does. `JobsAgree` constrains a `snooze-{id}` job only through its `remId`, so such a job may outlive its row.
- TimeZones.MatchOffset: `\d` in Python's `re` also matches non-ASCII decimal digits ("+٣"). The model matches ASCII digits only, so such texts are rejected here.
- Jobs.Fires: APScheduler's cron expressions (ranges, lists, steps, numeric weekdays) and its next-fire computation are not modelled; a trigger field matches by equality with the value passed.
- Jobs.DailyPlan: "every day at h:m" is stated through `Fires` on the trigger's fields, not through the times APScheduler computes.
- Reminders.ReminderTable.Snooze: writes the new time with the corrected `IsoNoSeconds`, not the `iso_no_seconds` at bot.py:129, which drops the minutes (see Findings). `SnoozeAsWrittenLandsOnTheHour` states what the source stores instead.
- Reminders.SnoozeTwice: holds for the corrected program; as written, the first snooze already loses the minutes.
- Handlers.SnoozeOneOff: rests on the corrected `ReminderTable.Snooze`; as written, `rem-{id}` is rescheduled to the wrong minute.
- Handlers.SnoozeOnce: writes its time with the corrected `IsoNoSeconds`, not the `iso_no_seconds` at bot.py:454; as written, `snooze-{id}` fires at the wrong minute (`AsWrittenCounterexample`).
- Handlers.InlineSnooze: its `SnoozeEffect` describes the corrected program, as the two members above.
- Handlers.CreateOneOff: stores the time with the corrected `IsoNoSeconds`, not the `iso_no_seconds` at bot.py:585; as written, the row and its job land on the wrong minute.
- Handlers.CreateReminder: its `CreatedEffect` describes the corrected program, as `CreateOneOff`.
- Handlers.TzFromMessage: uses the corrected `ParseTzInputChecked`, not `parse_tz_input` at bot.py:369; as written, "+24" is stored as "+24:00" (`AsWrittenAcceptsFullDay`).
- Handlers.CbInline: its snooze branch ensures the `SnoozeEffect` of the corrected program, as `InlineSnooze`; as written, bot.py:129 and bot.py:454 store the snoozed time at the wrong minute.
- Handlers.Converse: its creation branch ensures the `CreatedEffect` of the corrected program, as `CreateReminder`; as written, bot.py:585 stores a one-off time at the wrong minute.
- Handlers.Route: passes on `Converse`'s corrected `CreatedEffect`, as the line above says.
- Handlers.HandleText: takes timezones through the corrected `TzFromMessage`, and creates one-off reminders through `Route`'s corrected `CreatedEffect`; as written, "+24" is stored as "+24:00" and a one-off time created at bot.py:585 lands on the wrong minute.
- Handlers.Route: its list branch always answers `ShowList` of `Future(user)`. At bot.py:412-413 `cmd_list` instead raises, and shows no list, when a scheduled one-off row's time fails `isoparse` or the stored timezone is unusable. `cb_pick` creates such a row when a variant's time fails to parse: the row is added at bot.py:487 before `schedule_oneoff` raises at bot.py:488. That user's `/list` then fails on every call, so the row cannot be deleted from the list.
- Handlers.HandleText: its list branch is `Route`'s, with the same gap as the line above.
- Handlers.CbAnswer: its contract states the prompt and foreign payloads. The full effect is HandleText's, run with no message.

## Findings

| source | as written | input that shows it | evidently intended | confidence | as-written member | corrected member |
|---|---|---|---|---|---|---|
| bot.py:174 | `[+-Z]` in `:\d{2}([+-Z])` is a character range from '+' to 'Z', which includes ':' and the digits, so the first match is `:MM` followed by ':' and the MINUTES are deleted | `2025-01-02T10:30:00+03:00` becomes `2025-01-02T10:00+03:00`, a reminder at 10:00 instead of 10:30 | drop only the `:SS` seconds (`[+\-Z]` or end of text) | high, not executed | IsoText.AsWrittenCounterexample | IsoText.IsoNoSeconds |
| bot.py:232-234 | `parse_tz_input` accepts any two-digit hour and minute and normalises them, with no range check | `+24` is stored as `+24:00`; `tzinfo_from_user` then raises for that user, because `timezone()` requires less than a day. Every later text request raises in `call_llm` (bot.py:255) and is answered with the not-understood reply; `/list` raises on any one-off row (bot.py:413); a pick button still adds the row and its `rem-{id}` job and raises only when it formats the reply (bot.py:490) | accept only offsets that `tzinfo_from_user` can convert | high, not executed | TimeZones.AsWrittenAcceptsFullDay | TimeZones.ParseTzInputChecked |
