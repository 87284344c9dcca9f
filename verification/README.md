# Reminder, quota and premium core of an AI-assistant Telegram bot

This project is a Dafny model of the stateful core of a Telegram assistant
bot. The bot creates reminders from free-form Russian date phrases and fires
them on a timer. It offers snooze, done and delete buttons, imports deadlines
found in an uploaded syllabus, and limits free users to a few model queries
per hour and a few reminders per day. It sells premium access for Telegram
Stars and lets an administrator grant, revoke or date that access.

Each piece is a pure transition over immutable data:

- The reminder table is a `map<int, Reminder>` keyed by row id. The
  in-memory timer list is a `seq<Job>`, and job ids come from a counter.
  Together they form `Scheduler.State`.
- The usage and settings tables are maps keyed by user id.
- The dialogue state of the reminder conversation is a `Form`. The settings
  dialogue's pending fields and the syllabus staging cache are maps.
- Instants are integer seconds in one local frame. The current time is
  always a parameter named `now`.
- The natural-language date resolver is a parameter
  `resolve: string -> Option<Instant>`. So is the ISO date reader used for
  syllabus events.

Modules follow the program's files:

| module | file |
|---|---|
| `Common` | shared option type, time constants, set helpers |
| `Text` | the Python string behaviour the handlers rely on: `strip`, `lower`, `replace`, `split`, `join`, `int()` |
| `Records` | database/db.py |
| `Scheduler` | services/scheduler.py |
| `Usage` | services/utils.py |
| `ReminderInput` | date-text pre/post-processing, countdown and callback data of handlers/reminder_handler.py |
| `ReminderFlow` | the conversation, callbacks and listing of handlers/reminder_handler.py |
| `Syllabus` | handlers/syllabus_handler.py |
| `Payments` | handlers/payments_handler.py |
| `Admin` | admin_panel.py |
| `Settings` | handlers/settings_handler.py |

## Model

| member | source | states |
|---|---|---|
| Records.NewReminder | database/db.py:14-24 | a new reminder row has no job yet; its `source` is the caller's value or "manual" when none is given |
| Records.DefaultSettings | database/db.py:30-38 | a settings row created from the key alone has time zone "Asia/Almaty", slots "09:00", "12:00" and "19:00", is not premium and has no end date |
| Records.RowOrDefault | database/db.py:30-38 | in a table keyed by user the row read or created is the user's own, and writing it back keeps the table keyed by user; a user without a row gets a free row on the default zone and slots |
| Records.NewUsage | database/db.py:44-51 | a new usage row has both counters at 0 and both windows opened at `now` |
| Scheduler.RemoveJobsFor | services/scheduler.py:72-79 | after removal no job references the reminder; the job counts of all other reminders are unchanged; a job survives iff it was present and belongs to another reminder |
| Scheduler.PlanJob | services/scheduler.py:81-95 | arms exactly one new job at the reminder's stored date, appended after the old jobs; records its id in `job_id`; changes no other row and no other reminder's job count |
| Scheduler.Period | services/scheduler.py:98-107 | one period is 86 400 s for "daily", 7 times that for "weekly", 30 times that for "monthly", and 0 for any other rule |
| Scheduler.NextOccurrence | services/scheduler.py:98-107 | the next occurrence lies exactly one `Period` of the rule after the given instant, so an unknown rule gives the instant back |
| Scheduler.NewId | database/db.py:16 | a new row id is larger than every existing id, hence fresh |
| Scheduler.ClampDate | services/scheduler.py:147-151 | a stored due date is never before `now`; a requested date not in the past is kept as is, and a past one becomes `now + 10` |
| Scheduler.Schedule | services/scheduler.py:134-164 | inserts one fresh row with the given user, text, rule and source, dated `when`, or `now + 10` when `when` is past; every old row is unchanged; exactly one job is added, at the stored date, and its id is recorded in the row |
| Scheduler.Unplan | services/scheduler.py:72-79 | dropping a reminder's jobs leaves the rows alone, leaves no job of that reminder, and leaves every other reminder's jobs as they were |
| Scheduler.Rearm | services/scheduler.py:179-183 | moving a reminder to a date leaves it with exactly one job, whose run time is the new date; other rows and other reminders' jobs are unchanged |
| Scheduler.Snooze | services/scheduler.py:166-185 | fails with nothing changed iff the id is missing; otherwise the new date is one day later for "tomorrow", `now + 10 min` for a missing or zero delta, and `now + delta` otherwise; exactly one job then references the reminder, at the new date; the row's text, user, rule and source are unchanged; other reminders and their jobs are untouched |
| Scheduler.Cancel | services/scheduler.py:187-197 | fails with nothing changed iff the id is missing; otherwise exactly that row is deleted, no job references it, and other reminders' jobs are untouched |
| Scheduler.RemindUser | services/scheduler.py:110-131 | a zero id or missing row changes nothing; a recurring reminder moves to its next occurrence with exactly one job there; a one-shot reminder keeps its row with `job_id` cleared and the job list as it was; no other row changes |
| Scheduler.Fire | services/scheduler.py:110-131 | the fired job is dropped from the list; for a zero or missing id nothing else changes; a one-shot reminder keeps its row with `job_id` cleared and the list is the old one minus that job; a recurring reminder keeps its other fields, moves to its next occurrence and has exactly one job, at that date; other rows and other reminders' job counts are unchanged |
| Scheduler.FireSettlesOneShot | services/scheduler.py:128-131 | in a well-formed state, after a one-shot reminder's timer fires, its row remains with `job_id` cleared and no job for it is left |
| Scheduler.RecurringStep | services/scheduler.py:122-127 | one delivery of a recurring reminder keeps its rule and moves it by exactly one period |
| Scheduler.FireRepeatedly | services/scheduler.py:122-127 | recurrence does not drift: after `n` deliveries a recurring reminder is due exactly `n` periods after its original date, with its rule unchanged |
| Scheduler.RestoreStep | services/scheduler.py:206-212 | one restore step arms a reminder dated strictly after `now` and leaves a reminder not after `now` exactly as it was |
| Scheduler.RestoreAdvances | services/scheduler.py:206-212 | the restore loop's invariant survives one step, whether or not the reminder is upcoming |
| Scheduler.RestoreArms | services/scheduler.py:210-212 | arming an upcoming reminder adds it to the armed set and raises the restored count by one |
| Scheduler.Restore | services/scheduler.py:200-214 | the restored count is the number of reminders dated strictly after `now`; each of them gains exactly one job at its date; each stored job id names a job just armed for that reminder; every other reminder keeps its row and job count; old jobs stay in front |
| Scheduler.Restart | services/scheduler.py:215-220 | after a restart with lost timers, every reminder strictly after `now` has exactly one job, every other reminder has none, and the table invariant holds |
| Scheduler.ExpireSweep | services/scheduler.py:25-36 | exactly the premium users with an end date strictly before `now` are demoted, and their end date is kept; every other row is unchanged; afterwards no premium user has an end date before `now` |
| Scheduler.ScheduleKeepsInv | services/scheduler.py:134-164 | creation keeps rows keyed by id, every job pointing at a stored row, and at most one job per reminder |
| Scheduler.SnoozeKeepsInv | services/scheduler.py:166-185 | snooze keeps the table invariant |
| Scheduler.CancelKeepsInv | services/scheduler.py:187-197 | cancel keeps the table invariant |
| Scheduler.RemindUserKeepsInv | services/scheduler.py:110-131 | `remind_user` keeps the table invariant |
| Scheduler.FireKeepsInv | services/scheduler.py:110-131 | a timer firing keeps the table invariant |
| Usage.GetOrCreate | services/utils.py:4-16 | an existing row is returned with the table unchanged; otherwise exactly one row with zero counters is inserted |
| Usage.Normalize | services/utils.py:27-35 | null counters become 0 and null stamps become `now`; non-null columns are kept |
| Usage.VerdictOf | services/utils.py:49-55 | `gpt_limit` iff at least 5 model queries; `remind_limit` iff under 5 queries and at least 3 reminders; ok iff under both |
| Usage.Check | services/utils.py:19-55 | a premium user gets ok and the table is untouched; otherwise only the user's row changes; a counter resets to 0, with its stamp at `now`, iff its window (1 h, 1 day) has run strictly longer, and is kept otherwise; the verdict follows the reset counters, query limit first |
| Usage.Increment | services/utils.py:58-67 | "gpt" adds one query and "remind" adds one reminder, with null read as 0; any other action changes no counter; other users are untouched |
| Usage.CountReminder | services/utils.py:64-65 | counting a reminder adds exactly one to that user's reminder counter and changes nothing else |
| Usage.CheckNeverIncreases | services/utils.py:37-47 | a check never raises a counter: each is kept or reset to 0 |
| Usage.CheckIdempotent | services/utils.py:19-55 | a second check at the same instant changes nothing and repeats the verdict |
| Usage.FourthReminderRefused | services/utils.py:52-53 | a new user who creates three reminders within a day is refused the fourth with `remind_limit` |
| Usage.WindowElapsedAdmits | services/utils.py:43-45 | once the day window has run out, the reminder count restarts at 0 and a user with spare queries is admitted |
| ReminderInput.Pad2 | handlers/reminder_handler.py:87 | `{n:02d}` is a digit string with value `n`, two characters long below 100 |
| ReminderInput.HHMM | handlers/reminder_handler.py:87-96 | a slot renders as five characters `HH:MM` whose two halves read back as the slot's hour and minute |
| ReminderInput.RewriteBareTime | handlers/reminder_handler.py:83-84 | text that is not a bare time is unchanged; a bare time becomes "сегодня " followed by the input with each `.` and `,` turned into `:` and every other character kept |
| ReminderInput.ColonsOnly | handlers/reminder_handler.py:84 | replacing `.` and `,` by `:` keeps the length, changes only those characters, and leaves none of them |
| ReminderInput.QuickMap | handlers/reminder_handler.py:86-99 | exactly the ten listed phrases are mapped; every expansion carries a clock time, so the midnight override never applies to it; it is the day word, a blank and two digit pairs around `:` that read back as the slot's hour and minute |
| ReminderInput.FindClockSound | handlers/reminder_handler.py:113 | the scanner finds `\d[:.,]\d\d` at or after a position iff such a match exists there |
| ReminderInput.AtSlot | handlers/reminder_handler.py:113-114 | moving to a slot keeps the calendar day and sets hour and minute to the slot, seconds to 0 |
| ReminderInput.ParseNatural | handlers/reminder_handler.py:68-116 | no result iff the resolver gives none for the rewritten text; the day is always the resolver's; the resolver's instant is kept when its hour is not 0 or the text has a clock time; a midnight with no clock time moves to the morning slot with seconds 0 |
| ReminderInput.BareTimeKeepsClock | handlers/reminder_handler.py:83-84 | a bare time written with minutes still carries a clock time after the rewrite |
| ReminderInput.CountdownOf | handlers/reminder_handler.py:192-196 | the days, hours and minutes of a duration satisfy `d*86400 + h*3600 + m*60 <= s < that + 60`, with hours 0-23 and minutes 0-59, using floor division |
| ReminderInput.Chunks | handlers/reminder_handler.py:198-204 | one part per positive component, in the order days, hours, minutes, each the number followed by "д", "ч" or "м"; no part holds a blank |
| ReminderInput.CountdownText | handlers/reminder_handler.py:198-206 | the text is "менее минуты" iff no component is positive, and otherwise the parts joined by single blanks |
| ReminderInput.ChunksReadBack | handlers/reminder_handler.py:198-204 | reading each part as its number times its unit gives back the positive components' seconds |
| ReminderInput.CountdownReadsBack | handlers/reminder_handler.py:192-206 | for a time at least a minute away, splitting the text at blanks gives back the parts, and their seconds fall short of the time left by less than a minute |
| ReminderInput.ParseSnoozeData | handlers/reminder_handler.py:279-284 | the snooze data decodes only when it splits into exactly three fields |
| ReminderInput.ParseIdData | handlers/reminder_handler.py:250 | the id data decodes only when it has at least two fields |
| ReminderInput.SnoozeKind | handlers/reminder_handler.py:286-293 | exactly "10m", "1h" and "tomorrow" name a snooze |
| ReminderInput.SnoozeDataRoundTrip | handlers/reminder_handler.py:32-36 | `snooze_<kind>_<id>` decodes to the kind and id it was built from |
| ReminderInput.IdDataRoundTrip | handlers/reminder_handler.py:37 | `done_<id>` and `del_<id>` decode to their id |
| ReminderInput.ButtonsDecode | handlers/reminder_handler.py:28-40 | the four buttons under a reminder decode, in order, to snooze 10m, 1h and tomorrow, then done, all of the same id |
| ReminderFlow.RemindStartAsWritten | handlers/reminder_handler.py:129-139 | the gate as written: any non-ok verdict keeps the old dialogue state, and a notice is sent only for `remind_limit` |
| ReminderFlow.RemindStartBlockedByQueries | handlers/reminder_handler.py:129-139 | a user with 5 model queries and no reminders is refused `/remind` silently as written, and admitted by the corrected gate |
| ReminderFlow.RemindStart | handlers/reminder_handler.py:129-157 | corrected gate: a premium user, or one under the reminder quota, goes on to the date question; any other user is refused with the notice |
| ReminderFlow.GatesAgreeUnderQueryQuota | handlers/reminder_handler.py:129-139 | the two gates agree whenever the query count is under quota |
| ReminderFlow.ProcessDatetime | handlers/reminder_handler.py:160-179 | "отмена" ends the dialogue; an unresolvable date stays in the date state; a resolvable one moves on carrying that instant |
| ReminderFlow.ProcessText | handlers/reminder_handler.py:182-212 | creates one fresh manual, non-recurring reminder of the user with the stripped text, dated at the clamped time and armed once; old rows unchanged; the user's reminder counter goes up by one; the seconds left are the requested time minus now; the dialogue returns to idle |
| ReminderFlow.DialogueCreatesOne | handlers/reminder_handler.py:120-212 | as written, for a free user under both the query and the reminder quota, `/remind`, a resolvable date and a text add exactly one reminder of that user, dated no earlier than now, count it once and leave the dialogue idle |
| ReminderFlow.Delete | handlers/reminder_handler.py:255-269 | succeeds iff the row exists and belongs to the caller; then exactly that row goes and no job references it; otherwise nothing changes |
| ReminderFlow.DeleteOwnIsCancel | handlers/reminder_handler.py:255-269 | on the caller's own reminder, delete has the same effect as cancel |
| ReminderFlow.DeleteCallback | handlers/reminder_handler.py:247-272 | undecodable data changes nothing; decodable data deletes that id |
| ReminderFlow.DeleteButtonActs | handlers/reminder_handler.py:43-46 | the delete button under a listed reminder acts on that reminder |
| ReminderFlow.SnoozeCallback | handlers/reminder_handler.py:275-300 | succeeds iff the data decodes, the kind is known and the row exists; undecodable data or an unknown kind changes nothing |
| ReminderFlow.DoneCallback | handlers/reminder_handler.py:303-319 | succeeds iff the data decodes to a stored id, which is then deleted |
| ReminderFlow.TenMinutesButton | handlers/reminder_handler.py:286-287 | the "+10m" button moves its reminder to ten minutes from now |
| ReminderFlow.HourButton | handlers/reminder_handler.py:288-289 | the "+1h" button moves its reminder to an hour from now |
| ReminderFlow.TomorrowButton | handlers/reminder_handler.py:290-291 | the "tomorrow" button moves its reminder one day past its date |
| ReminderFlow.DoneButton | handlers/reminder_handler.py:313 | the "done" button deletes its reminder |
| ReminderFlow.SnoozeButton | handlers/reminder_handler.py:279-293 | each snooze button has the effect of `snooze_reminder` with the request its kind names |
| ReminderFlow.Least | handlers/reminder_handler.py:221 | the chosen id is in the set and comes before every other id by date, then id |
| ReminderFlow.Ordered | handlers/reminder_handler.py:218-223 | the listing is ordered by date, with equal dates by id, and holds exactly the given ids |
| ReminderFlow.OfSource | handlers/reminder_handler.py:228-229 | the group keeps the listing order and holds exactly the rows with that source |
| ReminderFlow.ListReminders | handlers/reminder_handler.py:218-243 | two ordered groups: the caller's "syllabus" rows, then the caller's "manual" rows |
| ReminderFlow.ListingShowsOwnOnce | handlers/reminder_handler.py:218-243 | a row is listed at most once, and only if it is the caller's own with one of the two sources |
| Syllabus.KindOf | handlers/syllabus_handler.py:44-50 | the reader is chosen by the lower-cased name's ending, checked in the order .pdf, .docx, .txt |
| Syllabus.AcceptedHasReader | handlers/syllabus_handler.py:36-50 | a file passes the extension check iff it has a reader |
| Syllabus.AcceptedIgnoresCase | handlers/syllabus_handler.py:34-36 | the check gives the same answer for a name and its lower-case form |
| Syllabus.UpperCaseExtension | handlers/syllabus_handler.py:34-36 | "Syllabus.PDF" is accepted as a PDF and "notes.rtf" is refused |
| Syllabus.PadDate | handlers/syllabus_handler.py:93-94 | a raw date of exactly ten characters gets "T09:00" appended; any other length is unchanged |
| Syllabus.PadDateIdempotent | handlers/syllabus_handler.py:93-94 | padding a padded date changes nothing |
| Syllabus.Classify | handlers/syllabus_handler.py:91-105 | an event is dropped iff its date or name is missing or its date is unreadable; otherwise it is skipped when strictly before `now` and kept with its name, note and date when not |
| Syllabus.Partition | handlers/syllabus_handler.py:85-105 | every kept event is dated no earlier than `now`; every upcoming event is kept and every past one is skipped; every kept event is an upcoming one and every skipped name is a past event's |
| Syllabus.PartitionAppend | handlers/syllabus_handler.py:90-105 | the partition preserves input order: the lists for two batches are the first batch's lists followed by the second's |
| Syllabus.Stage | handlers/syllabus_handler.py:109-132 | no future events leaves the cache as it was; otherwise the user's entry becomes the future events, replacing any earlier one; other users' entries are untouched |
| Syllabus.ComposeText | handlers/syllabus_handler.py:150 | the text is the event name when the note is missing or empty, and name, " — " and note otherwise |
| Syllabus.ScheduleAll | handlers/syllabus_handler.py:147-156 | one fresh, distinct reminder per staged event, in order, for the user, marked "syllabus", with the composed text and the clamped date; old rows unchanged; the old jobs stay in front and the i-th new job is the i-th new reminder's, at its clamped date; each new reminder gains one job and no other reminder's count changes |
| Syllabus.ScheduleAllArmsEach | handlers/syllabus_handler.py:147-156 | in a well-formed table each imported reminder has exactly one job, at its clamped date, and the table stays well-formed |
| Syllabus.ConfirmAdd | handlers/syllabus_handler.py:138-160 | with no entry, or an empty one, nothing changes and nothing is created; otherwise the state is that of importing the staged events in order, the table grows by their number, and the entry is removed |
| Syllabus.ConfirmAddKeepsInv | handlers/syllabus_handler.py:138-160 | confirming keeps the table well-formed |
| Syllabus.CancelAdd | handlers/syllabus_handler.py:162-164 | the user's entry is gone; every other entry is kept with its staged list; with none it is a no-op |
| Syllabus.ConfirmOnce | handlers/syllabus_handler.py:141-158 | a second "add" after the first creates nothing |
| Syllabus.CancelThenConfirm | handlers/syllabus_handler.py:141-164 | "add" after "cancel" creates nothing and changes nothing |
| Syllabus.StageThenConfirm | handlers/syllabus_handler.py:109-158 | staging a non-empty batch then confirming adds one fresh reminder per staged event, for the user, marked "syllabus", with that event's text and clamped date; no other row is added or changed; the count is the batch size and the entry is cleared |
| Payments.PlanOf | handlers/payments_handler.py:13-17 | exactly "7d", "30d" and "forever" are plans, and only "forever" has no day count |
| Payments.PlanTable | handlers/payments_handler.py:13-17 | 7 days for 70 stars, 30 days for 200, no expiry for 600 |
| Payments.Payload | handlers/payments_handler.py:64 | the payload is "premium_" followed by the plan id |
| Payments.PayloadRoundTrip | handlers/payments_handler.py:64-81 | removing "premium_" from a payload gives back any id that does not itself contain the prefix |
| Payments.InvoiceFor | handlers/payments_handler.py:48-65 | an invoice is issued iff the button data names a plan; it carries that plan and its payload |
| Payments.InvoiceActivatesItsPlan | handlers/payments_handler.py:50-82 | the payload of an issued invoice decodes to the plan it was issued for |
| Payments.ButtonsOpenTheirPlans | handlers/payments_handler.py:29-51 | each plan button opens the invoice of its own plan |
| Payments.Activate | handlers/payments_handler.py:81-100 | an unknown plan is an error with nothing changed; otherwise the user's row (created if missing) becomes premium, until `now + days`, or with no end for "forever"; an earlier end date is replaced, not extended |
| Payments.NoticeUntil | handlers/payments_handler.py:132 | the administrator's notice shows "∞ (lifetime)" iff there is no end date |
| Payments.NoticeAfterPurchase | handlers/payments_handler.py:81-132 | buying "forever" gives the lifetime notice; "7d" and "30d" show the instant 7 or 30 days from now |
| Payments.PurchaseLastsItsTerm | handlers/payments_handler.py:92-98 | a purchase survives every expiry sweep up to its end and is demoted by any sweep after it; a lifetime purchase is never demoted |
| Payments.RepurchaseReplaces | handlers/payments_handler.py:93-94 | buying again restarts the term: the end date depends only on the last purchase |
| Payments.KwargsAgainstColumns | database/db.py:53-58 | the model's own columns are accepted keywords; the handler's `payload` and `created_at` are not |
| Payments.RecordPaymentAsWritten | handlers/payments_handler.py:102-113 | the row is added only if the constructor accepts the handler's keywords; otherwise the error is swallowed and the table is left as it was |
| Payments.PaymentNeverRecorded | handlers/payments_handler.py:102-113 | as written, no purchase is ever recorded |
| Payments.StarsNeverCountedAsWritten | admin_panel.py:59 | as written, the reported stars total never moves |
| Payments.RecordPayment | handlers/payments_handler.py:102-109 | corrected: exactly one row, for the buyer, the stars paid and the purchase time, is appended |
| Payments.Purchase | handlers/payments_handler.py:74-113 | an unknown plan changes nothing; otherwise premium is activated as `Activate` states and one payment row is appended |
| Payments.PurchaseAddsStars | admin_panel.py:59 | every honoured purchase adds exactly its stars to the reported total; a refused one adds nothing |
| Admin.Grant | admin_panel.py:113-125 | the row (created if missing) becomes premium; no days means no end date, days means `now + days`; the other fields are kept |
| Admin.Revoke | admin_panel.py:128-136 | an unknown user changes nothing; a known one loses premium and its end date |
| Admin.SetUntil | admin_panel.py:138-146 | the row (created if missing) is premium iff a date is given, and that date is stored as given |
| Admin.GrantThenRevoke | admin_panel.py:113-136 | revoking after any grant leaves the user without premium and without end date |
| Admin.SetNoDateIsRevoke | admin_panel.py:128-146 | setting no date on a known user is the same as revoking |
| Admin.GrantAgainstSweep | admin_panel.py:113-125 | a grant without days is never demoted by the sweep; a grant of days survives exactly the sweeps up to its end |
| Admin.PastDateDemotedBySweep | admin_panel.py:138-146 | a date set in the past makes the user premium until the next sweep demotes them |
| Admin.RowOf | admin_panel.py:73-88 | the end-date column shows "∞" iff the user is premium with no end date, the stamp when there is a date, and nothing otherwise |
| Admin.UsersList | admin_panel.py:68-91 | one row per user, strictly ascending by user id, each showing that user's own settings |
| Admin.RequiredToken | admin_panel.py:19-23 | the token is the upper-case variable when set and non-empty, else the lower-case one, else "admin"; it is never empty |
| Admin.LoginIgnoresBlanks | admin_panel.py:40 | any run of blanks typed before and after the token does not matter |
| Admin.DefaultTokenLogsIn | admin_panel.py:19-41 | with no variable set, "admin" logs in |
| Admin.BlankEdgedTokenLocksOut | admin_panel.py:19-41 | a configured token with a blank at either end can never be typed |
| Settings.ValidTimeReads | handlers/settings_handler.py:107-113 | every value the settings dialogue accepts is read by the resolver's `hm_to_tuple` as the slot it denotes |
| Settings.RenderedSlotIsValid | handlers/settings_handler.py:107-113 | a slot rendered as `HH:MM` is accepted and names the same slot |
| Settings.DefaultsValid | handlers/settings_handler.py:22-28 | the default times are valid and denote 9:00, 12:00 and 19:00 |
| Settings.RangeChecked | handlers/settings_handler.py:107-113 | "24:00" and "7:60" have the right shape but are refused; "7:05" is accepted as 7:05 |
| Settings.GetOrCreateSettings | handlers/settings_handler.py:18-31 | an existing row is returned with the table unchanged; otherwise a default row with "Asia/Almaty", "09:00", "12:00" and "19:00" is inserted |
| Settings.FieldOf | handlers/settings_handler.py:71 | exactly the four `set_*` buttons name a field |
| Settings.ChangeSetting | handlers/settings_handler.py:71-89 | a settings button records its field as the user's pending field, replacing any earlier one; no other user's entry changes |
| Settings.WithField | handlers/settings_handler.py:114-126 | storing a value changes exactly the named field |
| Settings.Reply | handlers/settings_handler.py:107-128 | a timezone is stored verbatim; a time field is stored iff the value is a valid time; the key and premium fields never change |
| Settings.StoreReply | handlers/settings_handler.py:105-128 | the user's row, read or created, is replaced by the reply's effect on it; no other row changes |
| Settings.HandleNewValue | handlers/settings_handler.py:97-128 | with no pending field nothing happens; otherwise the entry is always consumed and the stripped reply goes through `Reply` on the user's row |
| Settings.RepliesKeepRowsWellFormed | handlers/settings_handler.py:97-128 | if every row holds valid times, it still does after any reply |
| Settings.ReplyKeepsWellFormed | handlers/settings_handler.py:107-115 | a reply never stores an invalid time |
| Settings.PrefsOf | handlers/reminder_handler.py:50-78 | the resolver gets the user's own slots and time zone (the default zone when it is empty), or the default zone with 9:00, 12:00 and 19:00 without a row |
| Settings.SetMorningReachesResolver | handlers/settings_handler.py:75-115 | a morning time set through the dialogue becomes the morning slot the resolver uses |
| Text.Strip | handlers/reminder_handler.py:80 | `strip()` gives a contiguous slice with blanks only outside it and none at either of its ends |
| Text.StripNoEdges | handlers/reminder_handler.py:80 | a string with no blank at either end strips to itself |
| Text.Lower | handlers/reminder_handler.py:80 | lower-casing keeps the length, leaves no capital, keeps every other character, and gives a string that is its own lower-case form |
| Text.ReplaceAbsent | handlers/payments_handler.py:81 | `replace` on a string without the pattern changes nothing |
| Text.Split | handlers/reminder_handler.py:280 | `split` gives at least one field and no field holds the separator |
| Text.SplitJoin | handlers/reminder_handler.py:280 | splitting a join of separator-free parts gives back the parts |
| Text.JoinSplit | handlers/reminder_handler.py:280 | joining the split fields gives back the string |
| Text.NatToString | handlers/reminder_handler.py:32 | `str(n)` is a non-empty digit string |
| Text.DigitsValueOfRendering | handlers/reminder_handler.py:32 | the digits of `str(n)` have value `n` |
| Text.ParseDigits | handlers/reminder_handler.py:74 | `int()` reads a non-empty digit string as its value |
| Text.ParseRendering | handlers/reminder_handler.py:281 | `int(str(n)) == n` |

## Left out

- Date resolution. The internals of `dateparser.parse` are a parameter
  `resolve`. `ZoneInfo` and `astimezone` become the identity on one integer
  clock. `datetime.fromisoformat` is a parameter `parseIso`. `strftime`
  rendering is left out.
- Clocks. The source mixes `datetime.utcnow()` with Almaty-local
  `datetime.now`; the model has a single `now`. So the premium end dates and
  sweep times share the reminders' frame.
- APScheduler. Misfire grace, coalescing, `max_instances`, the cron trigger
  of the expiry check and the real firing are left out. Jobs are data, and a
  firing is the explicit `Scheduler.Fire` step. Job ids are a counter rather
  than UUIDs.
- Message sending. `_notify`, `_send_reminder_message`, the answers and
  keyboards are left out. So is whether recurrence advances after a failed
  send: the send is not wrapped in a try, so a failure would stop
  `remind_user` before the state change.
- Persistence. SQLAlchemy sessions, commits and rollbacks are left out, and
  so are the exceptions they may raise. The `try`/`except` around each
  `schedule_reminder` in `confirm_add` therefore never skips an event.
- Other components. The OpenAI client, GPT JSON extraction, PDF/DOCX
  reading, the broadcast, stats and menu handlers, `main.py`, `config.py`,
  the Streamlit page layout, `get_stats` and `get_payments_list` are left
  out.
- Payments. The buyer's display name and the user-facing message texts are
  left out. The `Payment` row is modelled by its three data columns; the
  database assigns its id.
- Scheduler.Restore: the order in which the table yields rows is left open
  (`PickFrom` chooses any remaining id), so the contract fixes which jobs are
  added but not their order.
- ReminderFlow.ProcessText: the confirmation's countdown is reported as the
  seconds left. Its text is `ReminderInput.CountdownText` of that number.
  The `%d.%m %H:%M` stamp in the same message is not modelled.
- ReminderFlow.Ordered: equal dates are listed by ascending id. The query
  orders by date alone and leaves the order of equal dates to the database,
  so the model fixes one of the orders the source allows.
- ReminderFlow.RemindStart: premium status is an input. It stands for
  `get_user_prefs`' `bool(s and s.is_premium)`.
- Text.Lower covers ASCII letters and the basic Russian alphabet with "ё".
  Other scripts are unchanged. Digits and blanks are ASCII only, which is
  narrower than Python's Unicode `\d` and `\s`.
- Text.ParseInt reads optional surrounding blanks, an optional sign and ASCII
  digits. Python's underscores and non-ASCII digits are not accepted.
- Settings: the `strptime` check is modelled as hour 0-23 and minute 0-59 on
  the `\d{1,2}:\d{2}` shape, which is what it accepts for such values. A
  message without text consumes the pending field and changes nothing, as
  the source's failing `strip()` does.
- Handler registration order across routers is not modelled. Each handler is
  modelled as if it alone received its messages.

## Findings

| source | as written | input that shows it | evidently intended | confidence | as-written member | corrected member |
|---|---|---|---|---|---|---|
| handlers/reminder_handler.py:129-139 | `/remind` returns on any non-ok verdict and only reports `remind_limit`. Since the query limit takes precedence in the verdict, a free user who has spent the hour's 5 model queries is refused reminders without any message. | usage row with 5 model queries and 0 reminders, windows not elapsed | the reminder command is gated on the reminder quota alone, and a refusal is always reported | medium, not executed | ReminderFlow.RemindStartAsWritten, ReminderFlow.RemindStartBlockedByQueries | ReminderFlow.RemindStart |
| handlers/payments_handler.py:102-113 | The `Payment` constructor is given `payload=` and `created_at=`. The model declares neither column, so the constructor raises and the bare `except` swallows the error. No payment is ever recorded, and the stars total in the statistics stays at its old value. | any successful payment of a known plan | the payment is recorded with the model's columns (`user_id`, `stars_amount`, `timestamp`) and counted in the stars total | high, not executed | Payments.RecordPaymentAsWritten, Payments.PaymentNeverRecorded, Payments.StarsNeverCountedAsWritten | Payments.RecordPayment, Payments.Purchase, Payments.PurchaseAddsStars |
