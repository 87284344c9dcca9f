/** The persisted rows (database/db.py): reminders, per-user settings and
    per-user usage counters. Nullable columns are `Option`s; timestamps are
    `Instant`s. */
module Records {
  import opened Common

  /** Provenance tags written by the two creation paths. */
  const Manual: string := "manual"
  const SyllabusSource: string := "syllabus"

  /** One scheduled notification. `jobId` names the armed timer, if any. */
  datatype Reminder = Reminder(
    id: int,
    userId: int,
    text: string,
    date: Instant,
    jobId: Option<nat>,
    repeatType: Option<string>,
    repeatValue: Option<string>,
    createdAt: Instant,
    source: string)

  /** A reminder row as the ORM inserts it: no job yet, `source` falling
      back to the column default when the caller gives none. */
  function NewReminder(id: int, userId: int, text: string, date: Instant,
                       repeatType: Option<string>, repeatValue: Option<string>,
                       createdAt: Instant, source: Option<string>): (r: Reminder)
    ensures r.id == id && r.userId == userId && r.text == text && r.date == date
    ensures r.jobId.None?
    ensures source.None? ==> r.source == Manual
    ensures source.Some? ==> r.source == source.value
  {
    Reminder(id, userId, text, date, None, repeatType, repeatValue, createdAt, source.GetOr(Manual))
  }

  /** Every row is stored under its own primary key. */
  ghost predicate KeyedById(store: map<int, Reminder>) {
    forall k :: k in store ==> store[k].id == k
  }

  /** Per-user preferences and subscription state. */
  datatype UserSettings = UserSettings(
    userId: int,
    tz: string,
    morning: string,
    midday: string,
    evening: string,
    isPremium: bool,
    premiumUntil: Option<Instant>)

  const DefaultTz: string := "Asia/Almaty"
  const DefaultMorning: string := "09:00"
  const DefaultMidday: string := "12:00"
  const DefaultEvening: string := "19:00"

  /** The row `UserSettings(user_id=…)` inserts when only the key is given. */
  function DefaultSettings(userId: int): (s: UserSettings)
    ensures s.userId == userId && !s.isPremium && s.premiumUntil.None?
    ensures s.tz == "Asia/Almaty"
    ensures s.morning == "09:00" && s.midday == "12:00" && s.evening == "19:00"
  {
    UserSettings(userId, DefaultTz, DefaultMorning, DefaultMidday, DefaultEvening, false, None)
  }

  /** The user's settings row, or the row an insert of only the key would
      create: in a table keyed by user it is always the user's own row, and
      a user without a row is a free user on the default slots. */
  function RowOrDefault(settings: map<int, UserSettings>, user: int): (s: UserSettings)
    ensures KeyedByUser(settings) ==> s.userId == user && KeyedByUser(settings[user := s])
    ensures user in settings ==> s == settings[user]
    ensures user !in settings ==>
              s.userId == user && !s.isPremium && s.premiumUntil.None? && s.tz == DefaultTz
              && s.morning == DefaultMorning && s.midday == DefaultMidday && s.evening == DefaultEvening
  {
    if user in settings then settings[user] else DefaultSettings(user)
  }

  /** Settings rows are keyed by `user_id`, so a user has at most one. */
  ghost predicate KeyedByUser(settings: map<int, UserSettings>) {
    forall k :: k in settings ==> settings[k].userId == k
  }

  /** Rolling quota counters; every column may be null in old rows. */
  datatype UserUsage = UserUsage(
    userId: int,
    gptRequests: Option<int>,
    remindersCreated: Option<int>,
    lastResetGpt: Option<Instant>,
    lastResetReminders: Option<Instant>)

  /** A usage row as first created: zero counters, both windows opened now. */
  function NewUsage(userId: int, now: Instant): (u: UserUsage)
    ensures u.userId == userId
    ensures u.gptRequests == Some(0) && u.remindersCreated == Some(0)
    ensures u.lastResetGpt == Some(now) && u.lastResetReminders == Some(now)
  {
    UserUsage(userId, Some(0), Some(0), Some(now), Some(now))
  }
}
