/** The per-user quota limiter (services/utils.py): lazily reset counters,
    fixed thresholds, and the increment that callers apply after a gated
    action succeeds. The usage table is a map from user id to its row. */
module Usage {
  import opened Common
  import opened Records

  /** Model queries allowed per window, and the window. */
  const GptQuota: int := 5
  const GptWindow: int := Hour
  /** Reminders allowed per window, and the window. */
  const RemindQuota: int := 3
  const RemindWindow: int := Day

  datatype Reason = GptLimit | RemindLimit

  /** `{"ok": True}` or `{"ok": False, "reason": …}`. */
  datatype Verdict = Ok | Limited(reason: Reason)

  /** A usage table together with the row just read from it. */
  datatype Lookup = Lookup(usages: map<int, UserUsage>, usage: UserUsage)

  /** The table after a check, and the check's verdict. */
  datatype Checked = Checked(usages: map<int, UserUsage>, verdict: Verdict)

  /** `get_or_create_usage`: the existing row, or a fresh one inserted. */
  function GetOrCreate(usages: map<int, UserUsage>, user: int, now: Instant): (r: Lookup)
    ensures user in r.usages && r.usage == r.usages[user]
    ensures user in usages ==> r.usages == usages
    ensures user !in usages ==> r.usages == usages[user := NewUsage(user, now)]
  {
    if user in usages then Lookup(usages, usages[user])
    else
      var u := NewUsage(user, now);
      Lookup(usages[user := u], u)
  }

  /** A row with no null column. */
  predicate Complete(u: UserUsage) {
    u.gptRequests.Some? && u.remindersCreated.Some? && u.lastResetGpt.Some? && u.lastResetReminders.Some?
  }

  /** Null counters become 0 and null stamps become `now`. */
  function Normalize(u: UserUsage, now: Instant): (r: UserUsage)
    ensures Complete(r) && r.userId == u.userId
    ensures u.gptRequests.Some? ==> r.gptRequests == u.gptRequests
    ensures u.remindersCreated.Some? ==> r.remindersCreated == u.remindersCreated
    ensures u.lastResetGpt.Some? ==> r.lastResetGpt == u.lastResetGpt
    ensures u.lastResetReminders.Some? ==> r.lastResetReminders == u.lastResetReminders
    ensures u.gptRequests.None? ==> r.gptRequests == Some(0)
    ensures u.remindersCreated.None? ==> r.remindersCreated == Some(0)
    ensures u.lastResetGpt.None? ==> r.lastResetGpt == Some(now)
    ensures u.lastResetReminders.None? ==> r.lastResetReminders == Some(now)
    ensures Complete(u) ==> r == u
  {
    UserUsage(u.userId,
              Some(u.gptRequests.GetOr(0)), Some(u.remindersCreated.GetOr(0)),
              Some(u.lastResetGpt.GetOr(now)), Some(u.lastResetReminders.GetOr(now)))
  }

  /** The lazy reset: a counter whose window has run for strictly longer
      than its length is zeroed and its window restarted at `now`. */
  function ResetWindows(u: UserUsage, now: Instant): (r: UserUsage)
    requires Complete(u)
    ensures Complete(r) && r.userId == u.userId
  {
    var u1 := if now - u.lastResetGpt.value > GptWindow
              then u.(gptRequests := Some(0), lastResetGpt := Some(now)) else u;
    if now - u1.lastResetReminders.value > RemindWindow
    then u1.(remindersCreated := Some(0), lastResetReminders := Some(now)) else u1
  }

  /** The thresholds, model queries first. */
  function VerdictOf(gpt: int, reminders: int): (v: Verdict)
    ensures v == Limited(GptLimit) <==> gpt >= GptQuota
    ensures v == Limited(RemindLimit) <==> gpt < GptQuota && reminders >= RemindQuota
    ensures v == Ok <==> gpt < GptQuota && reminders < RemindQuota
  {
    if gpt >= GptQuota then Limited(GptLimit)
    else if reminders >= RemindQuota then Limited(RemindLimit)
    else Ok
  }

  /** The row a non-premium check starts from: read or created, then
      normalised. */
  function Current(usages: map<int, UserUsage>, user: int, now: Instant): (u: UserUsage)
    ensures Complete(u)
  {
    Normalize(GetOrCreate(usages, user, now).usage, now)
  }

  /** `check_usage_limits`. */
  function Check(usages: map<int, UserUsage>, user: int, isPremium: bool, now: Instant): (r: Checked)
    ensures isPremium ==> r == Checked(usages, Ok)
    ensures !isPremium ==> user in r.usages && r.usages == usages[user := r.usages[user]]
    ensures !isPremium ==> Complete(r.usages[user])
    ensures !isPremium ==>
      var before := Current(usages, user, now);
      var after := r.usages[user];
      && (now - before.lastResetGpt.value > Hour ==>
            after.gptRequests == Some(0) && after.lastResetGpt == Some(now))
      && (now - before.lastResetGpt.value <= Hour ==>
            after.gptRequests == before.gptRequests && after.lastResetGpt == before.lastResetGpt)
      && (now - before.lastResetReminders.value > Day ==>
            after.remindersCreated == Some(0) && after.lastResetReminders == Some(now))
      && (now - before.lastResetReminders.value <= Day ==>
            after.remindersCreated == before.remindersCreated
            && after.lastResetReminders == before.lastResetReminders)
    ensures !isPremium ==>
      var after := r.usages[user];
      && (r.verdict == Limited(GptLimit) <==> after.gptRequests.value >= 5)
      && (r.verdict == Limited(RemindLimit) <==>
            after.gptRequests.value < 5 && after.remindersCreated.value >= 3)
      && (r.verdict == Ok <==> after.gptRequests.value < 5 && after.remindersCreated.value < 3)
  {
    if isPremium then Checked(usages, Ok)
    else
      var u := ResetWindows(Current(usages, user, now), now);
      Checked(usages[user := u], VerdictOf(u.gptRequests.value, u.remindersCreated.value))
  }

  /** `increment_usage`: one more model query for "gpt", one more reminder
      for "remind"; any other action only ensures the row exists. */
  function Increment(usages: map<int, UserUsage>, user: int, action: string, now: Instant): (r: map<int, UserUsage>)
    ensures user in r && r == usages[user := r[user]]
    ensures var before := GetOrCreate(usages, user, now).usage;
            && (action == "gpt" ==>
                  r[user] == before.(gptRequests := Some(before.gptRequests.GetOr(0) + 1)))
            && (action == "remind" ==>
                  r[user] == before.(remindersCreated := Some(before.remindersCreated.GetOr(0) + 1)))
            && (action != "gpt" && action != "remind" ==> r[user] == before)
  {
    var u := GetOrCreate(usages, user, now).usage;
    var u' := if action == "gpt" then u.(gptRequests := Some(u.gptRequests.GetOr(0) + 1))
              else if action == "remind" then u.(remindersCreated := Some(u.remindersCreated.GetOr(0) + 1))
              else u;
    GetOrCreate(usages, user, now).usages[user := u']
  }

  /** `increment_usage(user, "remind")`: one more reminder counted, the
      other counters and users untouched. */
  function CountReminder(usages: map<int, UserUsage>, user: int, now: Instant): (r: map<int, UserUsage>)
    ensures user in r && r == usages[user := r[user]]
    ensures var before := GetOrCreate(usages, user, now).usage;
            r[user] == before.(remindersCreated := Some(before.remindersCreated.GetOr(0) + 1))
  {
    var r := Increment(usages, user, "remind", now);
    assert "remind" != "gpt";
    r
  }

  // ---------------------------------------------------------------------
  // Properties relating several calls
  // ---------------------------------------------------------------------

  /** A check never raises a counter: each one is kept or reset to zero. */
  lemma CheckNeverIncreases(usages: map<int, UserUsage>, user: int, isPremium: bool, now: Instant)
    requires !isPremium
    ensures var before := Current(usages, user, now);
            var after := Check(usages, user, isPremium, now).usages[user];
            && (after.gptRequests == before.gptRequests || after.gptRequests == Some(0))
            && (after.remindersCreated == before.remindersCreated || after.remindersCreated == Some(0))
  {
  }

  /** A check run twice at the same instant changes nothing the second time
      and gives the same verdict. */
  lemma CheckIdempotent(usages: map<int, UserUsage>, user: int, isPremium: bool, now: Instant)
    ensures var first := Check(usages, user, isPremium, now);
            Check(first.usages, user, isPremium, now) == first
  {
    if !isPremium {
      var first := Check(usages, user, isPremium, now);
      var u := first.usages[user];
      assert Current(first.usages, user, now) == u;
      assert ResetWindows(u, now) == u;
      assert first.usages[user := u] == first.usages;
    }
  }

  /** Create-then-count, as the /remind flow does: check, and when allowed,
      count one more reminder. */
  function CheckAndCount(usages: map<int, UserUsage>, user: int, now: Instant): map<int, UserUsage>
  {
    var c := Check(usages, user, false, now);
    if c.verdict == Ok then Increment(c.usages, user, "remind", now) else c.usages
  }

  /** A new user who creates three reminders within one day, asking no
      model queries, is refused the fourth with `remind_limit`. */
  lemma FourthReminderRefused(usages: map<int, UserUsage>, user: int, t0: Instant, t1: Instant, t2: Instant, t3: Instant)
    requires user !in usages
    requires t0 <= t1 <= t2 <= t3 <= t0 + Day
    ensures var u1 := CheckAndCount(usages, user, t0);
            var u2 := CheckAndCount(u1, user, t1);
            var u3 := CheckAndCount(u2, user, t2);
            Check(u3, user, false, t3).verdict == Limited(RemindLimit)
  {
    var u1 := CheckAndCount(usages, user, t0);
    assert u1[user].remindersCreated == Some(1) && u1[user].gptRequests == Some(0);
    assert u1[user].lastResetReminders == Some(t0);
    var u2 := CheckAndCount(u1, user, t1);
    assert u2[user].remindersCreated == Some(2) && u2[user].gptRequests == Some(0);
    assert u2[user].lastResetReminders == Some(t0);
    var u3 := CheckAndCount(u2, user, t2);
    assert u3[user].remindersCreated == Some(3) && u3[user].gptRequests == Some(0);
    assert u3[user].lastResetReminders == Some(t0);
  }

  /** Once the reminder window has run out, the next check starts the count
      afresh and lets a user with spare model queries through. */
  lemma WindowElapsedAdmits(usages: map<int, UserUsage>, user: int, now: Instant)
    requires user in usages && Complete(usages[user])
    requires now - usages[user].lastResetReminders.value > Day
    requires usages[user].gptRequests.value < GptQuota || now - usages[user].lastResetGpt.value > Hour
    ensures var c := Check(usages, user, false, now);
            c.verdict == Ok && c.usages[user].remindersCreated == Some(0)
  {
  }
}
