/** The reminder conversation and its callbacks (handlers/reminder_handler.py):
    the two-step creation dialogue, the owner-checked delete, the snooze and
    done buttons, and the grouped listing. Each handler is a transition over
    the scheduler state, the usage table and the user's dialogue state. */
module ReminderFlow {
  import opened Common
  import opened Text
  import opened Records
  import opened Scheduler
  import opened Usage
  import opened ReminderInput

  // ---------------------------------------------------------------------
  // The creation dialogue
  // ---------------------------------------------------------------------

  /** The user's dialogue state: nothing pending, waiting for a date, or
      waiting for the text of a reminder whose date is settled. */
  datatype Form = Idle | AwaitingDatetime | AwaitingText(remindTime: Instant)

  /** The result of `/remind`: the usage table after the limit check, the
      dialogue state, and whether the quota notice was sent. */
  datatype Started = Started(usages: map<int, UserUsage>, form: Form, notice: bool)

  /** `remind_start` as written: any verdict other than ok ends the command,
      and only the reminder-quota reason is reported. */
  function RemindStartAsWritten(usages: map<int, UserUsage>, user: int, isPremium: bool,
                                now: Instant, form: Form): (r: Started)
    ensures r.usages == Check(usages, user, isPremium, now).usages
    ensures isPremium ==> r.form == AwaitingDatetime && !r.notice
    ensures !isPremium ==>
      var u := r.usages[user];
      var allowed := u.gptRequests.value < GptQuota && u.remindersCreated.value < RemindQuota;
      && (allowed ==> r.form == AwaitingDatetime)
      && (!allowed ==> r.form == form)
      && (r.notice <==> u.gptRequests.value < GptQuota && u.remindersCreated.value >= RemindQuota)
  {
    var c := Check(usages, user, isPremium, now);
    if c.verdict != Ok then Started(c.usages, form, c.verdict == Limited(RemindLimit))
    else Started(c.usages, AwaitingDatetime, false)
  }

  /** `/remind` gated on the reminder quota alone: a user out of model
      queries may still create reminders, and every refusal is reported. */
  function RemindStart(usages: map<int, UserUsage>, user: int, isPremium: bool,
                       now: Instant, form: Form): (r: Started)
    ensures r.usages == Check(usages, user, isPremium, now).usages
    ensures isPremium ==> r.form == AwaitingDatetime && !r.notice
    ensures !isPremium ==>
      var allowed := r.usages[user].remindersCreated.value < RemindQuota;
      && (allowed ==> r.form == AwaitingDatetime)
      && (!allowed ==> r.form == form)
      && (r.notice <==> !allowed)
  {
    var c := Check(usages, user, isPremium, now);
    if isPremium || c.usages[user].remindersCreated.value < RemindQuota
    then Started(c.usages, AwaitingDatetime, false)
    else Started(c.usages, form, true)
  }

  /** A user who has spent the hour's model queries but created no
      reminder today is turned away from `/remind` without a word. */
  lemma RemindStartBlockedByQueries()
    ensures var usages := map[1 := UserUsage(1, Some(5), Some(0), Some(100), Some(100))];
            var r := RemindStartAsWritten(usages, 1, false, 200, Idle);
            r.form == Idle && !r.notice
    ensures var usages := map[1 := UserUsage(1, Some(5), Some(0), Some(100), Some(100))];
            RemindStart(usages, 1, false, 200, Idle).form == AwaitingDatetime
  {
    var usages := map[1 := UserUsage(1, Some(5), Some(0), Some(100), Some(100))];
    var c := Check(usages, 1, false, 200);
    assert c.usages[1] == usages[1];
  }

  /** The two gates agree whenever the model-query count is under quota. */
  lemma GatesAgreeUnderQueryQuota(usages: map<int, UserUsage>, user: int, isPremium: bool,
                                  now: Instant, form: Form)
    requires !isPremium ==> Check(usages, user, isPremium, now).usages[user].gptRequests.value < GptQuota
    ensures RemindStart(usages, user, isPremium, now, form).form
            == RemindStartAsWritten(usages, user, isPremium, now, form).form
  {
  }

  /** The word that abandons the dialogue. */
  const CancelWord: string := "отмена"

  /** `process_datetime`: the cancel word clears the dialogue; text the
      resolver cannot read keeps waiting for a date; a resolved date moves
      on to asking for the text. */
  function ProcessDatetime(text: string, p: Prefs, resolve: string -> Option<Instant>): (r: Form)
    requires ValidPrefs(p)
    ensures Lower(Strip(text)) == CancelWord ==> r == Idle
    ensures Lower(Strip(text)) != CancelWord ==>
              (r == AwaitingDatetime <==> ParseNatural(Lower(Strip(text)), p, resolve).None?)
    ensures r.AwaitingText? ==> ParseNatural(Lower(Strip(text)), p, resolve) == Some(r.remindTime)
  {
    var txt := Lower(Strip(text));
    if txt == CancelWord then Idle
    else
      var parsed := ParseNatural(txt, p, resolve);
      if parsed.None? then AwaitingDatetime else AwaitingText(parsed.value)
  }

  /** Everything a creation touches. */
  datatype World = World(sched: State, usages: map<int, UserUsage>)

  /** The result of `process_text`: the new world, the new row's id, the
      seconds left until the requested time (the confirmation shows them as
      `CountdownText(remaining)`) and the dialogue state afterwards. */
  datatype Confirmed = Confirmed(world: World, id: int, remaining: int, form: Form)

  /** `process_text`: schedule the stripped text as a manual reminder at
      the settled date, count one reminder, report the time left and end
      the dialogue. */
  function ProcessText(w: World, user: int, remindTime: Instant, text: string, now: Instant): (r: Confirmed)
    ensures r.id !in w.sched.store
    ensures r.world.sched.store.Keys == w.sched.store.Keys + {r.id}
    ensures forall k :: k in w.sched.store ==> r.world.sched.store[k] == w.sched.store[k]
    ensures var rem := r.world.sched.store[r.id];
            && rem.userId == user && rem.text == Strip(text) && rem.source == Manual
            && rem.repeatType.None?
            && rem.date == (if remindTime < now then now + ClampDelay else remindTime)
    ensures JobsFor(r.world.sched.jobs, r.id) == JobsFor(w.sched.jobs, r.id) + 1
    ensures user in r.world.usages && r.world.usages == w.usages[user := r.world.usages[user]]
    ensures r.world.usages[user].remindersCreated
            == Some(GetOrCreate(w.usages, user, now).usage.remindersCreated.GetOr(0) + 1)
    ensures r.remaining == remindTime - now
    ensures r.form == Idle
  {
    var c := Schedule(w.sched, user, Strip(text), remindTime, now, None, None, Manual);
    var usages := CountReminder(w.usages, user, now);
    Confirmed(World(c.state, usages), c.id, remindTime - now, Idle)
  }

  /** The whole dialogue, as the program is written, for a free user under
      both quotas: `/remind`, a date the resolver reads, then the text,
      creates exactly one reminder for that user, dated no earlier than now,
      and counted once, and leaves the dialogue idle. */
  lemma DialogueCreatesOne(w: World, user: int, now: Instant, dateText: string, text: string,
                           p: Prefs, resolve: string -> Option<Instant>)
    requires ValidPrefs(p)
    requires Lower(Strip(dateText)) != CancelWord
    requires ParseNatural(Lower(Strip(dateText)), p, resolve).Some?
    requires var u := Check(w.usages, user, false, now).usages[user];
             u.gptRequests.value < GptQuota && u.remindersCreated.value < RemindQuota
    ensures var s := RemindStartAsWritten(w.usages, user, false, now, Idle);
            && s.form == AwaitingDatetime
            && var f := ProcessDatetime(dateText, p, resolve);
               && f.AwaitingText?
               && var r := ProcessText(World(w.sched, s.usages), user, f.remindTime, text, now);
                  && |r.world.sched.store.Keys| == |w.sched.store.Keys| + 1
                  && r.world.sched.store[r.id].userId == user
                  && r.world.sched.store[r.id].date >= now
                  && r.world.usages[user].remindersCreated.value
                     == s.usages[user].remindersCreated.value + 1
                  && r.form == Idle
  {
    var s := RemindStartAsWritten(w.usages, user, false, now, Idle);
    var f := ProcessDatetime(dateText, p, resolve);
    var r := ProcessText(World(w.sched, s.usages), user, f.remindTime, text, now);
    assert r.world.sched.store.Keys == w.sched.store.Keys + {r.id};
  }

  // ---------------------------------------------------------------------
  // Delete, snooze and done buttons
  // ---------------------------------------------------------------------

  /** The delete action: only the caller's own reminder is removed, with
      every job that names it. */
  function Delete(st: State, user: int, rid: int): (r: Outcome)
    ensures r.ok <==> rid in st.store && st.store[rid].userId == user
    ensures !r.ok ==> r.state == st
    ensures r.ok ==> r.state.store == st.store - {rid}
    ensures r.ok ==> JobsFor(r.state.jobs, rid) == 0
    ensures forall j: Job :: j.reminderId != rid ==> (j in r.state.jobs <==> j in st.jobs)
    ensures r.state.nextJob == st.nextJob
  {
    if rid in st.store && st.store[rid].userId == user then
      Outcome(st.(store := st.store - {rid}, jobs := RemoveJobsFor(st.jobs, rid)), true)
    else Outcome(st, false)
  }

  /** On the owner's own reminder, delete does what "done" does. */
  lemma DeleteOwnIsCancel(st: State, user: int, rid: int)
    requires rid in st.store && st.store[rid].userId == user
    ensures Delete(st, user, rid) == Cancel(st, rid)
  {
  }

  /** `delete_reminder_callback`: decode `del_<id>`, then delete. */
  function DeleteCallback(st: State, user: int, data: string): (r: Outcome)
    ensures ParseIdData(data).None? ==> r == Outcome(st, false)
    ensures ParseIdData(data).Some? ==> r == Delete(st, user, ParseIdData(data).value)
  {
    match ParseIdData(data)
    case None => Outcome(st, false)
    case Some(rid) => Delete(st, user, rid)
  }

  /** The delete button under a listed reminder deletes exactly that
      reminder, and only for its owner. */
  lemma DeleteButtonActs(st: State, user: int, id: nat)
    ensures var r := DeleteCallback(st, user, DeleteData(id));
            && (r.ok <==> id in st.store && st.store[id].userId == user)
            && (r.ok ==> r.state.store == st.store - {id})
  {
    IdDataRoundTrip(id);
  }

  /** `cb_snooze`: decode `snooze_<kind>_<id>` and snooze by the kind; an
      unknown kind fails without touching anything. */
  function SnoozeCallback(st: State, data: string, now: Instant): (r: Outcome)
    ensures ParseSnoozeData(data).None? ==> r == Outcome(st, false)
    ensures ParseSnoozeData(data).Some? && SnoozeKind(ParseSnoozeData(data).value.0).None? ==>
              r == Outcome(st, false)
    ensures r.ok <==> ParseSnoozeData(data).Some? && SnoozeKind(ParseSnoozeData(data).value.0).Some?
                      && ParseSnoozeData(data).value.1 in st.store
    ensures !r.ok ==> r.state == st
  {
    match ParseSnoozeData(data)
    case None => Outcome(st, false)
    case Some((kind, rid)) =>
      match SnoozeKind(kind)
      case None => Outcome(st, false)
      case Some(req) => Snooze(st, rid, req.delta, req.toTomorrow, now)
  }

  /** `cb_done`: decode `done_<id>` and cancel. */
  function DoneCallback(st: State, data: string): (r: Outcome)
    ensures r.ok <==> ParseIdData(data).Some? && ParseIdData(data).value in st.store
    ensures !r.ok ==> r.state == st
    ensures r.ok ==> r.state.store == st.store - {ParseIdData(data).value}
  {
    match ParseIdData(data)
    case None => Outcome(st, false)
    case Some(rid) => Cancel(st, rid)
  }

  /** The "+10 min" button moves its reminder to ten minutes from now. */
  lemma TenMinutesButton(st: State, id: nat, now: Instant)
    requires id in st.store
    ensures SnoozeCallback(st, SnoozeData("10m", id), now).state.store[id].date == now + 10 * Minute
  {
    assert SnoozeKind("10m") == Some(SnoozeRequest(Some(10 * Minute), false));
    SnoozeButton(st, "10m", id, now);
  }

  /** The "+1 h" button moves its reminder to an hour from now. */
  lemma HourButton(st: State, id: nat, now: Instant)
    requires id in st.store
    ensures SnoozeCallback(st, SnoozeData("1h", id), now).state.store[id].date == now + Hour
  {
    assert SnoozeKind("1h") == Some(SnoozeRequest(Some(Hour), false));
    SnoozeButton(st, "1h", id, now);
  }

  /** The "tomorrow" button moves its reminder a day past its date. */
  lemma TomorrowButton(st: State, id: nat, now: Instant)
    requires id in st.store
    ensures SnoozeCallback(st, SnoozeData("tomorrow", id), now).state.store[id].date
            == st.store[id].date + Day
  {
    assert SnoozeKind("tomorrow") == Some(SnoozeRequest(None, true));
    SnoozeButton(st, "tomorrow", id, now);
  }

  /** The "done" button removes its reminder. */
  lemma DoneButton(st: State, id: nat)
    requires id in st.store
    ensures DoneCallback(st, DoneData(id)).ok
    ensures DoneCallback(st, DoneData(id)).state.store == st.store - {id}
  {
    IdDataRoundTrip(id);
  }

  /** A snooze button decodes to the snooze its kind names. */
  lemma SnoozeButton(st: State, kind: string, id: nat, now: Instant)
    requires kind == "10m" || kind == "1h" || kind == "tomorrow"
    ensures var req := SnoozeKind(kind).value;
            SnoozeCallback(st, SnoozeData(kind, id), now) == Snooze(st, id, req.delta, req.toTomorrow, now)
  {
    assert '_' !in kind;
    SnoozeDataRoundTrip(kind, id);
  }

  // ---------------------------------------------------------------------
  // The listing
  // ---------------------------------------------------------------------

  /** Listing order: by date, ties broken by id. */
  predicate Before(store: map<int, Reminder>, a: int, b: int)
    requires a in store && b in store
  {
    store[a].date < store[b].date || (store[a].date == store[b].date && a < b)
  }

  lemma BeforeTransitive(store: map<int, Reminder>, a: int, b: int, c: int)
    requires a in store && b in store && c in store
    requires Before(store, a, b) && Before(store, b, c)
    ensures Before(store, a, c)
  {
  }

  /** Ids of rows in the store, in strictly ascending listing order. */
  ghost predicate Sorted(store: map<int, Reminder>, r: seq<int>) {
    && (forall i :: 0 <= i < |r| ==> r[i] in store)
    && (forall i, j :: 0 <= i < j < |r| ==> Before(store, r[i], r[j]))
  }

  /** The first of a non-empty set of ids in listing order. */
  function Least(store: map<int, Reminder>, ids: set<int>): (m: int)
    requires ids != {} && ids <= store.Keys
    ensures m in ids
    ensures forall k :: k in ids && k != m ==> Before(store, m, k)
    decreases |ids|
  {
    var y := MaxOf(ids);
    if ids == {y} then y
    else
      var t := ids - {y};
      var m := Least(store, t);
      var first := if Before(store, y, m) then y else m;
      LeastStep(store, ids, y, t, m, first);
      first
  }

  /** The first of `ids` is `y` or the first of the others, whichever
      comes first. */
  lemma LeastStep(store: map<int, Reminder>, ids: set<int>, y: int, t: set<int>, m: int, first: int)
    requires ids <= store.Keys && y in ids && t == ids - {y} && m in t
    requires forall k :: k in t && k != m ==> Before(store, m, k)
    requires first == if Before(store, y, m) then y else m
    ensures first in ids
    ensures forall k :: k in ids && k != first ==> Before(store, first, k)
  {
    forall k | k in ids && k != first
      ensures Before(store, first, k)
    {
      if first == y {
        if k != m {
          assert k in t;
          BeforeTransitive(store, y, m, k);
        }
      } else if k != y {
        assert k in t;
      }
    }
  }

  /** The ids, listed in order. */
  function Ordered(store: map<int, Reminder>, ids: set<int>): (r: seq<int>)
    requires ids <= store.Keys
    ensures Sorted(store, r)
    ensures forall k :: k in r <==> k in ids
    decreases |ids|
  {
    if ids == {} then []
    else
      var m := Least(store, ids);
      var rest := Ordered(store, ids - {m});
      [m] + rest
  }

  /** The listed rows with the given source, in the same order. */
  function OfSource(store: map<int, Reminder>, rows: seq<int>, source: string): (r: seq<int>)
    requires Sorted(store, rows)
    ensures Sorted(store, r)
    ensures forall k :: k in r <==> k in rows && store[k].source == source
  {
    if |rows| == 0 then []
    else
      var rest := OfSource(store, rows[1..], source);
      assert Sorted(store, rows[1..]);
      assert forall k :: k in rows <==> k == rows[0] || k in rows[1..];
      if store[rows[0]].source == source then
        assert forall k :: k in rest ==> k in rows[1..];
        [rows[0]] + rest
      else rest
  }

  /** The two groups of `/list_reminders`, shown in this order. */
  datatype Listing = Listing(syllabus: seq<int>, manual: seq<int>)

  /** `list_reminders`: the caller's rows by date, split into those from a
      syllabus and those entered by hand; rows of any other source are not
      shown. */
  function ListReminders(store: map<int, Reminder>, user: int): (r: Listing)
    ensures Sorted(store, r.syllabus) && Sorted(store, r.manual)
    ensures forall k :: k in r.syllabus <==>
              k in store && store[k].userId == user && store[k].source == SyllabusSource
    ensures forall k :: k in r.manual <==>
              k in store && store[k].userId == user && store[k].source == Manual
  {
    var rows := Ordered(store, set k | k in store && store[k].userId == user);
    Listing(OfSource(store, rows, SyllabusSource), OfSource(store, rows, Manual))
  }

  /** A row is listed at most once, and only if it is the caller's own with
      one of the two shown sources. */
  lemma ListingShowsOwnOnce(store: map<int, Reminder>, user: int, k: int)
    ensures var l := ListReminders(store, user);
            && !(k in l.syllabus && k in l.manual)
            && (k in l.syllabus + l.manual <==>
                  k in store && store[k].userId == user
                  && (store[k].source == SyllabusSource || store[k].source == Manual))
  {
    var l := ListReminders(store, user);
    assert k in l.syllabus + l.manual <==> k in l.syllabus || k in l.manual;
  }
}
