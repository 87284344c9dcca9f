/** The reminder store and the armed-job table (services/scheduler.py).
    The store maps reminder ids to rows; the job table lists the timers the
    in-memory scheduler holds, each carrying the arguments
    `(user_id, text, reminder_id)` it will be fired with. Timers never run
    here: firing is the explicit `Fire` transition. */
module Scheduler {
  import opened Common
  import opened Records

  /** Delay applied to a creation time already in the past. */
  const ClampDelay: int := 10
  /** Snooze length when the caller gives none (or a zero one). */
  const DefaultSnooze: int := 10 * Minute

  /** An armed date-triggered job. `id` stands for APScheduler's job id. */
  datatype Job = Job(id: nat, runAt: Instant, userId: int, text: string, reminderId: int)

  /** The reminder table plus the in-memory job list; `nextJob` is the
      supply of fresh job ids. */
  datatype State = State(store: map<int, Reminder>, jobs: seq<Job>, nextJob: nat)

  /** Result of an operation that reports success as a boolean. */
  datatype Outcome = Outcome(state: State, ok: bool)

  /** Result of creating a reminder: the new state and the assigned id. */
  datatype Created = Created(state: State, id: int)

  // ---------------------------------------------------------------------
  // The job table
  // ---------------------------------------------------------------------

  /** Number of armed jobs whose reminder argument is `rid`. */
  function JobsFor(jobs: seq<Job>, rid: int): nat
  {
    if |jobs| == 0 then 0
    else JobsFor(jobs[..|jobs| - 1], rid) + (if jobs[|jobs| - 1].reminderId == rid then 1 else 0)
  }

  lemma {:induction false} JobsForZero(jobs: seq<Job>, rid: int)
    ensures JobsFor(jobs, rid) == 0 <==> forall i :: 0 <= i < |jobs| ==> jobs[i].reminderId != rid
  {
    if |jobs| > 0 {
      var init := jobs[..|jobs| - 1];
      JobsForZero(init, rid);
      assert forall i :: 0 <= i < |init| ==> init[i] == jobs[i];
    }
  }

  lemma {:induction false} JobsForAppend(a: seq<Job>, b: seq<Job>, rid: int)
    ensures JobsFor(a + b, rid) == JobsFor(a, rid) + JobsFor(b, rid)
    decreases |b|
  {
    if |b| == 0 {
      assert a + b == a;
    } else {
      var b' := b[..|b| - 1];
      assert (a + b)[..|a + b| - 1] == a + b';
      JobsForAppend(a, b', rid);
    }
  }

  /** `_remove_job_by_reminder`: drop every job whose reminder argument is
      `rid`, keeping the others in order. */
  function RemoveJobsFor(jobs: seq<Job>, rid: int): (r: seq<Job>)
    ensures JobsFor(r, rid) == 0
    ensures forall other :: other != rid ==> JobsFor(r, other) == JobsFor(jobs, other)
    ensures forall j: Job :: j in r <==> j in jobs && j.reminderId != rid
  {
    if |jobs| == 0 then []
    else
      var init := jobs[..|jobs| - 1];
      var last := jobs[|jobs| - 1];
      var kept := RemoveJobsFor(init, rid);
      assert jobs == init + [last];
      if last.reminderId == rid then kept
      else
        assert (kept + [last])[..|kept|] == kept;
        kept + [last]
  }

  /** `_plan_job_for`: arm one job at the reminder's stored date and record
      its id in the row. */
  function PlanJob(st: State, rid: int): (r: State)
    requires rid in st.store
    ensures r.store.Keys == st.store.Keys
    ensures r.store[rid] == st.store[rid].(jobId := Some(st.nextJob))
    ensures forall k :: k in st.store && k != rid ==> r.store[k] == st.store[k]
    ensures JobsFor(r.jobs, rid) == JobsFor(st.jobs, rid) + 1
    ensures forall other :: other != rid ==> JobsFor(r.jobs, other) == JobsFor(st.jobs, other)
    ensures |r.jobs| == |st.jobs| + 1 && r.jobs[..|st.jobs|] == st.jobs
    ensures r.jobs[|st.jobs|].runAt == st.store[rid].date
    ensures r.jobs[|st.jobs|].reminderId == rid && r.jobs[|st.jobs|].id == st.nextJob
    ensures r.nextJob == st.nextJob + 1
  {
    var rem := st.store[rid];
    var job := Job(st.nextJob, rem.date, rem.userId, rem.text, rid);
    var jobs' := st.jobs + [job];
    assert jobs'[..|st.jobs|] == st.jobs;
    State(st.store[rid := rem.(jobId := Some(st.nextJob))], jobs', st.nextJob + 1)
  }

  // ---------------------------------------------------------------------
  // Recurrence
  // ---------------------------------------------------------------------

  /** Length of one period of a recurrence rule; unknown rules have none. */
  function Period(repeatType: string): (p: int)
    ensures p >= 0
    ensures repeatType == "daily" ==> p == 24 * 60 * 60
    ensures repeatType == "weekly" ==> p == 7 * 24 * 60 * 60
    ensures repeatType == "monthly" ==> p == 30 * 24 * 60 * 60
    ensures repeatType != "daily" && repeatType != "weekly" && repeatType != "monthly" ==> p == 0
  {
    match repeatType
    case "daily" => Day
    case "weekly" => 7 * Day
    case "monthly" => 30 * Day
    case _ => 0
  }

  /** `_compute_next_occurrence`. */
  function NextOccurrence(dt: Instant, repeatType: string): (r: Instant)
    ensures r - dt == Period(repeatType)
  {
    if repeatType == "daily" then dt + Day
    else if repeatType == "weekly" then dt + 7 * Day
    else if repeatType == "monthly" then dt + 30 * Day
    else dt
  }

  /** Python truthiness of the nullable `repeat_type` column. */
  predicate Repeats(rem: Reminder) {
    rem.repeatType.Some? && rem.repeatType.value != ""
  }

  // ---------------------------------------------------------------------
  // Public operations
  // ---------------------------------------------------------------------

  /** The id SQLite assigns to a new row: one more than the largest
      existing id, or 1 for an empty table. */
  function NewId(store: map<int, Reminder>): (id: int)
    ensures id !in store
    ensures forall k :: k in store ==> k < id
  {
    if store == map[] then 1 else MaxOf(store.Keys) + 1
  }

  /** The stored due date: a requested date already in the past becomes
      `now + 10s`. */
  function ClampDate(when: Instant, now: Instant): (d: Instant)
    ensures d >= now
    ensures when >= now ==> d == when
    ensures when < now ==> d == now + 10
  {
    if when < now then now + ClampDelay else when
  }

  /** `schedule_reminder`: insert a row and arm exactly one job for it. */
  function Schedule(st: State, userId: int, text: string, when: Instant, now: Instant,
                    repeatType: Option<string>, repeatValue: Option<string>,
                    source: string): (r: Created)
    ensures r.id !in st.store && r.state.store.Keys == st.store.Keys + {r.id}
    ensures forall k :: k in st.store ==> r.state.store[k] == st.store[k]
    ensures r.state.store[r.id].id == r.id
    ensures r.state.store[r.id].userId == userId && r.state.store[r.id].text == text
    ensures r.state.store[r.id].source == source
    ensures r.state.store[r.id].repeatType == repeatType
    ensures r.state.store[r.id].date >= now
    ensures when >= now ==> r.state.store[r.id].date == when
    ensures when < now ==> r.state.store[r.id].date == now + 10
    ensures |r.state.jobs| == |st.jobs| + 1 && r.state.jobs[..|st.jobs|] == st.jobs
    ensures r.state.jobs[|st.jobs|].reminderId == r.id
    ensures r.state.jobs[|st.jobs|].runAt == r.state.store[r.id].date
    ensures r.state.store[r.id].jobId == Some(r.state.jobs[|st.jobs|].id)
    ensures JobsFor(r.state.jobs, r.id) == JobsFor(st.jobs, r.id) + 1
    ensures forall other :: other != r.id ==> JobsFor(r.state.jobs, other) == JobsFor(st.jobs, other)
  {
    var id := NewId(st.store);
    var rem := NewReminder(id, userId, text, ClampDate(when, now), repeatType, repeatValue, now, Some(source));
    Created(PlanJob(st.(store := st.store[id := rem]), id), id)
  }

  /** The new due date of a snooze: same time tomorrow, or `now + delta`
      where a missing or zero delta means ten minutes. */
  function SnoozeTarget(due: Instant, delta: Option<int>, toTomorrow: bool, now: Instant): Instant
  {
    if toTomorrow then due + Day
    else now + (if delta.None? || delta.value == 0 then DefaultSnooze else delta.value)
  }

  /** Move a reminder to `date` and re-arm it: its old jobs are removed and
      one job is planned at the new date. */
  function Rearm(st: State, rid: int, date: Instant): (r: State)
    requires rid in st.store
    ensures r.store.Keys == st.store.Keys
    ensures r.store[rid] == st.store[rid].(date := date, jobId := Some(st.nextJob))
    ensures forall k :: k in st.store && k != rid ==> r.store[k] == st.store[k]
    ensures JobsFor(r.jobs, rid) == 1
    ensures forall i :: 0 <= i < |r.jobs| && r.jobs[i].reminderId == rid ==>
              r.jobs[i].runAt == date && r.jobs[i].id == st.nextJob
    ensures forall other :: other != rid ==> JobsFor(r.jobs, other) == JobsFor(st.jobs, other)
    ensures forall j: Job :: j.reminderId != rid ==> (j in r.jobs <==> j in st.jobs)
    ensures forall i :: 0 <= i < |r.jobs| ==> r.jobs[i] in st.jobs || r.jobs[i].reminderId == rid
    ensures r.nextJob == st.nextJob + 1
  {
    var cleared := Unplan(st, rid).(store := st.store[rid := st.store[rid].(date := date)]);
    var r := PlanJob(cleared, rid);
    assert JobsFor(cleared.jobs, rid) == 0 by {
      JobsForZero(cleared.jobs, rid);
    }
    assert forall i :: 0 <= i < |cleared.jobs| ==> r.jobs[i] == cleared.jobs[i] by {
      assert r.jobs[..|cleared.jobs|] == cleared.jobs;
    }
    r
  }

  /** The job table with every job of `rid` removed. */
  function Unplan(st: State, rid: int): (r: State)
    ensures r.store == st.store && r.nextJob == st.nextJob
    ensures forall i :: 0 <= i < |r.jobs| ==> r.jobs[i].reminderId != rid
    ensures forall other :: other != rid ==> JobsFor(r.jobs, other) == JobsFor(st.jobs, other)
    ensures forall j: Job :: j in r.jobs <==> j in st.jobs && j.reminderId != rid
  {
    var jobs := RemoveJobsFor(st.jobs, rid);
    JobsForZero(jobs, rid);
    st.(jobs := jobs)
  }

  /** `snooze_reminder`. */
  function Snooze(st: State, rid: int, delta: Option<int>, toTomorrow: bool, now: Instant): (r: Outcome)
    ensures r.ok <==> rid in st.store
    ensures !r.ok ==> r.state == st
    ensures r.ok ==> r.state.store.Keys == st.store.Keys
    ensures r.ok ==> r.state.store[rid]
                     == st.store[rid].(date := r.state.store[rid].date, jobId := r.state.store[rid].jobId)
    ensures r.ok && toTomorrow ==> r.state.store[rid].date == st.store[rid].date + Day
    ensures r.ok && !toTomorrow && (delta.None? || delta == Some(0)) ==>
              r.state.store[rid].date == now + 10 * Minute
    ensures r.ok && !toTomorrow && delta.Some? && delta.value != 0 ==>
              r.state.store[rid].date == now + delta.value
    ensures r.ok ==> JobsFor(r.state.jobs, rid) == 1
    ensures r.ok ==> forall i :: 0 <= i < |r.state.jobs| && r.state.jobs[i].reminderId == rid ==>
              r.state.jobs[i].runAt == r.state.store[rid].date
              && r.state.store[rid].jobId == Some(r.state.jobs[i].id)
    ensures r.ok ==> forall k :: k in st.store && k != rid ==> r.state.store[k] == st.store[k]
    ensures forall j: Job :: j.reminderId != rid ==> (j in r.state.jobs <==> j in st.jobs)
  {
    if rid !in st.store then Outcome(st, false)
    else Outcome(Rearm(st, rid, SnoozeTarget(st.store[rid].date, delta, toTomorrow, now)), true)
  }

  /** `cancel_reminder`: disarm and delete. */
  function Cancel(st: State, rid: int): (r: Outcome)
    ensures r.ok <==> rid in st.store
    ensures !r.ok ==> r.state == st
    ensures r.ok ==> r.state.store == st.store - {rid}
    ensures r.ok ==> JobsFor(r.state.jobs, rid) == 0
    ensures forall j: Job :: j.reminderId != rid ==> (j in r.state.jobs <==> j in st.jobs)
    ensures forall other :: other != rid ==> JobsFor(r.state.jobs, other) == JobsFor(st.jobs, other)
  {
    if rid !in st.store then Outcome(st, false)
    else Outcome(st.(store := st.store - {rid}, jobs := RemoveJobsFor(st.jobs, rid)), true)
  }

  /** `remind_user`, after the notification: a recurring reminder moves to
      its next occurrence and is re-armed; a one-shot one is kept with its
      job id cleared. A zero id or a missing row changes nothing. */
  function RemindUser(st: State, rid: int): (r: State)
    ensures rid == 0 || rid !in st.store ==> r == st
    ensures r.store.Keys == st.store.Keys
    ensures rid in st.store ==>
              r.store[rid] == st.store[rid].(date := r.store[rid].date, jobId := r.store[rid].jobId)
    ensures forall k :: k in st.store && k != rid ==> r.store[k] == st.store[k]
    ensures rid != 0 && rid in st.store && Repeats(st.store[rid]) ==>
              r.store[rid].date == NextOccurrence(st.store[rid].date, st.store[rid].repeatType.value)
              && JobsFor(r.jobs, rid) == 1
              && (forall i :: 0 <= i < |r.jobs| && r.jobs[i].reminderId == rid ==>
                    r.jobs[i].runAt == r.store[rid].date)
    ensures rid != 0 && rid in st.store && !Repeats(st.store[rid]) ==>
              r.store[rid] == st.store[rid].(jobId := None) && r.jobs == st.jobs
    ensures forall other :: other != rid ==> JobsFor(r.jobs, other) == JobsFor(st.jobs, other)
  {
    if rid == 0 || rid !in st.store then st
    else
      var rem := st.store[rid];
      if Repeats(rem) then Rearm(st, rid, NextOccurrence(rem.date, rem.repeatType.value))
      else st.(store := st.store[rid := rem.(jobId := None)])
  }

  /** A timer going off: the date-triggered job is dropped from the table
      (it will not run again), then `remind_user` runs with its arguments. */
  function Fire(st: State, k: nat): (r: State)
    requires k < |st.jobs|
    ensures r.store.Keys == st.store.Keys
    ensures forall o :: o in st.store && o != st.jobs[k].reminderId ==> r.store[o] == st.store[o]
    ensures forall o :: o != st.jobs[k].reminderId ==> JobsFor(r.jobs, o) == JobsFor(st.jobs, o)
    ensures var rid := st.jobs[k].reminderId;
            rid == 0 || rid !in st.store ==> r == st.(jobs := st.jobs[..k] + st.jobs[k + 1..])
    ensures var rid := st.jobs[k].reminderId;
            rid != 0 && rid in st.store && !Repeats(st.store[rid]) ==>
              r.store[rid] == st.store[rid].(jobId := None)
              && r.jobs == st.jobs[..k] + st.jobs[k + 1..]
    ensures var rid := st.jobs[k].reminderId;
            rid != 0 && rid in st.store && Repeats(st.store[rid]) ==>
              r.store[rid] == st.store[rid].(date := r.store[rid].date, jobId := r.store[rid].jobId)
              && r.store[rid].date == NextOccurrence(st.store[rid].date, st.store[rid].repeatType.value)
              && JobsFor(r.jobs, rid) == 1
              && (forall i :: 0 <= i < |r.jobs| && r.jobs[i].reminderId == rid ==>
                    r.jobs[i].runAt == r.store[rid].date)
  {
    var job := st.jobs[k];
    var dropped := st.jobs[..k] + st.jobs[k + 1..];
    DropJobOthers(st.jobs, k);
    RemindUser(st.(jobs := dropped), job.reminderId)
  }

  /** Dropping a job leaves the job counts of every other reminder as they
      were. */
  lemma DropJobOthers(jobs: seq<Job>, k: nat)
    requires k < |jobs|
    ensures forall o :: o != jobs[k].reminderId ==> JobsFor(jobs[..k] + jobs[k + 1..], o) == JobsFor(jobs, o)
  {
    forall o | o != jobs[k].reminderId
      ensures JobsFor(jobs[..k] + jobs[k + 1..], o) == JobsFor(jobs, o)
    {
      DropJob(jobs, k, o);
    }
  }

  /** Reminders strictly after `now`: the ones a restart re-arms. */
  ghost function Upcoming(store: map<int, Reminder>, now: Instant): set<int>
  {
    set k | k in store && store[k].date > now
  }

  /** One step of the restore loop: arm `k` when it is still upcoming. */
  function RestoreStep(r: State, k: int, now: Instant): (r': State)
    requires k in r.store
    ensures r'.store.Keys == r.store.Keys
    ensures forall x :: x in r.store && x != k ==> r'.store[x] == r.store[x]
    ensures forall x :: x != k ==> JobsFor(r'.jobs, x) == JobsFor(r.jobs, x)
    ensures r.store[k].date <= now ==> r' == r
    ensures r.store[k].date > now ==>
              r'.store[k] == r.store[k].(jobId := Some(r.nextJob))
              && JobsFor(r'.jobs, k) == JobsFor(r.jobs, k) + 1
              && |r'.jobs| == |r.jobs| + 1 && r'.jobs[..|r.jobs|] == r.jobs
              && r'.jobs[|r.jobs|].reminderId == k && r'.jobs[|r.jobs|].runAt == r.store[k].date
              && r'.jobs[|r.jobs|].id == r.nextJob
  {
    if r.store[k].date > now then PlanJob(r, k) else r
  }

  /** What the restore loop has established once the ids in `todo` are
      the ones still to visit and `armed` the ones it has re-armed. */
  ghost predicate RestoreProgress(st: State, r: State, now: Instant, todo: set<int>, armed: set<int>, restored: nat)
  {
    && todo <= st.store.Keys
    && armed == Upcoming(st.store, now) - todo
    && r.store.Keys == st.store.Keys
    && restored == |armed|
    && |r.jobs| == |st.jobs| + restored && r.jobs[..|st.jobs|] == st.jobs
    && (forall k :: k in st.store && k !in armed ==>
          r.store[k] == st.store[k] && JobsFor(r.jobs, k) == JobsFor(st.jobs, k))
    && (forall k :: k in armed ==>
          r.store[k].jobId.Some? && r.store[k] == st.store[k].(jobId := r.store[k].jobId)
          && JobsFor(r.jobs, k) == JobsFor(st.jobs, k) + 1)
    && (forall other :: other !in st.store ==> JobsFor(r.jobs, other) == JobsFor(st.jobs, other))
    && (forall i :: |st.jobs| <= i < |r.jobs| ==>
          r.jobs[i].reminderId in st.store && r.jobs[i].runAt == st.store[r.jobs[i].reminderId].date
          && r.jobs[i].runAt > now)
    && (forall k :: k in armed ==> ArmedBy(r.jobs, |st.jobs|, k, r.store[k].jobId.value))
  }

  /** Some job appended after position `from` belongs to `k` and carries `id`. */
  ghost predicate ArmedBy(jobs: seq<Job>, from: nat, k: int, id: nat) {
    exists i :: from <= i < |jobs| && jobs[i].reminderId == k && jobs[i].id == id
  }

  /** Appending jobs keeps the ones already there. */
  lemma ArmedByKept(jobs: seq<Job>, jobs': seq<Job>, from: nat, k: int, id: nat)
    requires |jobs| <= |jobs'| && jobs'[..|jobs|] == jobs
    requires ArmedBy(jobs, from, k, id)
    ensures ArmedBy(jobs', from, k, id)
  {
    var i :| from <= i < |jobs| && jobs[i].reminderId == k && jobs[i].id == id;
    assert jobs'[i] == jobs'[..|jobs|][i];
  }

  lemma RestoreAdvances(st: State, r: State, now: Instant, todo: set<int>, armed: set<int>, restored: nat, k: int)
    requires RestoreProgress(st, r, now, todo, armed, restored)
    requires k in todo
    ensures var up := st.store[k].date > now;
            RestoreProgress(st, RestoreStep(r, k, now), now, todo - {k},
                            if up then armed + {k} else armed,
                            if up then restored + 1 else restored)
  {
    if st.store[k].date > now {
      RestoreArms(st, r, now, todo, armed, restored, k);
    } else {
      assert Upcoming(st.store, now) - (todo - {k}) == armed;
    }
  }

  /** The step that arms an upcoming reminder. */
  lemma RestoreArms(st: State, r: State, now: Instant, todo: set<int>, armed: set<int>, restored: nat, k: int)
    requires RestoreProgress(st, r, now, todo, armed, restored)
    requires k in todo && st.store[k].date > now
    ensures RestoreProgress(st, RestoreStep(r, k, now), now, todo - {k}, armed + {k}, restored + 1)
  {
    var r' := RestoreStep(r, k, now);
    var armed' := armed + {k};
    assert k !in armed && r.store[k] == st.store[k];
    assert r'.jobs[..|st.jobs|] == st.jobs by {
      assert r'.jobs[..|st.jobs|] == r'.jobs[..|r.jobs|][..|st.jobs|];
    }
    assert Upcoming(st.store, now) - (todo - {k}) == armed';
    assert |armed'| == |armed| + 1;
    forall x | x in armed'
      ensures r'.store[x].jobId.Some? && r'.store[x] == st.store[x].(jobId := r'.store[x].jobId)
      ensures JobsFor(r'.jobs, x) == JobsFor(st.jobs, x) + 1
      ensures ArmedBy(r'.jobs, |st.jobs|, x, r'.store[x].jobId.value)
    {
      if x == k {
        assert r'.jobs[|r.jobs|].reminderId == x && r'.jobs[|r.jobs|].id == r'.store[x].jobId.value;
      } else {
        ArmedByKept(r.jobs, r'.jobs, |st.jobs|, x, r.store[x].jobId.value);
      }
    }
    forall i | |st.jobs| <= i < |r'.jobs|
      ensures r'.jobs[i].reminderId in st.store && r'.jobs[i].runAt == st.store[r'.jobs[i].reminderId].date
      ensures r'.jobs[i].runAt > now
    {
      if i < |r.jobs| {
        assert r'.jobs[i] == r'.jobs[..|r.jobs|][i];
      }
    }
  }

  /** `_restore_jobs_from_db`: arm one job for every reminder dated strictly
      after `now`, in whatever order the table yields them. */
  method Restore(st: State, now: Instant) returns (r: State, restored: nat)
    ensures r.store.Keys == st.store.Keys
    ensures restored == |Upcoming(st.store, now)|
    ensures |r.jobs| == |st.jobs| + restored && r.jobs[..|st.jobs|] == st.jobs
    ensures forall k :: k in st.store && st.store[k].date <= now ==>
              r.store[k] == st.store[k] && JobsFor(r.jobs, k) == JobsFor(st.jobs, k)
    ensures forall k :: k in st.store && st.store[k].date > now ==>
              r.store[k].jobId.Some? && r.store[k] == st.store[k].(jobId := r.store[k].jobId)
              && JobsFor(r.jobs, k) == JobsFor(st.jobs, k) + 1
    ensures forall other :: other !in st.store ==> JobsFor(r.jobs, other) == JobsFor(st.jobs, other)
    ensures forall i :: |st.jobs| <= i < |r.jobs| ==>
              r.jobs[i].reminderId in st.store && r.jobs[i].runAt == st.store[r.jobs[i].reminderId].date
              && r.jobs[i].runAt > now
    ensures forall k :: k in st.store && st.store[k].date > now ==>
              ArmedBy(r.jobs, |st.jobs|, k, r.store[k].jobId.value)
  {
    r := st;
    restored := 0;
    var todo := st.store.Keys;
    ghost var armed: set<int> := {};
    assert st.jobs[..|st.jobs|] == st.jobs;
    while todo != {}
      invariant RestoreProgress(st, r, now, todo, armed, restored)
      decreases |todo|
    {
      var k := PickFrom(todo);
      RestoreAdvances(st, r, now, todo, armed, restored, k);
      if st.store[k].date > now {
        armed := armed + {k};
        restored := restored + 1;
      }
      r := RestoreStep(r, k, now);
      todo := todo - {k};
    }
  }

  /** Some element of a non-empty set of ids (the order the table is read
      in does not matter to the result's contract). */
  method PickFrom(s: set<int>) returns (k: int)
    requires s != {}
    ensures k in s
  {
    NonEmptyHasElement(s);
    k :| k in s;
  }

  /** A process start: in-memory jobs are lost, then `Restore` rebuilds
      them from the table. */
  method Restart(st: State, now: Instant) returns (r: State, restored: nat)
    ensures KeyedById(st.store) ==> Inv(r)
    ensures r.store.Keys == st.store.Keys
    ensures restored == |Upcoming(st.store, now)|
    ensures forall k :: k in st.store ==> JobsFor(r.jobs, k) == (if st.store[k].date > now then 1 else 0)
    ensures forall i :: 0 <= i < |r.jobs| ==> r.jobs[i].reminderId in st.store && r.jobs[i].runAt > now
  {
    r, restored := Restore(st.(jobs := []), now);
    if KeyedById(st.store) {
      forall rid ensures JobsFor(r.jobs, rid) <= 1 {
        if rid !in st.store {
          assert JobsFor(r.jobs, rid) == JobsFor([], rid);
        }
      }
    }
  }

  // ---------------------------------------------------------------------
  // Premium expiry sweep
  // ---------------------------------------------------------------------

  /** A paid subscription whose end lies strictly before `now`. */
  predicate Lapsed(s: UserSettings, now: Instant) {
    s.isPremium && s.premiumUntil.Some? && s.premiumUntil.value < now
  }

  /** `check_premium_expiry`: demote every lapsed subscriber, keeping the
      expiry date; lifetime subscribers (no end date) are never touched. */
  function ExpireSweep(settings: map<int, UserSettings>, now: Instant): (r: map<int, UserSettings>)
    ensures r.Keys == settings.Keys
    ensures forall u :: u in settings && Lapsed(settings[u], now) ==>
              r[u] == settings[u].(isPremium := false)
    ensures forall u :: u in settings && !Lapsed(settings[u], now) ==> r[u] == settings[u]
    ensures forall u :: u in r && r[u].isPremium ==>
              r[u].premiumUntil.None? || r[u].premiumUntil.value >= now
  {
    map u | u in settings :: if Lapsed(settings[u], now) then settings[u].(isPremium := false) else settings[u]
  }

  // ---------------------------------------------------------------------
  // The table invariant and its preservation
  // ---------------------------------------------------------------------

  /** What every reachable state satisfies: rows stored under their own id,
      every armed job belonging to a stored reminder, and at most one armed
      job per reminder. */
  ghost predicate Inv(st: State) {
    && KeyedById(st.store)
    && (forall i :: 0 <= i < |st.jobs| ==> st.jobs[i].reminderId in st.store)
    && (forall rid :: JobsFor(st.jobs, rid) <= 1)
  }

  lemma ScheduleKeepsInv(st: State, userId: int, text: string, when: Instant, now: Instant,
                         repeatType: Option<string>, repeatValue: Option<string>, source: string)
    requires Inv(st)
    ensures Inv(Schedule(st, userId, text, when, now, repeatType, repeatValue, source).state)
  {
    var c := Schedule(st, userId, text, when, now, repeatType, repeatValue, source);
    JobsForZero(st.jobs, c.id);
    forall i | 0 <= i < |c.state.jobs| ensures c.state.jobs[i].reminderId in c.state.store {
      if i < |st.jobs| {
        assert c.state.jobs[i] == c.state.jobs[..|st.jobs|][i];
      }
    }
    forall rid ensures JobsFor(c.state.jobs, rid) <= 1 {
      JobsForAppend(st.jobs, [c.state.jobs[|st.jobs|]], rid);
      assert c.state.jobs == st.jobs + [c.state.jobs[|st.jobs|]];
      assert JobsFor([c.state.jobs[|st.jobs|]], rid) == JobsFor([], rid) + (if c.id == rid then 1 else 0);
    }
  }

  lemma SnoozeKeepsInv(st: State, rid: int, delta: Option<int>, toTomorrow: bool, now: Instant)
    requires Inv(st)
    ensures Inv(Snooze(st, rid, delta, toTomorrow, now).state)
  {
    var r := Snooze(st, rid, delta, toTomorrow, now);
    if r.ok {
      forall i | 0 <= i < |r.state.jobs| ensures r.state.jobs[i].reminderId in r.state.store {
        var j := r.state.jobs[i];
        if j.reminderId != rid {
          assert j in st.jobs;
        }
      }
    }
  }

  lemma CancelKeepsInv(st: State, rid: int)
    requires Inv(st)
    ensures Inv(Cancel(st, rid).state)
  {
    var r := Cancel(st, rid);
    if r.ok {
      JobsForZero(r.state.jobs, rid);
      forall i | 0 <= i < |r.state.jobs| ensures r.state.jobs[i].reminderId in r.state.store {
        assert r.state.jobs[i] in st.jobs;
      }
    }
  }

  lemma RemindUserKeepsInv(st: State, rid: int)
    requires Inv(st)
    ensures Inv(RemindUser(st, rid))
  {
    var r := RemindUser(st, rid);
    if rid != 0 && rid in st.store && Repeats(st.store[rid]) {
      var date := NextOccurrence(st.store[rid].date, st.store[rid].repeatType.value);
      assert r == Rearm(st, rid, date);
      forall i | 0 <= i < |r.jobs| ensures r.jobs[i].reminderId in r.store {
        if r.jobs[i].reminderId != rid {
          var j :| j in st.jobs && j == r.jobs[i];
        }
      }
    }
  }

  /** Dropping one job never raises any reminder's job count. */
  lemma {:induction false} DropJob(jobs: seq<Job>, k: nat, rid: int)
    requires k < |jobs|
    ensures JobsFor(jobs[..k] + jobs[k + 1..], rid)
            == JobsFor(jobs, rid) - (if jobs[k].reminderId == rid then 1 else 0)
  {
    assert jobs == jobs[..k] + [jobs[k]] + jobs[k + 1..];
    JobsForAppend(jobs[..k] + [jobs[k]], jobs[k + 1..], rid);
    JobsForAppend(jobs[..k], [jobs[k]], rid);
    JobsForAppend(jobs[..k], jobs[k + 1..], rid);
    assert JobsFor([jobs[k]], rid) == JobsFor([], rid) + (if jobs[k].reminderId == rid then 1 else 0);
  }

  lemma FireKeepsInv(st: State, k: nat)
    requires Inv(st) && k < |st.jobs|
    ensures Inv(Fire(st, k))
  {
    var dropped := st.(jobs := st.jobs[..k] + st.jobs[k + 1..]);
    forall rid ensures JobsFor(dropped.jobs, rid) <= 1 {
      DropJob(st.jobs, k, rid);
    }
    forall i | 0 <= i < |dropped.jobs| ensures dropped.jobs[i].reminderId in dropped.store {
      if i < k {
        assert dropped.jobs[i] == st.jobs[i];
      } else {
        assert dropped.jobs[i] == st.jobs[i + 1];
      }
    }
    RemindUserKeepsInv(dropped, st.jobs[k].reminderId);
  }

  /** A one-shot reminder whose timer fires is settled: the row stays, its
      job id is cleared and no timer for it remains armed. */
  lemma FireSettlesOneShot(st: State, k: nat)
    requires Inv(st) && k < |st.jobs|
    requires st.jobs[k].reminderId != 0
    requires !Repeats(st.store[st.jobs[k].reminderId])
    ensures var rid := st.jobs[k].reminderId;
            var r := Fire(st, k);
            rid in r.store && r.store[rid] == st.store[rid].(jobId := None) && JobsFor(r.jobs, rid) == 0
  {
    var rid := st.jobs[k].reminderId;
    DropJob(st.jobs, k, rid);
  }

  /** One delivery of a recurring reminder moves it one period on and
      keeps its rule. */
  lemma RecurringStep(st: State, rid: int)
    requires rid != 0 && rid in st.store && Repeats(st.store[rid])
    ensures var r := RemindUser(st, rid);
            && rid in r.store && r.store[rid].repeatType == st.store[rid].repeatType
            && r.store[rid].date == st.store[rid].date + Period(st.store[rid].repeatType.value)
  {
  }

  /** `remind_user` applied to the same reminder `n` times in a row.
      Recurrence does not drift: a recurring reminder ends up due exactly
      `n` periods after its original date, with its rule unchanged. */
  function FireRepeatedly(st: State, rid: int, n: nat): (r: State)
    ensures rid != 0 && rid in st.store && Repeats(st.store[rid]) ==>
              && rid in r.store && r.store[rid].repeatType == st.store[rid].repeatType
              && r.store[rid].date == st.store[rid].date + n * Period(st.store[rid].repeatType.value)
  {
    if n == 0 then st
    else
      var prev := FireRepeatedly(st, rid, n - 1);
      var r := RemindUser(prev, rid);
      if rid != 0 && rid in st.store && Repeats(st.store[rid]) then
        RepeatedStep(st, prev, rid, n);
        r
      else r
  }

  /** The `n`-th delivery adds the `n`-th period. */
  lemma RepeatedStep(st: State, prev: State, rid: int, n: nat)
    requires n > 0 && rid != 0 && rid in st.store && Repeats(st.store[rid])
    requires rid in prev.store && prev.store[rid].repeatType == st.store[rid].repeatType
    requires prev.store[rid].date == st.store[rid].date + (n - 1) * Period(st.store[rid].repeatType.value)
    ensures var r := RemindUser(prev, rid);
            && rid in r.store && r.store[rid].repeatType == st.store[rid].repeatType
            && r.store[rid].date == st.store[rid].date + n * Period(st.store[rid].repeatType.value)
  {
    RecurringStep(prev, rid);
    var p := Period(st.store[rid].repeatType.value);
    AddPeriod(st.store[rid].date, p, n, prev.store[rid].date, RemindUser(prev, rid).store[rid].date);
  }

  lemma AddPeriod(d0: int, p: int, n: nat, d1: int, d2: int)
    requires n > 0 && d1 == d0 + (n - 1) * p && d2 == d1 + p
    ensures d2 == d0 + n * p
  {
    assert (n - 1) * p + p == n * p;
  }
}
