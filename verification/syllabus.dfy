/** Importing deadlines from a course document (handlers/syllabus_handler.py):
    the file-name check, the date padding and past/future partition of the
    extracted events, the per-user staging cache, and the confirm and cancel
    buttons. Text extraction and the model call that yields the raw events
    are outside the model; the ISO date parser is a parameter. */
module Syllabus {
  import opened Common
  import opened Text
  import opened Records
  import opened Scheduler

  // ---------------------------------------------------------------------
  // Accepted files
  // ---------------------------------------------------------------------

  /** The three readers the handler has. */
  datatype FileKind = Pdf | Docx | PlainText

  /** The kind of a file, judged by its lower-cased name's extension. */
  function KindOf(name: string): (k: Option<FileKind>)
    ensures k == Some(Pdf) <==> EndsWith(Lower(name), ".pdf")
    ensures k == Some(Docx) <==> EndsWith(Lower(name), ".docx") && !EndsWith(Lower(name), ".pdf")
    ensures k == Some(PlainText) <==>
              EndsWith(Lower(name), ".txt") && !EndsWith(Lower(name), ".pdf")
              && !EndsWith(Lower(name), ".docx")
  {
    var n := Lower(name);
    if EndsWith(n, ".pdf") then Some(Pdf)
    else if EndsWith(n, ".docx") then Some(Docx)
    else if EndsWith(n, ".txt") then Some(PlainText)
    else None
  }

  /** Whether `handle_document` goes on to read the file. */
  predicate Accepted(name: string) {
    var n := Lower(name);
    EndsWith(n, ".pdf") || EndsWith(n, ".docx") || EndsWith(n, ".txt")
  }

  /** An accepted file always has a reader, and a refused one none. */
  lemma AcceptedHasReader(name: string)
    ensures Accepted(name) <==> KindOf(name).Some?
  {
  }

  /** Lower-casing is idempotent, so the check ignores the case of the name. */
  lemma LowerTwice(s: string)
    ensures Lower(Lower(s)) == Lower(s)
  {
    forall i | 0 <= i < |s| ensures Lower(Lower(s))[i] == Lower(s)[i] {
      var c := s[i];
      assert Lower(Lower(s))[i] == LowerChar(LowerChar(c));
    }
  }

  lemma AcceptedIgnoresCase(name: string)
    ensures Accepted(Lower(name)) <==> Accepted(name)
  {
    LowerTwice(name);
  }

  /** Upper-case extensions are accepted. */
  lemma UpperCaseExtension()
    ensures Accepted("Syllabus.PDF") && KindOf("Syllabus.PDF") == Some(Pdf)
    ensures !Accepted("notes.rtf")
  {
    PdfNameAccepted();
    RtfNameRefused();
  }

  lemma PdfNameAccepted()
    ensures Accepted("Syllabus.PDF") && KindOf("Syllabus.PDF") == Some(Pdf)
  {
    var n := Lower("Syllabus.PDF");
    assert n[8] == '.' && n[9] == 'p' && n[10] == 'd' && n[11] == 'f';
    assert n[|n| - 4..] == ".pdf";
  }

  lemma RtfNameRefused()
    ensures !Accepted("notes.rtf")
  {
    var n := Lower("notes.rtf");
    assert n[4] == 's' && n[6] == 'r';
    assert n[|n| - 4..] != ".pdf" && n[|n| - 4..] != ".txt" && n[|n| - 5..] != ".docx";
  }

  // ---------------------------------------------------------------------
  // Raw events and the partition
  // ---------------------------------------------------------------------

  /** A `YYYY-MM-DD` date is read as nine o'clock that day. */
  const MorningSuffix: string := "T09:00"

  /** Date padding: exactly ten characters get the morning time appended. */
  function PadDate(raw: string): (r: string)
    ensures |raw| == 10 ==> |r| == 16 && r[..10] == raw && r[10..] == MorningSuffix
    ensures |raw| != 10 ==> r == raw
  {
    if |raw| == 10 then raw + MorningSuffix else raw
  }

  /** Padding is applied at most once. */
  lemma PadDateIdempotent(raw: string)
    ensures PadDate(PadDate(raw)) == PadDate(raw)
  {
  }

  /** One entry of the extracted JSON list; a missing key is `None`, and so
      is a null or absent note. */
  datatype RawEvent = RawEvent(event: Option<string>, date: Option<string>, note: Option<string>)

  /** An event accepted for import: name, note and due instant. */
  datatype Staged = Staged(event: string, note: Option<string>, dt: Instant)

  /** What the loop makes of one raw event. */
  datatype Class = Malformed | Past(name: string) | Upcoming(staged: Staged)

  /** One iteration of the loop: a missing date, an unreadable date or a
      missing name drops the event; a date strictly before now skips it;
      any other is kept. */
  function Classify(ev: RawEvent, now: Instant, parseIso: string -> Option<Instant>): (c: Class)
    ensures c.Upcoming? ==> c.staged.dt >= now && ev.event == Some(c.staged.event)
                            && c.staged.note == ev.note
    ensures c.Past? ==> ev.event == Some(c.name)
    ensures c.Malformed? <==> ev.date.None? || parseIso(PadDate(ev.date.value)).None? || ev.event.None?
    ensures !c.Malformed? ==>
              var dt := parseIso(PadDate(ev.date.value)).value;
              && (c.Past? <==> dt < now)
              && (c.Upcoming? ==> c.staged.dt == dt)
  {
    match ev.date
    case None => Malformed
    case Some(raw) =>
      match parseIso(PadDate(raw))
      case None => Malformed
      case Some(dt) =>
        match ev.event
        case None => Malformed
        case Some(name) =>
          if dt < now then Past(name) else Upcoming(Staged(name, ev.note, dt))
  }

  /** The two lists the loop builds. */
  datatype Staging = Staging(future: seq<Staged>, skipped: seq<string>)

  /** The classification of every event. */
  ghost function Classes(events: seq<RawEvent>, now: Instant, parseIso: string -> Option<Instant>): set<Class> {
    set e | e in events :: Classify(e, now, parseIso)
  }

  /** The loop over the extracted events. */
  function Partition(events: seq<RawEvent>, now: Instant, parseIso: string -> Option<Instant>): (r: Staging)
    ensures |r.future| + |r.skipped| <= |events|
    ensures forall i :: 0 <= i < |r.future| ==> r.future[i].dt >= now
    ensures forall s :: s in r.future ==> Upcoming(s) in Classes(events, now, parseIso)
    ensures forall e :: e in events && Classify(e, now, parseIso).Upcoming? ==>
              Classify(e, now, parseIso).staged in r.future
    ensures forall e :: e in events && Classify(e, now, parseIso).Past? ==>
              Classify(e, now, parseIso).name in r.skipped
    ensures forall n :: n in r.skipped ==> Past(n) in Classes(events, now, parseIso)
    decreases |events|
  {
    if |events| == 0 then Staging([], [])
    else
      var rest := Partition(events[1..], now, parseIso);
      assert forall e :: e in events <==> e == events[0] || e in events[1..];
      assert forall c :: c in Classes(events[1..], now, parseIso) ==> c in Classes(events, now, parseIso);
      match Classify(events[0], now, parseIso)
      case Malformed => rest
      case Past(name) => Staging(rest.future, [name] + rest.skipped)
      case Upcoming(s) => Staging([s] + rest.future, rest.skipped)
  }

  /** The partition keeps input order: the lists for two batches are the
      lists for the first followed by those for the second. */
  lemma {:induction false} PartitionAppend(a: seq<RawEvent>, b: seq<RawEvent>, now: Instant,
                                           parseIso: string -> Option<Instant>)
    ensures var ra := Partition(a, now, parseIso);
            var rb := Partition(b, now, parseIso);
            Partition(a + b, now, parseIso) == Staging(ra.future + rb.future, ra.skipped + rb.skipped)
    decreases |a|
  {
    if |a| == 0 {
      assert a + b == b;
    } else {
      assert (a + b)[1..] == a[1..] + b;
      assert (a + b)[0] == a[0];
      PartitionAppend(a[1..], b, now, parseIso);
      var ra := Partition(a[1..], now, parseIso);
      var rb := Partition(b, now, parseIso);
      match Classify(a[0], now, parseIso)
      case Malformed =>
      case Past(name) =>
        assert [name] + (ra.skipped + rb.skipped) == ([name] + ra.skipped) + rb.skipped;
      case Upcoming(x) =>
        assert [x] + (ra.future + rb.future) == ([x] + ra.future) + rb.future;
    }
  }

  // ---------------------------------------------------------------------
  // The staging cache and the buttons
  // ---------------------------------------------------------------------

  /** `parsed_cache`: the events waiting for the user's answer. */
  type Cache = map<int, seq<Staged>>

  /** The end of `handle_document`: stage the future events, or leave the
      cache as it was when there are none. */
  function Stage(cache: Cache, user: int, future: seq<Staged>): (r: Cache)
    ensures |future| == 0 ==> r == cache
    ensures |future| > 0 ==> user in r && r[user] == future
    ensures forall u :: u != user ==> (u in r <==> u in cache)
    ensures forall u :: u != user && u in cache ==> r[u] == cache[u]
  {
    if |future| == 0 then cache else cache[user := future]
  }

  /** The reminder text: the name alone, or the name, a dash and the note
      when the note is non-empty. */
  function ComposeText(s: Staged): (t: string)
    ensures (s.note.None? || s.note.value == "") ==> t == s.event
    ensures s.note.Some? && s.note.value != "" ==>
              |t| == |s.event| + 3 + |s.note.value| && t[..|s.event|] == s.event
              && t[|s.event| + 3..] == s.note.value
  {
    if s.note.None? || s.note.value == "" then s.event
    else
      var t := s.event + " — " + s.note.value;
      assert t[..|s.event|] == s.event && t[|s.event| + 3..] == s.note.value;
      t
  }

  /** Scheduler state after importing a batch, and the new ids in order. */
  datatype Imported = Imported(state: State, ids: seq<int>)

  /** The confirm loop: schedule every staged event, in order, as a
      syllabus reminder of the user. */
  function ScheduleAll(st: State, user: int, events: seq<Staged>, now: Instant): (r: Imported)
    ensures |r.ids| == |events|
    ensures forall i, j :: 0 <= i < j < |r.ids| ==> r.ids[i] != r.ids[j]
    ensures forall i :: 0 <= i < |r.ids| ==> r.ids[i] !in st.store
    ensures forall k :: k in r.state.store <==> k in st.store || k in r.ids
    ensures forall k :: k in st.store ==> r.state.store[k] == st.store[k]
    ensures forall i :: 0 <= i < |r.ids| ==>
              r.ids[i] in r.state.store &&
              var rem := r.state.store[r.ids[i]];
              && rem.id == r.ids[i] && rem.userId == user && rem.source == SyllabusSource
              && rem.text == ComposeText(events[i])
              && rem.date == ClampDate(events[i].dt, now)
    ensures |r.state.jobs| == |st.jobs| + |events| && r.state.jobs[..|st.jobs|] == st.jobs
    ensures forall i :: 0 <= i < |events| ==>
              r.state.jobs[|st.jobs| + i].reminderId == r.ids[i]
              && r.state.jobs[|st.jobs| + i].runAt == ClampDate(events[i].dt, now)
    ensures forall k :: JobsFor(r.state.jobs, k) == JobsFor(st.jobs, k) + (if k in r.ids then 1 else 0)
    decreases |events|
  {
    if |events| == 0 then Imported(st, [])
    else
      var c := Schedule(st, user, ComposeText(events[0]), events[0].dt, now, None, None, SyllabusSource);
      var rest := ScheduleAll(c.state, user, events[1..], now);
      ImportedStep(st, user, events, now, c, rest);
      ImportedJobOrder(st, user, events, now, c, rest);
      ImportedJobCounts(st, user, events, now, c, rest);
      Imported(rest.state, [c.id] + rest.ids)
  }

  /** The first event's job followed by the rest's jobs, in event order. */
  lemma ImportedJobOrder(st: State, user: int, events: seq<Staged>, now: Instant, c: Created, rest: Imported)
    requires |events| > 0
    requires c == Schedule(st, user, ComposeText(events[0]), events[0].dt, now, None, None, SyllabusSource)
    requires |rest.ids| == |events[1..]|
    requires |rest.state.jobs| == |c.state.jobs| + |events[1..]| && rest.state.jobs[..|c.state.jobs|] == c.state.jobs
    requires forall i :: 0 <= i < |events[1..]| ==>
               rest.state.jobs[|c.state.jobs| + i].reminderId == rest.ids[i]
               && rest.state.jobs[|c.state.jobs| + i].runAt == ClampDate(events[1..][i].dt, now)
    ensures rest.state.jobs[..|st.jobs|] == st.jobs
    ensures var ids := [c.id] + rest.ids;
            forall i :: 0 <= i < |events| ==>
              rest.state.jobs[|st.jobs| + i].reminderId == ids[i]
              && rest.state.jobs[|st.jobs| + i].runAt == ClampDate(events[i].dt, now)
  {
    var ids := [c.id] + rest.ids;
    var n := |st.jobs|;
    assert rest.state.jobs[..n] == c.state.jobs[..n];
    assert rest.state.jobs[n] == c.state.jobs[n];
    forall i | 0 <= i < |events|
      ensures rest.state.jobs[n + i].reminderId == ids[i]
      ensures rest.state.jobs[n + i].runAt == ClampDate(events[i].dt, now)
    {
      if i > 0 {
        assert n + i == |c.state.jobs| + (i - 1);
        assert ids[i] == rest.ids[i - 1] && events[i] == events[1..][i - 1];
      }
    }
  }

  /** Job counts add up across the first event and the rest. */
  lemma ImportedJobCounts(st: State, user: int, events: seq<Staged>, now: Instant, c: Created, rest: Imported)
    requires |events| > 0
    requires c == Schedule(st, user, ComposeText(events[0]), events[0].dt, now, None, None, SyllabusSource)
    requires forall i :: 0 <= i < |rest.ids| ==> rest.ids[i] !in c.state.store
    requires forall k :: JobsFor(rest.state.jobs, k) == JobsFor(c.state.jobs, k) + (if k in rest.ids then 1 else 0)
    ensures forall k :: JobsFor(rest.state.jobs, k)
                        == JobsFor(st.jobs, k) + (if k in [c.id] + rest.ids then 1 else 0)
  {
    assert c.id !in rest.ids;
    forall k ensures JobsFor(rest.state.jobs, k)
                     == JobsFor(st.jobs, k) + (if k in [c.id] + rest.ids then 1 else 0) {
      assert k in [c.id] + rest.ids <==> k == c.id || k in rest.ids;
    }
  }

  /** In a well-formed table an import arms exactly one job for each new
      reminder, at its clamped date, and the table stays well-formed. */
  lemma ScheduleAllArmsEach(st: State, user: int, events: seq<Staged>, now: Instant)
    requires Inv(st)
    ensures var r := ScheduleAll(st, user, events, now);
            && Inv(r.state)
            && forall i :: 0 <= i < |events| ==>
                 JobsFor(r.state.jobs, r.ids[i]) == 1
                 && r.state.jobs[|st.jobs| + i].reminderId == r.ids[i]
                 && r.state.jobs[|st.jobs| + i].runAt == ClampDate(events[i].dt, now)
  {
    var r := ScheduleAll(st, user, events, now);
    FreshArmsKeepInv(st, r.state, r.ids);
  }

  /** Adding rows under fresh ids, each with one job appended after the old
      ones, keeps the table well-formed and leaves each new row one job. */
  lemma FreshArmsKeepInv(st: State, rs: State, ids: seq<int>)
    requires Inv(st)
    requires forall i :: 0 <= i < |ids| ==> ids[i] !in st.store
    requires forall k :: k in rs.store <==> k in st.store || k in ids
    requires forall k :: k in st.store ==> rs.store[k] == st.store[k]
    requires forall i :: 0 <= i < |ids| ==> ids[i] in rs.store && rs.store[ids[i]].id == ids[i]
    requires |rs.jobs| == |st.jobs| + |ids| && rs.jobs[..|st.jobs|] == st.jobs
    requires forall i :: 0 <= i < |ids| ==> rs.jobs[|st.jobs| + i].reminderId == ids[i]
    requires forall k :: JobsFor(rs.jobs, k) == JobsFor(st.jobs, k) + (if k in ids then 1 else 0)
    ensures Inv(rs)
    ensures forall i :: 0 <= i < |ids| ==> JobsFor(rs.jobs, ids[i]) == 1
  {
    var n := |st.jobs|;
    forall k | k in ids ensures JobsFor(st.jobs, k) == 0 {
      JobsForZero(st.jobs, k);
    }
    forall k | k in rs.store ensures rs.store[k].id == k {
      if k !in st.store {
        var i :| 0 <= i < |ids| && ids[i] == k;
      }
    }
    forall j | 0 <= j < |rs.jobs| ensures rs.jobs[j].reminderId in rs.store {
      if j < n {
        assert rs.jobs[j] == rs.jobs[..n][j];
      } else {
        assert rs.jobs[n + (j - n)].reminderId == ids[j - n];
      }
    }
  }

  /** The first event's reminder and the rest's reminders, as one import. */
  lemma ImportedStep(st: State, user: int, events: seq<Staged>, now: Instant, c: Created, rest: Imported)
    requires |events| > 0
    requires c == Schedule(st, user, ComposeText(events[0]), events[0].dt, now, None, None, SyllabusSource)
    requires |rest.ids| == |events| - 1
    requires forall k :: k in c.state.store ==> k in rest.state.store && rest.state.store[k] == c.state.store[k]
    requires forall i :: 0 <= i < |rest.ids| ==>
              rest.ids[i] in rest.state.store &&
              var rem := rest.state.store[rest.ids[i]];
              && rem.id == rest.ids[i] && rem.userId == user && rem.source == SyllabusSource
              && rem.text == ComposeText(events[1..][i])
              && rem.date == ClampDate(events[1..][i].dt, now)
    ensures var ids := [c.id] + rest.ids;
            forall i :: 0 <= i < |ids| ==>
              ids[i] in rest.state.store &&
              var rem := rest.state.store[ids[i]];
              && rem.id == ids[i] && rem.userId == user && rem.source == SyllabusSource
              && rem.text == ComposeText(events[i])
              && rem.date == ClampDate(events[i].dt, now)
  {
    var ids := [c.id] + rest.ids;
    forall i | 0 <= i < |ids|
      ensures ids[i] in rest.state.store
      ensures var rem := rest.state.store[ids[i]];
              && rem.id == ids[i] && rem.userId == user && rem.source == SyllabusSource
              && rem.text == ComposeText(events[i])
              && rem.date == ClampDate(events[i].dt, now)
    {
      if i > 0 {
        assert ids[i] == rest.ids[i - 1] && events[i] == events[1..][i - 1];
      }
    }
  }

  /** The result of a button press: scheduler state, cache and the number
      of reminders created. */
  datatype Answered = Answered(state: State, cache: Cache, created: nat)

  /** `confirm_add`: with staged events, schedule them all and drop the
      entry; with none (or an empty entry), change nothing. */
  function ConfirmAdd(st: State, cache: Cache, user: int, now: Instant): (r: Answered)
    ensures user !in cache || |cache[user]| == 0 ==> r == Answered(st, cache, 0)
    ensures user in cache && |cache[user]| > 0 ==>
              r.state == ScheduleAll(st, user, cache[user], now).state
    ensures user in cache && |cache[user]| > 0 ==>
              r.cache == cache - {user} && r.created == |cache[user]|
              && |r.state.store.Keys| == |st.store.Keys| + |cache[user]|
              && forall k :: k in st.store ==> k in r.state.store && r.state.store[k] == st.store[k]
  {
    if user !in cache || |cache[user]| == 0 then Answered(st, cache, 0)
    else
      var imp := ScheduleAll(st, user, cache[user], now);
      NewKeys(st.store.Keys, imp.ids, imp.state.store.Keys);
      Answered(imp.state, cache - {user}, |imp.ids|)
  }

  /** Confirming a staged batch keeps the table well-formed. */
  lemma ConfirmAddKeepsInv(st: State, cache: Cache, user: int, now: Instant)
    requires Inv(st)
    ensures Inv(ConfirmAdd(st, cache, user, now).state)
  {
    if user in cache && |cache[user]| > 0 {
      ScheduleAllArmsEach(st, user, cache[user], now);
    }
  }

  /** A store grown by distinct fresh ids grows by their number. */
  lemma {:induction false} NewKeys(before: set<int>, ids: seq<int>, grown: set<int>)
    requires forall i, j :: 0 <= i < j < |ids| ==> ids[i] != ids[j]
    requires forall i :: 0 <= i < |ids| ==> ids[i] !in before
    requires forall k :: k in grown <==> k in before || k in ids
    ensures |grown| == |before| + |ids|
    decreases |ids|
  {
    if |ids| == 0 {
      assert forall k :: k in grown <==> k in before;
      assert grown == before;
    } else {
      var last := ids[|ids| - 1];
      var init := ids[..|ids| - 1];
      assert forall k :: k in init ==> k in ids;
      assert forall k :: k in ids <==> k in init || k == last;
      NewKeys(before, init, grown - {last});
    }
  }

  /** `cancel_add`: drop the user's entry, if any. */
  function CancelAdd(cache: Cache, user: int): (r: Cache)
    ensures user !in r
    ensures forall u :: u != user ==> (u in r <==> u in cache)
    ensures forall u :: u in r ==> r[u] == cache[u]
    ensures user !in cache ==> r == cache
  {
    cache - {user}
  }

  /** A second press of "add" after a successful one creates nothing. */
  lemma ConfirmOnce(st: State, cache: Cache, user: int, now: Instant, later: Instant)
    ensures var first := ConfirmAdd(st, cache, user, now);
            ConfirmAdd(first.state, first.cache, user, later).created == 0
  {
  }

  /** Cancelling then confirming creates nothing and changes nothing. */
  lemma CancelThenConfirm(st: State, cache: Cache, user: int, now: Instant)
    ensures ConfirmAdd(st, CancelAdd(cache, user), user, now) == Answered(st, CancelAdd(cache, user), 0)
  {
  }

  /** Staging a non-empty batch and confirming it imports exactly the
      batch, whatever was staged before: one new syllabus reminder of the
      user per staged event, with that event's text and clamped date, and
      no other row added or changed. */
  lemma StageThenConfirm(st: State, cache: Cache, user: int, future: seq<Staged>, now: Instant)
    requires |future| > 0
    ensures var r := ConfirmAdd(st, Stage(cache, user, future), user, now);
            var ids := ScheduleAll(st, user, future, now).ids;
            && r.created == |future| && user !in r.cache
            && |ids| == |future|
            && (forall k :: k in r.state.store <==> k in st.store || k in ids)
            && (forall k :: k in st.store ==> r.state.store[k] == st.store[k])
            && forall i :: 0 <= i < |future| ==>
                 ids[i] !in st.store && ids[i] in r.state.store
                 && r.state.store[ids[i]].userId == user
                 && r.state.store[ids[i]].source == SyllabusSource
                 && r.state.store[ids[i]].text == ComposeText(future[i])
                 && r.state.store[ids[i]].date == ClampDate(future[i].dt, now)
  {
  }
}
