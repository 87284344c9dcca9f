/** The deterministic parts of reminder input (handlers/reminder_handler.py):
    the rewriting done around the natural-language date resolver, the
    countdown shown after creation, and the inline-button callback data.
    The resolver itself is a parameter. */
module ReminderInput {
  import opened Common
  import opened Text

  // ---------------------------------------------------------------------
  // Preferences
  // ---------------------------------------------------------------------

  /** A named time-of-day slot, as parsed from the user's `HH:MM` setting. */
  datatype Slot = Slot(hour: int, minute: int)

  predicate ValidSlot(s: Slot) {
    0 <= s.hour < 24 && 0 <= s.minute < 60
  }

  /** The resolver's inputs taken from the user's settings. */
  datatype Prefs = Prefs(tz: string, morning: Slot, midday: Slot, evening: Slot)

  predicate ValidPrefs(p: Prefs) {
    ValidSlot(p.morning) && ValidSlot(p.midday) && ValidSlot(p.evening)
  }

  /** `f"{n:02d}"`. */
  function Pad2(n: nat): (r: string)
    ensures AllDigits(r) && DigitsValue(r) == n
    ensures n < 100 ==> |r| == 2
  {
    DigitsValueOfRendering(n);
    if n < 10 then
      var r := "0" + NatToString(n);
      assert r[..|r| - 1] == "0";
      assert DigitsValue("0") == 0 by { assert "0"[..0] == ""; }
      r
    else NatToString(n)
  }

  /** A slot rendered as `HH:MM`. */
  function HHMM(s: Slot): (r: string)
    requires ValidSlot(s)
    ensures |r| == 5 && r[2] == ':'
    ensures AllDigits(r[..2]) && DigitsValue(r[..2]) == s.hour
    ensures AllDigits(r[3..]) && DigitsValue(r[3..]) == s.minute
  {
    var h := Pad2(s.hour);
    var m := Pad2(s.minute);
    assert (h + ":" + m)[..2] == h && (h + ":" + m)[3..] == m;
    h + ":" + m
  }

  // ---------------------------------------------------------------------
  // Bare clock times: (в\s*)?\d{1,2}([:.,]\d{2})?
  // ---------------------------------------------------------------------

  predicate IsTimeSep(c: char) {
    c == ':' || c == '.' || c == ','
  }

  /** `\d{1,2}([:.,]\d{2})?` matching all of `s`. */
  predicate ClockDigits(s: string) {
    || (1 <= |s| <= 2 && AllDigits(s))
    || (|s| == 4 && IsDigit(s[0]) && IsTimeSep(s[1]) && IsDigit(s[2]) && IsDigit(s[3]))
    || (|s| == 5 && IsDigit(s[0]) && IsDigit(s[1]) && IsTimeSep(s[2]) && IsDigit(s[3]) && IsDigit(s[4]))
  }

  /** The full pattern, with the optional leading "в" ("at") and spaces. */
  predicate IsBareTime(t: string) {
    if |t| > 0 && t[0] == 'в' then ClockDigits(TrimStart(t[1..])) else ClockDigits(t)
  }

  /** The word "today" and a blank, put before a bare time. */
  const Today: string := "сегодня "

  /** A bare time becomes "today H:MM", with `.` and `,` read as `:`. */
  function RewriteBareTime(t: string): (r: string)
    ensures !IsBareTime(t) ==> r == t
    ensures IsBareTime(t) ==> StartsWith(r, Today) && '.' !in r && ',' !in r
    ensures IsBareTime(t) ==>
              |r| == |Today| + |t|
              && forall i :: 0 <= i < |t| ==>
                   r[|Today| + i] == (if t[i] == '.' || t[i] == ',' then ':' else t[i])
  {
    if IsBareTime(t) then
      var body := ColonsOnly(t);
      var r := Today + body;
      assert '.' !in Today && ',' !in Today;
      assert r[..|Today|] == Today;
      r
    else t
  }

  /** `t` with `.` and `,` both read as `:`. */
  function ColonsOnly(t: string): (r: string)
    ensures |r| == |t| && '.' !in r && ',' !in r
    ensures forall i :: 0 <= i < |t| ==> r[i] == (if t[i] == '.' || t[i] == ',' then ':' else t[i])
  {
    ReplaceChar(ReplaceChar(t, '.', ':'), ',', ':')
  }

  // ---------------------------------------------------------------------
  // Named slots
  // ---------------------------------------------------------------------

  datatype SlotName = Morning | Midday | Evening

  function SlotFor(p: Prefs, n: SlotName): (s: Slot)
    requires ValidPrefs(p)
    ensures ValidSlot(s)
  {
    match n
    case Morning => p.morning
    case Midday => p.midday
    case Evening => p.evening
  }

  /** The phrase table: each named phrase gives a day word and a slot. */
  function QuickPhrase(t: string): Option<(string, SlotName)>
  {
    match t
    case "сегодня утром" => Some(("сегодня", Morning))
    case "сегодня днём" => Some(("сегодня", Midday))
    case "сегодня днем" => Some(("сегодня", Midday))
    case "сегодня вечером" => Some(("сегодня", Evening))
    case "завтра утром" => Some(("завтра", Morning))
    case "завтра днём" => Some(("завтра", Midday))
    case "завтра днем" => Some(("завтра", Midday))
    case "завтра вечером" => Some(("завтра", Evening))
    case "послезавтра" => Some(("через 2 дня", Morning))
    case "через неделю" => Some(("через 7 дней", Morning))
    case _ => None
  }

  /** The quick map: a named phrase becomes its day word and the slot's
      `HH:MM`; other text is not in the map. */
  function QuickMap(t: string, p: Prefs): (r: Option<string>)
    requires ValidPrefs(p)
    ensures r.Some? <==> QuickPhrase(t).Some?
    ensures r.Some? ==> HasClock(r.value)
    ensures r.Some? ==>
              var day := QuickPhrase(t).value.0;
              var slot := SlotFor(p, QuickPhrase(t).value.1);
              && |r.value| == |day| + 6 && r.value[..|day| + 1] == day + " "
              && r.value[|day| + 3] == ':'
              && AllDigits(r.value[|day| + 1..|day| + 3]) && DigitsValue(r.value[|day| + 1..|day| + 3]) == slot.hour
              && AllDigits(r.value[|day| + 4..]) && DigitsValue(r.value[|day| + 4..]) == slot.minute
  {
    match QuickPhrase(t)
    case Some((day, n)) =>
      var hm := HHMM(SlotFor(p, n));
      var r := day + " " + hm;
      assert r[..|day| + 1] == day + " ";
      assert r[|day| + 1..|day| + 3] == hm[..2] && r[|day| + 4..] == hm[3..];
      assert ClockAt(hm, 1);
      ClockAfterPrefix(day + " ", hm, 1);
      Some(r)
    case None => None
  }

  /** Everything done to the user's text before it reaches the resolver. */
  function Rewrite(text: string, p: Prefs): string
    requires ValidPrefs(p)
  {
    var t := RewriteBareTime(Lower(Strip(text)));
    match QuickMap(t, p)
    case Some(q) => q
    case None => t
  }

  // ---------------------------------------------------------------------
  // Does the text carry a clock time? re.search(r"\d{1,2}[:.,]\d{2}", t)
  // ---------------------------------------------------------------------

  /** A clock time `d[:.,]dd` starts at position `i`. */
  predicate ClockAt(t: string, i: int)
    requires 0 <= i
  {
    i + 4 <= |t| && IsDigit(t[i]) && IsTimeSep(t[i + 1]) && IsDigit(t[i + 2]) && IsDigit(t[i + 3])
  }

  /** The search, as a predicate over positions. */
  ghost predicate HasClock(t: string) {
    exists i :: 0 <= i && ClockAt(t, i)
  }

  /** The search as the scanner runs it, from position `i` on. */
  function FindClock(t: string, i: nat): (found: bool)
    decreases |t| - i
  {
    if i + 4 > |t| then false
    else ClockAt(t, i) || FindClock(t, i + 1)
  }

  /** The scanner finds a clock time exactly when one occurs at or after
      its start position. */
  lemma {:induction false} FindClockSound(t: string, i: nat)
    ensures FindClock(t, i) <==> exists j :: i <= j && ClockAt(t, j)
    decreases |t| - i
  {
    if i + 4 <= |t| {
      FindClockSound(t, i + 1);
      if exists j :: i <= j && ClockAt(t, j) {
        var j :| i <= j && ClockAt(t, j);
        assert j == i || (i + 1 <= j && ClockAt(t, j));
      }
    }
  }

  // ---------------------------------------------------------------------
  // parse_natural_dt
  // ---------------------------------------------------------------------

  /** Hour, minute and second of an instant in the user's frame. */
  function HourOf(dt: Instant): int { (dt % Day) / Hour }
  function MinuteOf(dt: Instant): int { (dt % Hour) / Minute }
  function SecondOf(dt: Instant): int { dt % Minute }

  /** The same calendar day at the given slot, seconds zeroed. */
  function AtSlot(dt: Instant, s: Slot): (r: Instant)
    requires ValidSlot(s)
    ensures r / Day == dt / Day
    ensures HourOf(r) == s.hour && MinuteOf(r) == s.minute && SecondOf(r) == 0
  {
    var r := dt - dt % Day + s.hour * Hour + s.minute * Minute;
    assert r == (dt / Day) * Day + (s.hour * Hour + s.minute * Minute);
    assert 0 <= s.hour * Hour + s.minute * Minute < Day;
    DivModDecompose(dt / Day, s.hour * Hour + s.minute * Minute, Day);
    assert r % Day == s.hour * Hour + s.minute * Minute;
    DivModDecompose(r / Hour, s.minute * Minute, Hour);
    DivModDecompose(s.hour, s.minute * Minute, Hour);
    assert (s.hour * Hour + s.minute * Minute) / Hour == s.hour;
    DivModDecompose(dt / Day * 24 + s.hour, s.minute * Minute, Hour);
    assert r == (dt / Day * 24 + s.hour) * Hour + s.minute * Minute;
    assert r % Hour == s.minute * Minute;
    DivModDecompose(s.minute, 0, Minute);
    DivModDecompose(dt / Day * 1440 + s.hour * 60 + s.minute, 0, Minute);
    assert r == (dt / Day * 1440 + s.hour * 60 + s.minute) * Minute + 0;
    r
  }

  lemma DivModDecompose(q: int, r: int, d: int)
    requires d > 0 && 0 <= r < d
    ensures (q * d + r) / d == q && (q * d + r) % d == r
  {
    var a := q * d + r;
    var q', r' := a / d, a % d;
    assert (q' - q) * d == r - r';
    if q' > q {
      MulAtLeast(q' - q, d);
    } else if q' < q {
      MulAtLeast(q - q', d);
    }
  }

  lemma MulAtLeast(x: int, d: int)
    requires x >= 1 && d > 0
    ensures x * d >= d
  {
  }

  /** `parse_natural_dt` around a resolver: the resolver's answer, except
      that a bare midnight with no clock time in the text is moved to the
      morning slot of the same day. */
  function ParseNatural(text: string, p: Prefs, resolve: string -> Option<Instant>): (r: Option<Instant>)
    requires ValidPrefs(p)
    ensures var t := Rewrite(text, p);
            && (r.None? <==> resolve(t).None?)
            && (r.Some? ==> r.value / Day == resolve(t).value / Day)
            && (r.Some? && HourOf(resolve(t).value) != 0 ==> r.value == resolve(t).value)
            && (r.Some? && HasClock(t) ==> r.value == resolve(t).value)
            && (r.Some? && HourOf(resolve(t).value) == 0 && !HasClock(t) ==>
                  HourOf(r.value) == p.morning.hour && MinuteOf(r.value) == p.morning.minute
                  && SecondOf(r.value) == 0)
  {
    var t := Rewrite(text, p);
    FindClockSound(t, 0);
    match resolve(t)
    case None => None
    case Some(dt) =>
      if HourOf(dt) == 0 && !FindClock(t, 0) then Some(AtSlot(dt, p.morning)) else Some(dt)
  }

  /** A clock time survives being appended to a prefix. */
  lemma ClockAfterPrefix(pre: string, x: string, i: nat)
    requires ClockAt(x, i)
    ensures ClockAt(pre + x, |pre| + i)
  {
    assert (pre + x)[|pre| + i..|pre| + i + 4] == x[i..i + 4];
  }

  /** A clock pattern that contains a separator ends in `d[:.,]dd`. */
  lemma ClockDigitsTail(s: string, j: int)
    requires ClockDigits(s) && 0 <= j < |s| && IsTimeSep(s[j])
    ensures |s| >= 4 && ClockAt(s, |s| - 4)
  {
    assert !AllDigits(s);
  }

  /** A clock time in a suffix is a clock time of the whole. */
  lemma ClockInSuffix(t: string, off: nat, k: nat)
    requires off <= |t| && ClockAt(t[off..], k)
    ensures ClockAt(t, off + k)
  {
    assert t[off..][k..k + 4] == t[off + k..off + k + 4];
  }

  /** The "в"-prefixed form: the separator lies past the blanks, so the
      clock pattern after them ends in a clock time. */
  lemma PrefixedTail(t: string, i: int)
    requires |t| > 0 && t[0] == 'в' && ClockDigits(TrimStart(t[1..]))
    requires 0 < i < |t| && IsTimeSep(t[i])
    ensures |t| >= 4 && ClockAt(t, |t| - 4)
  {
    var u := t[1..];
    var body := TrimStart(u);
    var off := |u| - |body|;
    assert u[i - 1] == t[i];
    ClockPastBlanks(u, body, off, i - 1);
    var k := |u| - 4;
    assert 1 + k == |t| - 4;
    ClockInSuffix(t, 1, k);
  }

  /** A separator in `s` lies past its leading blanks, inside the clock
      pattern `body` that follows them. */
  lemma ClockPastBlanks(s: string, body: string, off: nat, i: int)
    requires off <= |s| && body == s[off..] && ClockDigits(body)
    requires forall k :: 0 <= k < off ==> IsSpace(s[k])
    requires 0 <= i < |s| && IsTimeSep(s[i])
    ensures |s| >= 4 && ClockAt(s, |s| - 4)
  {
    assert !IsSpace(s[i]);
    assert body[i - off] == s[i];
    ClockDigitsTail(body, i - off);
    ClockInSuffix(s, off, |body| - 4);
  }

  /** A bare time that contains a separator ends in `d[:.,]dd`. */
  lemma BareTimeTail(t: string, i: int)
    requires IsBareTime(t) && 0 <= i < |t| && IsTimeSep(t[i])
    ensures |t| >= 4 && ClockAt(t, |t| - 4)
  {
    if |t| > 0 && t[0] == 'в' {
      PrefixedTail(t, i);
    } else {
      ClockDigitsTail(t, i);
    }
  }

  /** Reading `.` and `,` as `:` keeps a clock time a clock time. */
  lemma ClockAfterColons(t: string, i: nat)
    requires ClockAt(t, i)
    ensures ClockAt(ColonsOnly(t), i)
  {
  }

  /** A bare time written with minutes keeps its clock after rewriting, so
      "0:30" stays at half past midnight. */
  lemma BareTimeKeepsClock(t: string, i: int)
    requires IsBareTime(t) && 0 <= i < |t| && IsTimeSep(t[i])
    ensures HasClock(RewriteBareTime(t))
  {
    BareTimeTail(t, i);
    var k := |t| - 4;
    ClockAfterColons(t, k);
    ClockAfterPrefix(Today, ColonsOnly(t), k);
  }

  // ---------------------------------------------------------------------
  // Countdown shown after creation
  // ---------------------------------------------------------------------

  datatype Countdown = Countdown(days: int, hours: int, mins: int)

  /** Days, hours and minutes of `total` seconds, with Python's floor
      division and modulo (the same as Dafny's for positive divisors). */
  function CountdownOf(total: int): (c: Countdown)
    ensures 0 <= c.hours < 24 && 0 <= c.mins < 60
    ensures c.days * Day + c.hours * Hour + c.mins * Minute <= total
    ensures total < c.days * Day + c.hours * Hour + c.mins * Minute + Minute
    ensures total >= 0 ==> c.days >= 0
  {
    var days := total / Day;
    var rest := total % Day;
    var hours := rest / Hour;
    var mins := (total % Hour) / Minute;
    assert total % Hour == rest % Hour by {
      DivModDecompose(days * 24 + hours, rest % Hour, Hour);
      assert total == (days * 24 + hours) * Hour + rest % Hour;
    }
    Countdown(days, hours, mins)
  }

  /** The unit letters of the three parts, in the order they are shown. */
  const DayUnit: char := 'д'
  const HourUnit: char := 'ч'
  const MinuteUnit: char := 'м'

  /** `f"{n}<unit>"`. */
  function Chunk(n: nat, unit: char): string {
    NatToString(n) + [unit]
  }

  /** The non-zero parts, in the order days, hours, minutes, each as a
      number followed by its unit letter. */
  function Chunks(c: Countdown): (r: seq<string>)
    ensures |r| == (if c.days > 0 then 1 else 0) + (if c.hours > 0 then 1 else 0) + (if c.mins > 0 then 1 else 0)
    ensures c.days > 0 ==> r[0] == Chunk(c.days, DayUnit)
    ensures c.hours > 0 ==> r[if c.days > 0 then 1 else 0] == Chunk(c.hours, HourUnit)
    ensures c.mins > 0 ==> r[|r| - 1] == Chunk(c.mins, MinuteUnit)
    ensures forall k :: 0 <= k < |r| ==> |r[k]| >= 2 && IsDigit(r[k][0]) && ' ' !in r[k]
  {
    var d := if c.days > 0 then [Chunk(c.days, DayUnit)] else [];
    var h := if c.hours > 0 then [Chunk(c.hours, HourUnit)] else [];
    var m := if c.mins > 0 then [Chunk(c.mins, MinuteUnit)] else [];
    forall n: nat, u: char | u != ' ' ensures ' ' !in Chunk(n, u) {
      var s := NatToString(n);
      forall i | 0 <= i < |s| ensures s[i] != ' ' {
        assert IsDigit(s[i]);
      }
    }
    d + h + m
  }

  /** The "(через …)" text: the parts joined by spaces, or "менее минуты"
      when no part is positive. */
  function CountdownText(total: int): (s: string)
    ensures var c := CountdownOf(total);
            s == "менее минуты" <==> c.days <= 0 && c.hours == 0 && c.mins == 0
    ensures var parts := Chunks(CountdownOf(total));
            |parts| > 0 ==> s == Join(parts, ' ')
  {
    var parts := Chunks(CountdownOf(total));
    if |parts| == 0 then "менее минуты"
    else
      var s := Join(parts, ' ');
      assert s[0] == parts[0][0];
      s
  }

  /** Seconds a unit letter stands for. */
  function UnitSeconds(u: char): int {
    if u == DayUnit then Day else if u == HourUnit then Hour else if u == MinuteUnit then Minute else 0
  }

  /** The seconds a shown part stands for: its number times its unit. */
  function PartValue(part: string): int {
    if |part| >= 2 && AllDigits(part[..|part| - 1]) then DigitsValue(part[..|part| - 1]) * UnitSeconds(part[|part| - 1])
    else 0
  }

  /** The seconds the shown parts stand for together. */
  function ReadBack(parts: seq<string>): int {
    if |parts| == 0 then 0 else PartValue(parts[0]) + ReadBack(parts[1..])
  }

  lemma ChunkValue(n: nat, u: char)
    requires n > 0
    ensures PartValue(Chunk(n, u)) == n * UnitSeconds(u)
  {
    var part := Chunk(n, u);
    assert part[..|part| - 1] == NatToString(n);
    DigitsValueOfRendering(n);
  }

  lemma {:induction false} ReadBackAppend(a: seq<string>, b: seq<string>)
    ensures ReadBack(a + b) == ReadBack(a) + ReadBack(b)
    decreases |a|
  {
    if |a| == 0 {
      assert a + b == b;
    } else {
      assert (a + b)[1..] == a[1..] + b;
      ReadBackAppend(a[1..], b);
    }
  }

  /** At most one part, with the given value or none. */
  lemma ReadBackOptional(parts: seq<string>, present: bool, n: nat, u: char)
    requires parts == (if present then [Chunk(n, u)] else [])
    requires present ==> n > 0
    ensures ReadBack(parts) == (if present then n * UnitSeconds(u) else 0)
  {
    if present {
      ChunkValue(n, u);
      assert parts[1..] == [];
    }
  }

  /** Reading the shown parts back gives the countdown's whole minutes. */
  lemma ChunksReadBack(c: Countdown)
    ensures ReadBack(Chunks(c)) == (if c.days > 0 then c.days * Day else 0)
                                   + (if c.hours > 0 then c.hours * Hour else 0)
                                   + (if c.mins > 0 then c.mins * Minute else 0)
  {
    var d := if c.days > 0 then [Chunk(c.days, DayUnit)] else [];
    var h := if c.hours > 0 then [Chunk(c.hours, HourUnit)] else [];
    var m := if c.mins > 0 then [Chunk(c.mins, MinuteUnit)] else [];
    assert Chunks(c) == d + h + m;
    ReadBackAppend(d + h, m);
    ReadBackAppend(d, h);
    ReadBackOptional(d, c.days > 0, if c.days > 0 then c.days else 0, DayUnit);
    ReadBackOptional(h, c.hours > 0, if c.hours > 0 then c.hours else 0, HourUnit);
    ReadBackOptional(m, c.mins > 0, if c.mins > 0 then c.mins else 0, MinuteUnit);
  }

  /** The countdown shown after creation, split back at its spaces, reads
      as the time left to within the minute it truncates: for a time at
      least a minute away the parts' total is at most the seconds left and
      less than a minute short of them. */
  lemma CountdownReadsBack(total: int)
    requires total >= Minute
    ensures var parts := Split(CountdownText(total), ' ');
            && parts == Chunks(CountdownOf(total))
            && ReadBack(parts) <= total < ReadBack(parts) + Minute
  {
    var c := CountdownOf(total);
    var parts := Chunks(c);
    assert |parts| > 0;
    SplitJoin(parts, ' ');
    ChunksReadBack(c);
  }

  // ---------------------------------------------------------------------
  // Callback data of the inline buttons
  // ---------------------------------------------------------------------

  /** `f"snooze_{kind}_{rem_id}"`. */
  function SnoozeData(kind: string, id: nat): string {
    Join(["snooze", kind, NatToString(id)], '_')
  }

  /** `f"done_{rem_id}"`. */
  function DoneData(id: nat): string {
    Join(["done", NatToString(id)], '_')
  }

  /** `f"del_{rem_id}"`. */
  function DeleteData(id: nat): string {
    Join(["del", NatToString(id)], '_')
  }

  /** `build_reminder_kb`: the four buttons under a delivered reminder. */
  function ReminderButtons(id: nat): seq<string> {
    [SnoozeData("10m", id), SnoozeData("1h", id), SnoozeData("tomorrow", id), DoneData(id)]
  }

  /** `_, kind, rem_id = data.split("_"); rem_id = int(rem_id)`. */
  function ParseSnoozeData(data: string): (r: Option<(string, int)>)
    ensures r.Some? ==> |Split(data, '_')| == 3
  {
    var parts := Split(data, '_');
    if |parts| != 3 then None
    else
      match ParseInt(parts[2])
      case None => None
      case Some(n) => Some((parts[1], n))
  }

  /** `int(data.split("_")[1])`, as for `done_…` and `del_…`. */
  function ParseIdData(data: string): (r: Option<int>)
    ensures r.Some? ==> |Split(data, '_')| >= 2
  {
    var parts := Split(data, '_');
    if |parts| < 2 then None else ParseInt(parts[1])
  }

  /** What `snooze_reminder` is asked for. */
  datatype SnoozeRequest = SnoozeRequest(delta: Option<int>, toTomorrow: bool)

  /** The three snooze kinds; any other kind is refused. */
  function SnoozeKind(kind: string): (r: Option<SnoozeRequest>)
    ensures r.Some? <==> kind in {"10m", "1h", "tomorrow"}
  {
    match kind
    case "10m" => Some(SnoozeRequest(Some(10 * Minute), false))
    case "1h" => Some(SnoozeRequest(Some(Hour), false))
    case "tomorrow" => Some(SnoozeRequest(None, true))
    case _ => None
  }

  lemma RenderingHasNoUnderscore(n: nat)
    ensures '_' !in NatToString(n)
  {
    var s := NatToString(n);
    forall i | 0 <= i < |s| ensures s[i] != '_' {
      assert IsDigit(s[i]);
    }
  }

  /** Snooze data round-trips: kind and id come back as encoded. */
  lemma SnoozeDataRoundTrip(kind: string, id: nat)
    requires '_' !in kind
    ensures ParseSnoozeData(SnoozeData(kind, id)) == Some((kind, id))
  {
    var parts := ["snooze", kind, NatToString(id)];
    RenderingHasNoUnderscore(id);
    assert '_' !in parts[0];
    SplitJoin(parts, '_');
    ParseRendering(id);
  }

  /** Done and delete data round-trip to the id. */
  lemma IdDataRoundTrip(id: nat)
    ensures ParseIdData(DoneData(id)) == Some(id)
    ensures ParseIdData(DeleteData(id)) == Some(id)
  {
    RenderingHasNoUnderscore(id);
    var done := ["done", NatToString(id)];
    assert '_' !in done[0];
    SplitJoin(done, '_');
    var del := ["del", NatToString(id)];
    assert '_' !in del[0];
    SplitJoin(del, '_');
    ParseRendering(id);
  }

  /** Every button under a delivered reminder decodes to an action on that
      same reminder: the three snooze kinds in order, then done. */
  lemma ButtonsDecode(id: nat)
    ensures var b := ReminderButtons(id);
            && ParseSnoozeData(b[0]) == Some(("10m", id as int))
            && ParseSnoozeData(b[1]) == Some(("1h", id as int))
            && ParseSnoozeData(b[2]) == Some(("tomorrow", id as int))
            && ParseIdData(b[3]) == Some(id as int)
  {
    assert '_' !in "10m" && '_' !in "1h" && '_' !in "tomorrow";
    SnoozeDataRoundTrip("10m", id);
    SnoozeDataRoundTrip("1h", id);
    SnoozeDataRoundTrip("tomorrow", id);
    IdDataRoundTrip(id);
  }
}
