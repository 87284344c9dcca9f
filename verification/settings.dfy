/** Per-user preferences (handlers/settings_handler.py, and the reading of
    them in handlers/reminder_handler.py): the row created on first use,
    the pending-field table between a button press and the user's reply,
    validation of `H:MM`/`HH:MM` values, and the slots the date resolver is
    given. */
module Settings {
  import opened Common
  import opened Text
  import opened Records
  import opened ReminderInput

  // ---------------------------------------------------------------------
  // Time values
  // ---------------------------------------------------------------------

  /** `\d{1,2}:\d{2}` matching the whole value. */
  predicate TimeShape(v: string) {
    || (|v| == 4 && IsDigit(v[0]) && v[1] == ':' && IsDigit(v[2]) && IsDigit(v[3]))
    || (|v| == 5 && IsDigit(v[0]) && IsDigit(v[1]) && v[2] == ':' && IsDigit(v[3]) && IsDigit(v[4]))
  }

  function HourText(v: string): (h: string)
    requires TimeShape(v)
    ensures AllDigits(h) && 1 <= |h| <= 2
  {
    v[..|v| - 3]
  }

  function MinuteText(v: string): (m: string)
    requires TimeShape(v)
    ensures AllDigits(m) && |m| == 2
  {
    v[|v| - 2..]
  }

  /** The shape check followed by `strptime(value, "%H:%M")`: an hour of
      0-23 and a minute of 0-59. */
  predicate ValidTime(v: string) {
    TimeShape(v) && DigitsValue(HourText(v)) <= 23 && DigitsValue(MinuteText(v)) <= 59
  }

  /** The slot a valid value denotes. */
  function SlotOf(v: string): (s: Slot)
    requires ValidTime(v)
    ensures ValidSlot(s)
  {
    Slot(DigitsValue(HourText(v)), DigitsValue(MinuteText(v)))
  }

  /** `hm_to_tuple`: split at the colon and read both halves as integers;
      anything else is an error. */
  function HmToTuple(hm: string): Option<Slot> {
    var parts := Split(hm, ':');
    if |parts| != 2 then None
    else
      match (ParseInt(parts[0]), ParseInt(parts[1]))
      case (Some(h), Some(m)) => Some(Slot(h, m))
      case _ => None
  }

  /** Every value the settings dialogue accepts is read by the resolver's
      `hm_to_tuple` as the slot it denotes. */
  lemma ValidTimeReads(v: string)
    requires ValidTime(v)
    ensures HmToTuple(v) == Some(SlotOf(v))
  {
    var h, m := HourText(v), MinuteText(v);
    assert v == h + [':'] + m;
    assert ':' !in h;
    assert ':' !in m;
    SplitNoSep(m, ':');
    SplitField(h, ':', m);
    ParseDigits(h);
    ParseDigits(m);
  }

  /** A slot written as `HH:MM` is a valid value naming the same slot. */
  lemma RenderedSlotIsValid(s: Slot)
    requires ValidSlot(s)
    ensures ValidTime(HHMM(s)) && SlotOf(HHMM(s)) == s
  {
    var v := HHMM(s);
    assert HourText(v) == v[..2];
    assert MinuteText(v) == v[3..];
  }

  /** The three default slots are valid: nine, noon and seven in the
      evening. */
  lemma DefaultsValid()
    ensures ValidTime(DefaultMorning) && SlotOf(DefaultMorning) == Slot(9, 0)
    ensures ValidTime(DefaultMidday) && SlotOf(DefaultMidday) == Slot(12, 0)
    ensures ValidTime(DefaultEvening) && SlotOf(DefaultEvening) == Slot(19, 0)
  {
    assert HourText(DefaultMorning) == "09" && MinuteText(DefaultMorning) == "00";
    assert HourText(DefaultMidday) == "12" && MinuteText(DefaultMidday) == "00";
    assert HourText(DefaultEvening) == "19" && MinuteText(DefaultEvening) == "00";
    assert "09"[..1] == "0" && "12"[..1] == "1" && "19"[..1] == "1" && "00"[..1] == "0";
    assert DigitsValue("") == 0;
  }

  /** Out-of-range values are refused though they have the right shape. */
  lemma RangeChecked()
    ensures TimeShape("24:00") && !ValidTime("24:00")
    ensures TimeShape("7:60") && !ValidTime("7:60")
    ensures ValidTime("7:05") && SlotOf("7:05") == Slot(7, 5)
  {
    assert HourText("24:00") == "24" && "24"[..1] == "2";
    assert MinuteText("7:60") == "60" && "60"[..1] == "6";
    assert HourText("7:05") == "7" && MinuteText("7:05") == "05" && "05"[..1] == "0";
    assert "7"[..0] == "" && "2"[..0] == "" && "6"[..0] == "" && "0"[..0] == "";
  }

  // ---------------------------------------------------------------------
  // Rows and the pending table
  // ---------------------------------------------------------------------

  /** A table and the row just read from it. */
  datatype Fetched = Fetched(settings: map<int, UserSettings>, row: UserSettings)

  /** `_get_or_create_settings`. */
  function GetOrCreateSettings(settings: map<int, UserSettings>, user: int): (r: Fetched)
    ensures user in r.settings && r.row == r.settings[user]
    ensures user in settings ==> r.settings == settings
    ensures user !in settings ==> r.settings == settings[user := DefaultSettings(user)]
    ensures user !in settings ==>
              r.row.tz == "Asia/Almaty" && r.row.morning == "09:00"
              && r.row.midday == "12:00" && r.row.evening == "19:00"
  {
    if user in settings then Fetched(settings, settings[user])
    else Fetched(settings[user := DefaultSettings(user)], DefaultSettings(user))
  }

  /** The field a user is about to change. */
  datatype Field = MorningTime | MiddayTime | EveningTime | Timezone

  /** The buttons of the settings menu. */
  function FieldOf(data: string): (f: Option<Field>)
    ensures f.Some? <==> data in {"set_morning", "set_midday", "set_evening", "set_tz"}
  {
    match data
    case "set_morning" => Some(MorningTime)
    case "set_midday" => Some(MiddayTime)
    case "set_evening" => Some(EveningTime)
    case "set_tz" => Some(Timezone)
    case _ => None
  }

  /** `pending_time_change`. */
  type Pending = map<int, Field>

  /** `change_setting`: remember the field the button names, replacing any
      earlier one; other data changes nothing. */
  function ChangeSetting(pending: Pending, user: int, data: string): (r: Pending)
    ensures FieldOf(data).Some? ==> r == pending[user := FieldOf(data).value]
    ensures FieldOf(data).None? ==> r == pending
    ensures forall u :: u != user ==> (u in r <==> u in pending)
  {
    match FieldOf(data)
    case Some(f) => pending[user := f]
    case None => pending
  }

  /** Store one value in one field of a row. */
  function WithField(s: UserSettings, f: Field, value: string): (r: UserSettings)
    ensures f == MorningTime ==> r == s.(morning := value)
    ensures f == MiddayTime ==> r == s.(midday := value)
    ensures f == EveningTime ==> r == s.(evening := value)
    ensures f == Timezone ==> r == s.(tz := value)
  {
    match f
    case MorningTime => s.(morning := value)
    case MiddayTime => s.(midday := value)
    case EveningTime => s.(evening := value)
    case Timezone => s.(tz := value)
  }

  /** What a reply does to the row of a pending field: a time field takes
      the value only when it is a valid time, the time-zone field takes it
      as it is. */
  function Reply(row: UserSettings, f: Field, v: string): (r: UserSettings)
    ensures f == Timezone ==> r == row.(tz := v)
    ensures f != Timezone && ValidTime(v) ==> r == WithField(row, f, v)
    ensures f != Timezone && !ValidTime(v) ==> r == row
    ensures r.userId == row.userId && r.isPremium == row.isPremium && r.premiumUntil == row.premiumUntil
  {
    if f == Timezone || ValidTime(v) then WithField(row, f, v) else row
  }

  /** The user's row, read or created, with a reply stored in it. */
  function StoreReply(settings: map<int, UserSettings>, user: int, f: Field, v: string)
    : (r: map<int, UserSettings>)
    ensures r == settings[user := Reply(RowOrDefault(settings, user), f, v)]
  {
    var got := GetOrCreateSettings(settings, user);
    var row := Reply(got.row, f, v);
    assert got.row == RowOrDefault(settings, user);
    assert got.settings[user := row] == settings[user := row];
    got.settings[user := row]
  }

  /** The tables after the user's reply. */
  datatype Replied = Replied(settings: map<int, UserSettings>, pending: Pending)

  /** `handle_new_value`: with no pending field nothing happens. Otherwise
      the pending entry is consumed; a reply with no text stops there. The
      stripped text goes through `Reply` on the user's row, which is created
      either way. */
  function HandleNewValue(settings: map<int, UserSettings>, pending: Pending, user: int,
                          text: Option<string>): (r: Replied)
    ensures user !in pending ==> r == Replied(settings, pending)
    ensures user in pending ==> r.pending == pending - {user}
    ensures user in pending && text.None? ==> r.settings == settings
    ensures user in pending && text.Some? ==>
              r.settings == settings[user := Reply(RowOrDefault(settings, user), pending[user], Strip(text.value))]
  {
    if user !in pending then Replied(settings, pending)
    else
      var rest := pending - {user};
      match text
      case None => Replied(settings, rest)
      case Some(t) => Replied(StoreReply(settings, user, pending[user], Strip(t)), rest)
  }

  // ---------------------------------------------------------------------
  // The slots the resolver is given
  // ---------------------------------------------------------------------

  /** A row whose three time fields are valid times. */
  predicate WellFormed(s: UserSettings) {
    ValidTime(s.morning) && ValidTime(s.midday) && ValidTime(s.evening)
  }

  /** Every row starts well formed, and a reply keeps every row so. */
  lemma RepliesKeepRowsWellFormed(settings: map<int, UserSettings>, pending: Pending, user: int,
                                  text: Option<string>)
    requires forall u :: u in settings ==> WellFormed(settings[u])
    ensures var r := HandleNewValue(settings, pending, user, text).settings;
            forall u :: u in r ==> WellFormed(r[u])
  {
    if user in pending && text.Some? {
      var before := RowOrDefault(settings, user);
      if user !in settings {
        DefaultRowWellFormed(user);
      }
      var row := Reply(before, pending[user], Strip(text.value));
      ReplyKeepsWellFormed(before, pending[user], Strip(text.value));
      var r := HandleNewValue(settings, pending, user, text).settings;
      assert r == settings[user := row];
      forall u | u in r
        ensures WellFormed(r[u])
      {
        if u == user {
          assert r[u] == row;
        } else {
          assert r[u] == settings[u];
        }
      }
    }
  }

  /** A freshly created row is well formed. */
  lemma DefaultRowWellFormed(user: int)
    ensures WellFormed(DefaultSettings(user))
  {
    DefaultsValid();
  }

  /** A reply never stores an invalid time. */
  lemma ReplyKeepsWellFormed(row: UserSettings, f: Field, v: string)
    requires WellFormed(row)
    ensures WellFormed(Reply(row, f, v))
  {
    if f != Timezone && ValidTime(v) {
      assert Reply(row, f, v) == WithField(row, f, v);
    }
  }

  /** A field falls back to its default when absent or empty. */
  function OrDefault(v: string, default: string): (r: string)
    ensures v != "" ==> r == v
    ensures v == "" ==> r == default
  {
    if v != "" then v else default
  }

  /** The resolver's preferences in `get_user_prefs` and `hm_to_tuple`:
      the user's own slots, or the defaults when the user has no row. */
  function PrefsOf(settings: map<int, UserSettings>, user: int): (p: Prefs)
    requires user in settings ==> WellFormed(settings[user])
    ensures ValidPrefs(p)
    ensures user in settings ==>
              p.morning == SlotOf(settings[user].morning) && p.midday == SlotOf(settings[user].midday)
              && p.evening == SlotOf(settings[user].evening)
              && p.tz == OrDefault(settings[user].tz, DefaultTz)
    ensures user !in settings ==>
              p == Prefs(DefaultTz, Slot(9, 0), Slot(12, 0), Slot(19, 0))
  {
    DefaultsValid();
    var s := RowOrDefault(settings, user);
    Prefs(OrDefault(s.tz, DefaultTz), SlotOf(s.morning), SlotOf(s.midday), SlotOf(s.evening))
  }

  /** A morning time set through the dialogue is the morning slot the
      resolver then uses. */
  lemma SetMorningReachesResolver(settings: map<int, UserSettings>, user: int, value: string)
    requires forall u :: u in settings ==> WellFormed(settings[u])
    requires ValidTime(Strip(value))
    ensures var pending := ChangeSetting(map[], user, "set_morning");
            var r := HandleNewValue(settings, pending, user, Some(value));
            && user in r.settings && WellFormed(r.settings[user])
            && PrefsOf(r.settings, user).morning == SlotOf(Strip(value))
            && r.pending == map[]
  {
    DefaultsValid();
  }
}
