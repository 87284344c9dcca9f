/** The administrator's panel (admin_panel.py): granting, revoking and
    dating premium access, the user table it shows, and the token check at
    login. The page layout and the statistics queries are outside the
    model. */
module Admin {
  import opened Common
  import opened Text
  import opened Records
  import opened Scheduler

  // ---------------------------------------------------------------------
  // Premium mutations
  // ---------------------------------------------------------------------

  /** `grant_premium`: the row (created if missing) becomes premium, with no
      end when no day count is given and `now + days` otherwise. */
  function Grant(settings: map<int, UserSettings>, user: int, days: Option<int>, now: Instant): (r: map<int, UserSettings>)
    ensures user in r && r == settings[user := r[user]]
    ensures r[user].isPremium
    ensures days.None? <==> r[user].premiumUntil.None?
    ensures days.Some? ==> r[user].premiumUntil == Some(now + days.value * Day)
    ensures r[user] == RowOrDefault(settings, user).(isPremium := true, premiumUntil := r[user].premiumUntil)
  {
    var until := if days.None? then None else Some(now + days.value * Day);
    settings[user := RowOrDefault(settings, user).(isPremium := true, premiumUntil := until)]
  }

  /** The table after a revoke, and whether the user had a row. */
  datatype Revoked = Revoked(settings: map<int, UserSettings>, found: bool)

  /** `revoke_premium`: an unknown user is only warned about; a known one
      loses premium and its end date. */
  function Revoke(settings: map<int, UserSettings>, user: int): (r: Revoked)
    ensures r.found <==> user in settings
    ensures !r.found ==> r.settings == settings
    ensures r.found ==> r.settings == settings[user := settings[user].(isPremium := false, premiumUntil := None)]
  {
    if user !in settings then Revoked(settings, false)
    else Revoked(settings[user := settings[user].(isPremium := false, premiumUntil := None)], true)
  }

  /** `set_premium_until`: the row (created if missing) is premium exactly
      when a date is given, and that date is stored as given. */
  function SetUntil(settings: map<int, UserSettings>, user: int, until: Option<Instant>): (r: map<int, UserSettings>)
    ensures user in r && r == settings[user := r[user]]
    ensures r[user].isPremium <==> until.Some?
    ensures r[user].premiumUntil == until
    ensures r[user] == RowOrDefault(settings, user).(isPremium := r[user].isPremium, premiumUntil := until)
  {
    settings[user := RowOrDefault(settings, user).(isPremium := until.Some?, premiumUntil := until)]
  }

  /** Revoking after a grant leaves the user without premium and without
      an end date, whatever the grant was. */
  lemma GrantThenRevoke(settings: map<int, UserSettings>, user: int, days: Option<int>, now: Instant)
    ensures var r := Revoke(Grant(settings, user, days, now), user);
            r.found && !r.settings[user].isPremium && r.settings[user].premiumUntil.None?
  {
  }

  /** Setting no date on a known user is a revoke. */
  lemma SetNoDateIsRevoke(settings: map<int, UserSettings>, user: int)
    requires user in settings
    ensures SetUntil(settings, user, None) == Revoke(settings, user).settings
  {
  }

  /** A grant without days is never undone by the expiry sweep; a grant of
      `days` lasts until the sweeps after its end. */
  lemma GrantAgainstSweep(settings: map<int, UserSettings>, user: int, days: Option<int>,
                          now: Instant, later: Instant)
    ensures var r := Grant(settings, user, days, now);
            && (days.None? ==> ExpireSweep(r, later)[user].isPremium)
            && (days.Some? ==> (ExpireSweep(r, later)[user].isPremium <==> later <= now + days.value * Day))
  {
  }

  /** A date set in the past is honoured until the next sweep, which then
      demotes the user. */
  lemma PastDateDemotedBySweep(settings: map<int, UserSettings>, user: int, until: Instant, later: Instant)
    requires until < later
    ensures SetUntil(settings, user, Some(until))[user].isPremium
    ensures !ExpireSweep(SetUntil(settings, user, Some(until)), later)[user].isPremium
  {
  }

  // ---------------------------------------------------------------------
  // The user table
  // ---------------------------------------------------------------------

  /** The "premium_until" column: "∞", a time stamp, or empty. */
  datatype UntilShown = Infinite | Shown(at: Instant) | Blank

  /** One row of the table. */
  datatype UserRow = UserRow(userId: int, isPremium: bool, until: UntilShown,
                             tz: string, morning: string, midday: string, evening: string)

  /** The table row for one settings row. */
  function RowOf(s: UserSettings): (r: UserRow)
    ensures r.userId == s.userId && r.isPremium == s.isPremium
    ensures r.until == Infinite <==> s.isPremium && s.premiumUntil.None?
    ensures r.until == Blank <==> !s.isPremium && s.premiumUntil.None?
    ensures s.premiumUntil.Some? ==> r.until == Shown(s.premiumUntil.value)
  {
    var shown := if s.isPremium && s.premiumUntil.None? then Infinite
                 else if s.premiumUntil.Some? then Shown(s.premiumUntil.value)
                 else Blank;
    UserRow(s.userId, s.isPremium, shown, s.tz, s.morning, s.midday, s.evening)
  }

  /** The table rows for the given users, in the given order. */
  function RowsFor(settings: map<int, UserSettings>, ids: seq<int>): (r: seq<UserRow>)
    requires forall i :: 0 <= i < |ids| ==> ids[i] in settings
    ensures |r| == |ids|
    ensures forall i :: 0 <= i < |r| ==> r[i] == RowOf(settings[ids[i]])
  {
    if |ids| == 0 then [] else [RowOf(settings[ids[0]])] + RowsFor(settings, ids[1..])
  }

  /** `get_users_list`: one row per user, in ascending user id. */
  function UsersList(settings: map<int, UserSettings>): (r: seq<UserRow>)
    requires KeyedByUser(settings)
    ensures |r| == |settings.Keys|
    ensures forall i, j :: 0 <= i < j < |r| ==> r[i].userId < r[j].userId
    ensures forall i :: 0 <= i < |r| ==> r[i].userId in settings && r[i] == RowOf(settings[r[i].userId])
    ensures forall u :: u in settings ==> RowOf(settings[u]) in r
  {
    var ids := Ascending(settings.Keys);
    var r := RowsFor(settings, ids);
    ListingFacts(settings, ids, r);
    r
  }

  lemma ListingFacts(settings: map<int, UserSettings>, ids: seq<int>, r: seq<UserRow>)
    requires KeyedByUser(settings)
    requires forall i, j :: 0 <= i < j < |ids| ==> ids[i] < ids[j]
    requires forall k :: k in ids <==> k in settings
    requires |r| == |ids| && forall i :: 0 <= i < |r| ==> ids[i] in settings && r[i] == RowOf(settings[ids[i]])
    ensures |r| == |settings.Keys|
    ensures forall i, j :: 0 <= i < j < |r| ==> r[i].userId < r[j].userId
    ensures forall i :: 0 <= i < |r| ==> r[i].userId in settings && r[i] == RowOf(settings[r[i].userId])
    ensures forall u :: u in settings ==> RowOf(settings[u]) in r
  {
    DistinctLength(ids, settings.Keys);
    assert forall i :: 0 <= i < |r| ==> r[i].userId == ids[i];
    forall u | u in settings ensures RowOf(settings[u]) in r {
      var i := IndexOf(ids, u);
      assert r[i] == RowOf(settings[u]);
    }
  }

  /** Position of an element in a sequence. */
  function IndexOf(s: seq<int>, x: int): (i: nat)
    requires x in s
    ensures i < |s| && s[i] == x
  {
    if s[0] == x then 0 else 1 + IndexOf(s[1..], x)
  }

  /** An increasing listing of a set is as long as the set is large. */
  lemma {:induction false} DistinctLength(s: seq<int>, keys: set<int>)
    requires forall i, j :: 0 <= i < j < |s| ==> s[i] < s[j]
    requires forall k :: k in s <==> k in keys
    ensures |s| == |keys|
    decreases |s|
  {
    if |s| == 0 {
      assert forall k :: k !in keys;
      assert keys == {};
    } else {
      var last := s[|s| - 1];
      var init := s[..|s| - 1];
      assert forall k :: k in init ==> k in s && k < last;
      assert forall k :: k in s <==> k in init || k == last;
      DistinctLength(init, keys - {last});
    }
  }

  // ---------------------------------------------------------------------
  // Login
  // ---------------------------------------------------------------------

  /** An environment variable counts only when set to a non-empty value. */
  predicate Set(v: Option<string>) {
    v.Some? && v.value != ""
  }

  /** The token: the upper-case variable, else the lower-case one, else
      "admin". */
  function RequiredToken(upper: Option<string>, lower: Option<string>): (t: string)
    ensures Set(upper) ==> t == upper.value
    ensures !Set(upper) && Set(lower) ==> t == lower.value
    ensures !Set(upper) && !Set(lower) ==> t == "admin"
    ensures t != ""
  {
    if Set(upper) then upper.value else if Set(lower) then lower.value else "admin"
  }

  /** The login button: the typed token, stripped, must equal the required
      token. */
  predicate Login(typed: string, upper: Option<string>, lower: Option<string>) {
    Strip(typed) == RequiredToken(upper, lower)
  }

  /** Surrounding blanks in what is typed do not matter: any run of
      whitespace before and after the token is ignored. */
  lemma LoginIgnoresBlanks(before: string, typed: string, after: string,
                           upper: Option<string>, lower: Option<string>)
    requires forall i :: 0 <= i < |before| ==> IsSpace(before[i])
    requires forall i :: 0 <= i < |after| ==> IsSpace(after[i])
    ensures Login(before + typed + after, upper, lower) <==> Login(typed, upper, lower)
  {
    StripPadded(before, typed, after);
  }

  /** Stripping ignores any blanks added at either end. */
  lemma StripPadded(a: string, s: string, b: string)
    requires forall i :: 0 <= i < |a| ==> IsSpace(a[i])
    requires forall i :: 0 <= i < |b| ==> IsSpace(b[i])
    ensures Strip(a + s + b) == Strip(s)
  {
    assert a + s + b == a + (s + b);
    AllBlankTrims(a);
    TrimStartAllBlank(a, s + b);
    var t := TrimStart(s);
    if |t| > 0 {
      TrimStartAppend(s, b);
      TrimEndBlanks(t, b);
    } else {
      TrimStartAllBlank(s, b);
      AllBlankTrims(b);
    }
  }

  /** A string of blanks trims to nothing. */
  lemma AllBlankTrims(a: string)
    requires forall i :: 0 <= i < |a| ==> IsSpace(a[i])
    ensures TrimStart(a) == ""
  {
  }

  /** Trimming the end of `t + b` for blanks `b` trims the end of `t`. */
  lemma {:induction false} TrimEndBlanks(t: string, b: string)
    requires forall i :: 0 <= i < |b| ==> IsSpace(b[i])
    ensures TrimEnd(t + b) == TrimEnd(t)
    decreases |b|
  {
    if |b| == 0 {
      assert t + b == t;
    } else {
      var p := t + b;
      assert IsSpace(p[|p| - 1]);
      assert p[..|p| - 1] == t + b[..|b| - 1];
      TrimEndBlanks(t, b[..|b| - 1]);
    }
  }

  /** Once `s` has a non-blank character, trimming the front of `s + x`
      stops inside `s`. */
  lemma {:induction false} TrimStartAppend(s: string, x: string)
    requires |TrimStart(s)| > 0
    ensures TrimStart(s + x) == TrimStart(s) + x
    decreases |s|
  {
    if IsSpace(s[0]) {
      assert (s + x)[1..] == s[1..] + x;
      TrimStartAppend(s[1..], x);
    }
  }

  /** When `s` is all blanks, trimming the front of `s + x` trims `x`. */
  lemma {:induction false} TrimStartAllBlank(s: string, x: string)
    requires |TrimStart(s)| == 0
    ensures TrimStart(s + x) == TrimStart(x)
    decreases |s|
  {
    if |s| == 0 {
      assert s + x == x;
    } else {
      assert (s + x)[1..] == s[1..] + x;
      TrimStartAllBlank(s[1..], x);
    }
  }

  /** With no variable set, "admin" logs in. */
  lemma DefaultTokenLogsIn()
    ensures Login("admin", None, None)
  {
    StripNoEdges("admin");
  }

  /** A token configured with a blank at either end can never be typed:
      what is typed is stripped before the comparison. */
  lemma BlankEdgedTokenLocksOut(typed: string, upper: Option<string>, lower: Option<string>)
    requires var t := RequiredToken(upper, lower); IsSpace(t[0]) || IsSpace(t[|t| - 1])
    ensures !Login(typed, upper, lower)
  {
  }
}
