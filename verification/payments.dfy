/** Premium purchases (handlers/payments_handler.py): the plan table, the
    invoice payload and its decoding, and the activation that follows a
    successful payment, and the payment row recorded with it (database/db.py).
    The payment provider and the messages sent are outside the model. */
module Payments {
  import opened Common
  import opened Text
  import opened Records
  import opened Scheduler

  /** A purchasable plan: title, length in days (none for lifetime) and
      price in stars. */
  datatype Plan = Plan(title: string, days: Option<nat>, amount: nat)

  const Week: string := "7d"
  const Month: string := "30d"
  const Forever: string := "forever"

  /** `PREMIUM_PLANS.get(plan_id)`. */
  function PlanOf(id: string): (p: Option<Plan>)
    ensures p.Some? <==> id == Week || id == Month || id == Forever
    ensures p.Some? ==> (p.value.days.None? <==> id == Forever)
  {
    if id == Week then Some(Plan("Premium — 7 дней", Some(7), 70))
    else if id == Month then Some(Plan("Premium — 30 дней", Some(30), 200))
    else if id == Forever then Some(Plan("Premium — навсегда", None, 600))
    else None
  }

  /** The three plans: a week for 70 stars, thirty days for 200, and no
      expiry for 600. */
  lemma PlanTable()
    ensures PlanOf(Week).value.days == Some(7) && PlanOf(Week).value.amount == 70
    ensures PlanOf(Month).value.days == Some(30) && PlanOf(Month).value.amount == 200
    ensures PlanOf(Forever).value.days.None? && PlanOf(Forever).value.amount == 600
  {
  }

  // ---------------------------------------------------------------------
  // Payload
  // ---------------------------------------------------------------------

  const Prefix: string := "premium_"

  /** The invoice payload carrying a plan id. */
  function Payload(id: string): (p: string)
    ensures StartsWith(p, Prefix) && p[|Prefix|..] == id
  {
    Prefix + id
  }

  /** `payload.replace("premium_", "")`: every occurrence of the prefix is
      removed, wherever it stands. */
  function PlanIdOf(payload: string): string {
    ReplaceAll(payload, Prefix, "")
  }

  /** An id with no prefix inside it comes back from its payload. */
  lemma PayloadRoundTrip(id: string)
    requires Absent(id, Prefix)
    ensures PlanIdOf(Payload(id)) == id
  {
    var p := Payload(id);
    assert p[|Prefix|..] == id;
    ReplaceAbsent(id, Prefix, "");
  }

  /** Every plan id is shorter than the prefix, so the prefix never occurs
      in one. */
  lemma PlanIdsAbsent(id: string)
    requires PlanOf(id).Some?
    ensures Absent(id, Prefix)
  {
  }

  /** An invoice: the plan and the payload it is sent with. */
  datatype Invoice = Invoice(plan: Plan, payload: string)

  /** `send_invoice`: the button data names a plan the same way the payload
      does; an unknown plan gets no invoice. */
  function InvoiceFor(data: string): (r: Option<Invoice>)
    ensures r.Some? <==> PlanOf(PlanIdOf(data)).Some?
    ensures r.Some? ==> r.value.plan == PlanOf(PlanIdOf(data)).value
                        && r.value.payload == Payload(PlanIdOf(data))
  {
    var id := PlanIdOf(data);
    match PlanOf(id)
    case None => None
    case Some(plan) => Some(Invoice(plan, Payload(id)))
  }

  /** Paying an invoice activates the plan the invoice was issued for. */
  lemma InvoiceActivatesItsPlan(data: string)
    requires InvoiceFor(data).Some?
    ensures PlanOf(PlanIdOf(InvoiceFor(data).value.payload)) == Some(InvoiceFor(data).value.plan)
  {
    var id := PlanIdOf(data);
    PlanIdsAbsent(id);
    PayloadRoundTrip(id);
  }

  /** Each of the three buttons opens the invoice of its own plan. */
  lemma ButtonsOpenTheirPlans(id: string)
    requires PlanOf(id).Some?
    ensures InvoiceFor(Payload(id)) == Some(Invoice(PlanOf(id).value, Payload(id)))
  {
    PlanIdsAbsent(id);
    PayloadRoundTrip(id);
  }

  // ---------------------------------------------------------------------
  // Activation
  // ---------------------------------------------------------------------

  /** The settings table after a payment, and whether it was honoured. */
  datatype Paid = Paid(settings: map<int, UserSettings>, ok: bool)

  /** `successful_payment_handler`: an unknown plan is an error that
      changes nothing; otherwise the user's row (created if missing) becomes
      premium until now plus the plan's days, or with no end. An earlier
      end date is replaced, not extended. */
  function Activate(settings: map<int, UserSettings>, user: int, payload: string, now: Instant): (r: Paid)
    ensures r.ok <==> PlanOf(PlanIdOf(payload)).Some?
    ensures !r.ok ==> r.settings == settings
    ensures r.ok ==>
      var plan := PlanOf(PlanIdOf(payload)).value;
      && user in r.settings
      && r.settings == settings[user := r.settings[user]]
      && r.settings[user].isPremium
      && (plan.days.None? ==> r.settings[user].premiumUntil.None?)
      && (plan.days.Some? ==> r.settings[user].premiumUntil == Some(now + plan.days.value * Day))
      && r.settings[user] == RowOrDefault(settings, user).(isPremium := true,
                                                           premiumUntil := r.settings[user].premiumUntil)
  {
    match PlanOf(PlanIdOf(payload))
    case None => Paid(settings, false)
    case Some(plan) =>
      var until := if plan.days.Some? then Some(now + plan.days.value * Day) else None;
      Paid(settings[user := RowOrDefault(settings, user).(isPremium := true, premiumUntil := until)], true)
  }

  /** How the end date appears in the administrator's notice. */
  datatype UntilCell = Lifetime | Stamp(at: Instant)

  /** The notice shows "∞ (lifetime)" exactly when there is no end date. */
  function NoticeUntil(until: Option<Instant>): (c: UntilCell)
    ensures c == Lifetime <==> until.None?
    ensures until.Some? ==> c == Stamp(until.value)
  {
    match until
    case None => Lifetime
    case Some(t) => Stamp(t)
  }

  /** The notice after buying a plan: lifetime for "forever", otherwise the
      instant the plan's days run out. */
  lemma NoticeAfterPurchase(settings: map<int, UserSettings>, user: int, id: string, now: Instant)
    requires PlanOf(id).Some?
    ensures var r := Activate(settings, user, Payload(id), now);
            && r.ok && user in r.settings
            && (id == Forever ==> NoticeUntil(r.settings[user].premiumUntil) == Lifetime)
            && (id == Week ==> NoticeUntil(r.settings[user].premiumUntil) == Stamp(now + 7 * Day))
            && (id == Month ==> NoticeUntil(r.settings[user].premiumUntil) == Stamp(now + 30 * Day))
  {
    PlanIdsAbsent(id);
    PayloadRoundTrip(id);
  }

  /** A purchased plan survives every daily sweep up to its end, and the
      first sweep after its end demotes the user; a lifetime plan is never
      demoted. */
  lemma PurchaseLastsItsTerm(settings: map<int, UserSettings>, user: int, payload: string,
                             now: Instant, later: Instant)
    requires Activate(settings, user, payload, now).ok
    ensures var r := Activate(settings, user, payload, now).settings;
            var plan := PlanOf(PlanIdOf(payload)).value;
            && (plan.days.None? ==> ExpireSweep(r, later)[user].isPremium)
            && (plan.days.Some? && later <= now + plan.days.value * Day ==>
                  ExpireSweep(r, later)[user].isPremium)
            && (plan.days.Some? && later > now + plan.days.value * Day ==>
                  !ExpireSweep(r, later)[user].isPremium)
  {
  }

  /** Buying again restarts the term from the new purchase: the end date
      depends only on the last plan bought. */
  lemma RepurchaseReplaces(settings: map<int, UserSettings>, user: int, first: string, second: string,
                           t0: Instant, t1: Instant)
    requires Activate(settings, user, first, t0).ok && Activate(settings, user, second, t1).ok
    ensures var once := Activate(settings, user, second, t1).settings;
            var twice := Activate(Activate(settings, user, first, t0).settings, user, second, t1).settings;
            twice[user].premiumUntil == once[user].premiumUntil && twice[user].isPremium
  {
  }

  // ---------------------------------------------------------------------
  // The payment record
  // ---------------------------------------------------------------------

  /** A row of the `payments` table; its id is left to the database. */
  datatype Payment = Payment(userId: int, starsAmount: int, timestamp: Instant)

  /** The columns the `Payment` model declares. Its constructor accepts a
      keyword argument only if it names one of them and raises otherwise. */
  const PaymentColumns: set<string> := {"id", "user_id", "stars_amount", "timestamp"}

  predicate Constructs(kwargs: set<string>) {
    kwargs <= PaymentColumns
  }

  /** The keywords the purchase handler passes to the constructor. */
  const HandlerKwargs: set<string> := {"user_id", "stars_amount", "payload", "created_at"}

  /** Step 2 of the purchase handler as written: the row is added only if
      the constructor accepts the handler's keywords; otherwise the error
      is swallowed and the table is left as it was. */
  function RecordPaymentAsWritten(payments: seq<Payment>, user: int, stars: int, now: Instant): (r: seq<Payment>)
    ensures Constructs(HandlerKwargs) ==> r == payments + [Payment(user, stars, now)]
    ensures !Constructs(HandlerKwargs) ==> r == payments
  {
    if Constructs(HandlerKwargs) then payments + [Payment(user, stars, now)] else payments
  }

  /** `payload` and `created_at` are not columns, so the constructor always
      raises and no purchase is ever recorded. */
  lemma PaymentNeverRecorded(payments: seq<Payment>, user: int, stars: int, now: Instant)
    ensures RecordPaymentAsWritten(payments, user, stars, now) == payments
  {
    assert "payload" in HandlerKwargs && "payload" !in PaymentColumns;
  }

  /** The keywords that name the model's own columns. */
  const ColumnKwargs: set<string> := {"user_id", "stars_amount", "timestamp"}

  /** The model's own columns construct; the handler's keywords do not. */
  lemma KwargsAgainstColumns()
    ensures Constructs(ColumnKwargs) && !Constructs(HandlerKwargs)
  {
    assert "payload" in HandlerKwargs && "payload" !in PaymentColumns;
  }

  /** The payment recorded with the model's own columns: exactly one row,
      for the buyer, the stars paid and the purchase time, is appended. */
  function RecordPayment(payments: seq<Payment>, user: int, stars: int, now: Instant): (r: seq<Payment>)
    ensures |r| == |payments| + 1 && r[..|payments|] == payments
    ensures r[|payments|] == Payment(user, stars, now)
  {
    var r := payments + [Payment(user, stars, now)];
    assert r[..|payments|] == payments;
    r
  }

  /** The outcome of a successful-payment update: settings, payments and
      whether the plan was honoured. */
  datatype Purchased = Purchased(settings: map<int, UserSettings>, payments: seq<Payment>, ok: bool)

  /** `successful_payment_handler`: an unknown plan changes nothing;
      otherwise premium is activated and the payment recorded. */
  function Purchase(settings: map<int, UserSettings>, payments: seq<Payment>, user: int,
                    payload: string, stars: int, now: Instant): (r: Purchased)
    ensures r.ok <==> PlanOf(PlanIdOf(payload)).Some?
    ensures r.settings == Activate(settings, user, payload, now).settings
    ensures !r.ok ==> r.payments == payments
    ensures r.ok ==> |r.payments| == |payments| + 1 && r.payments[..|payments|] == payments
                     && r.payments[|payments|] == Payment(user, stars, now)
  {
    var a := Activate(settings, user, payload, now);
    if a.ok then Purchased(a.settings, RecordPayment(payments, user, stars, now), true)
    else Purchased(a.settings, payments, false)
  }

  /** The stars total the statistics report: the sum over all payments. */
  function TotalStars(payments: seq<Payment>): int {
    if |payments| == 0 then 0 else TotalStars(payments[..|payments| - 1]) + payments[|payments| - 1].starsAmount
  }

  /** Every honoured purchase adds exactly its stars to the reported total;
      a refused one adds nothing. */
  lemma PurchaseAddsStars(settings: map<int, UserSettings>, payments: seq<Payment>, user: int,
                          payload: string, stars: int, now: Instant)
    ensures var r := Purchase(settings, payments, user, payload, stars, now);
            TotalStars(r.payments) == TotalStars(payments) + (if r.ok then stars else 0)
  {
    var r := Purchase(settings, payments, user, payload, stars, now);
    if r.ok {
      assert r.payments[..|r.payments| - 1] == payments;
    }
  }

  /** As written, the reported total never moves, whatever is bought. */
  lemma StarsNeverCountedAsWritten(payments: seq<Payment>, user: int, stars: int, now: Instant)
    ensures TotalStars(RecordPaymentAsWritten(payments, user, stars, now)) == TotalStars(payments)
  {
    PaymentNeverRecorded(payments, user, stars, now);
  }
}
