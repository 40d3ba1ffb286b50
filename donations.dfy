/** The donations app: campaigns with a goal and a running total, donations
    and their payment status, the amount check, donation creation with its
    Stripe payment intent, the Stripe webhook, the donor's history and the
    public statistics. Money is held in integer cents: a `DecimalField` with
    two decimal places is exactly a whole number of cents. */
module DonationModels {
  import opened Seqs
  import opened Users

  datatype DonationCampaign = DonationCampaign(
    id: nat, name: string, goalAmount: int, currentAmount: int,
    startDate: int, endDate: Option<int>, isActive: bool, isFeatured: bool)

  /** `DonationCampaign.progress_percentage`: the share of the goal raised, in
      percent, capped at 100, and 0 for a goal that is not positive. */
  function ProgressPercentage(c: DonationCampaign): (pct: real)
    ensures c.goalAmount <= 0 ==> pct == 0.0
    ensures c.goalAmount > 0 && c.currentAmount >= 0 ==> 0.0 <= pct <= 100.0
    ensures pct <= 100.0
    ensures c.goalAmount > 0 ==> (pct == 100.0 <==> c.currentAmount >= c.goalAmount)
  {
    if c.goalAmount > 0 then
      var raw := (c.currentAmount as real / c.goalAmount as real) * 100.0;
      assert c.currentAmount >= c.goalAmount <==> raw >= 100.0 by {
        RatioAtLeastOne(c.currentAmount, c.goalAmount);
      }
      if raw < 100.0 then raw else 100.0
    else 0.0
  }

  lemma RatioAtLeastOne(current: int, goal: int)
    requires goal > 0
    ensures current >= goal <==> (current as real / goal as real) * 100.0 >= 100.0
  {
    var q := current as real / goal as real;
    assert q * goal as real == current as real;
  }

  /** More money raised never lowers the progress shown. */
  lemma ProgressMonotone(c: DonationCampaign, more: int)
    requires more >= c.currentAmount
    ensures ProgressPercentage(c) <= ProgressPercentage(c.(currentAmount := more))
  {
    if c.goalAmount > 0 {
      var g := c.goalAmount as real;
      var q1 := c.currentAmount as real / g;
      var q2 := more as real / g;
      assert q1 * g == c.currentAmount as real && q2 * g == more as real;
      assert q1 <= q2;
    }
  }

  /** `DonationCampaign.is_completed`. */
  predicate IsCompleted(c: DonationCampaign)
  {
    c.currentAmount >= c.goalAmount
  }

  /** A campaign whose goal is 0 counts as completed while showing 0 progress. */
  lemma ZeroGoalCompletedAtZeroProgress(c: DonationCampaign)
    requires c.goalAmount == 0 && c.currentAmount >= 0
    ensures IsCompleted(c) && ProgressPercentage(c) == 0.0
  {
  }

  /** With a positive goal, completed is exactly the capped progress of 100. */
  lemma CompletedIffFullProgress(c: DonationCampaign)
    requires c.goalAmount > 0
    ensures IsCompleted(c) <==> ProgressPercentage(c) == 100.0
  {
  }

  datatype DonationType = Tithe | Offering | BuildingFund | Missions | Special | Campaign | OtherType

  datatype PaymentStatus = Pending | Processing | Completed | Failed | Cancelled | Refunded

  datatype PaymentMethod = Card | PayPal | BankTransfer | Cash | Check

  datatype Donation = Donation(
    id: nat, user: Option<User>, donorName: string, donorEmail: string, donorPhone: string,
    amount: nat, currency: string, donationType: DonationType, campaignId: Option<nat>,
    message: string, paymentMethod: PaymentMethod, transactionId: string, status: PaymentStatus,
    stripePaymentIntentId: string, isAnonymous: bool, showAmount: bool,
    processedAt: Option<int>, receiptSent: bool, createdAt: int)

  /** `Donation.donor_display_name`: "Anonymous" for an anonymous gift, else
      the donor's name, else the user's full name, else "Anonymous". */
  function DonorDisplayName(d: Donation): (n: string)
    ensures d.isAnonymous ==> n == "Anonymous"
    ensures !d.isAnonymous && d.donorName != "" ==> n == d.donorName
    ensures !d.isAnonymous && d.donorName == "" && d.user.Some? ==> n == FullName(d.user.value)
    ensures !d.isAnonymous && d.donorName == "" && d.user.None? ==> n == "Anonymous"
  {
    if d.isAnonymous then "Anonymous"
    else if d.donorName != "" then d.donorName
    else if d.user.Some? then FullName(d.user.value)
    else "Anonymous"
  }

  /** An anonymous gift never shows the donor's own name. */
  lemma AnonymousHidesDonor(d: Donation)
    requires d.isAnonymous && d.donorName != "Anonymous"
    ensures DonorDisplayName(d) != d.donorName
  {
  }
}

module DonationSerializers {
  import opened Seqs
  import opened Users
  import opened DonationModels

  /** The $10,000 ceiling, in cents. */
  const MaxAmount: nat := 1_000_000

  /** `DonationCreateSerializer.validate_amount`: more than 0 and at most
      $10,000; an accepted amount is passed on unchanged. */
  function ValidateAmount(amount: int): (r: Result<nat>)
    ensures r.Ok? <==> 0 < amount <= MaxAmount
    ensures r.Ok? ==> r.value == amount
    ensures amount <= 0 ==> r == Err("Donation amount must be greater than 0.")
  {
    if amount <= 0 then Err("Donation amount must be greater than 0.")
    else if amount > MaxAmount then Err("Donation amount cannot exceed $10,000.")
    else Ok(amount)
  }

  /** The client-writable fields; `None` is a field left out. Status,
      transaction id and user are not among them. */
  datatype DonationPayload = DonationPayload(
    donorName: string, donorEmail: string, donorPhone: string, amount: int,
    donationType: Option<DonationType>, campaignId: Option<nat>, message: string,
    paymentMethod: Option<PaymentMethod>, isAnonymous: Option<bool>, showAmount: Option<bool>)

  /** The row `serializer.save(user=user)` inserts: the payload, the caller
      (None when anonymous) and the model defaults. */
  function NewDonation(id: nat, user: Option<User>, p: DonationPayload, amount: nat, now: int): (d: Donation)
    ensures d.user == user && d.amount == amount && d.createdAt == now
    ensures d.status == Pending && d.transactionId == "" && d.stripePaymentIntentId == ""
    ensures d.currency == "USD" && d.processedAt.None? && !d.receiptSent
    ensures d.paymentMethod == (if p.paymentMethod.Some? then p.paymentMethod.value else Card)
    ensures d.donationType == (if p.donationType.Some? then p.donationType.value else Offering)
    ensures d.showAmount == (p.showAmount.None? || p.showAmount.value)
  {
    Donation(id, user, p.donorName, p.donorEmail, p.donorPhone, amount, "USD",
      if p.donationType.Some? then p.donationType.value else Offering,
      p.campaignId, p.message,
      if p.paymentMethod.Some? then p.paymentMethod.value else Card,
      "", Pending, "",
      p.isAnonymous.Some? && p.isAnonymous.value,
      p.showAmount.None? || p.showAmount.value,
      None, false, now)
  }
}

module DonationViews {
  import opened Seqs
  import opened Users
  import opened DonationModels
  import opened DonationSerializers

  /** Python `int(x)`: truncation toward zero. */
  function Truncate(x: real): (i: int)
    ensures x >= 0.0 ==> i as real <= x < i as real + 1.0
    ensures x < 0.0 ==> i as real - 1.0 < x <= i as real
  {
    if x >= 0.0 then x.Floor else -((-x).Floor)
  }

  /** The amount sent to Stripe, `int(donation.amount * 100)`. */
  function StripeAmount(amount: real): (units: int)
    ensures amount >= 0.0 ==> units >= 0
  {
    Truncate(amount * 100.0)
  }

  /** A two-decimal amount reaches Stripe as exactly its number of cents:
      the truncation loses nothing. */
  lemma StripeAmountOfCents(cents: nat)
    ensures StripeAmount(cents as real / 100.0) == cents
  {
    assert (cents as real / 100.0) * 100.0 == cents as real;
  }

  /** What Stripe answered to `PaymentIntent.create`. */
  datatype StripeOutcome = IntentCreated(intentId: string, clientSecret: string) | StripeError(message: string)

  /** The HTTP status, the client secret handed back (if any), and the
      donation table afterwards. */
  datatype CreateReply = CreateReply(status: nat, clientSecret: Option<string>, donations: seq<Donation>)

  /** Whether `perform_create` asks Stripe for a payment intent. */
  predicate UsesStripe(d: Donation, stripeKeySet: bool)
  {
    d.paymentMethod == Card && stripeKeySet
  }

  /** The saved row once the Stripe step is done: the intent id recorded as
      both ids, or the status `failed` after a Stripe error. */
  function AfterStripe(d: Donation, stripeKeySet: bool, stripe: StripeOutcome): (e: Donation)
    ensures !UsesStripe(d, stripeKeySet) ==> e == d
    ensures UsesStripe(d, stripeKeySet) && stripe.IntentCreated? ==>
      e == d.(stripePaymentIntentId := stripe.intentId, transactionId := stripe.intentId)
    ensures UsesStripe(d, stripeKeySet) && stripe.StripeError? ==> e == d.(status := Failed)
  {
    if !UsesStripe(d, stripeKeySet) then d
    else match stripe
      case IntentCreated(intentId, _) => d.(stripePaymentIntentId := intentId, transactionId := intentId)
      case StripeError(_) => d.(status := Failed)
  }

  /** Non-empty transaction ids are distinct: the uniqueness the
      `transaction_id` column is meant to guarantee. */
  predicate Valid(rows: seq<Donation>)
  {
    forall i, j :: 0 <= i < j < |rows| && rows[i].transactionId != "" ==> rows[i].transactionId != rows[j].transactionId
  }

  predicate IdUnused(rows: seq<Donation>, transactionId: string)
  {
    forall k :: 0 <= k < |rows| ==> rows[k].transactionId != transactionId
  }

  /** `DonationCreateView` as written: the `Response` objects returned by
      `perform_create` are dropped by the generic create, so a saved donation
      is always answered 201 without a client secret, even after a Stripe
      error; and every row saved without a Stripe id holds the blank
      transaction id, which the unique column then refuses a second time. */
  function CreateDonationAsWritten(rows: seq<Donation>, id: nat, user: Option<User>, p: DonationPayload,
                                   now: int, stripeKeySet: bool, stripe: StripeOutcome): (out: CreateReply)
    ensures ValidateAmount(p.amount).Err? ==> out == CreateReply(400, None, rows)
    ensures out.status != 201 ==> out.donations == rows
    ensures out.clientSecret.None?
  {
    match ValidateAmount(p.amount)
    case Err(_) => CreateReply(400, None, rows)
    case Ok(amount) =>
      if exists k :: 0 <= k < |rows| && rows[k].transactionId == "" then CreateReply(500, None, rows)
      else CreateReply(201, None, rows + [AfterStripe(NewDonation(id, user, p, amount, now), stripeKeySet, stripe)])
  }

  /** `DonationCreateView` as intended: 400 for a refused amount; a created
      intent answers 200 with its client secret; a Stripe error marks the
      row failed and answers 400; any other donation is saved and answered 201. */
  function CreateDonation(rows: seq<Donation>, id: nat, user: Option<User>, p: DonationPayload,
                          now: int, stripeKeySet: bool, stripe: StripeOutcome): (out: CreateReply)
    ensures ValidateAmount(p.amount).Err? <==> out == CreateReply(400, None, rows)
    ensures ValidateAmount(p.amount).Ok? ==> |out.donations| == |rows| + 1 && out.donations[..|rows|] == rows
    ensures ValidateAmount(p.amount).Ok? ==> (var d := out.donations[|rows|];
      d.amount == p.amount && d.user == user
      && (out.status == 200 <==> UsesStripe(d, stripeKeySet) && stripe.IntentCreated?)
      && (out.clientSecret.Some? <==> out.status == 200)
      && (d.status == Failed <==> UsesStripe(d, stripeKeySet) && stripe.StripeError?))
    ensures out.status in {200, 201, 400}
  {
    match ValidateAmount(p.amount)
    case Err(_) => CreateReply(400, None, rows)
    case Ok(amount) =>
      var d := NewDonation(id, user, p, amount, now);
      var saved := AfterStripe(d, stripeKeySet, stripe);
      assert (rows + [saved])[..|rows|] == rows;
      if !UsesStripe(d, stripeKeySet) then CreateReply(201, None, rows + [saved])
      else match stripe
        case IntentCreated(_, secret) => CreateReply(200, Some(secret), rows + [saved])
        case StripeError(_) => CreateReply(400, None, rows + [saved])
  }

  /** A created donation keeps transaction ids unique, given that Stripe's
      intent id is new to the table. */
  lemma CreateKeepsValid(rows: seq<Donation>, id: nat, user: Option<User>, p: DonationPayload,
                         now: int, stripeKeySet: bool, stripe: StripeOutcome)
    requires Valid(rows)
    requires stripe.IntentCreated? ==> IdUnused(rows, stripe.intentId)
    ensures Valid(CreateDonation(rows, id, user, p, now, stripeKeySet, stripe).donations)
  {
  }

  /** As written, the client never receives a client secret, so a card
      payment cannot be confirmed, and a Stripe failure reads as success. */
  lemma AsWrittenNeverHandsOutSecret(rows: seq<Donation>, id: nat, user: Option<User>, p: DonationPayload,
                                     now: int, stripe: StripeOutcome)
    requires ValidateAmount(p.amount).Ok? && p.paymentMethod == Some(Card)
    requires forall k :: 0 <= k < |rows| ==> rows[k].transactionId != ""
    ensures var written := CreateDonationAsWritten(rows, id, user, p, now, true, stripe);
      written.status == 201 && written.clientSecret.None?
    ensures CreateDonation(rows, id, user, p, now, true, stripe).status != 201
  {
  }

  /** As written, a first cash donation saves the blank transaction id and a
      second one, with a valid amount, is refused with a server error. */
  lemma SecondBlankTransactionRefused(id1: nat, id2: nat, user: Option<User>, p: DonationPayload, q: DonationPayload, now: int)
    requires ValidateAmount(p.amount).Ok? && ValidateAmount(q.amount).Ok?
    requires p.paymentMethod == Some(Cash)
    ensures var first := CreateDonationAsWritten([], id1, user, p, now, true, IntentCreated("pi_1", "secret"));
      first.status == 201
      && CreateDonationAsWritten(first.donations, id2, user, q, now, true, IntentCreated("pi_2", "secret")).status == 500
    ensures var first := CreateDonation([], id1, user, p, now, true, IntentCreated("pi_1", "secret"));
      CreateDonation(first.donations, id2, user, q, now, true, IntentCreated("pi_2", "secret")).status != 500
  {
    var first := CreateDonationAsWritten([], id1, user, p, now, true, IntentCreated("pi_1", "secret"));
    assert first.donations[0].transactionId == "";
  }

  /** The Stripe event as `construct_event` hands it over, or why it refused. */
  datatype WebhookInput = InvalidPayload | InvalidSignature | StripeEvent(kind: string, intentId: string)

  datatype WebhookOutcome = WebhookOutcome(status: nat, donations: seq<Donation>, campaigns: seq<DonationCampaign>)

  function WithIntent(intentId: string): Donation -> bool
  {
    (d: Donation) => d.stripePaymentIntentId == intentId
  }

  function CampaignWithId(id: nat): DonationCampaign -> bool
  {
    (c: DonationCampaign) => c.id == id
  }

  /** `campaign.current_amount += donation.amount` for the donation's
      campaign, when it has one. */
  function AddToCampaign(campaigns: seq<DonationCampaign>, d: Donation): (r: seq<DonationCampaign>)
    ensures |r| == |campaigns|
  {
    if d.campaignId.None? then campaigns
    else match FindIndex(campaigns, CampaignWithId(d.campaignId.value))
      case None => campaigns
      case Some(i) => campaigns[i := campaigns[i].(currentAmount := campaigns[i].currentAmount + d.amount)]
  }

  /** Only the donation's own campaign gains, by the donation's amount; a
      donation without a campaign changes nothing. */
  lemma AddToCampaignCredits(campaigns: seq<DonationCampaign>, d: Donation)
    ensures d.campaignId.None? ==> AddToCampaign(campaigns, d) == campaigns
    ensures d.campaignId.Some? ==> forall k :: 0 <= k < |campaigns| ==>
      AddToCampaign(campaigns, d)[k]
        == if campaigns[k].id == d.campaignId.value && FindIndex(campaigns, CampaignWithId(d.campaignId.value)) == Some(k)
           then campaigns[k].(currentAmount := campaigns[k].currentAmount + d.amount) else campaigns[k]
  {
  }

  /** `stripe_webhook` as written: a refused event is 400; a `succeeded` event
      for a known intent reaches `timezone.now()` with `timezone` never
      imported in that scope, so it fails with a server error and saves
      nothing; a `payment_failed` event marks the donation failed; an
      unknown intent or event type is 200 with nothing changed; an intent id
      shared by several donations makes `get` fail. */
  function WebhookAsWritten(donations: seq<Donation>, campaigns: seq<DonationCampaign>, input: WebhookInput): (out: WebhookOutcome)
    ensures !input.StripeEvent? ==> out == WebhookOutcome(400, donations, campaigns)
    ensures out.campaigns == campaigns && |out.donations| == |donations|
    ensures forall k :: 0 <= k < |out.donations| ==> out.donations[k].status == Completed ==> donations[k].status == Completed
  {
    match input
    case InvalidPayload => WebhookOutcome(400, donations, campaigns)
    case InvalidSignature => WebhookOutcome(400, donations, campaigns)
    case StripeEvent(kind, intentId) =>
      var n := Count(donations, WithIntent(intentId));
      FoundIffCounted(donations, WithIntent(intentId));
      if kind == "payment_intent.succeeded" then
        if n == 0 then WebhookOutcome(200, donations, campaigns) else WebhookOutcome(500, donations, campaigns)
      else if kind == "payment_intent.payment_failed" then
        if n == 0 then WebhookOutcome(200, donations, campaigns)
        else if n > 1 then WebhookOutcome(500, donations, campaigns)
        else
          var i := FindIndex(donations, WithIntent(intentId)).value;
          WebhookOutcome(200, donations[i := donations[i].(status := Failed)], campaigns)
      else WebhookOutcome(200, donations, campaigns)
  }

  /** `stripe_webhook` as intended: a `succeeded` event for a known intent
      completes the donation, stamps `processed_at` and adds its amount to
      its campaign. Nothing guards against the same event arriving twice. */
  function Webhook(donations: seq<Donation>, campaigns: seq<DonationCampaign>, input: WebhookInput, now: int): (out: WebhookOutcome)
    ensures !input.StripeEvent? ==> out == WebhookOutcome(400, donations, campaigns)
    ensures out.status != 200 ==> out.donations == donations && out.campaigns == campaigns
    ensures |out.donations| == |donations|
    ensures input.StripeEvent? && Count(donations, WithIntent(input.intentId)) == 0 ==>
      out == WebhookOutcome(200, donations, campaigns)
    ensures input.StripeEvent? && input.kind != "payment_intent.succeeded" && input.kind != "payment_intent.payment_failed" ==>
      out == WebhookOutcome(200, donations, campaigns)
    ensures input.StripeEvent? && input.kind == "payment_intent.payment_failed" && Count(donations, WithIntent(input.intentId)) == 1 ==>
      out.status == 200 && out.campaigns == campaigns
      && (exists i :: (0 <= i < |donations| && WithIntent(input.intentId)(donations[i])
          && out.donations == donations[i := donations[i].(status := Failed)]))
    ensures input.StripeEvent? && input.kind == "payment_intent.succeeded" && Count(donations, WithIntent(input.intentId)) == 1 ==>
      out.status == 200
      && (exists i :: (0 <= i < |donations| && WithIntent(input.intentId)(donations[i])
          && out.donations == donations[i := donations[i].(status := Completed, processedAt := Some(now))]
          && out.campaigns == AddToCampaign(campaigns, donations[i])))
  {
    match input
    case InvalidPayload => WebhookOutcome(400, donations, campaigns)
    case InvalidSignature => WebhookOutcome(400, donations, campaigns)
    case StripeEvent(kind, intentId) =>
      var n := Count(donations, WithIntent(intentId));
      FoundIffCounted(donations, WithIntent(intentId));
      if (kind != "payment_intent.succeeded" && kind != "payment_intent.payment_failed") || n == 0 then
        WebhookOutcome(200, donations, campaigns)
      else if n > 1 then WebhookOutcome(500, donations, campaigns)
      else
        var i := FindIndex(donations, WithIntent(intentId)).value;
        if kind == "payment_intent.succeeded" then
          WebhookOutcome(200, donations[i := donations[i].(status := Completed, processedAt := Some(now))],
                         AddToCampaign(campaigns, donations[i]))
        else WebhookOutcome(200, donations[i := donations[i].(status := Failed)], campaigns)
  }

  /** As written, a `succeeded` event for a known intent never completes the
      donation nor moves the campaign total; as intended it does both. */
  lemma SucceededEventFailsAsWritten(donations: seq<Donation>, campaigns: seq<DonationCampaign>, intentId: string, now: int)
    requires Count(donations, WithIntent(intentId)) == 1
    ensures var input := StripeEvent("payment_intent.succeeded", intentId);
      WebhookAsWritten(donations, campaigns, input) == WebhookOutcome(500, donations, campaigns)
    ensures var i := FindIndex(donations, WithIntent(intentId)).value;
      Webhook(donations, campaigns, StripeEvent("payment_intent.succeeded", intentId), now).donations[i].status == Completed
  {
    FoundIffCounted(donations, WithIntent(intentId));
  }

  /** No replay guard: the same `succeeded` event delivered twice adds the
      donation's amount to its campaign twice. */
  lemma SucceededReplayCountsTwice(donations: seq<Donation>, campaigns: seq<DonationCampaign>, intentId: string, now: int, j: nat)
    requires Count(donations, WithIntent(intentId)) == 1
    requires j < |campaigns|
    requires var i := FindIndex(donations, WithIntent(intentId));
      i.Some? && donations[i.value].campaignId == Some(campaigns[j].id)
      && FindIndex(campaigns, CampaignWithId(campaigns[j].id)) == Some(j)
    ensures var input := StripeEvent("payment_intent.succeeded", intentId);
      var once := Webhook(donations, campaigns, input, now);
      var twice := Webhook(once.donations, once.campaigns, input, now);
      twice.campaigns[j].currentAmount == campaigns[j].currentAmount + 2 * donations[FindIndex(donations, WithIntent(intentId)).value].amount
  {
    var i := FindIndex(donations, WithIntent(intentId)).value;
    var d := donations[i].(status := Completed, processedAt := Some(now));
    var id := campaigns[j].id;
    SucceededStep(donations, campaigns, intentId, now, i);
    var c1 := AddToCampaign(campaigns, donations[i]);
    AddToCampaignCredits(campaigns, donations[i]);
    assert c1[j].currentAmount == campaigns[j].currentAmount + d.amount && c1[j].id == id;
    assert forall k :: 0 <= k < j ==> c1[k] == campaigns[k];
    assert Count(donations[i := d], WithIntent(intentId)) == 1 by {
      CountUpdate(donations, i, d, WithIntent(intentId));
    }
    FindIndexAt(donations[i := d], WithIntent(intentId), i);
    SucceededStep(donations[i := d], c1, intentId, now, i);
    FindIndexAt(c1, CampaignWithId(id), j);
    AddToCampaignCredits(c1, d);
  }

  /** One `succeeded` event for an intent held by exactly the donation at `i`. */
  lemma SucceededStep(donations: seq<Donation>, campaigns: seq<DonationCampaign>, intentId: string, now: int, i: nat)
    requires Count(donations, WithIntent(intentId)) == 1
    requires FindIndex(donations, WithIntent(intentId)) == Some(i)
    ensures Webhook(donations, campaigns, StripeEvent("payment_intent.succeeded", intentId), now)
      == WebhookOutcome(200, donations[i := donations[i].(status := Completed, processedAt := Some(now))],
                        AddToCampaign(campaigns, donations[i]))
  {
  }

  /** Whether a `failed` event for a donation that is already completed
      changes it back: the handler does not look at the current status. */
  lemma FailedEventOverridesCompleted(donations: seq<Donation>, campaigns: seq<DonationCampaign>, intentId: string, now: int)
    requires Count(donations, WithIntent(intentId)) == 1
    ensures var i := FindIndex(donations, WithIntent(intentId)).value;
      Webhook(donations, campaigns, StripeEvent("payment_intent.payment_failed", intentId), now).donations[i].status == Failed
  {
    FoundIffCounted(donations, WithIntent(intentId));
  }

  function CompletedBy(u: User): Donation -> bool
  {
    (d: Donation) => d.user.Some? && d.user.value.id == u.id && d.status == Completed
  }

  function NewerFirst(): (Donation, Donation) -> bool
  {
    (a: Donation, b: Donation) => a.createdAt >= b.createdAt
  }

  lemma NewerFirstIsOrder()
    ensures Total(NewerFirst()) && Transitive(NewerFirst())
  {
  }

  /** `DonationHistoryView.get_queryset`: the caller's completed donations, all
      of them and only those, newest first. */
  function DonationHistory(rows: seq<Donation>, u: User): (r: seq<Donation>)
    ensures multiset(r) == multiset(Filter(rows, CompletedBy(u)))
    ensures forall d :: d in r <==> d in rows && d.user.Some? && d.user.value.id == u.id && d.status == Completed
    ensures SortedBy(r, NewerFirst())
  {
    NewerFirstIsOrder();
    var r := SortBy(Filter(rows, CompletedBy(u)), NewerFirst());
    SameMembers(r, Filter(rows, CompletedBy(u)));
    r
  }

  function ActiveCampaign(): DonationCampaign -> bool
  {
    (c: DonationCampaign) => c.isActive
  }

  /** `['-is_featured', '-start_date']`. */
  function FeaturedThenNewest(): (DonationCampaign, DonationCampaign) -> bool
  {
    (a: DonationCampaign, b: DonationCampaign) =>
      (a.isFeatured && !b.isFeatured) || (a.isFeatured == b.isFeatured && a.startDate >= b.startDate)
  }

  lemma FeaturedThenNewestIsOrder()
    ensures Total(FeaturedThenNewest()) && Transitive(FeaturedThenNewest())
  {
  }

  /** `DonationCampaignListView.get_queryset`: the active campaigns, featured
      ones first, each group newest first. */
  function CampaignList(campaigns: seq<DonationCampaign>): (r: seq<DonationCampaign>)
    ensures multiset(r) == multiset(Filter(campaigns, ActiveCampaign()))
    ensures forall c :: c in r <==> c in campaigns && c.isActive
    ensures forall i, j :: 0 <= i < j < |r| ==> (r[i].isFeatured || !r[j].isFeatured)
    ensures forall i, j :: 0 <= i < j < |r| && r[i].isFeatured == r[j].isFeatured ==> r[i].startDate >= r[j].startDate
  {
    FeaturedThenNewestIsOrder();
    var r := SortBy(Filter(campaigns, ActiveCampaign()), FeaturedThenNewest());
    SameMembers(r, Filter(campaigns, ActiveCampaign()));
    assert SortedBy(r, FeaturedThenNewest());
    r
  }

  datatype DonationStats = DonationStats(totalAmount: nat, totalDonations: nat, monthlyAmount: nat,
                                         monthlyDonations: nat, activeCampaigns: nat)

  function IsCompletedDonation(): Donation -> bool { (d: Donation) => d.status == Completed }
  function CreatedSince(start: int): Donation -> bool { (d: Donation) => d.createdAt >= start }
  function AmountOf(): Donation -> nat { (d: Donation) => d.amount }

  /** `donation_stats`, with the first instant of the current month given.
      Empty aggregates read 0; this month's figures stay within the totals. */
  function Stats(donations: seq<Donation>, campaigns: seq<DonationCampaign>, monthStart: int): (st: DonationStats)
    ensures donations == [] ==> st.totalAmount == 0 && st.totalDonations == 0 && st.monthlyAmount == 0 && st.monthlyDonations == 0
    ensures st.monthlyAmount <= st.totalAmount
    ensures st.monthlyDonations <= st.totalDonations <= |donations|
    ensures st.activeCampaigns <= |campaigns|
    ensures st.totalDonations == 0 ==> st.totalAmount == 0
  {
    var completed := Filter(donations, IsCompletedDonation());
    var monthly := Filter(completed, CreatedSince(monthStart));
    SumFilterLeq(completed, CreatedSince(monthStart), AmountOf());
    DonationStats(SumOf(completed, AmountOf()), |completed|, SumOf(monthly, AmountOf()), |monthly|,
                  Count(campaigns, ActiveCampaign()))
  }

  /** The donation and campaign tables behind the create and webhook endpoints. */
  class DonationTables {
    var donations: seq<Donation>
    var campaigns: seq<DonationCampaign>

    constructor (campaigns0: seq<DonationCampaign>)
      ensures donations == [] && campaigns == campaigns0
    {
      donations := [];
      campaigns := campaigns0;
    }

    /** `DonationCreateView.create`, with Stripe's answer given. */
    method CreateDonationRequest(id: nat, user: Option<User>, p: DonationPayload, now: int,
                                 stripeKeySet: bool, stripe: StripeOutcome) returns (status: nat, clientSecret: Option<string>)
      modifies this`donations
      ensures CreateReply(status, clientSecret, donations) == CreateDonation(old(donations), id, user, p, now, stripeKeySet, stripe)
    {
      var checked := ValidateAmount(p.amount);
      if checked.Err? {
        return 400, None;
      }
      var donation := NewDonation(id, user, p, checked.value, now);
      status, clientSecret := 201, None;
      if donation.paymentMethod == Card && stripeKeySet {
        match stripe {
          case IntentCreated(intentId, secret) =>
            donation := donation.(stripePaymentIntentId := intentId, transactionId := intentId);
            status, clientSecret := 200, Some(secret);
          case StripeError(_) =>
            donation := donation.(status := Failed);
            status := 400;
        }
      }
      donations := donations + [donation];
    }

    /** `stripe_webhook`. */
    method StripeWebhook(input: WebhookInput, now: int) returns (status: nat)
      modifies this
      ensures WebhookOutcome(status, donations, campaigns) == Webhook(old(donations), old(campaigns), input, now)
    {
      if !input.StripeEvent? {
        return 400;
      }
      var kind, intentId := input.kind, input.intentId;
      if kind != "payment_intent.succeeded" && kind != "payment_intent.payment_failed" {
        return 200;
      }
      var n := Count(donations, WithIntent(intentId));
      if n == 0 {
        return 200;
      }
      if n > 1 {
        return 500;
      }
      var i := FindIndex(donations, WithIntent(intentId)).value;
      var donation := donations[i];
      if kind == "payment_intent.succeeded" {
        donations := donations[i := donation.(status := Completed, processedAt := Some(now))];
        campaigns := AddToCampaign(campaigns, donation);
      } else {
        donations := donations[i := donation.(status := Failed)];
      }
      status := 200;
    }
  }
}
