/**
 * The Stripe webhook handler (`POST /api/stripe/webhook`) as a function of the
 * account table: which rows each event writes, and the reply it sends back.
 *
 * Signature verification and the subscription lookup are calls into Stripe and
 * enter as inputs: `signatureValid`, and `lookup`, the `current_period_end`
 * (in seconds) that `stripe.subscriptions.retrieve` returned, or `None` when
 * the call threw or the field was missing.
 */
module Webhook {
  import opened Wrappers
  import opened Accounts

  const CheckoutSessionCompleted := "checkout.session.completed"
  const InvoicePaymentSucceeded := "invoice.payment_succeeded"
  const CustomerSubscriptionDeleted := "customer.subscription.deleted"

  /** Balance a paid checkout grants, and the one a cancelled subscription falls back to. */
  const ProCredits := 200
  const FreeCredits := 5

  /**
   * `event.data.object`, reduced to the fields the handler reads: the object's
   * own `id` (a subscription id on a deletion event), `metadata.clerkId`,
   * `customer` and `subscription`.
   */
  datatype EventObject = EventObject(
    id: Option<string>,
    clerkId: Option<string>,
    customer: Option<string>,
    subscription: Option<string>)

  datatype Event = Event(eventType: string, dataObject: EventObject)

  /** The JSON body `{ received }` and the HTTP status. */
  datatype WebhookReply = WebhookReply(status: int, received: bool)

  /**
   * A session field placed in an update payload: a missing value (`undefined`)
   * leaves the column. A `null` sent by Stripe, which Prisma would write as
   * NULL, is not modelled; this application's own checkout sessions always
   * carry both references.
   */
  function Optional<T>(o: Option<T>): Write<Option<T>> {
    if o.Some? then Set(o) else Keep
  }

  /**
   * `currentPeriodEnd` of the checkout handler: the subscription is looked up
   * only when its id is truthy, and a period end of 0 is falsy.
   */
  function PeriodEndMillis(subscriptionId: Option<string>, lookup: Option<int>): Option<int> {
    if Truthy(subscriptionId) && lookup.Some? && lookup.value != 0 then Some(lookup.value * 1000) else None
  }

  /** The `update` payload of both checkout upserts; the customer column is written only when keyed by `clerkId`. */
  function ProUpdate(customer: Write<Option<string>>, s: EventObject, periodEnd: Option<int>): (p: AccountPatch)
    ensures PatchOk(p)
    ensures forall a {:trigger Apply(a, p)} ::
              var b := Apply(a, p);
              && b.clerkId == a.clerkId && b.plan == Pro && Balance(b) == ProCredits
              && b.stripeSubscriptionId == (if s.subscription.Some? then s.subscription else a.stripeSubscriptionId)
              && b.currentPeriodEnd == (if periodEnd.Some? then periodEnd else a.currentPeriodEnd)
  {
    AccountPatch(Set(Pro), Set(Some(ProCredits)), customer, Optional(s.subscription), Optional(periodEnd))
  }

  /** The `create` payload of both checkout upserts. */
  function ProRow(clerkId: string, s: EventObject, periodEnd: Option<int>): (r: Account)
    ensures r.clerkId == clerkId && r.plan == Pro && Balance(r) == ProCredits
    ensures ValidUsers(map[clerkId := r])
  {
    Account(clerkId, Pro, Some(ProCredits), s.customer, s.subscription, periodEnd)
  }

  /** `checkout.session.completed`: resolve by `clerkId`, else by customer, else do nothing. */
  function CheckoutEffect(users: Users, s: EventObject, lookup: Option<int>): (r: Result<Users, StoreError>)
    requires ValidUsers(users)
    ensures r.Ok? ==> ValidUsers(r.value) && users.Keys <= r.value.Keys
  {
    var periodEnd := PeriodEndMillis(s.subscription, lookup);
    if Truthy(s.clerkId) then
      UpsertByClerkId(users, s.clerkId.value, ProUpdate(Optional(s.customer), s, periodEnd), ProRow(s.clerkId.value, s, periodEnd))
    else if Truthy(s.customer) then
      UpsertByCustomerId(users, s.customer.value, ProUpdate(Keep, s, periodEnd), ProRow("", s, periodEnd))
    else
      Ok(users)
  }

  /** The `data` of the cancellation's update-many. */
  const Downgrade := AccountPatch(Set(Free), Set(Some(FreeCredits)), Keep, Set(None), Keep)

  /** `customer.subscription.deleted`: downgrade every row holding the subscription id. */
  function SubscriptionDeletedEffect(users: Users, sub: EventObject): (r: Result<Users, StoreError>)
    requires ValidUsers(users)
    ensures r.Ok? && ValidUsers(r.value) && r.value.Keys == users.Keys
  {
    if Truthy(sub.id) then
      ClearingSubscriptionIsUnique(users, SubscriptionIs(sub.id.value), Downgrade);
      UpdateMany(users, SubscriptionIs(sub.id.value), Downgrade)
    else
      Ok(users)
  }

  /** The `switch (event.type)`; `invoice.payment_succeeded` and unknown types write nothing. */
  function Dispatch(users: Users, ev: Event, lookup: Option<int>): (r: Result<Users, StoreError>)
    requires ValidUsers(users)
    ensures r.Ok? ==> ValidUsers(r.value) && users.Keys <= r.value.Keys
  {
    if ev.eventType == CheckoutSessionCompleted then CheckoutEffect(users, ev.dataObject, lookup)
    else if ev.eventType == InvoicePaymentSucceeded then Ok(users)
    else if ev.eventType == CustomerSubscriptionDeleted then SubscriptionDeletedEffect(users, ev.dataObject)
    else Ok(users)
  }

  /** The whole handler: the new table and the reply. */
  function HandleWebhook(users: Users, signatureValid: bool, ev: Event, lookup: Option<int>): (r: (Users, WebhookReply))
    requires ValidUsers(users)
    ensures ValidUsers(r.0) && users.Keys <= r.0.Keys
    ensures !signatureValid ==> r == (users, WebhookReply(400, false))
    ensures signatureValid ==> (r.1.received <==> r.1.status == 200)
    ensures signatureValid && !r.1.received ==> r.1.status == 500
    ensures !r.1.received ==> r.0 == users
    ensures signatureValid ==> (r.1.received <==> Dispatch(users, ev, lookup).Ok?)
    ensures signatureValid && r.1.received ==> r.0 == Dispatch(users, ev, lookup).value
  {
    if !signatureValid then
      (users, WebhookReply(400, false))
    else
      match Dispatch(users, ev, lookup)
      case Ok(m) => (m, WebhookReply(200, true))
      case Err(_) => (users, WebhookReply(500, false))
  }

  /**
   * Checkout with a truthy `clerkId`: the row keyed by it (created when absent)
   * ends on the pro plan with 200 credits and the session's references, a
   * reference the session leaves undefined keeps its old value (NULL on a new
   * row), and no other row changes. The write fails exactly when another row
   * already holds the session's customer or subscription.
   */
  lemma CheckoutByClerkId(users: Users, s: EventObject, lookup: Option<int>)
    requires ValidUsers(users) && Truthy(s.clerkId)
    ensures var id := s.clerkId.value;
            var pe := PeriodEndMillis(s.subscription, lookup);
            var r := CheckoutEffect(users, s, lookup);
            && (r.Err? <==> (exists k :: k in users && k != id &&
                                   ((s.customer.Some? && users[k].stripeCustomerId == s.customer) ||
                                    (s.subscription.Some? && users[k].stripeSubscriptionId == s.subscription))))
            && (r.Ok? ==>
                  && r.value.Keys == users.Keys + {id}
                  && r.value[id].plan == Pro
                  && r.value[id].credits == Some(ProCredits)
                  && r.value[id].stripeCustomerId ==
                       (if s.customer.Some? then s.customer else if id in users then users[id].stripeCustomerId else None)
                  && r.value[id].stripeSubscriptionId ==
                       (if s.subscription.Some? then s.subscription else if id in users then users[id].stripeSubscriptionId else None)
                  && r.value[id].currentPeriodEnd ==
                       (if pe.Some? then pe else if id in users then users[id].currentPeriodEnd else None)
                  && forall k :: k in users && k != id ==> r.value[k] == users[k])
  {
    var id := s.clerkId.value;
    var pe := PeriodEndMillis(s.subscription, lookup);
    var row := if id in users then Apply(users[id], ProUpdate(Optional(s.customer), s, pe)) else ProRow(id, s, pe);
    forall k | k in users && k != id
      ensures Clashes(users[k], row) <==>
                (s.customer.Some? && users[k].stripeCustomerId == s.customer) ||
                (s.subscription.Some? && users[k].stripeSubscriptionId == s.subscription)
    {
      if id in users {
        assert !Clashes(users[k], users[id]);
      }
    }
  }

  /**
   * Checkout without a truthy `clerkId` but with a truthy customer: the row
   * holding that customer becomes pro with 200 credits and no other row
   * changes; when no row holds it, a row keyed by "" is created, which fails
   * when a row keyed by "" already exists or another row holds the
   * subscription.
   */
  lemma CheckoutByCustomer(users: Users, s: EventObject, lookup: Option<int>)
    requires ValidUsers(users) && !Truthy(s.clerkId) && Truthy(s.customer)
    ensures var c := s.customer.value;
            var pe := PeriodEndMillis(s.subscription, lookup);
            var r := CheckoutEffect(users, s, lookup);
            && (forall k :: k in users && users[k].stripeCustomerId == Some(c) ==>
                  (r.Err? <==> (s.subscription.Some? &&
                                exists j :: j in users && j != k && users[j].stripeSubscriptionId == s.subscription)) &&
                  (r.Ok? ==>
                    && r.value.Keys == users.Keys
                    && r.value[k].plan == Pro
                    && r.value[k].credits == Some(ProCredits)
                    && r.value[k].stripeCustomerId == Some(c)
                    && r.value[k].stripeSubscriptionId == (if s.subscription.Some? then s.subscription else users[k].stripeSubscriptionId)
                    && r.value[k].currentPeriodEnd == (if pe.Some? then pe else users[k].currentPeriodEnd)
                    && forall j :: j in users && j != k ==> r.value[j] == users[j]))
            && ((forall k :: k in users ==> users[k].stripeCustomerId != Some(c)) ==>
                  && (r.Err? <==> "" in users || exists k :: k in users && s.subscription.Some? && users[k].stripeSubscriptionId == s.subscription)
                  && (r.Ok? ==> r.value == users["" := ProRow("", s, pe)]))
  {
    var c := s.customer.value;
    var pe := PeriodEndMillis(s.subscription, lookup);
    var upd := ProUpdate(Keep, s, pe);
    forall k | k in users && users[k].stripeCustomerId == Some(c)
      ensures forall j :: j in users && j != k ==> !Matches(users[j], CustomerIs(c))
      ensures UpdateMatching(users, CustomerIs(c), upd) == users[k := Apply(users[k], upd)]
      ensures UniqueRefs(users[k := Apply(users[k], upd)]) <==>
                !(s.subscription.Some? && exists j :: j in users && j != k && users[j].stripeSubscriptionId == s.subscription)
    {
      forall j | j in users && j != k ensures !Matches(users[j], CustomerIs(c)) {
        if Matches(users[j], CustomerIs(c)) {
          AtMostOneMatch(users, CustomerIs(c), j, k);
        }
      }
      var row := Apply(users[k], upd);
      WriteKeepsUnique(users, k, row);
      forall j | j in users && j != k
        ensures Clashes(users[j], row) <==> s.subscription.Some? && users[j].stripeSubscriptionId == s.subscription
      {
        assert !Clashes(users[j], users[k]);
      }
    }
  }

  /** Checkout with neither a truthy `clerkId` nor a truthy customer writes nothing. */
  lemma CheckoutWithoutIds(users: Users, s: EventObject, lookup: Option<int>)
    requires ValidUsers(users) && !Truthy(s.clerkId) && !Truthy(s.customer)
    ensures CheckoutEffect(users, s, lookup) == Ok(users)
  {
  }

  /**
   * Cancellation with a truthy subscription id: every row holding it becomes
   * free with 5 credits and no subscription, every other row is unchanged, and
   * the write never fails.
   */
  lemma SubscriptionDeletedDowngrades(users: Users, sub: EventObject)
    requires ValidUsers(users)
    ensures var r := SubscriptionDeletedEffect(users, sub);
            && r.Ok?
            && r.value.Keys == users.Keys
            && forall k :: k in users ==>
                 r.value[k] == if Truthy(sub.id) && users[k].stripeSubscriptionId == sub.id
                               then users[k].(plan := Free, credits := Some(FreeCredits), stripeSubscriptionId := None)
                               else users[k]
  {
  }

  /** `invoice.payment_succeeded` and unrecognised types leave the table and are acknowledged. */
  lemma PassiveEventsAcknowledged(users: Users, ev: Event, lookup: Option<int>)
    requires ValidUsers(users)
    requires ev.eventType != CheckoutSessionCompleted && ev.eventType != CustomerSubscriptionDeleted
    ensures HandleWebhook(users, true, ev, lookup) == (users, WebhookReply(200, true))
  {
  }

  /** A checkout payload agrees with its own create row, so re-applying the update to a fresh row changes nothing. */
  lemma ProRowStable(id: string, customer: Write<Option<string>>, s: EventObject, pe: Option<int>)
    requires customer.Keep? || customer == Optional(s.customer)
    ensures Apply(ProRow(id, s, pe), ProUpdate(customer, s, pe)) == ProRow(id, s, pe)
  {
  }

  /**
   * A redelivery's lookup agrees with the first one on the period end, or
   * yields none (the retrieve call threw, the field was missing or zero), in
   * which case the column is left as the first delivery wrote it.
   */
  predicate SamePeriodEnd(subscriptionId: Option<string>, first: Option<int>, again: Option<int>) {
    var pe := PeriodEndMillis(subscriptionId, again);
    pe.None? || pe == PeriodEndMillis(subscriptionId, first)
  }

  lemma CheckoutIdempotentByClerkId(users: Users, s: EventObject, lookup: Option<int>, again: Option<int>)
    requires ValidUsers(users) && Truthy(s.clerkId) && SamePeriodEnd(s.subscription, lookup, again)
    ensures var r := CheckoutEffect(users, s, lookup);
            r.Ok? ==> CheckoutEffect(r.value, s, again) == r
  {
    var r := CheckoutEffect(users, s, lookup);
    if r.Ok? {
      var m := r.value;
      var id := s.clerkId.value;
      var pe := PeriodEndMillis(s.subscription, lookup);
      var upd := ProUpdate(Optional(s.customer), s, pe);
      var upd2 := ProUpdate(Optional(s.customer), s, PeriodEndMillis(s.subscription, again));
      if id in users {
        ApplyIdempotent(users[id], upd);
      } else {
        ProRowStable(id, Optional(s.customer), s, pe);
      }
      assert Apply(m[id], upd2) == m[id];
      assert m[id := Apply(m[id], upd2)] == m;
    }
  }

  lemma CheckoutIdempotentByCustomer(users: Users, s: EventObject, lookup: Option<int>, again: Option<int>)
    requires ValidUsers(users) && !Truthy(s.clerkId) && Truthy(s.customer) && SamePeriodEnd(s.subscription, lookup, again)
    ensures var r := CheckoutEffect(users, s, lookup);
            r.Ok? ==> CheckoutEffect(r.value, s, again) == r
  {
    var r := CheckoutEffect(users, s, lookup);
    if r.Ok? {
      var m := r.value;
      var c := s.customer.value;
      var pe := PeriodEndMillis(s.subscription, lookup);
      var upd := ProUpdate(Keep, s, pe);
      var upd2 := ProUpdate(Keep, s, PeriodEndMillis(s.subscription, again));
      if exists k :: k in users && Matches(users[k], CustomerIs(c)) {
        var k :| k in users && Matches(users[k], CustomerIs(c));
        assert k in m && Matches(m[k], CustomerIs(c));
        forall j | j in m ensures UpdateMatching(m, CustomerIs(c), upd2)[j] == m[j] {
          ApplyIdempotent(users[j], upd);
        }
        assert UpdateMatching(m, CustomerIs(c), upd2) == m;
      } else {
        ProRowStable("", Keep, s, pe);
        assert "" in m && Matches(m[""], CustomerIs(c));
        assert UpdateMatching(m, CustomerIs(c), upd2) == m;
      }
    }
  }

  /**
   * Checkout writes absolute values only, so a successful checkout applied
   * again changes nothing, provided the second lookup does not report a
   * different period end.
   */
  lemma CheckoutIdempotent(users: Users, s: EventObject, lookup: Option<int>, again: Option<int>)
    requires ValidUsers(users) && SamePeriodEnd(s.subscription, lookup, again)
    ensures var r := CheckoutEffect(users, s, lookup);
            r.Ok? ==> CheckoutEffect(r.value, s, again) == r
  {
    if Truthy(s.clerkId) {
      CheckoutIdempotentByClerkId(users, s, lookup, again);
    } else if Truthy(s.customer) {
      CheckoutIdempotentByCustomer(users, s, lookup, again);
    }
  }

  lemma LookupDoesNotDecideByClerkId(users: Users, s: EventObject, l1: Option<int>, l2: Option<int>)
    requires ValidUsers(users) && Truthy(s.clerkId)
    ensures CheckoutEffect(users, s, l1).Ok? == CheckoutEffect(users, s, l2).Ok?
  {
    CheckoutByClerkId(users, s, l1);
    CheckoutByClerkId(users, s, l2);
  }

  lemma LookupDoesNotDecideByCustomer(users: Users, s: EventObject, l1: Option<int>, l2: Option<int>)
    requires ValidUsers(users) && !Truthy(s.clerkId) && Truthy(s.customer)
    ensures CheckoutEffect(users, s, l1).Ok? == CheckoutEffect(users, s, l2).Ok?
  {
    var c := s.customer.value;
    var pe1 := PeriodEndMillis(s.subscription, l1);
    var pe2 := PeriodEndMillis(s.subscription, l2);
    if exists k :: k in users && Matches(users[k], CustomerIs(c)) {
      UniqueRefsByReferences(UpdateMatching(users, CustomerIs(c), ProUpdate(Keep, s, pe1)),
                             UpdateMatching(users, CustomerIs(c), ProUpdate(Keep, s, pe2)));
    } else {
      forall k | k in users ensures Clashes(users[k], ProRow("", s, pe1)) == Clashes(users[k], ProRow("", s, pe2)) {
      }
    }
  }

  /**
   * Whether a checkout is refused never depends on the subscription lookup:
   * the period end is not a unique column, so only the row chosen and the
   * references it receives decide the outcome.
   */
  lemma LookupDoesNotDecideOutcome(users: Users, s: EventObject, l1: Option<int>, l2: Option<int>)
    requires ValidUsers(users)
    ensures CheckoutEffect(users, s, l1).Ok? == CheckoutEffect(users, s, l2).Ok?
  {
    if Truthy(s.clerkId) {
      LookupDoesNotDecideByClerkId(users, s, l1, l2);
    } else if Truthy(s.customer) {
      LookupDoesNotDecideByCustomer(users, s, l1, l2);
    }
  }

  lemma SubscriptionDeletedIdempotent(users: Users, sub: EventObject)
    requires ValidUsers(users)
    ensures var r := SubscriptionDeletedEffect(users, sub);
            SubscriptionDeletedEffect(r.value, sub) == r
  {
    var r := SubscriptionDeletedEffect(users, sub);
    if Truthy(sub.id) {
      var m := r.value;
      assert forall k :: k in m ==> !Matches(m[k], SubscriptionIs(sub.id.value));
    }
  }

  /**
   * Redelivery is harmless: handling the same event a second time, after the
   * first delivery was handled, gives the same table and the same reply, as
   * long as the second subscription lookup reports the same period end or
   * none.
   */
  lemma WebhookReplayIdempotent(users: Users, signatureValid: bool, ev: Event, lookup: Option<int>, again: Option<int>)
    requires ValidUsers(users)
    requires SamePeriodEnd(ev.dataObject.subscription, lookup, again)
    ensures var once := HandleWebhook(users, signatureValid, ev, lookup);
            HandleWebhook(once.0, signatureValid, ev, again) == once
  {
    if signatureValid {
      if ev.eventType == CheckoutSessionCompleted {
        CheckoutIdempotent(users, ev.dataObject, lookup, again);
        var r := CheckoutEffect(users, ev.dataObject, lookup);
        if r.Err? {
          LookupDoesNotDecideOutcome(users, ev.dataObject, lookup, again);
        }
      } else if ev.eventType == CustomerSubscriptionDeleted {
        SubscriptionDeletedIdempotent(users, ev.dataObject);
      }
    }
  }
}
