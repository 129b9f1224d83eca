/**
 * The account and usage tables as one mutable store, driven by the two route
 * handlers: the Stripe webhook (one method per event) and the improvement
 * route. Each method is proved to leave the store exactly as the matching
 * function of `Webhook` or `Improve` says.
 */
module Store {
  import opened Wrappers
  import opened Accounts
  import opened Webhook
  import opened Improve

  class AccountStore {
    var users: Users
    var usages: seq<UsageRecord>
    /** What a row created with `{ clerkId }` alone holds. */
    const defaults: SchemaDefaults

    ghost predicate Valid()
      reads this
    {
      LedgerValid(Ledger(users, usages)) && CreditsOk(defaults.credits)
    }

    constructor (defaults: SchemaDefaults)
      requires CreditsOk(defaults.credits)
      ensures Valid() && this.defaults == defaults
      ensures users == map[] && usages == []
    {
      this.defaults := defaults;
      users := map[];
      usages := [];
    }

    /** `POST /api/stripe/webhook` */
    method HandleEvent(signatureValid: bool, ev: Event, lookup: Option<int>) returns (reply: WebhookReply)
      requires Valid()
      modifies this
      ensures Valid() && usages == old(usages)
      ensures (users, reply) == HandleWebhook(old(users), signatureValid, ev, lookup)
    {
      if !signatureValid {
        return WebhookReply(400, false);
      }
      var ok := true;
      if ev.eventType == CheckoutSessionCompleted {
        ok := OnCheckoutCompleted(ev.dataObject, lookup);
      } else if ev.eventType == InvoicePaymentSucceeded {
        // Recurring invoice payments leave the balance as it is.
      } else if ev.eventType == CustomerSubscriptionDeleted {
        ok := OnSubscriptionDeleted(ev.dataObject);
      }
      if !ok {
        return WebhookReply(500, false);
      }
      reply := WebhookReply(200, true);
    }

    /** `checkout.session.completed`: a failed write leaves the table as it was. */
    method OnCheckoutCompleted(session: EventObject, lookup: Option<int>) returns (ok: bool)
      requires Valid()
      modifies this
      ensures Valid() && usages == old(usages)
      ensures var r := CheckoutEffect(old(users), session, lookup);
              ok == r.Ok? && users == if ok then r.value else old(users)
    {
      var currentPeriodEnd: Option<int> := None;
      if Truthy(session.subscription) {
        match lookup {
          case Some(periodEnd) =>
            if periodEnd != 0 {
              currentPeriodEnd := Some(periodEnd * 1000);
            }
          case None =>
        }
      }
      var result: Result<Users, StoreError>;
      if Truthy(session.clerkId) {
        var clerkId := session.clerkId.value;
        result := UpsertByClerkId(users, clerkId,
          ProUpdate(Optional(session.customer), session, currentPeriodEnd),
          ProRow(clerkId, session, currentPeriodEnd));
      } else if Truthy(session.customer) {
        result := UpsertByCustomerId(users, session.customer.value,
          ProUpdate(Keep, session, currentPeriodEnd),
          ProRow("", session, currentPeriodEnd));
      } else {
        result := Ok(users);
      }
      ok := result.Ok?;
      if ok {
        users := result.value;
      }
    }

    /** `customer.subscription.deleted` */
    method OnSubscriptionDeleted(sub: EventObject) returns (ok: bool)
      requires Valid()
      modifies this
      ensures Valid() && usages == old(usages)
      ensures ok && users == SubscriptionDeletedEffect(old(users), sub).value
    {
      ok := true;
      if Truthy(sub.id) {
        ClearingSubscriptionIsUnique(users, SubscriptionIs(sub.id.value), Downgrade);
        ok := UpdateManyBySubscription(sub.id.value, Downgrade);
      }
    }

    /** `updateMany({ where: { stripeSubscriptionId }, data })`: visits every row once. */
    method UpdateManyBySubscription(subscriptionId: string, data: AccountPatch) returns (ok: bool)
      requires Valid() && PatchOk(data)
      modifies this
      ensures Valid() && usages == old(usages)
      ensures var r := UpdateMany(old(users), SubscriptionIs(subscriptionId), data);
              ok == r.Ok? && users == if ok then r.value else old(users)
    {
      var f := SubscriptionIs(subscriptionId);
      var candidate := users;
      var pending := users.Keys;
      while pending != {}
        invariant pending <= users.Keys && candidate.Keys == users.Keys
        invariant forall k :: k in users ==>
                    candidate[k] == if k in pending || !Matches(users[k], f) then users[k] else Apply(users[k], data)
        decreases pending
      {
        var k :| k in pending;
        if Matches(users[k], f) {
          candidate := candidate[k := Apply(users[k], data)];
        }
        pending := pending - {k};
      }
      assert candidate == UpdateMatching(users, f, data);
      ok := UniqueRefs(candidate);
      if ok {
        users := candidate;
      }
    }

    /** `POST /api/improve` */
    method ImproveRequest(userId: Option<string>, body: Option<ImproveBody>, completion: Option<string>)
      returns (reply: ImproveReply)
      requires Valid()
      modifies this
      ensures Valid()
      ensures (Ledger(users, usages), reply) ==
              ImproveEffect(old(Ledger(users, usages)), defaults, userId, body, completion)
    {
      if !Truthy(userId) {
        return AuthenticationRequired;
      }
      var clerkId := userId.value;
      if !ValidBody(body) {
        return ImproveFailed;
      }
      users := LazyUpsert(users, clerkId, defaults);
      var account := users[clerkId];
      if Balance(account) < 1 {
        return InsufficientCredits;
      }
      if !Truthy(completion) {
        return ImproveFailed;
      }
      var improved := Trim(completion.value);
      var record := UsageRecord(clerkId, body.value.prompt, improved, ModelName);
      var committed := ConsumeCredit(Ledger(users, usages), record);
      users, usages := committed.users, committed.usages;
      reply := Improved(body.value.prompt, improved, ModelName);
    }
  }
}
