/**
 * The `User` table that the billing webhook and the improvement route share,
 * and the three Prisma write primitives they use on it: upsert by `clerkId`,
 * upsert by `stripeCustomerId`, and update-many by a filter.
 *
 * The table is a map keyed by `clerkId` (a unique column). `stripeCustomerId`
 * and `stripeSubscriptionId` are unique when not NULL: a write that would give
 * two rows the same reference is refused by the database, which the route
 * handlers see as a thrown exception.
 */
module Accounts {
  import opened Wrappers

  datatype Plan = Free | Pro | Enterprise

  /** One row of the `User` table; `currentPeriodEnd` is in milliseconds. */
  datatype Account = Account(
    clerkId: string,
    plan: Plan,
    credits: Option<int>,
    stripeCustomerId: Option<string>,
    stripeSubscriptionId: Option<string>,
    currentPeriodEnd: Option<int>)

  /** The `data`/`update` payload of a Prisma write; `Keep` leaves a column as it is. */
  datatype AccountPatch = AccountPatch(
    plan: Write<Plan>,
    credits: Write<Option<int>>,
    stripeCustomerId: Write<Option<string>>,
    stripeSubscriptionId: Write<Option<string>>,
    currentPeriodEnd: Write<Option<int>>)

  /** `update: {}` */
  const EmptyPatch := AccountPatch(Keep, Keep, Keep, Keep, Keep)

  type Users = map<string, Account>

  /** The only store failure modelled: a unique-constraint violation. */
  datatype StoreError = UniqueViolation

  /** A `where` filter of update-many / upsert on one of the unique reference columns. */
  datatype Filter = CustomerIs(customerId: string) | SubscriptionIs(subscriptionId: string)

  predicate Matches(a: Account, f: Filter) {
    match f
    case CustomerIs(c) => a.stripeCustomerId == Some(c)
    case SubscriptionIs(s) => a.stripeSubscriptionId == Some(s)
  }

  /** The balance the credit gate reads: a NULL balance counts as 0. */
  function Balance(a: Account): int {
    a.credits.GetOr(0)
  }

  predicate CreditsOk(c: Option<int>) {
    c.None? || c.value >= 0
  }

  predicate PatchOk(p: AccountPatch) {
    p.credits.Keep? || CreditsOk(p.credits.value)
  }

  /** Applies a write payload to a row: each `Set` column is overwritten, every other column kept. */
  function Apply(a: Account, p: AccountPatch): (r: Account)
    ensures r.clerkId == a.clerkId
    ensures p.plan.Keep? ==> r.plan == a.plan
    ensures p.credits.Keep? ==> r.credits == a.credits
    ensures p.stripeCustomerId.Keep? ==> r.stripeCustomerId == a.stripeCustomerId
    ensures p.stripeSubscriptionId.Keep? ==> r.stripeSubscriptionId == a.stripeSubscriptionId
    ensures p.currentPeriodEnd.Keep? ==> r.currentPeriodEnd == a.currentPeriodEnd
    ensures PatchOk(p) && CreditsOk(a.credits) ==> CreditsOk(r.credits)
  {
    Account(
      a.clerkId,
      p.plan.ApplyTo(a.plan),
      p.credits.ApplyTo(a.credits),
      p.stripeCustomerId.ApplyTo(a.stripeCustomerId),
      p.stripeSubscriptionId.ApplyTo(a.stripeSubscriptionId),
      p.currentPeriodEnd.ApplyTo(a.currentPeriodEnd))
  }

  /** Writes hold absolute values only, so applying the same payload twice is applying it once. */
  lemma ApplyIdempotent(a: Account, p: AccountPatch)
    ensures Apply(Apply(a, p), p) == Apply(a, p)
  {
  }

  /** Two rows clash when they hold the same non-NULL customer or subscription reference. */
  predicate Clashes(a: Account, b: Account) {
    (a.stripeCustomerId.Some? && a.stripeCustomerId == b.stripeCustomerId) ||
    (a.stripeSubscriptionId.Some? && a.stripeSubscriptionId == b.stripeSubscriptionId)
  }

  predicate UniqueRefs(m: Users) {
    forall k1, k2 :: k1 in m && k2 in m && k1 != k2 ==> !Clashes(m[k1], m[k2])
  }

  predicate KeyedByClerkId(m: Users) {
    forall k :: k in m ==> m[k].clerkId == k
  }

  predicate NonNegativeCredits(m: Users) {
    forall k :: k in m ==> CreditsOk(m[k].credits)
  }

  /** The table's integrity: keys, unique references, and no negative balance. */
  predicate ValidUsers(m: Users) {
    KeyedByClerkId(m) && UniqueRefs(m) && NonNegativeCredits(m)
  }

  /** The database accepts a candidate table only when it keeps the references unique. */
  function Commit(candidate: Users): Result<Users, StoreError> {
    if UniqueRefs(candidate) then Ok(candidate) else Err(UniqueViolation)
  }

  /** Writing one row into a table with unique references breaks uniqueness exactly when the row clashes with another. */
  lemma WriteKeepsUnique(m: Users, key: string, row: Account)
    requires UniqueRefs(m)
    ensures UniqueRefs(m[key := row]) <==> forall k :: k in m && k != key ==> !Clashes(m[k], row)
  {
    var m' := m[key := row];
    if forall k :: k in m && k != key ==> !Clashes(m[k], row) {
      forall k1, k2 | k1 in m' && k2 in m' && k1 != k2
        ensures !Clashes(m'[k1], m'[k2])
      {
        if k1 == key {
          assert !Clashes(m[k2], row);
        } else if k2 == key {
          assert !Clashes(m[k1], row);
        }
      }
    } else {
      var k :| k in m && k != key && Clashes(m[k], row);
      assert k in m' && key in m' && m'[k] == m[k] && m'[key] == row;
    }
  }

  /** Uniqueness looks at the reference columns only: tables that agree on them are both unique or both not. */
  lemma UniqueRefsByReferences(m1: Users, m2: Users)
    requires m1.Keys == m2.Keys
    requires forall k :: k in m1 ==> m1[k].stripeCustomerId == m2[k].stripeCustomerId &&
                                     m1[k].stripeSubscriptionId == m2[k].stripeSubscriptionId
    ensures UniqueRefs(m1) <==> UniqueRefs(m2)
  {
    forall k1, k2 | k1 in m1 && k2 in m1 && k1 != k2
      ensures Clashes(m1[k1], m1[k2]) <==> Clashes(m2[k1], m2[k2])
    {
    }
  }

  /** `upsert({ where: { clerkId }, update, create })` */
  function UpsertByClerkId(users: Users, clerkId: string, update: AccountPatch, create: Account): (r: Result<Users, StoreError>)
    requires ValidUsers(users) && create.clerkId == clerkId
    requires PatchOk(update) && CreditsOk(create.credits)
    ensures var row := if clerkId in users then Apply(users[clerkId], update) else create;
            r.Err? <==> exists k :: k in users && k != clerkId && Clashes(users[k], row)
    ensures r.Ok? ==> r.value == users[clerkId := if clerkId in users then Apply(users[clerkId], update) else create]
    ensures r.Ok? ==> ValidUsers(r.value)
  {
    var row := if clerkId in users then Apply(users[clerkId], update) else create;
    WriteKeepsUnique(users, clerkId, row);
    Commit(users[clerkId := row])
  }

  /** `updateMany({ where: filter, data })` before the database checks the unique constraints. */
  function UpdateMatching(users: Users, f: Filter, data: AccountPatch): Users {
    map k | k in users :: if Matches(users[k], f) then Apply(users[k], data) else users[k]
  }

  /** With unique references, at most one row matches a reference filter. */
  lemma AtMostOneMatch(users: Users, f: Filter, k1: string, k2: string)
    requires UniqueRefs(users)
    requires k1 in users && k2 in users && Matches(users[k1], f) && Matches(users[k2], f)
    ensures k1 == k2
  {
    if k1 != k2 {
      assert Clashes(users[k1], users[k2]);
    }
  }

  /** `upsert({ where: { stripeCustomerId }, update, create })` */
  function UpsertByCustomerId(users: Users, customerId: string, update: AccountPatch, create: Account): (r: Result<Users, StoreError>)
    requires ValidUsers(users) && create.stripeCustomerId == Some(customerId)
    requires PatchOk(update) && CreditsOk(create.credits) && update.stripeCustomerId.Keep?
    ensures (exists k :: k in users && Matches(users[k], CustomerIs(customerId))) ==>
              (r.Ok? <==> UniqueRefs(UpdateMatching(users, CustomerIs(customerId), update))) &&
              (r.Ok? ==> r.value == UpdateMatching(users, CustomerIs(customerId), update))
    ensures (forall k :: k in users ==> !Matches(users[k], CustomerIs(customerId))) ==>
              (r.Err? <==> create.clerkId in users || exists k :: k in users && Clashes(users[k], create)) &&
              (r.Ok? ==> r.value == users[create.clerkId := create])
    ensures r.Ok? ==> ValidUsers(r.value)
  {
    if exists k :: k in users && Matches(users[k], CustomerIs(customerId)) then
      Commit(UpdateMatching(users, CustomerIs(customerId), update))
    else if create.clerkId in users then
      Err(UniqueViolation)
    else
      WriteKeepsUnique(users, create.clerkId, create);
      Commit(users[create.clerkId := create])
  }

  /** `updateMany({ where: filter, data })` */
  function UpdateMany(users: Users, f: Filter, data: AccountPatch): (r: Result<Users, StoreError>)
    requires ValidUsers(users) && PatchOk(data)
    ensures r.Ok? <==> UniqueRefs(UpdateMatching(users, f, data))
    ensures r.Ok? ==> r.value == UpdateMatching(users, f, data) && ValidUsers(r.value)
    ensures (forall k :: k in users ==> !Matches(users[k], f)) ==> r == Ok(users)
  {
    var candidate := UpdateMatching(users, f, data);
    if forall k :: k in users ==> !Matches(users[k], f) then
      assert candidate == users;
      Ok(users)
    else
      Commit(candidate)
  }

  /** A write that clears the subscription and leaves the customer reference alone never breaks uniqueness. */
  lemma ClearingSubscriptionIsUnique(users: Users, f: Filter, data: AccountPatch)
    requires ValidUsers(users) && PatchOk(data)
    requires data.stripeCustomerId.Keep? && data.stripeSubscriptionId == Set(None)
    ensures UpdateMany(users, f, data).Ok?
  {
    var c := UpdateMatching(users, f, data);
    forall k1, k2 | k1 in c && k2 in c && k1 != k2
      ensures !Clashes(c[k1], c[k2])
    {
      assert !Clashes(users[k1], users[k2]);
    }
  }
}
