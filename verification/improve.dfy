/**
 * The credit-gated improvement route (`POST /api/improve`) as a function of the
 * account table and the usage table.
 *
 * The signed-in user, the request body and the completion the language model
 * returned are inputs: `userId` (Clerk's `user.id`), `body` (`None` when the
 * JSON cannot be read or does not have the schema's shape) and `completion`
 * (`choices[0].message.content`).
 */
module Improve {
  import opened Wrappers
  import opened Accounts

  const ModelName := "gpt-4o-mini"
  const MinPromptLength := 10

  datatype ImproveBody = ImproveBody(prompt: string, context: Option<string>)

  /** A `promptUsage` row; `owner` links it to the user row (by its unique `clerkId`). */
  datatype UsageRecord = UsageRecord(owner: string, originalPrompt: string, improvedPrompt: string, model: string)

  /** The two tables the route reads and writes. */
  datatype Ledger = Ledger(users: Users, usages: seq<UsageRecord>)

  /** The column defaults of a user row created with `{ clerkId }` alone. */
  datatype SchemaDefaults = SchemaDefaults(plan: Plan, credits: Option<int>)

  datatype ImproveReply =
    | Improved(originalPrompt: string, improvedPrompt: string, model: string)
    | Failed(status: int, error: string)

  predicate LedgerValid(l: Ledger) {
    ValidUsers(l.users) && forall i :: 0 <= i < |l.usages| ==> l.usages[i].owner in l.users
  }

  /** JavaScript's `length`: the number of UTF-16 code units. */
  function Utf16Length(s: string): (n: nat)
    ensures |s| <= n <= 2 * |s|
  {
    if s == [] then 0 else (if s[0] as int > 0xFFFF then 2 else 1) + Utf16Length(s[1..])
  }

  /** The `improveSchema` check: a string prompt of at least 10 characters. */
  predicate ValidBody(body: Option<ImproveBody>)
    ensures body.Some? && |body.value.prompt| >= MinPromptLength ==> ValidBody(body)
    ensures ValidBody(body) ==> body.Some? && 2 * |body.value.prompt| >= MinPromptLength
  {
    body.Some? && Utf16Length(body.value.prompt) >= MinPromptLength
  }

  /** The characters `String.prototype.trim` removes: white space and line terminators. */
  predicate IsJsWhitespace(c: char) {
    c == '\t' || c == '\n' || c == '\U{000B}' || c == '\U{000C}' || c == '\r' || c == ' ' ||
    c == '\U{00A0}' || c == '\U{1680}' || ('\U{2000}' <= c <= '\U{200A}') ||
    c == '\U{2028}' || c == '\U{2029}' || c == '\U{202F}' || c == '\U{205F}' ||
    c == '\U{3000}' || c == '\U{FEFF}'
  }

  predicate WhitespaceBetween(s: string, lo: int, hi: int)
    requires 0 <= lo <= hi <= |s|
  {
    forall k :: lo <= k < hi ==> IsJsWhitespace(s[k])
  }

  predicate AllWhitespace(s: string) {
    WhitespaceBetween(s, 0, |s|)
  }

  /** Where the text starts: the first index from `i` on that is not white space, or `|s|`. */
  function TrimStartIndex(s: string, i: nat): (n: nat)
    requires i <= |s|
    ensures i <= n <= |s| && WhitespaceBetween(s, i, n)
    ensures n == |s| || !IsJsWhitespace(s[n])
    decreases |s| - i
  {
    if i < |s| && IsJsWhitespace(s[i]) then TrimStartIndex(s, i + 1) else i
  }

  /** Where the text ends: the last index down to `lo` that follows a non-white-space character, or `lo`. */
  function TrimEndIndex(s: string, lo: nat, j: nat): (m: nat)
    requires lo <= j <= |s|
    ensures lo <= m <= j && WhitespaceBetween(s, m, j)
    ensures m == lo || !IsJsWhitespace(s[m - 1])
  {
    if j > lo && IsJsWhitespace(s[j - 1]) then TrimEndIndex(s, lo, j - 1) else j
  }

  /** `String.prototype.trim`: the input with its leading and trailing white space cut off. */
  function Trim(s: string): (r: string)
    ensures |r| <= |s|
    ensures r == [] || (!IsJsWhitespace(r[0]) && !IsJsWhitespace(r[|r| - 1]))
    ensures r == [] <==> AllWhitespace(s)
    ensures exists i :: 0 <= i <= |s| - |r| && r == s[i..i + |r|] && AllWhitespace(s[..i]) && AllWhitespace(s[i + |r|..])
  {
    var n := TrimStartIndex(s, 0);
    var m := TrimEndIndex(s, n, |s|);
    assert AllWhitespace(s[..n]) && AllWhitespace(s[m..]);
    assert n < m ==> !IsJsWhitespace(s[n..m][0]) && !IsJsWhitespace(s[n..m][m - n - 1]);
    assert n == m ==> AllWhitespace(s) by {
      if n == m {
        forall k | 0 <= k < |s| ensures IsJsWhitespace(s[k]) {
        }
      }
    }
    s[n..m]
  }

  /** Trimming leaves a string that has no surrounding white space as it is. */
  lemma TrimIdempotent(s: string)
    ensures Trim(Trim(s)) == Trim(s)
  {
    var r := Trim(s);
    if r != [] {
      assert TrimStartIndex(r, 0) == 0;
      assert TrimEndIndex(r, 0, |r|) == |r|;
      assert r[0..|r|] == r;
    }
  }

  /** `upsert({ where: { clerkId }, update: {}, create: { clerkId } })` */
  function LazyUpsert(users: Users, id: string, defaults: SchemaDefaults): (r: Users)
    requires ValidUsers(users) && CreditsOk(defaults.credits)
    ensures id in r && ValidUsers(r)
    ensures id in users ==> r == users
    ensures id !in users ==> r == users[id := Account(id, defaults.plan, defaults.credits, None, None, None)]
  {
    var created := Account(id, defaults.plan, defaults.credits, None, None, None);
    var res := UpsertByClerkId(users, id, EmptyPatch, created);
    assert id in users ==> Apply(users[id], EmptyPatch) == users[id] && users[id := users[id]] == users;
    match res
    case Ok(m) => m
    case Err(_) => assert false; users
  }

  /** The lazy upsert is idempotent: after it, running it again changes nothing. */
  lemma LazyUpsertIdempotent(users: Users, id: string, defaults: SchemaDefaults)
    requires ValidUsers(users) && CreditsOk(defaults.credits)
    ensures LazyUpsert(LazyUpsert(users, id, defaults), id, defaults) == LazyUpsert(users, id, defaults)
  {
  }

  /**
   * The `$transaction` of the route: decrement the balance by one and append
   * the usage row, as one step. It runs only after the credit gate passed.
   */
  function ConsumeCredit(l: Ledger, record: UsageRecord): (r: Ledger)
    requires LedgerValid(l) && record.owner in l.users && Balance(l.users[record.owner]) >= 1
    ensures LedgerValid(r)
    ensures r.usages == l.usages + [record]
    ensures r.users.Keys == l.users.Keys
    ensures Balance(r.users[record.owner]) == Balance(l.users[record.owner]) - 1
    ensures r.users[record.owner] == l.users[record.owner].(credits := Some(Balance(l.users[record.owner]) - 1))
    ensures forall k :: k in l.users && k != record.owner ==> r.users[k] == l.users[k]
  {
    var account := l.users[record.owner];
    var charged := account.(credits := Some(account.credits.value - 1));
    var users := l.users[record.owner := charged];
    assert UniqueRefs(users) by {
      WriteKeepsUnique(l.users, record.owner, charged);
      forall k | k in l.users && k != record.owner ensures !Clashes(l.users[k], charged) {
        assert !Clashes(l.users[k], account);
      }
    }
    Ledger(users, l.usages + [record])
  }

  const AuthenticationRequired := Failed(401, "Authentication required")
  const InsufficientCredits := Failed(402, "Insufficient credits")
  const ImproveFailed := Failed(500, "Failed to improve prompt")

  /**
   * The route, step by step: the auth gate, the body check, the lazy upsert,
   * the credit gate, the completion check, and the transaction that
   * decrements the balance and appends the usage row together.
   */
  function ImproveEffect(l: Ledger, defaults: SchemaDefaults, userId: Option<string>,
                         body: Option<ImproveBody>, completion: Option<string>): (r: (Ledger, ImproveReply))
    requires LedgerValid(l) && CreditsOk(defaults.credits)
    ensures LedgerValid(r.0) && l.users.Keys <= r.0.users.Keys
    ensures r.1 == AuthenticationRequired <==> !Truthy(userId)
    ensures r.1.Failed? ==> r.0.usages == l.usages
    ensures r.1.Failed? ==> r.1 == AuthenticationRequired || r.1 == InsufficientCredits || r.1 == ImproveFailed
    ensures r.1.Improved? ==>
              && Truthy(userId) && ValidBody(body) && Truthy(completion)
              && r.0.usages == l.usages + [UsageRecord(userId.value, r.1.originalPrompt, r.1.improvedPrompt, r.1.model)]
              && r.1.model == ModelName
              && r.1.originalPrompt == body.value.prompt
              && r.1.improvedPrompt == Trim(completion.value)
  {
    if !Truthy(userId) then
      (l, AuthenticationRequired)
    else if !ValidBody(body) then
      (l, ImproveFailed)
    else
      var id := userId.value;
      var users := LazyUpsert(l.users, id, defaults);
      var touched := Ledger(users, l.usages);
      var account := users[id];
      if Balance(account) < 1 then
        (touched, InsufficientCredits)
      else if !Truthy(completion) then
        (touched, ImproveFailed)
      else
        var improved := Trim(completion.value);
        var record := UsageRecord(id, body.value.prompt, improved, ModelName);
        (ConsumeCredit(touched, record), Improved(body.value.prompt, improved, ModelName))
  }

  /** Without a truthy user id the route answers 401 before reading the body or touching a table. */
  lemma ImproveUnauthenticated(l: Ledger, defaults: SchemaDefaults, userId: Option<string>,
                               body: Option<ImproveBody>, completion: Option<string>)
    requires LedgerValid(l) && CreditsOk(defaults.credits) && !Truthy(userId)
    ensures ImproveEffect(l, defaults, userId, body, completion) == (l, AuthenticationRequired)
  {
  }

  /** A body that fails the schema (a prompt under 10 characters) ends in the 500 reply before the upsert. */
  lemma ImproveRejectsInvalidBody(l: Ledger, defaults: SchemaDefaults, userId: Option<string>,
                                  body: Option<ImproveBody>, completion: Option<string>)
    requires LedgerValid(l) && CreditsOk(defaults.credits) && Truthy(userId) && !ValidBody(body)
    ensures ImproveEffect(l, defaults, userId, body, completion) == (l, ImproveFailed)
  {
  }

  /** A balance below 1 (NULL counting as 0) gets 402; only the lazy upsert has happened. */
  lemma ImproveCreditGate(l: Ledger, defaults: SchemaDefaults, userId: Option<string>,
                          body: Option<ImproveBody>, completion: Option<string>)
    requires LedgerValid(l) && CreditsOk(defaults.credits) && Truthy(userId) && ValidBody(body)
    requires Balance(LazyUpsert(l.users, userId.value, defaults)[userId.value]) < 1
    ensures ImproveEffect(l, defaults, userId, body, completion) ==
            (Ledger(LazyUpsert(l.users, userId.value, defaults), l.usages), InsufficientCredits)
  {
  }

  /** A missing or empty completion gets 500; no credit is spent and no usage row is written. */
  lemma ImproveWithoutCompletion(l: Ledger, defaults: SchemaDefaults, userId: Option<string>,
                                 body: Option<ImproveBody>, completion: Option<string>)
    requires LedgerValid(l) && CreditsOk(defaults.credits) && Truthy(userId) && ValidBody(body)
    requires Balance(LazyUpsert(l.users, userId.value, defaults)[userId.value]) >= 1
    requires !Truthy(completion)
    ensures ImproveEffect(l, defaults, userId, body, completion) ==
            (Ledger(LazyUpsert(l.users, userId.value, defaults), l.usages), ImproveFailed)
  {
  }

  /**
   * On success the balance drops by exactly one, exactly one usage row is
   * appended, owned by the user and holding the prompt, the trimmed completion
   * and the model name, and the reply carries the same three values.
   */
  lemma ImproveSucceeds(l: Ledger, defaults: SchemaDefaults, userId: Option<string>,
                        body: Option<ImproveBody>, completion: Option<string>)
    requires LedgerValid(l) && CreditsOk(defaults.credits) && Truthy(userId) && ValidBody(body)
    requires Balance(LazyUpsert(l.users, userId.value, defaults)[userId.value]) >= 1
    requires Truthy(completion)
    ensures var id := userId.value;
            var before := LazyUpsert(l.users, id, defaults);
            var r := ImproveEffect(l, defaults, userId, body, completion);
            && r.1 == Improved(body.value.prompt, Trim(completion.value), ModelName)
            && r.0.usages == l.usages + [UsageRecord(id, body.value.prompt, Trim(completion.value), ModelName)]
            && r.0.users.Keys == before.Keys
            && Balance(r.0.users[id]) == Balance(before[id]) - 1
            && r.0.users[id] == before[id].(credits := Some(Balance(before[id]) - 1))
            && forall k :: k in before && k != id ==> r.0.users[k] == before[k]
  {
  }

  /** `k` requests in a row with the same inputs: the final tables and the replies in order. */
  function ImproveRun(l: Ledger, defaults: SchemaDefaults, userId: Option<string>,
                      body: Option<ImproveBody>, completion: Option<string>, k: nat): (r: (Ledger, seq<ImproveReply>))
    requires LedgerValid(l) && CreditsOk(defaults.credits)
    ensures LedgerValid(r.0) && |r.1| == k && l.users.Keys <= r.0.users.Keys
    decreases k
  {
    if k == 0 then
      (l, [])
    else
      var (next, reply) := ImproveEffect(l, defaults, userId, body, completion);
      var (last, replies) := ImproveRun(next, defaults, userId, body, completion, k - 1);
      (last, [reply] + replies)
  }

  /** One request on an existing account with a positive balance succeeds and spends one credit. */
  lemma StepOnFundedAccount(l: Ledger, defaults: SchemaDefaults, userId: Option<string>,
                            body: Option<ImproveBody>, completion: Option<string>)
    requires LedgerValid(l) && CreditsOk(defaults.credits)
    requires Truthy(userId) && ValidBody(body) && Truthy(completion)
    requires userId.value in l.users && Balance(l.users[userId.value]) >= 1
    ensures var r := ImproveEffect(l, defaults, userId, body, completion);
            && r.1 == Improved(body.value.prompt, Trim(completion.value), ModelName)
            && userId.value in r.0.users
            && Balance(r.0.users[userId.value]) == Balance(l.users[userId.value]) - 1
            && |r.0.usages| == |l.usages| + 1
  {
    ImproveSucceeds(l, defaults, userId, body, completion);
  }

  /** One request on an existing account with an empty balance is refused and changes nothing. */
  lemma StepOnEmptyAccount(l: Ledger, defaults: SchemaDefaults, userId: Option<string>,
                           body: Option<ImproveBody>, completion: Option<string>)
    requires LedgerValid(l) && CreditsOk(defaults.credits)
    requires Truthy(userId) && ValidBody(body)
    requires userId.value in l.users && Balance(l.users[userId.value]) < 1
    ensures ImproveEffect(l, defaults, userId, body, completion) == (l, InsufficientCredits)
  {
    ImproveCreditGate(l, defaults, userId, body, completion);
  }

  /**
   * Sequentially, an account holding N credits gets exactly N successful
   * improvements, each appending one usage row, and then 402; the balance ends
   * at 0 and never goes below it.
   */
  lemma {:induction false} CreditsAllowExactly(l: Ledger, defaults: SchemaDefaults, userId: Option<string>,
                                               body: Option<ImproveBody>, completion: Option<string>, n: nat)
    requires LedgerValid(l) && CreditsOk(defaults.credits)
    requires Truthy(userId) && ValidBody(body) && Truthy(completion)
    requires userId.value in l.users && Balance(l.users[userId.value]) == n
    ensures var r := ImproveRun(l, defaults, userId, body, completion, n + 1);
            && (forall i :: 0 <= i < n ==> r.1[i] == Improved(body.value.prompt, Trim(completion.value), ModelName))
            && r.1[n] == InsufficientCredits
            && Balance(r.0.users[userId.value]) == 0
            && |r.0.usages| == |l.usages| + n
    decreases n
  {
    var step := ImproveEffect(l, defaults, userId, body, completion);
    var rest := ImproveRun(step.0, defaults, userId, body, completion, n);
    assert ImproveRun(l, defaults, userId, body, completion, n + 1) == (rest.0, [step.1] + rest.1);
    if n == 0 {
      StepOnEmptyAccount(l, defaults, userId, body, completion);
    } else {
      StepOnFundedAccount(l, defaults, userId, body, completion);
      CreditsAllowExactly(step.0, defaults, userId, body, completion, n - 1);
    }
  }
}
