# promptcraft: credits, billing reconciliation and the prompt store, in Dafny

This project models the three pieces of the promptcraft Next.js application
that carry state logic, and proves properties of the model:

- **The Stripe webhook** (`src/app/api/stripe/webhook/route.ts`). It reconciles
  billing events into the `User` table. `checkout.session.completed` upserts
  the account to the `pro` plan with 200 credits. It finds the account by
  Clerk id, else by Stripe customer id, else does nothing.
  `customer.subscription.deleted` downgrades every account holding the
  subscription to `free` with 5 credits. Every other event type is acknowledged
  and ignored.
- **The improvement route** (`src/app/api/improve/route.ts`). Its steps, in
  order: an auth gate, the body schema check, a lazy account upsert, the credit
  gate, the language-model call, and one transaction that decrements the
  balance and appends a `promptUsage` row.
- **The client prompt store** (`src/store/usePromptStore.ts`). It holds saved
  templates, a history capped at 100 results, and the selected template.

Files:

- `wrappers.dfy`: `Option`, `Result`, the update-payload field `Write` (`Keep`
  stands for Prisma's `undefined`), and JavaScript string truthiness.
- `accounts.dfy`: the `User` row and table, and Prisma's upsert and
  update-many. Includes the unique constraints on `clerkId`,
  `stripeCustomerId` and `stripeSubscriptionId`.
- `webhook.dfy`: the webhook as a function of the table, with its lemmas.
- `improve.dfy`: the improvement route as a function of the account and usage
  tables. Includes JavaScript `trim` and UTF-16 `length`, and the lemmas.
- `store.dfy`: class `AccountStore`, the two tables as mutable fields. It has
  one method per webhook event, a loop for update-many, and the improvement
  request. Each method is proved to match the functions above.
- `prompt_store.dfy`: the store's list operations as functions with lemmas,
  and class `PromptState` whose actions assign the store's fields.

Modelling choices:

- The account table is a map keyed by `clerkId`.
- `credits` is an optional integer. `None` is a NULL column, which the credit
  gate reads as 0.
- The session's `customer` and `subscription` are modelled as always present
  when they matter. This application's own checkout
  (`src/app/api/stripe/checkout/route.ts:17-52`) creates subscription-mode
  sessions. When a user is signed in, the session is for that user's
  customer. When nobody is signed in, it has no customer and an empty
  `metadata.clerkId`, and that is the path that produces the row keyed by
  `""`. In subscription mode Stripe creates the customer, so a completed
  session carries both ids. In the model a
  `None` reference is `Keep` on update (the column keeps its value) and NULL on
  create. At run time Stripe sends `null` rather than leaving the field out,
  and Prisma writes `null` as NULL. So the model's `Keep` for a missing id
  describes an `undefined` payload field only. It does not describe a session
  created elsewhere whose id is `null`.
- JavaScript truthiness is kept: the empty string is falsy for the Clerk id,
  customer id, subscription id, user id and completion, and a period end of 0
  is falsy.
- A write that would give two rows the same customer or subscription
  reference, or the same `clerkId`, is refused. That is the database error the
  webhook turns into a 500 `{ received: false }`. One consequence is proved in
  `Webhook.CheckoutByCustomer`: once a row keyed by `""` exists, any later
  checkout that has no Clerk id and an unknown customer fails.
- The usage row refers to its user by `clerkId`. The source connects it by the
  row's internal `id`, and `clerkId` is unique, so both pick out the same row.
- The zod check `min(10)` counts UTF-16 code units (`Utf16Length`).
  `content.trim()` removes exactly the ECMAScript white-space and
  line-terminator characters (`IsJsWhitespace`).
- The Prisma schema is not part of this model. The plan and balance that a row
  created from `{ clerkId }` alone receives are therefore a parameter
  (`SchemaDefaults`), required to be non-negative.

## Model

| member | source | states |
|---|---|---|
| `Accounts.Apply` | src/app/api/stripe/webhook/route.ts:44-50 | an update payload keeps the `clerkId` and every column it leaves undefined, and never makes a balance negative |
| `Accounts.WriteKeepsUnique` | src/app/api/stripe/webhook/route.ts:42-59 | writing one row into a table with unique references keeps them unique exactly when no other row holds the same customer or subscription |
| `Accounts.UniqueRefsByReferences` | src/app/api/stripe/webhook/route.ts:44-57 | whether references are unique depends on the customer and subscription columns only, so plan, balance and period end never cause a refusal |
| `Accounts.ApplyIdempotent` | src/app/api/stripe/webhook/route.ts:44-50 | an update made only of absolute values, applied twice, equals applying it once |
| `Accounts.UpsertByClerkId` | src/app/api/stripe/webhook/route.ts:42-59 | upsert keyed by `clerkId` updates the existing row or creates the new one and touches no other row; it fails exactly when another row already holds a reference the written row holds; success keeps the table valid |
| `Accounts.UpsertByCustomerId` | src/app/api/stripe/webhook/route.ts:62-78 | upsert keyed by `stripeCustomerId` updates the rows holding that customer; otherwise it creates the row, failing exactly when its `clerkId` is taken or one of its references is held; success keeps the table valid |
| `Accounts.UpdateMany` | src/app/api/stripe/webhook/route.ts:92-95 | a committed update-many is the filtered update and keeps the table valid; with no matching row the table is unchanged |
| `Accounts.ClearingSubscriptionIsUnique` | src/app/api/stripe/webhook/route.ts:92-95 | an update-many that clears the subscription and leaves the customer column alone never violates a unique constraint |
| `Accounts.AtMostOneMatch` | src/app/api/stripe/webhook/route.ts:63 | with unique references, at most one row matches a customer or subscription filter |
| `Webhook.CheckoutEffect` | src/app/api/stripe/webhook/route.ts:22-83 | the checkout write keeps the table valid and never removes a row |
| `Webhook.SubscriptionDeletedEffect` | src/app/api/stripe/webhook/route.ts:88-98 | the cancellation write always succeeds, keeps the table valid, and keeps the key set |
| `Webhook.Dispatch` | src/app/api/stripe/webhook/route.ts:21-102 | whichever event type arrives, a successful write keeps the table valid and never removes a row |
| `Webhook.HandleWebhook` | src/app/api/stripe/webhook/route.ts:5-109 | a bad signature gives 400 `received:false` and an untouched table; with a valid signature the reply is 200 `received:true` exactly when the event's store write succeeds, and the table is then that write's result; a store failure gives 500 `received:false` and leaves the table untouched |
| `Webhook.ProUpdate` | src/app/api/stripe/webhook/route.ts:44-50 | the checkout's update payload never makes a balance negative; on any row it keeps the Clerk id, sets the pro plan and a balance of 200, writes the subscription and period end only when they are defined |
| `Webhook.ProRow` | src/app/api/stripe/webhook/route.ts:51-58 | the checkout's create row carries the given Clerk id, the pro plan and a balance of 200, and is a valid table on its own |
| `Webhook.CheckoutByClerkId` | src/app/api/stripe/webhook/route.ts:41-59 | with a truthy Clerk id, that row (created if absent) becomes pro with 200 credits and the session's references, and undefined references keep their old values; the write fails exactly when another row holds the session's customer or subscription; other rows are unchanged |
| `Webhook.CheckoutByCustomer` | src/app/api/stripe/webhook/route.ts:60-79 | with no Clerk id but a truthy customer, the row holding that customer becomes pro with 200 credits (and fails exactly when another row holds the subscription); with no such row, a row keyed by `""` is created, which fails exactly when `""` is taken or the subscription is held |
| `Webhook.CheckoutWithoutIds` | src/app/api/stripe/webhook/route.ts:41-79 | with neither a truthy Clerk id nor a truthy customer, checkout writes nothing |
| `Webhook.SubscriptionDeletedDowngrades` | src/app/api/stripe/webhook/route.ts:88-97 | every row holding the deleted subscription becomes free with 5 credits and no subscription, every other row is unchanged, and with no match (or no id) nothing changes |
| `Webhook.PassiveEventsAcknowledged` | src/app/api/stripe/webhook/route.ts:84-101 | `invoice.payment_succeeded` and unknown types leave the table unchanged and reply 200 `received:true` |
| `Webhook.ProRowStable` | src/app/api/stripe/webhook/route.ts:44-58 | the checkout update payload applied to the row the same checkout creates changes nothing |
| `Webhook.CheckoutIdempotentByClerkId` | src/app/api/stripe/webhook/route.ts:28-59 | a successful checkout keyed by Clerk id, applied again with a lookup that reports the same period end or none, gives the same table |
| `Webhook.CheckoutIdempotentByCustomer` | src/app/api/stripe/webhook/route.ts:28-79 | a successful checkout keyed by customer, applied again with a lookup that reports the same period end or none, gives the same table |
| `Webhook.CheckoutIdempotent` | src/app/api/stripe/webhook/route.ts:28-79 | applying the same checkout event twice leaves the state of applying it once, whenever the second lookup reports the same period end or none |
| `Webhook.LookupDoesNotDecideByClerkId` | src/app/api/stripe/webhook/route.ts:28-59 | for a checkout keyed by Clerk id, whether the write is refused is the same for any two lookup results |
| `Webhook.LookupDoesNotDecideByCustomer` | src/app/api/stripe/webhook/route.ts:60-79 | for a checkout keyed by customer, whether the write is refused is the same for any two lookup results |
| `Webhook.LookupDoesNotDecideOutcome` | src/app/api/stripe/webhook/route.ts:28-39 | the subscription lookup never decides whether a checkout succeeds: any two lookup results give the same success or failure |
| `Webhook.SubscriptionDeletedIdempotent` | src/app/api/stripe/webhook/route.ts:88-97 | a second cancellation of the same subscription changes nothing |
| `Webhook.WebhookReplayIdempotent` | src/app/api/stripe/webhook/route.ts:20-108 | redelivering any event after it was handled gives the same table and the same reply, when the redelivery's lookup reports the same period end or none |
| `Improve.Utf16Length` | src/app/api/improve/route.ts:12 | the JavaScript length of a string lies between its number of characters and twice that |
| `Improve.ValidBody` | src/app/api/improve/route.ts:11-14 | a prompt of at least 10 characters always passes the schema, and a passing prompt has at least 5 characters (10 UTF-16 units, each character one or two) |
| `Improve.TrimStartIndex` | src/app/api/improve/route.ts:73 | the index where the text starts: everything skipped is white space, and the character there (if any) is not |
| `Improve.TrimEndIndex` | src/app/api/improve/route.ts:73 | the index where the text ends: everything skipped is white space, and the character before it (if any, past the start) is not |
| `Improve.Trim` | src/app/api/improve/route.ts:73 | the trimmed completion is a contiguous slice of the completion with only white space before and after it, starts and ends on non-white-space, and is empty exactly when the completion is all white space |
| `Improve.TrimIdempotent` | src/app/api/improve/route.ts:73 | trimming twice equals trimming once |
| `Improve.LazyUpsert` | src/app/api/improve/route.ts:29-33 | the empty-update upsert leaves an existing account unchanged, creates a missing one with the schema defaults, and always succeeds |
| `Improve.LazyUpsertIdempotent` | src/app/api/improve/route.ts:29-33 | repeating the lazy upsert changes nothing |
| `Improve.ConsumeCredit` | src/app/api/improve/route.ts:67-77 | the transaction lowers the user's balance by exactly one, appends exactly that usage row, changes no other account, and keeps the tables valid |
| `Improve.ImproveEffect` | src/app/api/improve/route.ts:16-88 | 401 exactly when there is no truthy user id; every failure leaves the usage table unchanged; a success appends one row, owned by the user, whose fields equal the reply's prompt, trimmed completion and `gpt-4o-mini` |
| `Improve.ImproveUnauthenticated` | src/app/api/improve/route.ts:19-22 | without a user id the reply is 401 and neither table changes |
| `Improve.ImproveRejectsInvalidBody` | src/app/api/improve/route.ts:11-26 | a body failing the schema (prompt under 10 characters) ends in the 500 reply with neither table changed and no account upserted |
| `Improve.ImproveCreditGate` | src/app/api/improve/route.ts:40-42 | a balance below 1 (NULL as 0) gives 402; only the lazy upsert has taken effect, with no decrement and no usage row |
| `Improve.ImproveWithoutCompletion` | src/app/api/improve/route.ts:61-64 | a missing or empty completion gives 500; only the lazy upsert has taken effect |
| `Improve.ImproveSucceeds` | src/app/api/improve/route.ts:67-83 | on success the balance drops by exactly one, exactly one usage row (prompt, trimmed completion, model, user) is appended, other accounts are unchanged, and the reply holds the same three values |
| `Improve.ImproveRun` | src/app/api/improve/route.ts:16-88 | repeated requests keep the tables valid and never remove an account |
| `Improve.StepOnFundedAccount` | src/app/api/improve/route.ts:40-77 | a request on an account with a positive balance succeeds and spends one credit |
| `Improve.StepOnEmptyAccount` | src/app/api/improve/route.ts:40-42 | a request on an account with an empty balance is refused with 402 and changes nothing |
| `Improve.CreditsAllowExactly` | src/app/api/improve/route.ts:40-77 | sequentially, an account holding N credits gets exactly N successes, then 402; the balance ends at 0 and N usage rows were appended |
| `Store.AccountStore.constructor` | src/app/api/improve/route.ts:29-33 | the store starts with empty account and usage tables, which are valid, and keeps the schema defaults that a row created from `{ clerkId }` alone receives |
| `Store.AccountStore.HandleEvent` | src/app/api/stripe/webhook/route.ts:5-109 | the handler leaves the account table and reply of `HandleWebhook`, never touches the usage table, and keeps the store valid |
| `Store.AccountStore.OnCheckoutCompleted` | src/app/api/stripe/webhook/route.ts:22-83 | the checkout handler, with its local period end, writes exactly what `CheckoutEffect` says, or nothing when the write fails |
| `Store.AccountStore.OnSubscriptionDeleted` | src/app/api/stripe/webhook/route.ts:88-98 | the cancellation handler always succeeds and writes exactly `SubscriptionDeletedEffect` |
| `Store.AccountStore.UpdateManyBySubscription` | src/app/api/stripe/webhook/route.ts:92-95 | visiting every row once and updating the matching ones gives the update-many result, or leaves the table when the result violates uniqueness |
| `Store.AccountStore.ImproveRequest` | src/app/api/improve/route.ts:16-88 | the guarded steps leave both tables and the reply of `ImproveEffect`, and keep the store valid |
| `PromptStore.Merge` | src/store/usePromptStore.ts:34 | merging an empty partial leaves the template unchanged, and the id is the partial's if present, else the template's |
| `PromptStore.RemoveById` | src/store/usePromptStore.ts:28-30 | a template stays exactly when it was present and its id differs, and the list never grows |
| `PromptStore.RemoveByIdAppend` | src/store/usePromptStore.ts:28-30 | removal splits over concatenation, so the kept templates stay in their original order |
| `PromptStore.RemoveByIdAbsent` | src/store/usePromptStore.ts:28-30 | removing an id no template carries changes nothing |
| `PromptStore.RemoveByIdIdempotent` | src/store/usePromptStore.ts:28-30 | removing the same id twice equals removing it once |
| `PromptStore.UpdateById` | src/store/usePromptStore.ts:32-36 | length and positions are kept; exactly the templates whose id matches get the partial merged in |
| `PromptStore.UpdateByIdIdempotent` | src/store/usePromptStore.ts:32-36 | updating twice with the same partial equals updating once |
| `PromptStore.PrependCapped` | src/store/usePromptStore.ts:40-42 | the new result is first, the length is the old length plus one capped at 100, and the rest is a prefix of the old history |
| `PromptStore.AddAll` | src/store/usePromptStore.ts:40-42 | after a series of additions the history holds the old length plus the additions, capped at 100 |
| `PromptStore.HistoryNewestFirst` | src/store/usePromptStore.ts:40-42 | after a series of additions the newest result is first, and (up to 100 additions) they appear newest to oldest |
| `PromptStore.PromptState.constructor` | src/store/usePromptStore.ts:20-22 | the store starts with no templates, an empty history, and no current template |
| `PromptStore.PromptState.AddTemplate` | src/store/usePromptStore.ts:24-26 | the template is appended at the end, existing templates keep their order, and the other fields are unchanged |
| `PromptStore.PromptState.RemoveTemplate` | src/store/usePromptStore.ts:28-30 | the templates become `RemoveById` of the old ones; the other fields are unchanged |
| `PromptStore.PromptState.UpdateTemplate` | src/store/usePromptStore.ts:32-36 | the templates become `UpdateById` of the old ones; the other fields are unchanged |
| `PromptStore.PromptState.SetCurrentTemplate` | src/store/usePromptStore.ts:38 | only the current template changes |
| `PromptStore.PromptState.AddToHistory` | src/store/usePromptStore.ts:40-42 | the history becomes the capped prepend, stays within 100, and the other fields are unchanged |
| `PromptStore.PromptState.ClearHistory` | src/store/usePromptStore.ts:44 | the history is empty, and the templates and current template are unchanged |
| `PromptStore.PromptState.GetHistory` | src/store/usePromptStore.ts:46 | returns the current history, of at most 100 results, and changes nothing |

## Left out

- The Stripe signature check (`constructEvent`) is an input, `signatureValid`. The event it parses is the `Event` argument.
- The subscription lookup (`subscriptions.retrieve`) is an input, `lookup`: the `current_period_end` in seconds, or `None` when the call threw or the field was missing.
- The OpenAI call is an input, `completion`. The system prompt, `context` and `max_tokens` only shape that call, so they are not modelled.
- Clerk's `currentUser()` is an input, `userId`.
- Reading the JSON body is an input, `body`. A body that cannot be read or has the wrong shape is `None`; only the prompt-length rule is spelled out.
- The 404 `User not found` branch of the improvement route is not modelled. In a sequential model the upsert just before it always leaves the row in place, so the branch cannot be reached.
- Database failures other than unique-constraint violations (lost connections, timeouts) are not modelled. Neither are invalid `Date` values or the integer width of the `credits` column.
- Concurrency is not modelled. Two requests can both pass the credit gate (line 40) before either decrements (line 68), and the decrement itself has no guard against going below zero. The model runs handlers one at a time and makes the Prisma transaction a single step. `Improve.ConsumeCredit` therefore requires the balance the gate checked, and nothing here claims safety under concurrent requests.
- `Webhook.WebhookReplayIdempotent`: idempotence is proved only when the redelivery's lookup reports the same period end as the first delivery, or none. A redelivery that reads a different `current_period_end` (the subscription renewed in between) writes the new value: last write wins. `Webhook.LookupDoesNotDecideOutcome` shows that success or failure never depends on the lookup.
- Timestamps (`createdAt`, `updatedAt` on the usage row and the account), logging and the console are not modelled.
- A `null` `customer` or `subscription` on a checkout session is not modelled. Stripe sends `null` for a session without one, and Prisma would then clear the column on update. The model treats the id as absent and keeps the old value (`Webhook.CheckoutByClerkId`'s "undefined references keep their old values" clause). Sessions from this application's checkout route always carry both ids.
- Prompt-store `number` fields (`usage`, `rating`, `score`) are integers and dates are milliseconds. The store does no arithmetic on them.
- `PromptStore.Merge`: a partial whose key is present with the value `undefined` is not modelled. `{ ...t, ...updates }` (`src/store/usePromptStore.ts:34`) copies such a key, so the field becomes `undefined`. `TemplatePatch` only distinguishes a missing key (`None`) from a defined value, so in the model that field keeps the template's value.
- The zustand subscription and rendering machinery is not modelled.
