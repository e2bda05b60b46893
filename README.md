# Subscription lifecycle of a resume-builder web application

This project is a Dafny model of the logic behind the premium paywall of a
Next.js resume builder. It covers seven pieces of code:

- The `subscriptions` table and its four helpers (`src/shared/subscription.ts`).
- The payment processor's webhook, which creates subscription rows and
  rewrites their status.
- The two manual activation routes.
- The client-side premium state of the auth provider.
- The bounded in-memory debug log of the webhook checker.
- The fallback resume template and request validation of the resume route.
- The route guard middleware.

The data store, the identity provider and the text generator are external
services. Each is reduced to what the code reads from it:

- The `subscriptions` table is a class (`SubscriptionStore.Table`) holding a
  sequence of rows. Inserts and updates replace that sequence. Queries are
  functions of the rows.
- Supabase's `.single()` means "exactly one row, otherwise an error"
  (`SubscriptionStore.Single`). `.maybeSingle()` means "none, one, or an
  error when there are several" (`SubscriptionStore.MaybeSingle`).
- A store call that answers with an error is a boolean parameter (`up`,
  `queryUp`, `insertUp`, `storeUp`, `profilesUp`, `checkUp`, `detailsUp`).
- The `profiles` table is a sequence of `(id, email)` rows.
- `auth.getUser()` is an optional `Identity.User`.
- The text generator's answer is an optional string: none when it throws.
- Timestamps are `Clock.Instant`: a month count plus a position inside the
  month. Adding a month or a year moves the month count, as
  `setMonth`/`setFullYear` do.

Several behaviours of the code are easy to misread. The model keeps them as
written:

- The webhook checks no signature. `WEBHOOK_SECRET` is read but never used.
- The webhook resolves the user only by an exact email match on `profiles`.
  It never creates a user and does no fuzzy or relay-address matching.
- `subscription`/`created` inserts a row without first looking for an active
  one, so a repeated delivery duplicates it (`GumroadWebhook.CreatedAddsActiveRow`).
- A `sale` event gets no special handling. Like `renewed`, it is
  acknowledged with 200, but only after the email lookup has succeeded.
- A status update reports success even when no row matched. There is no
  not-found result.
- "Premium" means exactly one active row, because `.single()` is used.
  A user with two active rows is not premium (`SubscriptionStore.TwoActiveRowsNotPremium`).
- The subscription details shown to a premium user are the user's newest
  row, whatever its status. They are not necessarily the active row
  (`AuthContext.DetailsMayBeInactive`).

## Model

| member | source | states |
|---|---|---|
| `SubscriptionStore.CheckUserSubscription` | src/shared/subscription.ts:12-34 | false for an empty user id or a store error; otherwise true iff the user has exactly one active row, and true implies an active row of the user exists |
| `SubscriptionStore.TwoActiveRowsNotPremium` | src/shared/subscription.ts:18-28 | a user with two distinct active rows is reported as not premium, because `.single()` fails on several matches |
| `SubscriptionStore.ActiveRowsOf` | src/shared/subscription.ts:18-22 | the user/status filter returns exactly the table's rows that are active and belong to the user, and nothing when the user has no active row |
| `SubscriptionStore.ActiveRowsOfOne` | src/shared/subscription.ts:18-22 | a user's only active row is the filter's only result, once |
| `SubscriptionStore.OneActiveRowPremium` | src/shared/subscription.ts:12-34 | a user with exactly one active row is premium whenever the id is non-empty, and the activation routes' existence check returns that row |
| `SubscriptionStore.Single` | src/shared/subscription.ts:23 | `.single()` succeeds iff there is exactly one row, and then returns it |
| `SubscriptionStore.CreateSubscription` | src/shared/subscription.ts:40-83 | an empty user id gives false and no insert; otherwise true iff the store accepts the insert, in which case exactly one row (the new subscription with a fresh id) is appended and nothing else changes; on failure the table is unchanged |
| `SubscriptionStore.NewSubscription` | src/shared/subscription.ts:52-71 | the inserted row carries the given user, plan type, period and external id, status active, `cancel_at_period_end` false, and starts now with an end strictly after the start |
| `SubscriptionStore.PeriodEnd` | src/shared/subscription.ts:55-60 | the period ends one month (monthly) or twelve months (yearly) after the start, at the same point within the month, so strictly later |
| `SubscriptionStore.Table.Insert` | src/shared/subscription.ts:62-71 | a successful insert appends one row with the next id and the current timestamps; a failing store changes nothing; row ids stay distinct |
| `SubscriptionStore.UpdateSubscriptionStatus` | src/shared/subscription.ts:88-117 | an empty external id gives false and no change; otherwise the result is whether the store answered, and on success the table becomes the status-updated table |
| `SubscriptionStore.Table.UpdateWhereExternalId` | src/shared/subscription.ts:98-105 | the bulk update rewrites the table exactly when the store answers, and keeps ids distinct |
| `SubscriptionStore.WithStatus` | src/shared/subscription.ts:98-105 | the update keeps the table's length; rows with another external id are unchanged; matching rows get the new status, `cancel_at_period_end` and `updated_at`, with every other field kept |
| `SubscriptionStore.WithStatusNoMatch` | src/shared/subscription.ts:98-112 | an update that matches no row leaves the table exactly as it was, while the helper still reports success |
| `SubscriptionStore.WithStatusIdempotent` | src/shared/subscription.ts:98-105 | applying the same status update twice equals applying it once at the later time |
| `SubscriptionStore.WithStatusRevokes` | src/shared/subscription.ts:98-105 | after a non-active status is written, no row with that external id grants premium, and every active row with another external id is still in the table |
| `SubscriptionStore.RowsOf` | src/shared/subscription.ts:133 | the user filter returns exactly the user's rows |
| `SubscriptionStore.Latest` | src/shared/subscription.ts:134-136 | ordering by `created_at` descending and keeping one row gives a row of the input whose `created_at` is no earlier than any other's, and none only for no rows |
| `SubscriptionStore.GetUserSubscription` | src/shared/subscription.ts:122-148 | none iff the user id is empty, the store fails or the user has no row; otherwise a row of that user, whatever its status, with the greatest `created_at` |
| `SubscriptionStore.MaybeSingle` | src/app/api/activate-premium/route.ts:42-47 | `.maybeSingle()` gives null for no row, the row for one, and an error for several |
| `SubscriptionStore.FindActive` | src/app/api/activate-premium-direct/route.ts:36-41 | the existence query errs iff the store fails or the user has several active rows; it is null iff the store answers and the user has no active row; a returned row is an active row of the user |
| `Identity.ProfilesWithEmail` | src/app/api/gumroad-webhook/route.ts:47-50 | the profile filter returns exactly the profiles whose email equals the purchaser's email, and nothing when no profile has it |
| `Identity.ProfilesWithEmailOne` | src/app/api/gumroad-webhook/route.ts:47-50 | a profile whose email no other profile carries is the filter's only result, once |
| `GumroadWebhook.LookupUniqueProfile` | src/app/api/gumroad-webhook/route.ts:47-58 | a purchaser whose email exactly one profile carries resolves to that profile's id |
| `GumroadWebhook.LookupUser` | src/app/api/gumroad-webhook/route.ts:47-58 | a user id is found iff the store answers and exactly one profile has the email; the id belongs to such a profile |
| `GumroadWebhook.PlanPeriodFor` | src/app/api/gumroad-webhook/route.ts:64-72 | the period is yearly iff the permalink is present and contains `ixoazp`, monthly otherwise |
| `GumroadWebhook.PlanPeriodOfProducts` | src/app/api/gumroad-webhook/route.ts:68-72 | a permalink containing the yearly product gives yearly; one containing the monthly product (and not the yearly) gives monthly; a missing permalink gives monthly |
| `GumroadWebhook.StatusFor` | src/app/api/gumroad-webhook/route.ts:98-103 | only `cancelled`, `ended` and `failed` map to a status, none of them active; `canceled` comes exactly from `cancelled`, `ended` exactly from `ended` and `failed` exactly from `failed` |
| `GumroadWebhook.Decide` | src/app/api/gumroad-webhook/route.ts:34-132 | 400 is given exactly when the subscription id or the email is missing or empty, before any lookup. Otherwise, a failed email lookup gives 404. `subscription`/`created` creates a row for the resolved user, with the subscription id and the permalink's period. `subscription` with `cancelled`/`ended`/`failed` writes the mapped status, with `cancel_at_period_end` set only for `cancelled`. Every other delivery with a resolved user, such as `renewed`, `sale` or an unknown event, is acknowledged with 200 and no write, and 200 is given in no other case |
| `GumroadWebhook.Post` | src/app/api/gumroad-webhook/route.ts:11-140 | the handler answers 200, 400, 404 or 500. It writes only what the decision says. A create or status write gives 200 when the store accepts it, and 500 with an unchanged table otherwise |
| `GumroadWebhook.CreatedAddsActiveRow` | src/app/api/gumroad-webhook/route.ts:62-90 | every successful `created` delivery adds one more active row for the user, even if one exists already |
| `ActivatePremium.Get` | src/app/api/activate-premium/route.ts:5-82 | a missing email gives 400, no signed-in user 404, and a user whose email differs 403, each without a write. An existing active row is returned with 200 and no insert. Otherwise, including when the existence query errs, a premium monthly row with id `test-subscription-id` is created (200), or the route answers 500 and changes nothing |
| `ActivatePremium.InsertedRowIsFound` | src/app/api/activate-premium/route.ts:42-55 | once the user's only active row has been inserted, the existence check returns it, so the next activation inserts nothing |
| `ActivatePremium.ActivateTwice` | src/app/api/activate-premium/route.ts:42-62 | two consecutive activations add at most one row when the user had at most one active row and the existence queries answer |
| `ActivatePremiumDirect.Decimal` | src/app/api/activate-premium-direct/route.ts:76 | the millisecond count is written as a non-empty string of decimal digits that denotes exactly that count, one digit exactly for numbers below ten, with a leading zero only for zero |
| `ActivatePremiumDirect.DirectActivationId` | src/app/api/activate-premium-direct/route.ts:76 | the external id is `direct-activation-` followed by at least one decimal digit |
| `ActivatePremiumDirect.DirectActivationIdInjective` | src/app/api/activate-premium-direct/route.ts:76 | the digits after the prefix denote the millisecond count, so two activations get the same external id exactly when they happen at the same millisecond |
| `ActivatePremiumDirect.DirectDraft` | src/app/api/activate-premium-direct/route.ts:63-78 | the inserted row is active, premium, yearly, starts now and ends one year later, has `cancel_at_period_end` false and the generated external id |
| `ActivatePremiumDirect.Get` | src/app/api/activate-premium-direct/route.ts:4-118 | a missing email gives 400 and no user 404; the email is not compared with the user. A failing existence query gives 500, and an existing active row 200 with that row, both without a write. Otherwise exactly one row is inserted and returned with 200, or the route answers 500 and changes nothing |
| `ActivatePremiumDirect.ActivateTwice` | src/app/api/activate-premium-direct/route.ts:35-99 | two consecutive direct activations add at most one row, whatever the table held and the store answered |
| `AuthContext.AuthProvider.constructor` | src/context/AuthContext.tsx:38-40 | the provider starts without a user, not premium and without details |
| `AuthContext.AuthProvider.RefreshPremiumStatus` | src/context/AuthContext.tsx:44-64 | nothing changes without a user. After an exception, the user is not premium and has no details. Otherwise `isPremium` is the subscription check, and the details are the user's newest row when premium and none when not. "Not premium implies no details" is preserved |
| `AuthContext.AuthProvider.SetUser` | src/context/AuthContext.tsx:67-78 | a signed-out user is not premium and has no details. For a signed-in user, an exception leaves them not premium with no details. Otherwise `isPremium` is the subscription check, and the details are the newest row when premium and none when not. "Not premium implies no details" is preserved |
| `AuthContext.PremiumUserHasDetails` | src/context/AuthContext.tsx:49-58 | for a premium user, the details query (when the store answers) finds a row no older than any active row of the user |
| `AuthContext.DetailsMayBeInactive` | src/context/AuthContext.tsx:53-55 | a premium user with a newer canceled row is shown that canceled row as details |
| `CheckWebhook.Logged` | src/app/api/check-webhook/route.ts:45-54 | the new entry is first, the previous entries follow in order shifted by one, and the length grows by one below ten entries, otherwise stays the same |
| `CheckWebhook.LoggedBounded` | src/app/api/check-webhook/route.ts:51-54 | a log of at most ten entries stays within ten, growing by one until it holds ten |
| `CheckWebhook.ReplayNewestFirst` | src/app/api/check-webhook/route.ts:33-54 | after any sequence of deliveries the log holds the most recent ones, newest first, and at most ten of them |
| `CheckWebhook.WebhookLog.Post` | src/app/api/check-webhook/route.ts:35-68 | a readable body is logged and the log returned with 200, keeping at most ten entries; an unreadable body gives 500 and logs nothing |
| `Strings.IncludesIffOccurs` | src/app/api/gumroad-webhook/route.ts:68-70 | the scanning `includes` holds iff the substring occurs at some index |
| `Strings.SplitJoin` | src/app/api/generate-resume/route.ts:35-38 | splitting the join of pieces that do not meet the separator gives back the pieces |
| `Strings.SplitConcatChar` | src/app/api/generate-resume/route.ts:24-70 | the lines of two texts joined by a line break are the lines of the first followed by the lines of the second |
| `Strings.Upper` | src/app/api/generate-resume/route.ts:24 | upper-casing keeps the length and raises each ASCII lower-case letter, leaving other characters as they are |
| `GenerateResume.ContactLineJoinsFields` | src/app/api/generate-resume/route.ts:26-30 | the contact line is the location followed by phone, email, LinkedIn and GitHub, each only when non-empty, joined by ` \| ` |
| `GenerateResume.Summary` | src/app/api/generate-resume/route.ts:33-39 | a non-empty `additionalInfo` is the summary as given; otherwise the default summary, which opens by naming the target position |
| `GenerateResume.ExperienceText` | src/app/api/generate-resume/route.ts:44-49 | when the title and dates carry no line break, an experience entry's lines are `position, company`, `start - end`, then one bullet per line of the description |
| `GenerateResume.EducationText` | src/app/api/generate-resume/route.ts:56-58 | when the degree and institution line carry no line break, an education entry's lines are the degree, `institution, start - end`, then the description's lines, or one empty line without a description |
| `GenerateResume.DefaultSummaryNamesFirstSkills` | src/app/api/generate-resume/route.ts:32-39 | without additional information, and when no skill contains `, `, the summary names exactly the first three skills |
| `GenerateResume.BulletedLines` | src/app/api/generate-resume/route.ts:46-49 | every line of a bulleted experience description is `• ` followed by the corresponding line of the description |
| `GenerateResume.LanguagesSection` | src/app/api/generate-resume/route.ts:65-70 | the languages section is empty iff the list is empty; otherwise its lines are the `LANGUAGES` heading followed by the lines of the items joined with `, ` |
| `GenerateResume.LanguageItemsRecoverable` | src/app/api/generate-resume/route.ts:20-22 | the languages line splits back into its `language (proficiency)` items when no language name contains `, ` or ends with `,` |
| `GenerateResume.FallbackResume` | src/app/api/generate-resume/route.ts:5-71 | the template yields a text iff the languages list is present, since a missing list throws; the text's lines are the heading block's lines followed by the sections' lines |
| `GenerateResume.SectionsLines` | src/app/api/generate-resume/route.ts:31-70 | after the contact line come, in order, SUMMARY, EXPERIENCE, EDUCATION and SKILLS, each after an empty line and under its own heading line, then an empty line and the languages section; the skills section is the skills joined with `, ` |
| `GenerateResume.EntriesSeparatedByBlankLine` | src/app/api/generate-resume/route.ts:41-60 | consecutive experience or education entries are separated by exactly one empty line |
| `GenerateResume.ResumeOpeningLines` | src/app/api/generate-resume/route.ts:24-30 | the template's first three lines are the upper-cased full name, the target position and the contact line |
| `GenerateResume.Post` | src/app/api/generate-resume/route.ts:73-121 | a body without a full name or target position gives 400. A valid body gives the generator's text with `usingOpenAI` true when the generator succeeds. When it throws, the body gives the template's text with `usingOpenAI` false, or 500 when the template throws. An unparsable body gives 500 |
| `Middleware.SomePrefix` | src/middleware.ts:14-21 | the route test holds iff some listed route is a prefix of the path |
| `Middleware.Guard` | src/middleware.ts:5-34 | redirect to `/login` iff the path starts with `/dashboard` and there is no session; redirect to `/dashboard` iff it starts with `/login` and there is a session; pass through otherwise |
| `Middleware.RouteKindsExclusive` | src/middleware.ts:13-21 | no path starts with both `/dashboard` and `/login` |
| `Middleware.GuardedPagesMatched` | src/middleware.ts:13-38 | every path starting with `/dashboard` or `/login` is seen by the guard |
| `Middleware.Matched` | src/middleware.ts:36-38 | a path reaches the guard iff it starts with `/` and no excluded alternative matches right after it, with `.` matching any character |
| `Middleware.MatcherExclusions` | src/middleware.ts:36-38 | paths under `/_next/static`, `/_next/image`, `/favicon.ico`, `/public` and `/api` bypass the guard, and so does `/favicon-ico`, because the unescaped `.` matches any character |

## Left out

- Request parsing and JSON encoding: form and query decoding, response bodies beyond the HTTP status and the returned row, and console logging.
- Exceptions outside the modelled error paths are not modelled, for example from client creation or URL parsing. The outer `catch` blocks of the webhook (src/app/api/gumroad-webhook/route.ts:133-139) and of the activation routes would answer 500.
- `WEBHOOK_SECRET` and signature verification: the code reads the secret but never uses it.
- User creation and fuzzy or relay-address email matching: the webhook resolves a user only by an exact email match on `profiles` and never creates one.
- Concurrency: each request is one atomic step. So is each state update of the auth provider. The race between the existence check and the insert of the activation routes is not modelled.
- `SubscriptionStore.PeriodEnd`: calendar arithmetic is abstract. The day-of-month overflow of `setMonth` (January 31 plus one month), time zones and ISO string formatting are left out.
- `Strings.Upper`: only ASCII letters are upper-cased. Unicode case mapping is left out.
- `ActivatePremium.Get`: the route selects only `id` and `status` of an existing row. The model returns the whole row.
- `ActivatePremiumDirect.Get`: the route selects only `id` and `status` of an existing row. The model returns the whole row.
- The text generator in `src/shared/openai.ts` is a parameter: its text, or none when it throws. The route's 2-second delay is left out.
- The text generator can answer with null content. The route would then return 200 with a null text. The model's generator always yields a string when it does not throw.
- The auth provider's sign-in, sign-up, sign-out, OAuth and session loading are left out. So are the check-webhook GET report of environment variables and all page and component rendering.
- The guard's redirect URL is modelled by its path only. Next.js matcher details beyond the pattern, such as data routes, are left out.
