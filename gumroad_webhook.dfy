/** The payment processor's webhook (`POST /api/gumroad-webhook`).

    The handler reads the form fields, requires a subscription id and an
    email, finds the user whose profile has exactly that email, and then
    either creates a subscription row (`subscription`/`created`), rewrites
    the status of the rows with that subscription id (`cancelled`, `ended`,
    `failed`) or only acknowledges the event. It verifies no signature. */
module GumroadWebhook {
  import opened Wrappers
  import opened Clock
  import opened Strings
  import opened Identity
  import opened SubscriptionStore

  /** The decoded `application/x-www-form-urlencoded` body. */
  type Form = map<string, string>

  /** Permalink fragments of the yearly and monthly products. */
  const YearlyProduct := "ixoazp"
  const MonthlyProduct := "wseban"

  /** `payload.get(name)?.toString()`: the field, or `undefined`. */
  function Field(form: Form, name: string): Option<string> {
    if name in form then Some(form[name]) else None
  }

  /** `f === text` for an optional field. */
  predicate Is(f: Option<string>, text: string) {
    f == Some(text)
  }

  /** The profile lookup with `.single()`: the id of the one profile with
      exactly `email`; none when the store fails or zero or several match. */
  function LookupUser(profiles: seq<Profile>, email: string, up: bool): (id: Option<string>)
    ensures id.Some? <==> up && |ProfilesWithEmail(profiles, email)| == 1
    ensures id.Some? ==> exists p :: p in profiles && p.email == email && p.id == id.value
  {
    if !up then None
    else
      var found := Single(ProfilesWithEmail(profiles, email));
      if found.Ok? then
        assert found.value in ProfilesWithEmail(profiles, email);
        Some(found.value.id)
      else None
  }

  /** The billing period a new subscription gets from the product permalink. */
  function PlanPeriodFor(permalink: Option<string>): (p: PlanPeriod)
    ensures p == Yearly <==> permalink.Some? && Occurs(permalink.value, YearlyProduct)
  {
    match permalink
    case None => Monthly
    case Some(link) =>
      IncludesIffOccurs(link, YearlyProduct);
      if Includes(link, YearlyProduct) then Yearly
      else if Includes(link, MonthlyProduct) then Monthly
      else Monthly
  }

  /** The status a terminal action writes, for the three actions that write one. */
  function StatusFor(action: string): (r: Option<Status>)
    ensures r.Some? <==> action in {"cancelled", "ended", "failed"}
    ensures r.Some? ==> r.value != Active
    ensures r == Some(Canceled) <==> action == "cancelled"
    ensures r == Some(Ended) <==> action == "ended"
    ensures r == Some(Failed) <==> action == "failed"
  {
    if action == "cancelled" then Some(Canceled)
    else if action == "ended" then Some(Ended)
    else if action == "failed" then Some(Failed)
    else None
  }

  /** What the handler does for one delivery, before touching the table:
      answer at once, create a subscription, or write a status. */
  datatype Step =
    | Respond(code: int)
    | Create(userId: string, planPeriod: PlanPeriod, externalId: string)
    | SetStatus(externalId: string, status: Status, cancelAtPeriodEnd: bool)

  /** The dispatch decision of the handler. */
  function Decide(form: Form, profiles: seq<Profile>, profilesUp: bool): (step: Step)
    // 400 is exactly the answer to a missing subscription id or email, before any lookup
    ensures step == Respond(400) <==>
      !Truthy(Field(form, "subscription_id")) || !Truthy(Field(form, "email"))
    // an email no single profile has (or a failing lookup) is 404
    ensures Truthy(Field(form, "subscription_id")) && Truthy(Field(form, "email")) ==>
      (step == Respond(404) <==> LookupUser(profiles, Field(form, "email").value, profilesUp).None?)
    // creation is for subscription/created only, with the resolved user and period
    ensures step.Create? <==>
      Truthy(Field(form, "subscription_id")) && Truthy(Field(form, "email")) &&
      LookupUser(profiles, Field(form, "email").value, profilesUp).Some? &&
      Is(Field(form, "resource_name"), "subscription") && Is(Field(form, "resource_action"), "created")
    ensures step.Create? ==>
      step.userId == LookupUser(profiles, Field(form, "email").value, profilesUp).value &&
      step.externalId == Field(form, "subscription_id").value &&
      step.planPeriod == PlanPeriodFor(Field(form, "product_permalink"))
    // a status write is for subscription/cancelled, ended or failed only
    ensures step.SetStatus? <==>
      Truthy(Field(form, "subscription_id")) && Truthy(Field(form, "email")) &&
      LookupUser(profiles, Field(form, "email").value, profilesUp).Some? &&
      Is(Field(form, "resource_name"), "subscription") &&
      Field(form, "resource_action").Some? && Field(form, "resource_action").value in {"cancelled", "ended", "failed"}
    ensures step.SetStatus? ==>
      step.externalId == Field(form, "subscription_id").value &&
      Some(step.status) == StatusFor(Field(form, "resource_action").value) &&
      (step.cancelAtPeriodEnd <==> Is(Field(form, "resource_action"), "cancelled"))
    // everything else with a known user is acknowledged with 200 and no write
    ensures step == Respond(200) <==>
      Truthy(Field(form, "subscription_id")) && Truthy(Field(form, "email")) &&
      LookupUser(profiles, Field(form, "email").value, profilesUp).Some? &&
      !(Is(Field(form, "resource_name"), "subscription") && Field(form, "resource_action").Some? &&
        Field(form, "resource_action").value in {"created", "cancelled", "ended", "failed"})
    ensures step.Respond? ==> step.code in {200, 400, 404}
  {
    var subscriptionId := Field(form, "subscription_id");
    var email := Field(form, "email");
    var resource := Field(form, "resource_name");
    var action := Field(form, "resource_action");
    if !Truthy(subscriptionId) || !Truthy(email) then Respond(400)
    else
      match LookupUser(profiles, email.value, profilesUp)
      case None => Respond(404)
      case Some(userId) =>
        if Is(resource, "subscription") && Is(action, "created") then
          Create(userId, PlanPeriodFor(Field(form, "product_permalink")), subscriptionId.value)
        else if Is(resource, "subscription") && action.Some? && StatusFor(action.value).Some? then
          SetStatus(subscriptionId.value, StatusFor(action.value).value, Is(action, "cancelled"))
        else Respond(200)
  }

  /** The handler: the HTTP status it answers and what it does to the table. */
  method Post(table: Table, form: Form, profiles: seq<Profile>, profilesUp: bool,
              now: Instant, storeUp: bool) returns (code: int)
    requires table.Valid()
    modifies table
    ensures table.Valid()
    ensures code in {200, 400, 404, 500}
    ensures match Decide(form, profiles, profilesUp)
      case Respond(c) =>
        code == c && table.rows == old(table.rows)
      case Create(userId, planPeriod, externalId) =>
        (code == 200 <==> userId != "" && storeUp) &&
        (code == 200 ==> table.rows == old(table.rows) + [Stored(
           NewSubscription(userId, Premium, planPeriod, externalId, now), old(table.nextId), now)]) &&
        (code != 200 ==> code == 500 && table.rows == old(table.rows))
      case SetStatus(externalId, status, cancelAtPeriodEnd) =>
        (code == 200 <==> storeUp) &&
        (code == 200 ==> table.rows == WithStatus(old(table.rows), externalId, status, cancelAtPeriodEnd, now)) &&
        (code != 200 ==> code == 500 && table.rows == old(table.rows))
  {
    match Decide(form, profiles, profilesUp)
    case Respond(c) =>
      code := c;
    case Create(userId, planPeriod, externalId) =>
      var ok := CreateSubscription(table, userId, Premium, planPeriod, externalId, now, storeUp);
      code := if ok then 200 else 500;
    case SetStatus(externalId, status, cancelAtPeriodEnd) =>
      var ok := UpdateSubscriptionStatus(table, externalId, status, cancelAtPeriodEnd, now, storeUp);
      code := if ok then 200 else 500;
  }

  /** A permalink of the yearly product gives a yearly plan; one of the
      monthly product, or one of neither, a monthly plan. */
  lemma PlanPeriodOfProducts(prefix: string, suffix: string)
    ensures PlanPeriodFor(Some(prefix + YearlyProduct + suffix)) == Yearly
    ensures !Occurs(prefix + MonthlyProduct + suffix, YearlyProduct) ==>
      PlanPeriodFor(Some(prefix + MonthlyProduct + suffix)) == Monthly
    ensures PlanPeriodFor(None) == Monthly
  {
    var s := prefix + YearlyProduct + suffix;
    assert s[|prefix|..|prefix| + |YearlyProduct|] == YearlyProduct;
    assert OccursAt(s, YearlyProduct, |prefix|);
  }

  /** A purchaser whose email exactly one profile carries is resolved to
      that profile's user. */
  lemma LookupUniqueProfile(profiles: seq<Profile>, email: string, i: nat)
    requires i < |profiles| && profiles[i].email == email
    requires forall j :: 0 <= j < |profiles| && j != i ==> profiles[j].email != email
    ensures LookupUser(profiles, email, true) == Some(profiles[i].id)
  {
    ProfilesWithEmailOne(profiles, email, i);
  }

  /** Each successful `created` delivery adds one more active row for the
      user, even when the user already has one: the handler does not look for
      an existing row, so a repeated delivery duplicates it. */
  lemma CreatedAddsActiveRow(form: Form, profiles: seq<Profile>, profilesUp: bool,
                             rows: seq<Subscription>, id: nat, now: Instant)
    requires Decide(form, profiles, profilesUp).Create?
    ensures var step := Decide(form, profiles, profilesUp);
      var s := Stored(NewSubscription(step.userId, Premium, step.planPeriod, step.externalId, now), id, now);
      |ActiveRowsOf(rows + [s], step.userId)| == |ActiveRowsOf(rows, step.userId)| + 1
  {
    var step := Decide(form, profiles, profilesUp);
    var s := Stored(NewSubscription(step.userId, Premium, step.planPeriod, step.externalId, now), id, now);
    ActiveRowsOfAppend(rows, s, step.userId);
  }
}
