/** `GET /api/activate-premium-direct?email=...`: the signed-in user gets a
    yearly premium row written straight into the table, unless they already
    have an active one. The email parameter must be present but is not
    compared with the user. */
module ActivatePremiumDirect {
  import opened Wrappers
  import opened Clock
  import opened Strings
  import opened Identity
  import opened SubscriptionStore

  const IdPrefix := "direct-activation-"

  /** The number a string of decimal digits denotes. */
  ghost function DigitsValue(s: string): int {
    if s == [] then 0 else DigitsValue(s[..|s| - 1]) * 10 + (s[|s| - 1] as int - '0' as int)
  }

  /** The decimal digits of `n`, as `String(Date.now())` writes a millisecond count. */
  function Decimal(n: nat): (r: string)
    ensures |r| >= 1
    ensures forall i :: 0 <= i < |r| ==> '0' <= r[i] <= '9'
    ensures n < 10 <==> |r| == 1
    ensures DigitsValue(r) == n
    ensures r[0] == '0' <==> n == 0
  {
    var digit := ('0' as int + n % 10) as char;
    if n < 10 then [digit]
    else
      var r := Decimal(n / 10) + [digit];
      assert r[..|r| - 1] == Decimal(n / 10);
      r
  }

  /** `"direct-activation-" + Date.now()`. */
  function DirectActivationId(millis: nat): (id: string)
    ensures IdPrefix <= id && |id| > |IdPrefix|
    ensures forall i :: |IdPrefix| <= i < |id| ==> '0' <= id[i] <= '9'
  {
    IdPrefix + Decimal(millis)
  }

  /** The digits after the prefix denote the millisecond count, so two
      activations at different milliseconds get different external ids. */
  lemma DirectActivationIdInjective(a: nat, b: nat)
    ensures DigitsValue(DirectActivationId(a)[|IdPrefix|..]) == a
    ensures DirectActivationId(a) == DirectActivationId(b) <==> a == b
  {
    assert DirectActivationId(a)[|IdPrefix|..] == Decimal(a);
    assert DirectActivationId(b)[|IdPrefix|..] == Decimal(b);
  }

  /** The row the route inserts: active, premium, yearly, ending one year after `now`. */
  function DirectDraft(userId: string, now: Instant, millis: nat): (d: Draft)
    ensures d.userId == userId && d.status == Active && !d.cancelAtPeriodEnd
    ensures d.planType == Premium && d.planPeriod == Yearly
    ensures d.periodStart == now && d.periodEnd == AddYear(now)
    ensures d.externalId == DirectActivationId(millis)
  {
    Draft(userId, Active, Premium, Yearly, now, AddYear(now), DirectActivationId(millis), false)
  }

  /** The handler. Unlike `ActivatePremium.Get`, a failing existence query is
      answered with 500 and nothing is inserted. */
  method Get(table: Table, email: Option<string>, user: Option<User>, now: Instant, millis: nat,
             queryUp: bool, insertUp: bool) returns (reply: Reply)
    requires table.Valid()
    modifies table
    ensures table.Valid()
    ensures !Truthy(email) ==> reply == Reply(400, None) && table.rows == old(table.rows)
    ensures Truthy(email) && user.None? ==> reply == Reply(404, None) && table.rows == old(table.rows)
    ensures Truthy(email) && user.Some? ==>
      match FindActive(old(table.rows), user.value.id, queryUp)
      case Error =>
        reply == Reply(500, None) && table.rows == old(table.rows)
      case Ok(Some(s)) =>
        reply == Reply(200, Some(s)) && table.rows == old(table.rows)
      case Ok(None) =>
        var s := Stored(DirectDraft(user.value.id, now, millis), old(table.nextId), now);
        (insertUp ==> reply == Reply(200, Some(s)) && table.rows == old(table.rows) + [s]) &&
        (!insertUp ==> reply == Reply(500, None) && table.rows == old(table.rows))
  {
    if !Truthy(email) {
      return Reply(400, None);
    }
    if user.None? {
      return Reply(404, None);
    }
    var userId := user.value.id;
    var existing := FindActive(table.rows, userId, queryUp);
    if existing.Error? {
      return Reply(500, None);
    }
    if existing.value.Some? {
      return Reply(200, existing.value);
    }
    var inserted := table.Insert(DirectDraft(userId, now, millis), now, insertUp);
    if inserted.None? {
      return Reply(500, None);
    }
    reply := Reply(200, inserted);
  }

  /** Two direct activations in a row add at most one subscription, whatever
      the table held and whatever the store answers. */
  method ActivateTwice(table: Table, email: Option<string>, user: Option<User>,
                       first: Instant, second: Instant, firstMillis: nat, secondMillis: nat,
                       queryUp1: bool, queryUp2: bool, insertUp: bool)
      returns (r1: Reply, r2: Reply)
    requires table.Valid()
    modifies table
    ensures table.Valid()
    ensures |table.rows| <= |old(table.rows)| + 1
  {
    ghost var before := table.rows;
    r1 := Get(table, email, user, first, firstMillis, queryUp1, insertUp);
    if |table.rows| > |before| {
      var userId := user.value.id;
      var s := Stored(DirectDraft(userId, first, firstMillis), old(table.nextId), first);
      assert table.rows == before + [s];
      ActiveRowsOfAppend(before, s, userId);
      assert s in ActiveRowsOf(table.rows, userId);
    }
    r2 := Get(table, email, user, second, secondMillis, queryUp2, insertUp);
  }
}
