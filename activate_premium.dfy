/** `GET /api/activate-premium?email=...`: a signed-in user activates a
    monthly premium subscription for their own account, unless they already
    have an active one. */
module ActivatePremium {
  import opened Wrappers
  import opened Clock
  import opened Strings
  import opened Identity
  import opened SubscriptionStore

  /** The external id written for rows this route creates. */
  const TestSubscriptionId := "test-subscription-id"

  /** The handler. The existence query's error is not read: an error (a
      failing store, or several active rows) is taken as "no active row". */
  method Get(table: Table, email: Option<string>, user: Option<User>, now: Instant,
             queryUp: bool, insertUp: bool) returns (reply: Reply)
    requires table.Valid()
    modifies table
    ensures table.Valid()
    ensures !Truthy(email) ==> reply == Reply(400, None) && table.rows == old(table.rows)
    ensures Truthy(email) && user.None? ==> reply == Reply(404, None) && table.rows == old(table.rows)
    ensures Truthy(email) && user.Some? && user.value.email != email ==>
      reply == Reply(403, None) && table.rows == old(table.rows)
    ensures Truthy(email) && user.Some? && user.value.email == email ==>
      match FindActive(old(table.rows), user.value.id, queryUp)
      case Ok(Some(s)) =>
        reply == Reply(200, Some(s)) && table.rows == old(table.rows)
      case _ =>
        reply.subscription == None &&
        (reply.code == 200 <==> user.value.id != "" && insertUp) &&
        (reply.code == 200 ==> table.rows == old(table.rows) + [Stored(
           NewSubscription(user.value.id, Premium, Monthly, TestSubscriptionId, now), old(table.nextId), now)]) &&
        (reply.code != 200 ==> reply.code == 500 && table.rows == old(table.rows))
  {
    if !Truthy(email) {
      return Reply(400, None);
    }
    if user.None? {
      return Reply(404, None);
    }
    if user.value.email != email {
      return Reply(403, None);
    }
    var userId := user.value.id;
    var existing := FindActive(table.rows, userId, queryUp);
    if existing.Ok? && existing.value.Some? {
      return Reply(200, existing.value);
    }
    var ok := CreateSubscription(table, userId, Premium, Monthly, TestSubscriptionId, now, insertUp);
    reply := if ok then Reply(200, None) else Reply(500, None);
  }

  /** Once the user's only active row exists, the existence check returns it,
      so a further activation inserts nothing. */
  lemma InsertedRowIsFound(rows: seq<Subscription>, s: Subscription, userId: string)
    requires FindActive(rows, userId, true) == Ok(None)
    requires ActiveFor(s, userId)
    ensures FindActive(rows + [s], userId, true) == Ok(Some(s))
  {
    ActiveRowsOfAppend(rows, s, userId);
  }

  /** Two activations in a row add at most one subscription, provided the
      user had at most one active row and neither existence query fails (an
      ignored query error reads as "no active row", and the route inserts). */
  method ActivateTwice(table: Table, email: Option<string>, user: Option<User>,
                       first: Instant, second: Instant, insertUp: bool)
      returns (r1: Reply, r2: Reply)
    requires table.Valid()
    requires user.Some? ==> |ActiveRowsOf(table.rows, user.value.id)| <= 1
    modifies table
    ensures table.Valid()
    ensures |table.rows| <= |old(table.rows)| + 1
  {
    ghost var before := table.rows;
    r1 := Get(table, email, user, first, true, insertUp);
    if |table.rows| > |before| {
      var userId := user.value.id;
      var s := Stored(NewSubscription(userId, Premium, Monthly, TestSubscriptionId, first), old(table.nextId), first);
      assert table.rows == before + [s];
      InsertedRowIsFound(before, s, userId);
    }
    r2 := Get(table, email, user, second, true, insertUp);
  }
}
