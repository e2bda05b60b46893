/** The `subscriptions` table and the four helpers of `src/shared/subscription.ts`
    (`checkUserSubscription`, `createSubscription`, `updateSubscriptionStatus`,
    `getUserSubscription`).

    The table is a class whose rows the store methods replace; the read
    queries are functions of the rows. A store that answers with an error is
    the parameter `up == false`; the clock is the parameter `now`. */
module SubscriptionStore {
  import opened Wrappers
  import opened Clock

  datatype Status = Active | Canceled | Ended | Failed
  datatype PlanType = Premium | Basic
  datatype PlanPeriod = Monthly | Yearly

  /** One row of the table. `externalId` is the `gumroad_subscription_id` column. */
  datatype Subscription = Subscription(
    id: nat,
    userId: string,
    status: Status,
    planType: PlanType,
    planPeriod: PlanPeriod,
    periodStart: Instant,
    periodEnd: Instant,
    externalId: string,
    cancelAtPeriodEnd: bool,
    createdAt: Instant,
    updatedAt: Instant)

  /** What an activation route answers: the HTTP status and, when the route
      returns one, the subscription row. */
  datatype Reply = Reply(code: int, subscription: Option<Subscription>)

  /** The columns a caller supplies on insert; the store adds `id`,
      `created_at` and `updated_at`. */
  datatype Draft = Draft(
    userId: string,
    status: Status,
    planType: PlanType,
    planPeriod: PlanPeriod,
    periodStart: Instant,
    periodEnd: Instant,
    externalId: string,
    cancelAtPeriodEnd: bool)

  /** The row the store writes for `d`, with generated id and timestamps. */
  function Stored(d: Draft, id: nat, now: Instant): (s: Subscription)
    ensures s.id == id && s.createdAt == now && s.updatedAt == now
    ensures s.userId == d.userId && s.status == d.status && s.externalId == d.externalId
  {
    Subscription(id, d.userId, d.status, d.planType, d.planPeriod, d.periodStart,
                 d.periodEnd, d.externalId, d.cancelAtPeriodEnd, now, now)
  }

  /** A row that grants premium to `userId`. */
  predicate ActiveFor(s: Subscription, userId: string) {
    s.userId == userId && s.status == Active
  }

  // ---------------------------------------------------------------- queries

  /** `.eq("user_id", userId)`: the user's rows, in table order. */
  function RowsOf(rows: seq<Subscription>, userId: string): (r: seq<Subscription>)
    ensures forall s :: s in r <==> s in rows && s.userId == userId
    ensures |r| <= |rows|
  {
    if rows == [] then []
    else
      var init := RowsOf(rows[..|rows| - 1], userId);
      var last := rows[|rows| - 1];
      assert rows == rows[..|rows| - 1] + [last];
      init + (if last.userId == userId then [last] else [])
  }

  /** `.eq("user_id", userId).eq("status", "active")`: the user's active rows. */
  function ActiveRowsOf(rows: seq<Subscription>, userId: string): (r: seq<Subscription>)
    ensures forall s :: s in r <==> s in rows && ActiveFor(s, userId)
    ensures (forall s :: s in rows ==> !ActiveFor(s, userId)) ==> r == []
    ensures |r| <= |rows|
  {
    if rows == [] then []
    else
      var init := ActiveRowsOf(rows[..|rows| - 1], userId);
      var last := rows[|rows| - 1];
      assert rows == rows[..|rows| - 1] + [last];
      init + (if ActiveFor(last, userId) then [last] else [])
  }

  /** Appending a row extends the active-row query by that row when it qualifies. */
  lemma ActiveRowsOfAppend(rows: seq<Subscription>, s: Subscription, userId: string)
    ensures ActiveRowsOf(rows + [s], userId)
         == ActiveRowsOf(rows, userId) + (if ActiveFor(s, userId) then [s] else [])
  {
    assert (rows + [s])[..|rows|] == rows;
  }

  /** A user's only active row is the query's only result. */
  lemma {:induction false} ActiveRowsOfOne(rows: seq<Subscription>, userId: string, i: nat)
    requires i < |rows| && ActiveFor(rows[i], userId)
    requires forall j :: 0 <= j < |rows| && j != i ==> !ActiveFor(rows[j], userId)
    ensures ActiveRowsOf(rows, userId) == [rows[i]]
    decreases |rows|
  {
    var init := rows[..|rows| - 1];
    if i == |rows| - 1 {
      forall s | s in init
        ensures !ActiveFor(s, userId)
      {
        var k :| 0 <= k < |init| && init[k] == s;
        assert rows[k] == s;
      }
      var active := ActiveRowsOf(init, userId);
      assert active == [];
    } else {
      ActiveRowsOfOne(init, userId, i);
    }
  }

  /** Two distinct active rows of a user give the query at least two results. */
  lemma {:induction false} ActiveRowsOfTwo(rows: seq<Subscription>, userId: string, i: nat, j: nat)
    requires i < j < |rows|
    requires ActiveFor(rows[i], userId) && ActiveFor(rows[j], userId)
    ensures |ActiveRowsOf(rows, userId)| >= 2
    decreases |rows|
  {
    var init := rows[..|rows| - 1];
    if j < |rows| - 1 {
      ActiveRowsOfTwo(init, userId, i, j);
    } else {
      assert init[i] == rows[i];
      assert rows[i] in ActiveRowsOf(init, userId);
    }
  }

  /** Supabase `.single()`: exactly one row, otherwise an error. */
  function Single<T>(xs: seq<T>): (r: Result<T>)
    ensures r.Ok? <==> |xs| == 1
    ensures r.Ok? ==> r.value == xs[0]
  {
    if |xs| == 1 then Ok(xs[0]) else Error
  }

  /** Supabase `.maybeSingle()`: no row is `null`, one row is that row,
      more than one is an error. */
  function MaybeSingle<T>(xs: seq<T>): (r: Result<Option<T>>)
    ensures r == Ok(None) <==> |xs| == 0
    ensures r.Ok? && r.value.Some? <==> |xs| == 1
    ensures r.Ok? && r.value.Some? ==> r.value.value == xs[0]
    ensures r.Error? <==> |xs| > 1
  {
    if |xs| == 0 then Ok(None) else if |xs| == 1 then Ok(Some(xs[0])) else Error
  }

  /** The activation routes' existence check: the user's active row through
      `.maybeSingle()`, or an error when the store fails. */
  function FindActive(rows: seq<Subscription>, userId: string, up: bool): (r: Result<Option<Subscription>>)
    ensures r.Error? <==> !up || |ActiveRowsOf(rows, userId)| > 1
    ensures r == Ok(None) <==> up && forall s :: s in rows ==> !ActiveFor(s, userId)
    ensures r.Ok? && r.value.Some? ==> r.value.value in rows && ActiveFor(r.value.value, userId)
  {
    if up then
      var active := ActiveRowsOf(rows, userId);
      MaybeSingle(active)
    else Error
  }

  /** `checkUserSubscription`: false for an empty user id or a store error;
      otherwise whether `.single()` finds exactly one active row. */
  function CheckUserSubscription(rows: seq<Subscription>, userId: string, up: bool): (premium: bool)
    ensures premium <==> userId != "" && up && |ActiveRowsOf(rows, userId)| == 1
    ensures premium ==> exists s :: s in rows && ActiveFor(s, userId)
  {
    if userId == "" || !up then false
    else
      var found := Single(ActiveRowsOf(rows, userId));
      if found.Ok? then
        assert found.value in ActiveRowsOf(rows, userId);
        true
      else false
  }

  /** A user with two active rows is reported as not premium, because
      `.single()` treats several matches as an error. */
  lemma TwoActiveRowsNotPremium(rows: seq<Subscription>, userId: string, up: bool, i: nat, j: nat)
    requires i < j < |rows|
    requires ActiveFor(rows[i], userId) && ActiveFor(rows[j], userId)
    ensures !CheckUserSubscription(rows, userId, up)
  {
    ActiveRowsOfTwo(rows, userId, i, j);
  }

  /** A user with exactly one active row is premium (for a non-empty id),
      and the activation routes' existence check finds that row. */
  lemma OneActiveRowPremium(rows: seq<Subscription>, userId: string, i: nat)
    requires i < |rows| && ActiveFor(rows[i], userId)
    requires forall j :: 0 <= j < |rows| && j != i ==> !ActiveFor(rows[j], userId)
    ensures CheckUserSubscription(rows, userId, true) <==> userId != ""
    ensures FindActive(rows, userId, true) == Ok(Some(rows[i]))
  {
    ActiveRowsOfOne(rows, userId, i);
  }

  /** The row with the greatest `created_at` (the first such row on a tie). */
  function Latest(rows: seq<Subscription>): (r: Option<Subscription>)
    ensures r.None? <==> rows == []
    ensures r.Some? ==> r.value in rows
    ensures r.Some? ==> forall s :: s in rows ==> AtOrBefore(s.createdAt, r.value.createdAt)
  {
    if rows == [] then None
    else
      match Latest(rows[1..])
      case None =>
        assert rows == [rows[0]];
        Some(rows[0])
      case Some(t) =>
        assert forall s :: s in rows ==> s == rows[0] || s in rows[1..];
        if AtOrBefore(t.createdAt, rows[0].createdAt) then Some(rows[0]) else Some(t)
  }

  /** `getUserSubscription`: the user's newest row whatever its status, or
      none for an empty user id, a store error or a user without rows. */
  function GetUserSubscription(rows: seq<Subscription>, userId: string, up: bool): (r: Option<Subscription>)
    ensures r.None? <==> userId == "" || !up || forall s :: s in rows ==> s.userId != userId
    ensures r.Some? ==> r.value in rows && r.value.userId == userId
    ensures r.Some? ==> forall s :: s in rows && s.userId == userId ==> AtOrBefore(s.createdAt, r.value.createdAt)
  {
    if userId == "" || !up then None
    else
      var mine := RowsOf(rows, userId);
      assert mine == [] <==> forall s :: s in rows ==> s.userId != userId by {
        if mine != [] { assert mine[0] in mine; }
      }
      // `.order("created_at", desc).limit(1).single()`
      Latest(mine)
  }

  // ---------------------------------------------------------------- writes

  /** The end of the first billing period: one month or one year after `start`. */
  function PeriodEnd(start: Instant, period: PlanPeriod): (end: Instant)
    ensures Before(start, end) && end.offset == start.offset
    ensures end.months == start.months + (if period == Monthly then 1 else 12)
  {
    match period
    case Monthly => AddMonth(start)
    case Yearly => AddYear(start)
  }

  /** The row `createSubscription` asks the store to insert. */
  function NewSubscription(userId: string, planType: PlanType, planPeriod: PlanPeriod,
                           externalId: string, now: Instant): (d: Draft)
    ensures d.userId == userId && d.planType == planType && d.planPeriod == planPeriod
    ensures d.externalId == externalId
    ensures d.status == Active && !d.cancelAtPeriodEnd
    ensures d.periodStart == now && Before(d.periodStart, d.periodEnd)
  {
    Draft(userId, Active, planType, planPeriod, now, PeriodEnd(now, planPeriod), externalId, false)
  }

  /** The table after `.update({status, updated_at, cancel_at_period_end})
      .eq("gumroad_subscription_id", externalId)`. */
  function WithStatus(rows: seq<Subscription>, externalId: string, status: Status,
                      cancelAtPeriodEnd: bool, now: Instant): (r: seq<Subscription>)
    ensures |r| == |rows|
    ensures forall i :: 0 <= i < |rows| && rows[i].externalId != externalId ==> r[i] == rows[i]
    ensures forall i :: 0 <= i < |rows| && rows[i].externalId == externalId ==>
      r[i].status == status && r[i].cancelAtPeriodEnd == cancelAtPeriodEnd && r[i].updatedAt == now
    ensures forall i :: 0 <= i < |rows| && rows[i].externalId == externalId ==>
      r[i] == rows[i].(status := r[i].status, cancelAtPeriodEnd := r[i].cancelAtPeriodEnd,
                       updatedAt := r[i].updatedAt)
  {
    seq(|rows|, i requires 0 <= i < |rows| =>
      if rows[i].externalId == externalId
      then rows[i].(status := status, cancelAtPeriodEnd := cancelAtPeriodEnd, updatedAt := now)
      else rows[i])
  }

  /** An update that matches no row leaves the table as it was. */
  lemma WithStatusNoMatch(rows: seq<Subscription>, externalId: string, status: Status,
                          cancelAtPeriodEnd: bool, now: Instant)
    requires forall s :: s in rows ==> s.externalId != externalId
    ensures WithStatus(rows, externalId, status, cancelAtPeriodEnd, now) == rows
  {
    var r := WithStatus(rows, externalId, status, cancelAtPeriodEnd, now);
    assert forall i :: 0 <= i < |rows| ==> rows[i] in rows;
  }

  /** Delivering the same status update twice is the same as delivering it
      once at the later time. */
  lemma WithStatusIdempotent(rows: seq<Subscription>, externalId: string, status: Status,
                             cancelAtPeriodEnd: bool, first: Instant, second: Instant)
    ensures WithStatus(WithStatus(rows, externalId, status, cancelAtPeriodEnd, first),
                       externalId, status, cancelAtPeriodEnd, second)
         == WithStatus(rows, externalId, status, cancelAtPeriodEnd, second)
  {
  }

  /** After a non-active status is written for an external id, no row with
      that id grants premium, and every other user's active rows are kept. */
  lemma WithStatusRevokes(rows: seq<Subscription>, externalId: string, status: Status,
                          cancelAtPeriodEnd: bool, now: Instant, userId: string)
    requires status != Active
    ensures forall s ::
      (s in WithStatus(rows, externalId, status, cancelAtPeriodEnd, now) && s.externalId == externalId)
      ==> !ActiveFor(s, userId)
    ensures forall s :: s in rows && s.externalId != externalId && ActiveFor(s, userId) ==>
      s in WithStatus(rows, externalId, status, cancelAtPeriodEnd, now)
  {
    var r := WithStatus(rows, externalId, status, cancelAtPeriodEnd, now);
    forall s | s in rows && s.externalId != externalId && ActiveFor(s, userId) ensures s in r {
      var i :| 0 <= i < |rows| && rows[i] == s;
      assert r[i] == s;
    }
  }

  /** The `subscriptions` table. Row ids are issued from `nextId`, so they are
      distinct. */
  class Table {
    var rows: seq<Subscription>
    var nextId: nat

    ghost predicate Valid()
      reads this
    {
      (forall i :: 0 <= i < |rows| ==> rows[i].id < nextId) &&
      (forall i, j :: 0 <= i < j < |rows| ==> rows[i].id != rows[j].id)
    }

    constructor ()
      ensures Valid() && rows == []
    {
      rows := [];
      nextId := 0;
    }

    /** `insert(d)`: on success exactly one row is appended. */
    method Insert(d: Draft, now: Instant, up: bool) returns (r: Option<Subscription>)
      requires Valid()
      modifies this
      ensures Valid()
      ensures up ==> r == Some(Stored(d, old(nextId), now)) && rows == old(rows) + [r.value]
      ensures !up ==> r == None && rows == old(rows)
    {
      if !up {
        return None;
      }
      var s := Stored(d, nextId, now);
      rows := rows + [s];
      nextId := nextId + 1;
      r := Some(s);
    }

    /** `update(...).eq("gumroad_subscription_id", externalId)`: rewrites every
        matching row; a failing store changes nothing. */
    method UpdateWhereExternalId(externalId: string, status: Status, cancelAtPeriodEnd: bool,
                                 now: Instant, up: bool) returns (ok: bool)
      requires Valid()
      modifies this
      ensures Valid() && nextId == old(nextId)
      ensures ok == up
      ensures rows == if up then WithStatus(old(rows), externalId, status, cancelAtPeriodEnd, now)
                      else old(rows)
    {
      ok := up;
      if up {
        rows := WithStatus(rows, externalId, status, cancelAtPeriodEnd, now);
      }
    }
  }

  // ------------------------------------------------- subscription.ts writes

  /** `createSubscription`: false and no insert for an empty user id;
      otherwise one active row for the user, or false when the store fails. */
  method CreateSubscription(table: Table, userId: string, planType: PlanType, planPeriod: PlanPeriod,
                            externalId: string, now: Instant, up: bool) returns (ok: bool)
    requires table.Valid()
    modifies table
    ensures table.Valid()
    ensures ok <==> userId != "" && up
    ensures !ok ==> table.rows == old(table.rows)
    ensures ok ==> table.rows == old(table.rows) + [Stored(
      NewSubscription(userId, planType, planPeriod, externalId, now), old(table.nextId), now)]
  {
    if userId == "" {
      return false;
    }
    var inserted := table.Insert(NewSubscription(userId, planType, planPeriod, externalId, now), now, up);
    ok := inserted.Some?;
  }

  /** `updateSubscriptionStatus`: false and no change for an empty external id;
      otherwise the result is whether the store answered, even when no row matched. */
  method UpdateSubscriptionStatus(table: Table, externalId: string, status: Status,
                                  cancelAtPeriodEnd: bool, now: Instant, up: bool) returns (ok: bool)
    requires table.Valid()
    modifies table
    ensures table.Valid() && table.nextId == old(table.nextId)
    ensures ok <==> externalId != "" && up
    ensures table.rows == if ok then WithStatus(old(table.rows), externalId, status, cancelAtPeriodEnd, now)
                          else old(table.rows)
  {
    if externalId == "" {
      return false;
    }
    ok := table.UpdateWhereExternalId(externalId, status, cancelAtPeriodEnd, now, up);
  }
}
