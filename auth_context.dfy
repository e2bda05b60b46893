/** The premium state kept by the client-side auth provider
    (`refreshPremiumStatus` and the effect that runs when the user changes).
    The two subscription helpers are the pure queries of `SubscriptionStore`
    over the table as it stands when they run. */
module AuthContext {
  import opened Wrappers
  import opened Clock
  import opened Identity
  import opened SubscriptionStore

  class AuthProvider {
    var user: Option<User>
    var isPremium: bool
    var subscriptionDetails: Option<Subscription>

    /** No details are shown for a user who is not premium. */
    ghost predicate Valid()
      reads this
    {
      !isPremium ==> subscriptionDetails == None
    }

    constructor ()
      ensures Valid()
      ensures user == None && !isPremium && subscriptionDetails == None
    {
      user := None;
      isPremium := false;
      subscriptionDetails := None;
    }

    /** `refreshPremiumStatus`. `thrown` stands for an exception escaping the
        helpers, which the catch block turns into "not premium". */
    method RefreshPremiumStatus(rows: seq<Subscription>, checkUp: bool, detailsUp: bool, thrown: bool)
      requires Valid()
      modifies this
      ensures Valid() && user == old(user)
      ensures user.None? ==>
        isPremium == old(isPremium) && subscriptionDetails == old(subscriptionDetails)
      ensures user.Some? && thrown ==> !isPremium && subscriptionDetails == None
      ensures user.Some? && !thrown ==>
        isPremium == CheckUserSubscription(rows, user.value.id, checkUp) &&
        subscriptionDetails == if isPremium then GetUserSubscription(rows, user.value.id, detailsUp) else None
    {
      if user.None? {
        return;
      }
      if thrown {
        isPremium := false;
        subscriptionDetails := None;
        return;
      }
      var hasPremium := CheckUserSubscription(rows, user.value.id, checkUp);
      isPremium := hasPremium;
      if hasPremium {
        subscriptionDetails := GetUserSubscription(rows, user.value.id, detailsUp);
      } else {
        subscriptionDetails := None;
      }
    }

    /** The effect that runs when the user changes: refresh for a signed-in
        user, clear the premium state otherwise. */
    method SetUser(newUser: Option<User>, rows: seq<Subscription>, checkUp: bool, detailsUp: bool, thrown: bool)
      requires Valid()
      modifies this
      ensures Valid() && user == newUser
      ensures newUser.None? ==> !isPremium && subscriptionDetails == None
      ensures newUser.Some? && thrown ==> !isPremium && subscriptionDetails == None
      ensures newUser.Some? && !thrown ==>
        isPremium == CheckUserSubscription(rows, newUser.value.id, checkUp) &&
        subscriptionDetails == if isPremium then GetUserSubscription(rows, newUser.value.id, detailsUp) else None
    {
      user := newUser;
      if user.Some? {
        RefreshPremiumStatus(rows, checkUp, detailsUp, thrown);
      } else {
        isPremium := false;
        subscriptionDetails := None;
      }
    }
  }

  /** For a premium user whose store answers, details are always found:
      they are the user's newest row, no older than the active one. */
  lemma PremiumUserHasDetails(rows: seq<Subscription>, userId: string, checkUp: bool)
    requires CheckUserSubscription(rows, userId, checkUp)
    ensures GetUserSubscription(rows, userId, true).Some?
    ensures forall s :: s in rows && ActiveFor(s, userId) ==>
      AtOrBefore(s.createdAt, GetUserSubscription(rows, userId, true).value.createdAt)
  {
    var active :| active in rows && ActiveFor(active, userId);
    assert active.userId == userId;
  }

  /** The details of a premium user need not be the active row: a newer
      canceled row is shown instead. */
  lemma DetailsMayBeInactive()
    ensures var t0 := Instant(0, 0);
      var t1 := Instant(1, 0);
      var on := Subscription(0, "u", Active, Premium, Monthly, t0, AddMonth(t0), "a", false, t0, t0);
      var off := Subscription(1, "u", Canceled, Premium, Monthly, t1, AddMonth(t1), "b", true, t1, t1);
      CheckUserSubscription([on, off], "u", true) &&
      GetUserSubscription([on, off], "u", true) == Some(off)
  {
    var t0 := Instant(0, 0);
    var t1 := Instant(1, 0);
    var on := Subscription(0, "u", Active, Premium, Monthly, t0, AddMonth(t0), "a", false, t0, t0);
    var off := Subscription(1, "u", Canceled, Premium, Monthly, t1, AddMonth(t1), "b", true, t1, t1);
    var rows := [on, off];
    assert rows[..1] == [on];
    assert [on][..0] == [];
    assert ActiveRowsOf(rows, "u") == [on];
    assert RowsOf(rows, "u") == rows;
    assert rows[1..] == [off];
  }
}
