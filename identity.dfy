/** The signed-in user as the identity provider reports it
    (`supabase.auth.getUser()`), and the `profiles` table the webhook reads. */
module Identity {
  import opened Wrappers

  /** A user; the provider may know no email for it. */
  datatype User = User(id: string, email: Option<string>)

  /** One row of the `profiles` table. */
  datatype Profile = Profile(id: string, email: string)

  /** `.from("profiles").eq("email", email)`: the profiles with exactly that email. */
  function ProfilesWithEmail(profiles: seq<Profile>, email: string): (r: seq<Profile>)
    ensures forall p :: p in r <==> p in profiles && p.email == email
    ensures (forall p :: p in profiles ==> p.email != email) ==> r == []
  {
    if profiles == [] then []
    else
      var init := ProfilesWithEmail(profiles[..|profiles| - 1], email);
      var last := profiles[|profiles| - 1];
      assert profiles == profiles[..|profiles| - 1] + [last];
      init + (if last.email == email then [last] else [])
  }

  /** A profile whose email no other profile carries is the query's only result. */
  lemma {:induction false} ProfilesWithEmailOne(profiles: seq<Profile>, email: string, i: nat)
    requires i < |profiles| && profiles[i].email == email
    requires forall j :: 0 <= j < |profiles| && j != i ==> profiles[j].email != email
    ensures ProfilesWithEmail(profiles, email) == [profiles[i]]
    decreases |profiles|
  {
    var init := profiles[..|profiles| - 1];
    if i == |profiles| - 1 {
      forall p | p in init
        ensures p.email != email
      {
        var k :| 0 <= k < |init| && init[k] == p;
        assert profiles[k] == p;
      }
      var found := ProfilesWithEmail(init, email);
      assert found == [];
    } else {
      ProfilesWithEmailOne(init, email, i);
    }
  }
}
