/** The shop front's navigation guard: from the stored token and role and
    the target route it decides whether to let the navigation through or
    to send it elsewhere. */
module Router {
  import opened Wrappers

  /** A target route: its name (a route may have none) and whether its
      `meta.requiresAdmin` is set. */
  datatype Route = Route(name: Option<string>, requiresAdmin: bool)

  datatype Decision = Allow | Redirect(to: string)

  const PublicNames: seq<string> := ["home", "shop", "connect", "passwordreset", "auth"]

  /** The route table, for the property that no admin route is public. */
  const Routes: seq<Route> := [
    Route(Some("test"), false), Route(Some("home"), false), Route(Some("shop"), false),
    Route(Some("connect"), false), Route(Some("passwordreset"), false), Route(Some("auth"), false),
    Route(Some("cart"), false), Route(Some("checkout"), false), Route(Some("paymentsuccess"), false),
    Route(Some("custompaymentsuccess"), false), Route(Some("profile"), false), Route(Some("whistlis"), false),
    Route(Some("artisan"), true), Route(Some("artisanproductmanagement"), true),
    Route(Some("artisanprofilemanagement"), true), Route(Some("artisanordermanagement"), true),
    Route(Some("admin"), true)]

  /** `!!token`: a stored, non-empty token. */
  predicate SignedIn(token: Option<string>) {
    token.Some? && token.value != ""
  }

  predicate IsPublic(to: Route) {
    to.name.Some? && to.name.value in PublicNames
  }

  /** `router.beforeEach`, rule by rule. */
  function BeforeEach(token: Option<string>, role: Option<string>, to: Route): Decision {
    if !SignedIn(token) then (if IsPublic(to) then Allow else Redirect("auth"))
    else if to.name == Some("auth") then Redirect("home")
    else if to.requiresAdmin && role != Some("admin") then Redirect("home")
    else if role == Some("member") && to.requiresAdmin then Redirect("home")
    else Allow
  }

  /** Signed out, a navigation goes through exactly when its target is one
      of the public pages; any other is sent to the login page. */
  lemma SignedOutRule(token: Option<string>, role: Option<string>, to: Route)
    requires !SignedIn(token)
    ensures BeforeEach(token, role, to) == Allow <==> to.name.Some? && to.name.value in PublicNames
    ensures BeforeEach(token, role, to) != Allow ==> BeforeEach(token, role, to) == Redirect("auth")
  {
  }

  /** Signed in, the login page sends the user home. */
  lemma SignedInAuthRule(token: Option<string>, role: Option<string>, to: Route)
    requires SignedIn(token) && to.name == Some("auth")
    ensures BeforeEach(token, role, to) == Redirect("home")
  {
  }

  /** Signed in, an admin page is refused to anyone whose role is not
      "admin", and let through for an admin. */
  lemma AdminRule(token: Option<string>, role: Option<string>, to: Route)
    requires SignedIn(token) && to.requiresAdmin && to.name != Some("auth")
    ensures BeforeEach(token, role, to) == Allow <==> role == Some("admin")
    ensures role != Some("admin") ==> BeforeEach(token, role, to) == Redirect("home")
  {
  }

  /** The guard with its fourth rule removed. */
  function WithoutMemberRule(token: Option<string>, role: Option<string>, to: Route): Decision {
    if !SignedIn(token) then (if IsPublic(to) then Allow else Redirect("auth"))
    else if to.name == Some("auth") then Redirect("home")
    else if to.requiresAdmin && role != Some("admin") then Redirect("home")
    else Allow
  }

  /** The fourth rule never changes a decision: a member heading for an
      admin page has already been sent home by the third. */
  lemma MemberRuleRedundant(token: Option<string>, role: Option<string>, to: Route)
    ensures BeforeEach(token, role, to) == WithoutMemberRule(token, role, to)
  {
  }

  /** Signed in, every page that is neither the login page nor an admin page
      is let through, whatever the role. */
  lemma SignedInOpenPages(token: Option<string>, role: Option<string>, to: Route)
    requires SignedIn(token) && to.name != Some("auth") && !to.requiresAdmin
    ensures BeforeEach(token, role, to) == Allow
  {
  }

  /** No admin route of the table is public, so signed out no admin page is
      ever reached. */
  lemma AdminRoutesNotPublic()
    ensures forall r :: r in Routes && r.requiresAdmin ==> !IsPublic(r)
  {
    forall r | r in Routes && r.requiresAdmin ensures !IsPublic(r) {
      var i :| 0 <= i < |Routes| && Routes[i] == r;
      assert 12 <= i;
      assert r.name.value[0] == 'a' && |r.name.value| >= 5;
      forall k | 0 <= k < |PublicNames| ensures PublicNames[k] != r.name.value {
        assert PublicNames[k] == "auth" ==> |PublicNames[k]| == 4;
        assert PublicNames[k] != "auth" ==> PublicNames[k][0] != 'a';
      }
    }
  }

  /** Every decision either lets the navigation through or redirects to the
      login page or the home page. Only a signed-out caller is sent to the
      login page, never from it; only a signed-in caller is sent home, and
      only from the login page or an admin page. */
  lemma DecisionTargets(token: Option<string>, role: Option<string>, to: Route)
    ensures BeforeEach(token, role, to) in {Allow, Redirect("auth"), Redirect("home")}
    ensures BeforeEach(token, role, to) == Redirect("auth") ==> !SignedIn(token) && to.name != Some("auth")
    ensures BeforeEach(token, role, to) == Redirect("home") ==>
      SignedIn(token) && (to.name == Some("auth") || to.requiresAdmin)
  {
  }
}
