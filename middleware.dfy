/**
 * The request middleware: before any page or API route runs, it either sends
 * a signed-in user away from the sign-in pages to the dashboard, demands a
 * signed-in user (the identity provider's `protect`, which sends a signed-out
 * visitor to sign in), or lets the request through.
 */
module Middleware {
  import opened Web

  /** What the middleware does with a request. */
  datatype Action = Redirect(target: string) | Protect | Pass

  /** The public routes: `/` and every path under `/sign-in` or `/sign-up`. */
  predicate IsPublic(path: string) {
    path == "/" || StartsWith(path, "/sign-in") || StartsWith(path, "/sign-up")
  }

  /** The decision for a request to `path` from the user `userId` (null when signed out). */
  function Decide(userId: Option<string>, path: string): (a: Action)
    ensures a.Redirect? <==> Truthy(userId) && IsPublic(path) && path != "/"
    ensures a.Redirect? ==> a.target == "/dashboard"
    ensures a.Protect? <==> !IsPublic(path)
    ensures a.Pass? <==> IsPublic(path) && (!Truthy(userId) || path == "/")
  {
    if Truthy(userId) && IsPublic(path) && path != "/" then Redirect("/dashboard")
    else if !IsPublic(path) then Protect
    else Pass
  }

  /** Examples of the definition: which paths are public and which are not. */
  lemma PublicRoutes()
    ensures IsPublic("/") && IsPublic("/sign-in") && IsPublic("/sign-up")
    ensures IsPublic("/sign-in/factor-one") && IsPublic("/sign-up/verify")
    ensures !IsPublic("") && !IsPublic("/dashboard") && !IsPublic("/sign") && !IsPublic("/api/upload")
  {
    assert "/sign-in/factor-one"[..8] == "/sign-in";
    assert "/sign-up/verify"[..8] == "/sign-up";
    assert "/dashboard"[1] != "/sign-in"[1];
    assert "/api/upload"[1] != "/sign-in"[1];
  }

  /** `/` is never redirected, signed in or not. */
  lemma HomeNeverRedirected(userId: Option<string>)
    ensures Decide(userId, "/") == Pass
  {
  }

  /** Every path outside the public routes demands a signed-in user, whoever asks. */
  lemma PrivateAlwaysProtected(userId: Option<string>, path: string)
    requires !IsPublic(path)
    ensures Decide(userId, path) == Protect
  {
  }

  /** A signed-out visitor reaches every public route untouched. */
  lemma SignedOutPassesPublic(userId: Option<string>, path: string)
    requires !Truthy(userId) && IsPublic(path)
    ensures Decide(userId, path) == Pass
  {
  }

  /** The redirect target is itself protected, so a redirect is followed by no second redirect. */
  lemma RedirectTargetProtected(userId: Option<string>, path: string)
    requires Decide(userId, path).Redirect?
    ensures Decide(userId, Decide(userId, path).target) == Protect
  {
    assert "/dashboard"[1] != "/sign-in"[1];
  }
}
