/** The page shown after an OAuth sign-in: once the session status is
    known it sends the user to role selection (with the profile fields as
    query parameters), to the dashboard, or back to login. Toasts and the
    percent-encoding of the query string are not modelled. */
module AuthSuccess {
  import opened Wrappers
  import opened JsText
  import opened NextSession

  /** The navigation the effect makes: none, a plain path, or the
      role-selection page with its query parameters in order. */
  datatype Nav = NoNav | To(path: string) | ToSelectRole(params: seq<(string, string)>)

  /** The query parameters for role selection, each defaulting to "". */
  function RoleSelectionParams(u: SessionUser): seq<(string, string)> {
    [("email", OrElse(u.email, "")),
     ("name", OrElse(u.name, "")),
     ("image", OrElse(u.image, "")),
     ("provider", OrElse(u.provider, "")),
     ("providerId", OrElse(u.providerId, ""))]
  }

  /** The effect of the page. */
  function SuccessNavigation(status: Status, session: Option<Session>): Nav {
    var user := UserOf(session);
    if status == Authenticated && user.Some? then
      if user.value.needsRoleSelection then ToSelectRole(RoleSelectionParams(user.value))
      else To("/dashboard")
    else if status == Unauthenticated then To("/auth/login")
    else NoNav
  }

  /** The page navigates exactly when the status is settled and, when
      authenticated, there is a user; each status leads to its own page. */
  lemma SuccessNavigationCases(status: Status, session: Option<Session>)
    ensures SuccessNavigation(status, session).NoNav?
        <==> status == Loading || (status == Authenticated && UserOf(session).None?)
    ensures SuccessNavigation(status, session).ToSelectRole?
        <==> status == Authenticated && UserOf(session).Some? && UserOf(session).value.needsRoleSelection
    ensures SuccessNavigation(status, session) == To("/dashboard")
        <==> status == Authenticated && UserOf(session).Some? && !UserOf(session).value.needsRoleSelection
    ensures SuccessNavigation(status, session) == To("/auth/login") <==> status == Unauthenticated
  {
  }

  /** The role-selection parameters are the five profile fields in a fixed
      order; a field that is present and non-empty is passed as it is, and
      any other as "". */
  lemma RoleSelectionParamsFields(u: SessionUser)
    ensures |RoleSelectionParams(u)| == 5
    ensures forall i :: 0 <= i < 5 ==> RoleSelectionParams(u)[i].0 == ["email", "name", "image", "provider", "providerId"][i]
    ensures forall i :: 0 <= i < 5 ==>
      var field := [u.email, u.name, u.image, u.provider, u.providerId][i];
      RoleSelectionParams(u)[i].1 == (if Truthy(field) then field.value else "")
  {
  }

  /** The value of the first parameter with the given key. */
  function QueryValue(params: seq<(string, string)>, key: string): Option<string> {
    if params == [] then None
    else if params[0].0 == key then Some(params[0].1)
    else QueryValue(params[1..], key)
  }

  /** The lookup finds the first parameter with the key. */
  lemma {:induction false} QueryValueFinds(params: seq<(string, string)>, i: nat, key: string)
    requires i < |params| && params[i].0 == key
    requires forall j :: 0 <= j < i ==> params[j].0 != key
    ensures QueryValue(params, key) == Some(params[i].1)
  {
    if i > 0 {
      QueryValueFinds(params[1..], i - 1, key);
    }
  }

  /** The parameters carry what is needed to rebuild the user's profile:
      reading them back by key gives every non-empty field. */
  lemma RoleSelectionParamsReadBack(u: SessionUser)
    ensures Truthy(u.email) ==> QueryValue(RoleSelectionParams(u), "email") == u.email
    ensures Truthy(u.name) ==> QueryValue(RoleSelectionParams(u), "name") == u.name
    ensures Truthy(u.image) ==> QueryValue(RoleSelectionParams(u), "image") == u.image
    ensures Truthy(u.provider) ==> QueryValue(RoleSelectionParams(u), "provider") == u.provider
    ensures Truthy(u.providerId) ==> QueryValue(RoleSelectionParams(u), "providerId") == u.providerId
  {
    var p := RoleSelectionParams(u);
    assert "image"[0] != "email"[0];
    QueryValueFinds(p, 1, "name");
    QueryValueFinds(p, 2, "image");
    QueryValueFinds(p, 3, "provider");
    QueryValueFinds(p, 4, "providerId");
  }
}
