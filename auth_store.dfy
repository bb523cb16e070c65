/**
 * The web app's authentication store: three fields (`user`, `isAuthenticated`,
 * `newPasswordRequired`), getters that read paths of the state with lodash
 * `get`, and the actions that move the state on sign-in, sign-out, session
 * reload and first password change. Amplify's `Auth` calls are inputs.
 */
module AuthStore {
  import opened Wrappers
  import opened Js

  /** The default of the `userEmail`, `userAttributes` and `userName` getters. */
  const NotAvailable: JsValue := Str("N/A")

  const NewPasswordRequired: string := "NEW_PASSWORD_REQUIRED"

  /** Where Cognito puts the caller's groups, below `user`. */
  const GroupsPath: seq<string> := ["signInUserSession", "accessToken", "payload", "cognito:groups"]

  /** The state as the object the getters read: its three fields in declaration order. */
  function StateObject(user: JsValue, isAuthenticated: bool, newPasswordRequired: bool): JsValue
  {
    Obj([Entry("user", user), Entry("isAuthenticated", Bool(isAuthenticated)),
         Entry("newPasswordRequired", Bool(newPasswordRequired))])
  }

  /** A path of the state that starts at `user` reads the user. */
  lemma UserPath(user: JsValue, a: bool, b: bool, path: seq<string>)
    ensures GetPath(StateObject(user, a, b), ["user"] + path) == GetPath(user, path)
  {
    assert (["user"] + path)[1..] == path;
  }

  /**
   * `isAdmin` on the groups found: `groups ? groups.includes('admin') : false`.
   * A truthy value that is neither a string nor an array has no `includes`.
   */
  function IsAdminOfGroups(groups: JsValue): (r: Attempt<bool>)
    ensures !Truthy(groups) ==> r == Returned(false)
    ensures groups.Arr? ==> r == Returned(Str("admin") in groups.elems)
  {
    if !Truthy(groups) then Returned(false) else Includes(groups, "admin", "groups")
  }

  /** A missing group list makes nobody an admin; a list makes exactly its `admin` members admins. */
  lemma IsAdminExactly(groups: JsValue)
    ensures groups == Undefined ==> IsAdminOfGroups(groups) == Returned(false)
    ensures groups.Arr? ==> (IsAdminOfGroups(groups) == Returned(true) <==> Str("admin") in groups.elems)
    ensures groups.Obj? || groups.Num? ==> IsAdminOfGroups(groups).Threw? == Truthy(groups)
  {
  }

  /** The test of `login`: `get(user, 'challengeName') === 'NEW_PASSWORD_REQUIRED'`. */
  predicate ChallengesNewPassword(user: JsValue)
  {
    GetPath(user, ["challengeName"]) == Str(NewPasswordRequired)
  }

  class Store {
    var user: JsValue
    var isAuthenticated: bool
    var newPasswordRequired: bool

    constructor()
      ensures user == Null && !isAuthenticated && !newPasswordRequired
    {
      user := Null;
      isAuthenticated := false;
      newPasswordRequired := false;
    }

    function State(): JsValue
      reads this
    {
      StateObject(user, isAuthenticated, newPasswordRequired)
    }

    // -------------------------------------------------------------------------
    // Getters

    function UserEmail(): (r: JsValue)
      reads this
      ensures r == GetOr(user, ["attributes", "email"], NotAvailable)
    {
      UserPath(user, isAuthenticated, newPasswordRequired, ["attributes", "email"]);
      GetOr(State(), ["user", "attributes", "email"], NotAvailable)
    }

    function UserAttributes(): (r: JsValue)
      reads this
      ensures r == GetOr(user, ["attributes"], NotAvailable)
    {
      UserPath(user, isAuthenticated, newPasswordRequired, ["attributes"]);
      GetOr(State(), ["user", "attributes"], NotAvailable)
    }

    function UserName(): (r: JsValue)
      reads this
      ensures r == GetOr(user, ["username"], NotAvailable)
    {
      UserPath(user, isAuthenticated, newPasswordRequired, ["username"]);
      GetOr(State(), ["user", "username"], NotAvailable)
    }

    /** `get(state, ['credentials'], null)`: the state has no `credentials`, so this is always null. */
    function UserCredentials(): (r: JsValue)
      reads this
      ensures r == Null
    {
      assert "credentials" !in Keys(State().fields);
      GetOr(State(), ["credentials"], Null)
    }

    function UserPoolId(): (r: JsValue)
      reads this
      ensures r == GetPath(user, ["pool", "userPoolId"])
    {
      UserPath(user, isAuthenticated, newPasswordRequired, ["pool", "userPoolId"]);
      GetPath(State(), ["user", "pool", "userPoolId"])
    }

    function IsAdmin(): (r: Attempt<bool>)
      reads this
      ensures r == IsAdminOfGroups(GetPath(user, GroupsPath))
    {
      UserPath(user, isAuthenticated, newPasswordRequired, GroupsPath);
      IsAdminOfGroups(GetPath(State(), ["user"] + GroupsPath))
    }

    function AccessToken(): (r: JsValue)
      reads this
      ensures r == GetOr(user, ["signInUserSession", "accessToken", "jwtToken"], Null)
    {
      UserPath(user, isAuthenticated, newPasswordRequired, ["signInUserSession", "accessToken", "jwtToken"]);
      GetOr(State(), ["user", "signInUserSession", "accessToken", "jwtToken"], Null)
    }

    function Exp(): (r: JsValue)
      reads this
      ensures r == GetPath(user, ["signInUserSession", "accessToken", "payload", "exp"])
    {
      UserPath(user, isAuthenticated, newPasswordRequired, ["signInUserSession", "accessToken", "payload", "exp"]);
      GetPath(State(), ["user", "signInUserSession", "accessToken", "payload", "exp"])
    }

    // -------------------------------------------------------------------------
    // Actions

    /**
     * `login`: Amplify's answer to `signIn(username, password)` is an input.
     * On success the user is stored and the challenge may raise
     * `newPasswordRequired`; a failure is caught, reported, and changes nothing.
     */
    method Login(username: string, password: string, signIn: (string, string) -> Attempt<JsValue>)
      returns (r: JsValue)
      modifies this
      ensures signIn(username, password).Threw? ==>
                user == old(user) && isAuthenticated == old(isAuthenticated) &&
                newPasswordRequired == old(newPasswordRequired) && r == Undefined
      ensures signIn(username, password).Returned? ==>
                var signedIn := signIn(username, password).value;
                user == signedIn && r == signedIn && (isAuthenticated <==> Truthy(signedIn)) &&
                (newPasswordRequired <==> old(newPasswordRequired) || ChallengesNewPassword(signedIn))
    {
      var answer := signIn(username, password);
      if answer.Threw? {
        return Undefined;
      }
      var signedIn := answer.value;
      if GetPath(signedIn, ["challengeName"]) == Str(NewPasswordRequired) {
        newPasswordRequired := true;
      }
      user := signedIn;
      isAuthenticated := Truthy(signedIn);
      r := user;
    }

    /** `signOut`: when Amplify's sign-out fails the action rejects before touching the state. */
    method SignOut(signOutError: Option<string>) returns (r: Attempt<()>)
      modifies this
      ensures signOutError.Some? ==>
                r == Threw(signOutError.value) && user == old(user) && isAuthenticated == old(isAuthenticated)
      ensures signOutError.None? ==> r == Returned(()) && user == Null && !isAuthenticated
      ensures newPasswordRequired == old(newPasswordRequired)
    {
      if signOutError.Some? {
        return Threw(signOutError.value);
      }
      user := Null;
      isAuthenticated := false;
      r := Returned(());
    }

    /**
     * `loadUser`: with a live session the current user is stored, and a
     * truthy one marks the store authenticated; nothing ever clears the flag
     * here, and a failure is only logged.
     */
    method LoadUser(session: Attempt<JsValue>, current: Attempt<JsValue>)
      modifies this
      ensures newPasswordRequired == old(newPasswordRequired)
      ensures session.Threw? || current.Threw? ==> user == old(user) && isAuthenticated == old(isAuthenticated)
      ensures session.Returned? && current.Returned? ==>
                user == current.value && (isAuthenticated <==> old(isAuthenticated) || Truthy(current.value))
    {
      if session.Threw? || current.Threw? {
        return;
      }
      user := current.value;
      if Truthy(user) {
        isAuthenticated := Truthy(user);
      }
    }

    /**
     * `setPassword`: completes the new-password challenge for the stored
     * user, then clears `newPasswordRequired`. The `loadUser` it starts is not
     * awaited; its effects (on the other two fields) are applied after.
     */
    method SetPassword(password: string, completeNewPassword: (JsValue, string) -> Attempt<JsValue>,
                       session: Attempt<JsValue>, current: Attempt<JsValue>) returns (r: Attempt<JsValue>)
      modifies this
      ensures r == completeNewPassword(old(user), password)
      ensures r.Threw? ==> user == old(user) && isAuthenticated == old(isAuthenticated) &&
                           newPasswordRequired == old(newPasswordRequired)
      ensures r.Returned? ==> !newPasswordRequired
      ensures r.Returned? && session.Returned? && current.Returned? ==>
                user == current.value && (isAuthenticated <==> old(isAuthenticated) || Truthy(current.value))
      ensures r.Returned? && (session.Threw? || current.Threw?) ==>
                user == old(user) && isAuthenticated == old(isAuthenticated)
    {
      r := completeNewPassword(user, password);
      if r.Threw? {
        return;
      }
      newPasswordRequired := false;
      LoadUser(session, current);
    }
  }

  /** A fresh store has no user: every defaulted getter gives its default and nobody is an admin. */
  lemma FreshStoreDefaults(s: Store)
    requires s.user == Null
    ensures s.UserEmail() == NotAvailable && s.UserAttributes() == NotAvailable && s.UserName() == NotAvailable
    ensures s.IsAdmin() == Returned(false) && s.AccessToken() == Null && s.Exp() == Undefined
  {
  }
}
