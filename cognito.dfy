/**
 * The web app's Cognito user-pool client: each operation builds one SDK
 * command for the signed-in user's pool and sends it. `listUsers` keeps, for
 * a caller that has a tenant, only the users one of whose attributes carries
 * the caller's tenant id. Amplify's credentials and the SDK's answers are
 * inputs.
 */
module CognitoApi {
  import opened Wrappers
  import opened Js
  import opened AuthStore
  import Lambda

  /** An attribute in a request: `{Name, Value}`. */
  datatype AttributeInput = AttributeInput(name: string, value: JsValue)

  /** The SDK commands the client sends, with their parameters. */
  datatype Command =
    | AdminCreateUser(userPoolId: JsValue, username: string, attributes: seq<AttributeInput>)
    | AdminUpdateUserAttributes(userPoolId: JsValue, username: string, attributes: seq<AttributeInput>)
    | AdminAddUserToGroup(userPoolId: JsValue, username: string, groupName: string)
    | AdminDeleteUser(userPoolId: JsValue, username: string)
    | ListUsers(userPoolId: JsValue)
    | ListGroups(userPoolId: JsValue)
    | AdminListGroupsForUser(userPoolId: JsValue, username: string)

  /**
   * The outside world: `Auth.currentCredentials()` (which the client needs
   * before anything is sent) and the answer of `client.send` to each command.
   */
  datatype Sdk = Sdk(credentials: Attempt<JsValue>, send: Command -> Attempt<JsValue>)

  /** What an operation that catches its errors resolves with: the response, or the error it caught. */
  datatype Resolution = Response(value: JsValue) | Error(message: string)

  /** What `createUser` sends and what it resolves with. */
  datatype Created = Created(sent: seq<Command>, result: Resolution)

  datatype CreateUserInput = CreateUserInput(username: string, email: string)

  datatype AddUserGroupInput = AddUserGroupInput(username: string, groupName: string)

  /** Creating the client, then sending `cmd` with it: either step can reject. */
  function Send(sdk: Sdk, cmd: Command): (r: Attempt<JsValue>)
    ensures sdk.credentials.Threw? ==> r == Threw(sdk.credentials.message)
    ensures sdk.credentials.Returned? ==> r == sdk.send(cmd)
  {
    if sdk.credentials.Threw? then Threw(sdk.credentials.message) else sdk.send(cmd)
  }

  /** `catch (error) { return error; }`. */
  function Catch(a: Attempt<JsValue>): (r: Resolution)
    ensures a.Returned? <==> r.Response?
    ensures a.Returned? ==> r.value == a.value
    ensures a.Threw? ==> r.message == a.message
  {
    if a.Returned? then Response(a.value) else Error(a.message)
  }

  /** The pool a command addresses. */
  function PoolOf(cmd: Command): JsValue
  {
    cmd.userPoolId
  }

  // ---------------------------------------------------------------------------
  // The caller's tenant

  /**
   * The caller's tenant id, when `has(userAttributes, 'custom:tenantId')`
   * holds of the store's `userAttributes`.
   */
  function CallerTenant(store: Store): (t: Option<JsValue>)
    reads store
    ensures t.Some? <==> HasKey(store.UserAttributes(), Lambda.TenantClaim)
    ensures t.Some? ==> t.value == Member(store.UserAttributes(), Lambda.TenantClaim)
  {
    var attributes := store.UserAttributes();
    if HasKey(attributes, Lambda.TenantClaim) then Some(Lookup(attributes.fields, Lambda.TenantClaim)) else None
  }

  /** A signed-out store (whose attributes read "N/A") has no tenant. */
  lemma SignedOutHasNoTenant(store: Store)
    requires store.user == Null
    ensures CallerTenant(store) == None
  {
    FreshStoreDefaults(store);
  }

  // ---------------------------------------------------------------------------
  // Operations without filtering

  /** `createUser`: creates the user with its email, then gives it the caller's tenant id when the caller has one. */
  function CreateUser(store: Store, sdk: Sdk, params: CreateUserInput): (r: Created)
    reads store
    ensures sdk.credentials.Threw? ==> r == Created([], Error(sdk.credentials.message))
    ensures sdk.credentials.Returned? ==>
              |r.sent| >= 1 &&
              r.sent[0] == AdminCreateUser(store.UserPoolId(), params.username,
                                           [AttributeInput("email", Str(params.email))])
    ensures |r.sent| == 2 ==>
              CallerTenant(store).Some? && sdk.send(r.sent[0]).Returned? &&
              r.sent[1] == AdminUpdateUserAttributes(store.UserPoolId(), params.username,
                                                     [AttributeInput(Lambda.TenantClaim, CallerTenant(store).value)])
    ensures |r.sent| <= 2
  {
    var poolId := store.UserPoolId();
    var tenant := CallerTenant(store);
    if sdk.credentials.Threw? then Created([], Error(sdk.credentials.message))
    else
      var create := AdminCreateUser(poolId, params.username, [AttributeInput("email", Str(params.email))]);
      var response := sdk.send(create);
      if response.Threw? then Created([create], Error(response.message))
      else if tenant.Some? then
        var update := AdminUpdateUserAttributes(poolId, params.username,
                                                [AttributeInput(Lambda.TenantClaim, tenant.value)]);
        var updated := sdk.send(update);
        if updated.Threw? then Created([create, update], Error(updated.message))
        else Created([create, update], Response(response.value))
      else Created([create], Response(response.value))
  }

  /**
   * A caller with a tenant creates users of that tenant: once the user is
   * created the update follows, and the creation's response is returned only
   * when the update also succeeded. A caller without a tenant sends the
   * creation alone.
   */
  lemma CreateUserTenancy(store: Store, sdk: Sdk, params: CreateUserInput)
    requires sdk.credentials.Returned?
    ensures var r := CreateUser(store, sdk, params);
            var created := sdk.send(r.sent[0]);
            (created.Threw? ==> r == Created([r.sent[0]], Error(created.message))) &&
            (created.Returned? && CallerTenant(store).None? ==> r == Created([r.sent[0]], Response(created.value))) &&
            (created.Returned? && CallerTenant(store).Some? ==>
               |r.sent| == 2 &&
               r.result == (if sdk.send(r.sent[1]).Returned? then Response(created.value)
                            else Error(sdk.send(r.sent[1]).message)))
  {
  }

  /** `addUserToGroup`: errors are resolved with, not thrown. */
  function AddUserToGroup(store: Store, sdk: Sdk, params: AddUserGroupInput): (r: Resolution)
    reads store
    ensures sdk.credentials.Threw? ==> r == Error(sdk.credentials.message)
    ensures var answer := sdk.send(AdminAddUserToGroup(store.UserPoolId(), params.username, params.groupName));
            sdk.credentials.Returned? ==>
              (r.Response? <==> answer.Returned?) &&
              (answer.Returned? ==> r.value == answer.value) &&
              (answer.Threw? ==> r.message == answer.message)
  {
    Catch(Send(sdk, AdminAddUserToGroup(store.UserPoolId(), params.username, params.groupName)))
  }

  /** `deleteUser`: no catch, so a failure of either step rejects. */
  function DeleteUser(store: Store, sdk: Sdk, username: string): (r: Attempt<JsValue>)
    reads store
    ensures sdk.credentials.Threw? ==> r == Threw(sdk.credentials.message)
    ensures sdk.credentials.Returned? ==> r == sdk.send(AdminDeleteUser(store.UserPoolId(), username))
  {
    Send(sdk, AdminDeleteUser(store.UserPoolId(), username))
  }

  /** `getCognitoUsers`: the whole pool, whatever the caller's tenant. */
  function GetCognitoUsers(store: Store, sdk: Sdk): (r: Attempt<JsValue>)
    reads store
    ensures sdk.credentials.Threw? ==> r == Threw(sdk.credentials.message)
    ensures sdk.credentials.Returned? ==> r == sdk.send(ListUsers(store.UserPoolId()))
  {
    Send(sdk, ListUsers(store.UserPoolId()))
  }

  /** `listGroups`. */
  function ListGroupsOfPool(store: Store, sdk: Sdk): (r: Attempt<JsValue>)
    reads store
    ensures sdk.credentials.Threw? ==> r == Threw(sdk.credentials.message)
    ensures sdk.credentials.Returned? ==> r == sdk.send(ListGroups(store.UserPoolId()))
  {
    Send(sdk, ListGroups(store.UserPoolId()))
  }

  /** `adminListGroupsForUsers`: the groups of one user of the caller's pool. */
  function AdminListGroupsForUsers(store: Store, sdk: Sdk, username: string): (r: Attempt<JsValue>)
    reads store
    ensures sdk.credentials.Threw? ==> r == Threw(sdk.credentials.message)
    ensures sdk.credentials.Returned? ==> r == sdk.send(AdminListGroupsForUser(store.UserPoolId(), username))
  {
    Send(sdk, AdminListGroupsForUser(store.UserPoolId(), username))
  }

  /**
   * Every command the client sends addresses the signed-in user's pool, and
   * nothing is sent when the credentials cannot be obtained; only the
   * operations that catch resolve with an error instead of rejecting.
   */
  lemma CommandsAddressCallerPool(store: Store, sdk: Sdk, params: CreateUserInput, group: AddUserGroupInput, username: string)
    ensures forall c :: c in CreateUser(store, sdk, params).sent ==> PoolOf(c) == store.UserPoolId()
    ensures sdk.credentials.Threw? ==>
              CreateUser(store, sdk, params).sent == [] &&
              AddUserToGroup(store, sdk, group) == Error(sdk.credentials.message) &&
              DeleteUser(store, sdk, username).Threw? && GetCognitoUsers(store, sdk).Threw? &&
              ListGroupsOfPool(store, sdk).Threw? && AdminListGroupsForUsers(store, sdk, username).Threw?
  {
  }

  // ---------------------------------------------------------------------------
  // listUsers

  /**
   * `attribute.Value === tenantId`. The tenant id comes from the store and
   * the attribute from an SDK response, so two objects are never the same
   * reference; primitives compare by value.
   */
  predicate SameValue(a: JsValue, b: JsValue)
  {
    !a.Obj? && !a.Arr? && a == b
  }

  /** What one `map` callback does: how often it pushes its user, and what it throws, if anything. */
  datatype CallbackRun = CallbackRun(pushes: nat, thrown: Option<string>)

  /** A readable attribute whose value is the tenant id. */
  predicate Matches(attribute: JsValue, tenant: JsValue)
  {
    !Nullish(attribute) && SameValue(Member(attribute, "Value"), tenant)
  }

  /** The `filter` callback on one more attribute: nothing after a throw, a throw on a missing one. */
  function ScanNext(before: CallbackRun, a: JsValue, tenant: JsValue): CallbackRun
  {
    if before.thrown.Some? then before
    else if Nullish(a) then CallbackRun(before.pushes, Some(ReadOfNullish(a, "Value")))
    else CallbackRun(before.pushes + (if Matches(a, tenant) then 1 else 0), None)
  }

  /**
   * The `filter` over a user's attributes, stopped by the first attribute whose
   * `Value` cannot be read: the pushes before it stand.
   */
  function Scan(attributes: seq<JsValue>, tenant: JsValue): (run: CallbackRun)
    ensures run.pushes <= |attributes|
    decreases |attributes|
  {
    if attributes == [] then CallbackRun(0, None)
    else ScanNext(Scan(attributes[..|attributes| - 1], tenant), attributes[|attributes| - 1], tenant)
  }

  /** The attributes `filter` walks: lodash iterates the values of whatever `user.Attributes` is. */
  function AttributesOf(user: JsValue): seq<JsValue>
  {
    LodashValues(Member(user, "Attributes"))
  }

  /** The callback on one user: reading `user.Attributes` throws on a missing user. */
  function Callback(user: JsValue, tenant: JsValue): CallbackRun
  {
    if Nullish(user) then CallbackRun(0, Some(ReadOfNullish(user, "Attributes")))
    else Scan(AttributesOf(user), tenant)
  }

  function Repeat(x: JsValue, n: nat): (r: seq<JsValue>)
    ensures |r| == n && forall y :: y in r ==> y == x
  {
    if n == 0 then [] else Repeat(x, n - 1) + [x]
  }

  /** `userList` after the callbacks on `users` ran, and the rejection `Promise.all` reports. */
  datatype Listing = Listing(users: seq<JsValue>, failure: Option<string>)

  /**
   * Every callback runs (they hold no `await`, so each finishes within
   * `map`), in order; `Promise.all` rejects with the first callback's error
   * in index order.
   */
  function Collect(users: seq<JsValue>, tenant: JsValue): Listing
    decreases |users|
  {
    if users == [] then Listing([], None)
    else
      var before := Collect(users[..|users| - 1], tenant);
      var u := users[|users| - 1];
      var run := Callback(u, tenant);
      Listing(before.users + Repeat(u, run.pushes), if before.failure.Some? then before.failure else run.thrown)
  }

  /** `listUsers` once the response is in, for a caller whose tenant is `tenant`. */
  function ListedForTenant(response: JsValue, tenant: JsValue): Attempt<JsValue>
  {
    if Nullish(response) then Threw(ReadOfNullish(response, "Users"))
    else
      var users := Member(response, "Users");
      if Nullish(users) then Threw(ReadOfNullish(users, "map"))
      else if !users.Arr? then Threw(NotAFunction("response.Users.map"))
      else
        var c := Collect(users.elems, tenant);
        if c.failure.Some? then Threw(c.failure.value) else Returned(Obj([Entry("Users", Arr(c.users))]))
  }

  /** `listUsers`: the pool's users, narrowed to the caller's tenant when the caller has one. */
  function Listed(tenant: Option<JsValue>, response: Attempt<JsValue>): Attempt<JsValue>
  {
    if response.Threw? || tenant.None? then response else ListedForTenant(response.value, tenant.value)
  }

  /** One callback, run on a copy of `userList`. */
  method RunCallback(user: JsValue, tenant: JsValue, userList: seq<JsValue>) returns (pushed: seq<JsValue>, thrown: Option<string>)
    ensures pushed == userList + Repeat(user, Callback(user, tenant).pushes)
    ensures thrown == Callback(user, tenant).thrown
  {
    pushed := userList;
    thrown := None;
    if Nullish(user) {
      thrown := Some(ReadOfNullish(user, "Attributes"));
      return;
    }
    var attributes := AttributesOf(user);
    var j, n := 0, 0;
    while j < |attributes|
      invariant 0 <= j <= |attributes|
      invariant pushed == userList + Repeat(user, n)
      invariant Scan(attributes[..j], tenant) == CallbackRun(n, None)
    {
      ScanStep(attributes, j, tenant);
      var attribute := attributes[j];
      if Nullish(attribute) {
        thrown := Some(ReadOfNullish(attribute, "Value"));
        ScanStops(attributes, j + 1, tenant);
        return;
      }
      if SameValue(Member(attribute, "Value"), tenant) {
        pushed := pushed + [user];
        n := n + 1;
      }
      j := j + 1;
    }
    assert attributes[..j] == attributes;
  }

  /** The scan of one more attribute, as the loop takes it. */
  lemma ScanStep(attributes: seq<JsValue>, j: nat, tenant: JsValue)
    requires j < |attributes|
    ensures Scan(attributes[..j + 1], tenant) == ScanNext(Scan(attributes[..j], tenant), attributes[j], tenant)
  {
    assert attributes[..j + 1][..j] == attributes[..j];
  }

  /** Once the scan has thrown, the attributes after it change nothing. */
  lemma {:induction false} ScanStops(attributes: seq<JsValue>, k: nat, tenant: JsValue)
    requires k <= |attributes| && Scan(attributes[..k], tenant).thrown.Some?
    ensures Scan(attributes, tenant) == Scan(attributes[..k], tenant)
    decreases |attributes| - k
  {
    if k < |attributes| {
      assert attributes[..k + 1][..k] == attributes[..k];
      ScanStops(attributes, k + 1, tenant);
    } else {
      assert attributes[..k] == attributes;
    }
  }

  /** `listUsers`. */
  method ListUsersOfTenant(store: Store, sdk: Sdk) returns (r: Attempt<JsValue>)
    ensures r == Listed(CallerTenant(store), Send(sdk, ListUsers(store.UserPoolId())))
  {
    var userPoolId := store.UserPoolId();
    var tenant := CallerTenant(store);
    var userList: seq<JsValue> := [];
    var answer := Send(sdk, ListUsers(userPoolId));
    if answer.Threw? || tenant.None? {
      return answer;
    }
    var response := answer.value;
    if Nullish(response) {
      return Threw(ReadOfNullish(response, "Users"));
    }
    var users := Member(response, "Users");
    if Nullish(users) {
      return Threw(ReadOfNullish(users, "map"));
    }
    if !users.Arr? {
      return Threw(NotAFunction("response.Users.map"));
    }
    var failure: Option<string> := None;
    var i := 0;
    while i < |users.elems|
      invariant 0 <= i <= |users.elems|
      invariant Collect(users.elems[..i], tenant.value) == Listing(userList, failure)
    {
      assert users.elems[..i + 1][..i] == users.elems[..i];
      var thrown;
      userList, thrown := RunCallback(users.elems[i], tenant.value, userList);
      if failure.None? {
        failure := thrown;
      }
      i := i + 1;
    }
    assert users.elems[..i] == users.elems;
    if failure.Some? {
      return Threw(failure.value);
    }
    r := Returned(Obj([Entry("Users", Arr(userList))]));
  }

  // Properties of the filtering

  /** The user has an attribute, read before any unreadable one, whose value is the tenant id. */
  predicate CarriesTenant(user: JsValue, tenant: JsValue)
  {
    !Nullish(user) && exists a :: a in AttributesOf(user) && !Nullish(a) && SameValue(Member(a, "Value"), tenant)
  }

  lemma {:induction false} ScanSound(attributes: seq<JsValue>, tenant: JsValue)
    ensures Scan(attributes, tenant).pushes > 0 ==>
              exists a :: a in attributes && !Nullish(a) && SameValue(Member(a, "Value"), tenant)
    ensures Scan(attributes, tenant).thrown.None? ==>
              (Scan(attributes, tenant).pushes > 0 <==>
               exists a :: a in attributes && !Nullish(a) && SameValue(Member(a, "Value"), tenant))
    ensures Scan(attributes, tenant).thrown.Some? <==> exists a :: a in attributes && Nullish(a)
    decreases |attributes|
  {
    if attributes != [] {
      var init := attributes[..|attributes| - 1];
      var last := attributes[|attributes| - 1];
      ScanSound(init, tenant);
      assert attributes == init + [last];
      forall a | a in attributes ensures a in init || a == last { }
    }
  }

  /** Every listed user comes from the response and carries the tenant id in one of its attributes. */
  lemma {:induction false} CollectSound(users: seq<JsValue>, tenant: JsValue)
    ensures forall u :: u in Collect(users, tenant).users ==> u in users && CarriesTenant(u, tenant)
    decreases |users|
  {
    if users != [] {
      var init := users[..|users| - 1];
      var u := users[|users| - 1];
      CollectSound(init, tenant);
      if !Nullish(u) {
        ScanSound(AttributesOf(u), tenant);
      }
      forall v | v in Collect(users, tenant).users ensures v in users && CarriesTenant(v, tenant) {
        if v in Collect(init, tenant).users {
          assert v in init;
        } else {
          assert v == u;
        }
      }
    }
  }

  /**
   * The listing rejects exactly when some user is missing or has a missing
   * attribute; when it resolves, every user that carries the tenant id is
   * listed.
   */
  lemma {:induction false} CollectComplete(users: seq<JsValue>, tenant: JsValue)
    ensures Collect(users, tenant).failure.Some? <==>
            exists i :: 0 <= i < |users| && Callback(users[i], tenant).thrown.Some?
    ensures Collect(users, tenant).failure.None? ==>
              forall u :: u in users && CarriesTenant(u, tenant) ==> u in Collect(users, tenant).users
    decreases |users|
  {
    if users != [] {
      var n := |users| - 1;
      var init := users[..n];
      var u := users[n];
      CollectComplete(init, tenant);
      if Collect(users, tenant).failure.Some? {
        if Collect(init, tenant).failure.None? {
          assert Callback(users[n], tenant).thrown.Some?;
        } else {
          var i :| 0 <= i < |init| && Callback(init[i], tenant).thrown.Some?;
          assert users[i] == init[i];
        }
      } else {
        forall i | 0 <= i < |users| ensures Callback(users[i], tenant).thrown.None? {
          if i < n {
            assert users[i] == init[i];
          }
        }
        forall v | v in users && CarriesTenant(v, tenant) ensures v in Collect(users, tenant).users {
          if v == u {
            ScanSound(AttributesOf(u), tenant);
            assert u in Repeat(u, Callback(u, tenant).pushes);
          } else {
            assert users == init + [u];
            assert v in init;
          }
        }
      }
    }
  }

  /** The rejection is the error of the first callback, in index order, that throws. */
  lemma {:induction false} CollectFailsFirst(users: seq<JsValue>, tenant: JsValue, k: nat)
    requires k < |users| && Callback(users[k], tenant).thrown.Some?
    requires forall i :: 0 <= i < k ==> Callback(users[i], tenant).thrown.None?
    ensures Collect(users, tenant).failure == Callback(users[k], tenant).thrown
    decreases |users|
  {
    var n := |users| - 1;
    var init := users[..n];
    if k < n {
      CollectFailsFirst(init, tenant, k);
    } else {
      CollectComplete(init, tenant);
      forall i | 0 <= i < |init| ensures Callback(init[i], tenant).thrown.None? {
        assert init[i] == users[i];
      }
    }
  }

  /** How many of the attributes match the tenant id, counted from the front. */
  function MatchingAttributes(attributes: seq<JsValue>, tenant: JsValue): nat
  {
    if attributes == [] then 0
    else (if Matches(attributes[0], tenant) then 1 else 0) + MatchingAttributes(attributes[1..], tenant)
  }

  lemma {:induction false} MatchingAttributesSnoc(attributes: seq<JsValue>, a: JsValue, tenant: JsValue)
    ensures MatchingAttributes(attributes + [a], tenant) ==
            MatchingAttributes(attributes, tenant) + (if Matches(a, tenant) then 1 else 0)
    decreases |attributes|
  {
    if attributes != [] {
      assert (attributes + [a])[1..] == attributes[1..] + [a];
      MatchingAttributesSnoc(attributes[1..], a, tenant);
    }
  }

  /** A scan that does not throw pushes once per matching attribute. */
  lemma {:induction false} ScanCount(attributes: seq<JsValue>, tenant: JsValue)
    requires Scan(attributes, tenant).thrown.None?
    ensures Scan(attributes, tenant).pushes == MatchingAttributes(attributes, tenant)
    decreases |attributes|
  {
    if attributes != [] {
      var init := attributes[..|attributes| - 1];
      var last := attributes[|attributes| - 1];
      ScanCount(init, tenant);
      assert attributes == init + [last];
      MatchingAttributesSnoc(init, last, tenant);
    }
  }

  /** A callback that does not throw pushes its user once per matching attribute. */
  lemma CallbackCount(user: JsValue, tenant: JsValue)
    requires Callback(user, tenant).thrown.None?
    ensures Callback(user, tenant).pushes == MatchingAttributes(AttributesOf(user), tenant)
  {
    ScanCount(AttributesOf(user), tenant);
  }

  lemma RepeatCount(x: JsValue, n: nat, u: JsValue)
    ensures multiset(Repeat(x, n))[u] == if u == x then n else 0
  {
    if n > 0 {
      RepeatCount(x, n - 1, u);
    }
  }

  /** One more user: its pushes are appended, and a listing without a rejection had none before either. */
  lemma CollectSnoc(users: seq<JsValue>, tenant: JsValue)
    requires users != []
    ensures var init := users[..|users| - 1];
            var v := users[|users| - 1];
            Collect(users, tenant).users == Collect(init, tenant).users + Repeat(v, Callback(v, tenant).pushes) &&
            (Collect(users, tenant).failure.None? ==>
               Collect(init, tenant).failure.None? && Callback(v, tenant).thrown.None?)
  {
  }

  /** How often `u` occurs once `v` is appended `n` times. */
  lemma CountAppended(a: seq<JsValue>, v: JsValue, n: nat, u: JsValue)
    ensures multiset(a + Repeat(v, n))[u] == multiset(a)[u] + (if u == v then n else 0)
  {
    RepeatCount(v, n, u);
  }

  /** How often `u` occurs in a non-empty sequence: in its front, plus one if it is the last element. */
  lemma CountSnoc(users: seq<JsValue>, u: JsValue)
    requires users != []
    ensures multiset(users)[u] == multiset(users[..|users| - 1])[u] + (if u == users[|users| - 1] then 1 else 0)
  {
    assert users == users[..|users| - 1] + [users[|users| - 1]];
  }

  /**
   * When no callback throws, each user is listed once per matching attribute
   * for every time the response lists it.
   */
  lemma {:induction false} CollectCount(users: seq<JsValue>, tenant: JsValue, u: JsValue)
    requires Collect(users, tenant).failure.None?
    ensures multiset(Collect(users, tenant).users)[u] == multiset(users)[u] * MatchingAttributes(AttributesOf(u), tenant)
    decreases |users|
  {
    if users != [] {
      var init := users[..|users| - 1];
      var v := users[|users| - 1];
      var pushes := Callback(v, tenant).pushes;
      var m := MatchingAttributes(AttributesOf(u), tenant);
      var k := multiset(init)[u];
      CollectSnoc(users, tenant);
      CountSnoc(users, u);
      CollectCount(init, tenant, u);
      CountAppended(Collect(init, tenant).users, v, pushes, u);
      CallbackCount(v, tenant);
      CountStep(multiset(Collect(init, tenant).users)[u], k, m, pushes, u == v);
    }
  }

  /** The count of one more user: `k` occurrences listed `m` times each, plus `m` more if it is the same user. */
  lemma CountStep(listed: nat, k: nat, m: nat, pushes: nat, same: bool)
    requires listed == k * m && (same ==> pushes == m)
    ensures listed + (if same then pushes else 0) == (k + (if same then 1 else 0)) * m
  {
    if same {
      assert (k + 1) * m == k * m + m;
    }
  }

  /**
   * A caller with a tenant sees only users of that tenant, and all of them;
   * a caller without one sees the whole pool, exactly as `getCognitoUsers`
   * does.
   */
  lemma ListUsersPartners(store: Store, sdk: Sdk)
    ensures CallerTenant(store).None? ==>
              Listed(CallerTenant(store), Send(sdk, ListUsers(store.UserPoolId()))) == GetCognitoUsers(store, sdk)
    ensures var r := Listed(CallerTenant(store), Send(sdk, ListUsers(store.UserPoolId())));
            var answer := Send(sdk, ListUsers(store.UserPoolId()));
            CallerTenant(store).Some? && r.Returned? ==>
              answer.Returned? && Member(answer.value, "Users").Arr? &&
              var all := Member(answer.value, "Users").elems;
              var listed := Member(r.value, "Users");
              listed.Arr? &&
              (forall u :: u in listed.elems ==> u in all && CarriesTenant(u, CallerTenant(store).value)) &&
              (forall u :: u in all && CarriesTenant(u, CallerTenant(store).value) ==> u in listed.elems)
  {
    var tenant := CallerTenant(store);
    var answer := Send(sdk, ListUsers(store.UserPoolId()));
    if tenant.Some? && answer.Returned? && !Nullish(answer.value) && Member(answer.value, "Users").Arr? {
      var all := Member(answer.value, "Users").elems;
      CollectSound(all, tenant.value);
      CollectComplete(all, tenant.value);
    }
  }

  /** An attribute as Cognito lists it: `{Name, Value}`. */
  function Attribute(name: string, value: string): JsValue
  {
    Obj([Entry("Name", Str(name)), Entry("Value", Str(value))])
  }

  lemma AttributeValue(name: string, value: string)
    ensures Member(Attribute(name, value), "Value") == Str(value)
  {
    var fields := Attribute(name, value).fields;
    assert "Name"[0] != "Value"[0];
    assert fields[1..] == [Entry("Value", Str(value))];
    assert Lookup(fields[1..], "Value") == Str(value);
  }

  /** A user with exactly the two given attributes. */
  function UserWith(a0: JsValue, a1: JsValue): JsValue
  {
    Obj([Entry("Attributes", Arr([a0, a1]))])
  }

  /** The callback on a user with two readable attributes counts the ones equal to the tenant id. */
  lemma ScanTwo(a0: JsValue, a1: JsValue, tenant: JsValue)
    requires !Nullish(a0) && !Nullish(a1)
    ensures Callback(UserWith(a0, a1), tenant) ==
            CallbackRun((if SameValue(Member(a0, "Value"), tenant) then 1 else 0) +
                        (if SameValue(Member(a1, "Value"), tenant) then 1 else 0), None)
  {
    assert AttributesOf(UserWith(a0, a1)) == [a0, a1];
    assert [a0][..0] == [];
    assert Scan([a0], tenant) == CallbackRun(if SameValue(Member(a0, "Value"), tenant) then 1 else 0, None);
    assert [a0, a1][..1] == [a0];
  }

  /**
   * Any attribute counts, not only `custom:tenantId`: a user of another
   * tenant whose `name` equals the caller's tenant id is listed.
   */
  lemma AnyAttributeMatches(tenantId: string, otherTenant: string)
    requires tenantId != otherTenant
    ensures var user := UserWith(Attribute(Lambda.TenantClaim, otherTenant), Attribute("name", tenantId));
            Collect([user], Str(tenantId)) == Listing([user], None)
  {
    var user := UserWith(Attribute(Lambda.TenantClaim, otherTenant), Attribute("name", tenantId));
    AttributeValue(Lambda.TenantClaim, otherTenant);
    AttributeValue("name", tenantId);
    ScanTwo(Attribute(Lambda.TenantClaim, otherTenant), Attribute("name", tenantId), Str(tenantId));
    assert [user][..0] == [];
  }

  /** A user is pushed once per matching attribute: one whose `name` repeats its tenant id is listed twice. */
  lemma DuplicatesPerMatch(tenantId: string)
    ensures var user := UserWith(Attribute(Lambda.TenantClaim, tenantId), Attribute("name", tenantId));
            Collect([user], Str(tenantId)) == Listing([user, user], None)
  {
    var user := UserWith(Attribute(Lambda.TenantClaim, tenantId), Attribute("name", tenantId));
    AttributeValue(Lambda.TenantClaim, tenantId);
    AttributeValue("name", tenantId);
    ScanTwo(Attribute(Lambda.TenantClaim, tenantId), Attribute("name", tenantId), Str(tenantId));
    assert [user][..0] == [];
    assert Repeat(user, 2) == [user, user];
  }
}
