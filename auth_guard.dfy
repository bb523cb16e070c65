/**
 * The router's `beforeResolve` guard: from the `meta` flags of the matched
 * route records and the auth store's state it decides which `next(...)`
 * calls (and which notification) the guard issues, in order. The route
 * table of the web app is included as data.
 */
module RouterGuard {
  import opened Wrappers

  /** A record's `meta`; an absent flag reads as false. */
  datatype RouteMeta = RouteMeta(requiresAuth: bool, isAdmin: bool)

  /** One effect of the guard, in the order issued. */
  datatype GuardCall =
    | Next                                    // next()
    | NextTo(name: string)                    // next({name})
    | Notify(message: string, color: string)  // Notify.create({message, color})

  const NotAuthorized: string := "Your role is not authorized to see this view. "

  predicate AnyRequiresAuth(matched: seq<RouteMeta>)
  {
    exists r :: r in matched && r.requiresAuth
  }

  predicate AnyIsAdmin(matched: seq<RouteMeta>)
  {
    exists r :: r in matched && r.isAdmin
  }

  /**
   * The guard as written: on an admin route the inner `if` issues its call
   * and control then reaches the `next()` after it, so two `next` calls are
   * made.
   */
  function Guard(matched: seq<RouteMeta>, isAuthenticated: bool, isAdmin: bool): (calls: seq<GuardCall>)
    ensures !AnyRequiresAuth(matched) ==> calls == [Next]
    ensures AnyRequiresAuth(matched) && !isAuthenticated ==> calls == [NextTo("signin")]
  {
    if AnyRequiresAuth(matched) then
      if isAuthenticated then
        (if AnyIsAdmin(matched) then
           (if isAdmin then [Next] else [Notify(NotAuthorized, "negative"), NextTo("dashboard")])
         else [])
        + [Next]
      else [NextTo("signin")]
    else [Next]
  }

  /** The `next` calls among the guard's effects. */
  function NextCalls(calls: seq<GuardCall>): (r: seq<GuardCall>)
    ensures |r| <= |calls|
    ensures forall c :: c in r ==> !c.Notify?
  {
    if calls == [] then []
    else (if calls[0].Notify? then [] else [calls[0]]) + NextCalls(calls[1..])
  }

  lemma {:induction false} NextCallsConcat(a: seq<GuardCall>, b: seq<GuardCall>)
    ensures NextCalls(a + b) == NextCalls(a) + NextCalls(b)
  {
    if a == [] {
      assert a + b == b;
    } else {
      assert (a + b)[0] == a[0];
      assert (a + b)[1..] == a[1..] + b;
      NextCallsConcat(a[1..], b);
    }
  }

  /**
   * The guard issues `next` once except on an admin route with an
   * authenticated user, where it issues it twice: `next()` twice for an
   * admin, and for anyone else a redirect to the dashboard followed by a
   * plain `next()`.
   */
  lemma GuardNextCalls(matched: seq<RouteMeta>, isAuthenticated: bool, isAdmin: bool)
    ensures var n := NextCalls(Guard(matched, isAuthenticated, isAdmin));
            |n| == (if AnyRequiresAuth(matched) && isAuthenticated && AnyIsAdmin(matched) then 2 else 1)
    ensures AnyRequiresAuth(matched) && isAuthenticated && AnyIsAdmin(matched) ==>
              NextCalls(Guard(matched, isAuthenticated, isAdmin)) ==
              (if isAdmin then [Next, Next] else [NextTo("dashboard"), Next])
  {
    var calls := Guard(matched, isAuthenticated, isAdmin);
    if AnyRequiresAuth(matched) && isAuthenticated {
      var first := if AnyIsAdmin(matched) then
                     (if isAdmin then [Next] else [Notify(NotAuthorized, "negative"), NextTo("dashboard")])
                   else [];
      NextCallsConcat(first, [Next]);
      if AnyIsAdmin(matched) && !isAdmin {
        NextCallsConcat([Notify(NotAuthorized, "negative")], [NextTo("dashboard")]);
      }
    }
  }

  /** The guard as evidently intended: one `next` per navigation, the redirect replacing the plain call. */
  function GuardOnce(matched: seq<RouteMeta>, isAuthenticated: bool, isAdmin: bool): (calls: seq<GuardCall>)
  {
    if !AnyRequiresAuth(matched) then [Next]
    else if !isAuthenticated then [NextTo("signin")]
    else if AnyIsAdmin(matched) && !isAdmin then [Notify(NotAuthorized, "negative"), NextTo("dashboard")]
    else [Next]
  }

  /**
   * The intended guard calls `next` exactly once, and that call is the first
   * `next` the guard as written makes (the one a router that honours only
   * the first call acts on); the notifications agree.
   */
  lemma GuardOnceAgrees(matched: seq<RouteMeta>, isAuthenticated: bool, isAdmin: bool)
    ensures |NextCalls(GuardOnce(matched, isAuthenticated, isAdmin))| == 1
    ensures var written := NextCalls(Guard(matched, isAuthenticated, isAdmin));
            |written| >= 1 && NextCalls(GuardOnce(matched, isAuthenticated, isAdmin)) == [written[0]]
    ensures Notify(NotAuthorized, "negative") in GuardOnce(matched, isAuthenticated, isAdmin) <==>
            Notify(NotAuthorized, "negative") in Guard(matched, isAuthenticated, isAdmin)
  {
    GuardNextCalls(matched, isAuthenticated, isAdmin);
    var once := GuardOnce(matched, isAuthenticated, isAdmin);
    if AnyRequiresAuth(matched) && isAuthenticated && AnyIsAdmin(matched) && !isAdmin {
      NextCallsConcat([Notify(NotAuthorized, "negative")], [NextTo("dashboard")]);
      assert once == [Notify(NotAuthorized, "negative")] + [NextTo("dashboard")];
    }
  }

  // ---------------------------------------------------------------------------
  // The route table

  datatype Route = Route(path: string, name: Option<string>, meta: RouteMeta)

  /** The layout route `/`, which has no `meta`. */
  const Layout: Route := Route("/", None, RouteMeta(false, false))

  const Guarded: RouteMeta := RouteMeta(true, false)

  /** The children of the layout route, in table order. */
  const Children: seq<Route> := [
    Route("", None, Guarded),
    Route("/dashboard", Some("dashboard"), Guarded),
    Route("/users", Some("users"), RouteMeta(true, true)),
    Route("/workflow", Some("workflow"), Guarded),
    Route("/ready2run", Some("ready2run"), Guarded),
    Route("/job", Some("job"), Guarded),
    Route("/repository", Some("repository"), Guarded),
    Route("/analytics", Some("analytics"), Guarded),
    Route("/signin", Some("signin"), RouteMeta(false, false)),
    Route("/signout", Some("signout"), Guarded)
  ]

  /** The last, catch-all route, which has no `meta`. */
  const CatchAll: Route := Route("/:catchAll(.*)*", None, RouteMeta(false, false))

  /** `to.matched` for a child: the layout record, then the child's. */
  function MatchedChild(child: Route): seq<RouteMeta>
  {
    [Layout.meta, child.meta]
  }

  /**
   * In the table only `/users` is an admin route, and `/signin` and the
   * catch-all are the only routes that do not require auth, so the guard
   * lets anyone reach them with a single `next()`.
   */
  lemma RouteTableFlags()
    ensures forall c :: c in Children ==> (c.meta.isAdmin <==> c.path == "/users")
    ensures forall c :: c in Children ==> (!c.meta.requiresAuth <==> c.path == "/signin")
    ensures forall a, b :: Guard([CatchAll.meta], a, b) == [Next]
    ensures forall c, a, b :: c in Children && c.path == "/signin" ==> Guard(MatchedChild(c), a, b) == [Next]
  {
    forall c | c in Children ensures (c.meta.isAdmin <==> c.path == "/users") {
      if c.meta.isAdmin {
        assert c == Children[2];
      }
    }
    forall c | c in Children ensures (!c.meta.requiresAuth <==> c.path == "/signin") {
      if !c.meta.requiresAuth {
        assert c == Children[8];
      }
    }
  }

  /** A signed-out visitor of any guarded page is sent to sign in; a non-admin on `/users` to the dashboard. */
  lemma RouteTableDecisions(isAdmin: bool)
    ensures forall c :: c in Children && c.path != "/signin" ==>
              Guard(MatchedChild(c), false, isAdmin) == [NextTo("signin")]
    ensures Guard(MatchedChild(Children[2]), true, false) ==
            [Notify(NotAuthorized, "negative"), NextTo("dashboard"), Next]
  {
    RouteTableFlags();
    forall c | c in Children && c.path != "/signin"
      ensures Guard(MatchedChild(c), false, isAdmin) == [NextTo("signin")]
    {
      assert c.meta in MatchedChild(c);
    }
    assert Children[2].meta in MatchedChild(Children[2]);
  }
}
