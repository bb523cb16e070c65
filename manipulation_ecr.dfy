/**
 * The `manipulationEcr` AppSync resolver: it creates ECR repositories and
 * lists them. In tenant mode a new repository is tagged with the tenant, and
 * a listing keeps only the repositories carrying a tag whose value is the
 * tenant id.
 */
module ManipulationEcr {
  import opened Wrappers
  import opened Text
  import opened Js
  import opened Lambda

  const CreateRepositoryField: string := "createRepositoryCommand"
  const DescribeRepositoriesField: string := "describeRepositoriesCommand"

  /** The fields this resolver answers. */
  const Fields: set<string> := {CreateRepositoryField, DescribeRepositoriesField}

  /** An ECR repository, as DescribeRepositories reports it. */
  datatype Repository = Repository(arn: string, name: string)

  /** One DescribeRepositories answer; None stands for a missing property. */
  datatype Page = Page(repositories: Option<seq<Repository>>, nextToken: Option<string>)

  // ---------------------------------------------------------------------------
  // Pagination

  /** `response.repositories || []`. */
  function Items(p: Page): seq<Repository>
  {
    if p.repositories.Some? then p.repositories.value else []
  }

  /** The `do/while` stops after this answer: it failed, or it carries no (truthy) token. */
  predicate Ends(a: Attempt<Page>)
  {
    a.Threw? || !Present(a.value.nextToken)
  }

  /** The service eventually answers without a token (or fails). */
  predicate Finite(pages: seq<Attempt<Page>>)
  {
    exists i :: 0 <= i < |pages| && Ends(pages[i])
  }

  /** The first answer from index `i` on that ends the loop. */
  function EndFrom(pages: seq<Attempt<Page>>, i: nat): (n: nat)
    requires exists j :: i <= j < |pages| && Ends(pages[j])
    ensures i <= n < |pages| && Ends(pages[n])
    ensures forall k :: i <= k < n ==> !Ends(pages[k])
    decreases |pages| - i
  {
    if Ends(pages[i]) then i else EndFrom(pages, i + 1)
  }

  /** The index of the last DescribeRepositories call the loop makes. */
  function LastCall(pages: seq<Attempt<Page>>): (n: nat)
    requires Finite(pages)
    ensures n < |pages| && Ends(pages[n])
    ensures forall k :: 0 <= k < n ==> !Ends(pages[k])
  {
    EndFrom(pages, 0)
  }

  /** `acc` in front of a listing outcome; an error stays the error. */
  function Glue(acc: seq<Repository>, rest: Attempt<seq<Repository>>): Attempt<seq<Repository>>
  {
    if rest.Threw? then rest else Returned(acc + rest.value)
  }

  /**
   * The repositories of the calls from the i-th on, when the k-th
   * DescribeRepositories call is answered by `pages[k]`; or the error that
   * ended the loop.
   */
  function ListingFrom(pages: seq<Attempt<Page>>, i: nat): Attempt<seq<Repository>>
    requires Finite(pages) && i <= LastCall(pages)
    decreases LastCall(pages) - i
  {
    match pages[i]
    case Threw(m) => Threw(m)
    case Returned(p) => if !Present(p.nextToken) then Returned(Items(p)) else Glue(Items(p), ListingFrom(pages, i + 1))
  }

  /** `allRepos`, or the error that ended the loop. */
  function Listing(pages: seq<Attempt<Page>>): Attempt<seq<Repository>>
    requires Finite(pages)
  {
    ListingFrom(pages, 0)
  }

  lemma GlueAssoc(a: seq<Repository>, b: seq<Repository>, rest: Attempt<seq<Repository>>)
    ensures Glue(a, Glue(b, rest)) == Glue(a + b, rest)
  {
    if rest.Returned? {
      assert a + (b + rest.value) == a + b + rest.value;
    }
  }

  /** The `do/while` loop of describeRepositories; `tokens` are the nextTokens the calls carried. */
  method CollectRepositories(pages: seq<Attempt<Page>>) returns (r: Attempt<seq<Repository>>, tokens: seq<Option<string>>)
    requires Finite(pages)
    ensures r == Listing(pages)
    ensures |tokens| == LastCall(pages) + 1 && tokens[0] == None
    ensures forall k :: 0 < k < |tokens| ==> pages[k - 1].Returned? && tokens[k] == pages[k - 1].value.nextToken
  {
    var allRepos: seq<Repository> := [];
    var nextToken: Option<string> := None;
    var i := 0;
    tokens := [];
    ghost var last := LastCall(pages);
    assert Listing(pages).Returned? ==> [] + Listing(pages).value == Listing(pages).value;
    while true
      invariant 0 <= i <= last
      invariant |tokens| == i && (i > 0 ==> tokens[0] == None)
      invariant forall k :: 0 < k < i ==> pages[k - 1].Returned? && tokens[k] == pages[k - 1].value.nextToken
      invariant i == 0 ==> nextToken == None
      invariant i > 0 ==> pages[i - 1].Returned? && nextToken == pages[i - 1].value.nextToken
      invariant Listing(pages) == Glue(allRepos, ListingFrom(pages, i))
      decreases last - i
    {
      tokens := tokens + [nextToken];
      var response := pages[i];
      if response.Threw? {
        return Threw(response.message), tokens;
      }
      nextToken := response.value.nextToken;
      if !Present(nextToken) {
        return Returned(allRepos + Items(response.value)), tokens;
      }
      GlueAssoc(allRepos, Items(response.value), ListingFrom(pages, i + 1));
      allRepos := allRepos + Items(response.value);
      i := i + 1;
    }
  }

  /** A single page without a token gives exactly that page's repositories. */
  lemma OnePage(p: Page, later: seq<Attempt<Page>>)
    requires !Present(p.nextToken)
    ensures Finite([Returned(p)] + later)
    ensures Listing([Returned(p)] + later) == Returned(Items(p))
  {
    assert Ends(([Returned(p)] + later)[0]);
  }

  /** Answers after the last call are never looked at. */
  lemma {:induction false} ListingIgnoresLater(pages: seq<Attempt<Page>>, later: seq<Attempt<Page>>, i: nat)
    requires Finite(pages) && i <= LastCall(pages)
    ensures Finite(pages + later) && LastCall(pages + later) == LastCall(pages)
    ensures ListingFrom(pages + later, i) == ListingFrom(pages, i)
    decreases LastCall(pages) - i
  {
    var n := LastCall(pages);
    assert (pages + later)[n] == pages[n];
    assert forall k :: 0 <= k < n ==> (pages + later)[k] == pages[k];
    LastCallIs(pages + later, n);
    assert (pages + later)[i] == pages[i];
    if !Ends(pages[i]) {
      ListingIgnoresLater(pages, later, i + 1);
    }
  }

  lemma LastCallIs(pages: seq<Attempt<Page>>, n: nat)
    requires n < |pages| && Ends(pages[n]) && forall k :: 0 <= k < n ==> !Ends(pages[k])
    ensures Finite(pages) && LastCall(pages) == n
  {
  }

  /** The listing fails exactly when the last call failed, with that call's error. */
  lemma {:induction false} ListingFails(pages: seq<Attempt<Page>>, i: nat)
    requires Finite(pages) && i <= LastCall(pages)
    ensures ListingFrom(pages, i).Threw? <==> pages[LastCall(pages)].Threw?
    ensures ListingFrom(pages, i).Threw? ==> ListingFrom(pages, i).message == pages[LastCall(pages)].message
    decreases LastCall(pages) - i
  {
    if !Ends(pages[i]) {
      ListingFails(pages, i + 1);
    }
  }

  /** A repository is listed exactly when some answer up to the last call reports it. */
  lemma {:induction false} ListingMembers(pages: seq<Attempt<Page>>, i: nat, repo: Repository)
    requires Finite(pages) && i <= LastCall(pages) && ListingFrom(pages, i).Returned?
    ensures forall k :: i <= k <= LastCall(pages) ==> pages[k].Returned?
    ensures repo in ListingFrom(pages, i).value <==>
              exists k :: i <= k <= LastCall(pages) && repo in Items(pages[k].value)
    decreases LastCall(pages) - i
  {
    ListingFails(pages, i);
    if !Ends(pages[i]) {
      ListingMembers(pages, i + 1, repo);
    }
  }

  // ---------------------------------------------------------------------------
  // The tenant filter

  /** How many of a repository's tags carry the tenant id as their value, whatever their key. */
  function MatchCount(tags: Option<seq<Tag>>, tenantId: string): nat
    decreases if tags.Some? then |tags.value| else 0
  {
    if tags.None? || tags.value == [] then 0
    else (if tags.value[0].value == tenantId then 1 else 0) + MatchCount(Some(tags.value[1..]), tenantId)
  }

  /** `n` copies of `r`. */
  function Copies(r: Repository, n: nat): (s: seq<Repository>)
    ensures |s| == n && forall x :: x in s ==> x == r
    ensures multiset(s)[r] == n
  {
    if n == 0 then [] else [r] + Copies(r, n - 1)
  }

  /** How many times the filter pushes `x`: once per matching tag (none when the lookup failed). */
  function Matches(tagsOf: Repository -> Attempt<Option<seq<Tag>>>, x: Repository, tenantId: string): nat
  {
    if tagsOf(x).Returned? then MatchCount(tagsOf(x).value, tenantId) else 0
  }

  /**
   * `tenantRepos` in the order a sequential run would fill it: each repository
   * pushed once per matching tag. Tags are looked up with `tagsOf`.
   */
  function TenantRepos(allRepos: seq<Repository>, tenantId: string,
                       tagsOf: Repository -> Attempt<Option<seq<Tag>>>): seq<Repository>
    decreases |allRepos|
  {
    if allRepos == [] then []
    else
      var last := allRepos[|allRepos| - 1];
      TenantRepos(allRepos[..|allRepos| - 1], tenantId, tagsOf) + Copies(last, Matches(tagsOf, last, tenantId))
  }

  /** Every ListTagsForResource call succeeded. */
  predicate AllTagged(allRepos: seq<Repository>, tagsOf: Repository -> Attempt<Option<seq<Tag>>>)
  {
    forall r :: r in allRepos ==> tagsOf(r).Returned?
  }

  /** The error of the first repository, in listing order, whose tag lookup failed. */
  function FirstFailure(allRepos: seq<Repository>, tagsOf: Repository -> Attempt<Option<seq<Tag>>>): (f: Option<string>)
    ensures f.None? <==> AllTagged(allRepos, tagsOf)
    ensures f.Some? ==> exists x :: x in allRepos && tagsOf(x) == Threw(f.value)
    decreases |allRepos|
  {
    if allRepos == [] then None
    else
      var init := allRepos[..|allRepos| - 1];
      var last := allRepos[|allRepos| - 1];
      assert allRepos == init + [last];
      var earlier := FirstFailure(init, tagsOf);
      if earlier.Some? then earlier
      else if tagsOf(last).Threw? then Some(tagsOf(last).message)
      else None
  }

  /** How often `x` occurs in `s`. */
  function Occurrences(s: seq<Repository>, x: Repository): nat
  {
    multiset(s)[x]
  }

  /**
   * The `Promise.all` over all repositories, run one repository after the
   * other. Completion order decides the real order of `tenantRepos`, so only
   * the multiset is promised; a failed lookup rejects the whole listing.
   */
  method FilterByTenant(allRepos: seq<Repository>, tenantId: string,
                        tagsOf: Repository -> Attempt<Option<seq<Tag>>>) returns (r: Attempt<seq<Repository>>)
    ensures r.Threw? <==> !AllTagged(allRepos, tagsOf)
    ensures r.Threw? ==> FirstFailure(allRepos, tagsOf) == Some(r.message)
    ensures r.Threw? ==> exists x :: x in allRepos && tagsOf(x) == Threw(r.message)
    ensures r.Returned? ==> multiset(r.value) == multiset(TenantRepos(allRepos, tenantId, tagsOf))
  {
    var tenantRepos: seq<Repository> := [];
    var i := 0;
    while i < |allRepos|
      invariant 0 <= i <= |allRepos|
      invariant FirstFailure(allRepos[..i], tagsOf) == None
      invariant tenantRepos == TenantRepos(allRepos[..i], tenantId, tagsOf)
    {
      var repo := allRepos[i];
      var res := tagsOf(repo);
      assert allRepos[..i + 1][..i] == allRepos[..i];
      if res.Threw? {
        FailurePersists(allRepos, i + 1, tagsOf);
        return Threw(res.message);
      }
      var pushed: seq<Repository> := [];
      if res.value.Some? && |res.value.value| > 0 {
        pushed := PushMatches(repo, res.value.value, tenantId);
      }
      tenantRepos := tenantRepos + pushed;
      i := i + 1;
    }
    assert allRepos[..i] == allRepos;
    r := Returned(tenantRepos);
  }

  /** Once a lookup has failed, later repositories do not change which failure is reported. */
  lemma {:induction false} FailurePersists(allRepos: seq<Repository>, n: nat,
                                           tagsOf: Repository -> Attempt<Option<seq<Tag>>>)
    requires n <= |allRepos| && FirstFailure(allRepos[..n], tagsOf).Some?
    ensures FirstFailure(allRepos, tagsOf) == FirstFailure(allRepos[..n], tagsOf)
    decreases |allRepos| - n
  {
    if n < |allRepos| {
      var init := allRepos[..|allRepos| - 1];
      assert init[..n] == allRepos[..n];
      FailurePersists(init, n, tagsOf);
    } else {
      assert allRepos[..n] == allRepos;
    }
  }

  /** The `filter` over one repository's tags, pushing the repository once per matching tag. */
  method PushMatches(repo: Repository, tags: seq<Tag>, tenantId: string) returns (pushed: seq<Repository>)
    ensures pushed == Copies(repo, MatchCount(Some(tags), tenantId))
  {
    pushed := [];
    var j := 0;
    while j < |tags|
      invariant 0 <= j <= |tags|
      invariant pushed == Copies(repo, MatchCount(Some(tags[..j]), tenantId))
    {
      MatchCountSnoc(tags, j, tenantId);
      CopiesSnoc(repo, MatchCount(Some(tags[..j]), tenantId));
      if tags[j].value == tenantId {
        pushed := pushed + [repo];
      }
      j := j + 1;
    }
    assert tags[..j] == tags;
  }

  lemma {:induction false} MatchCountSnoc(tags: seq<Tag>, j: nat, tenantId: string)
    requires j < |tags|
    ensures MatchCount(Some(tags[..j + 1]), tenantId) ==
              MatchCount(Some(tags[..j]), tenantId) + (if tags[j].value == tenantId then 1 else 0)
    decreases j
  {
    if j > 0 {
      MatchCountSnoc(tags[1..], j - 1, tenantId);
      assert tags[1..][..j] == tags[..j + 1][1..];
      assert tags[1..][..j - 1] == tags[..j][1..];
    }
  }

  lemma {:induction false} CopiesSnoc(r: Repository, n: nat)
    ensures Copies(r, n + 1) == Copies(r, n) + [r]
  {
    if n > 0 {
      CopiesSnoc(r, n - 1);
    }
  }

  /**
   * A repository appears in the tenant listing once per matching tag for each
   * time it was listed: possibly several times, and never when untagged.
   */
  lemma {:induction false} TenantReposCount(allRepos: seq<Repository>, tenantId: string,
                                            tagsOf: Repository -> Attempt<Option<seq<Tag>>>, x: Repository)
    ensures Occurrences(TenantRepos(allRepos, tenantId, tagsOf), x) ==
              Occurrences(allRepos, x) * Matches(tagsOf, x, tenantId)
    decreases |allRepos|
  {
    if allRepos != [] {
      var init := allRepos[..|allRepos| - 1];
      var last := allRepos[|allRepos| - 1];
      TenantReposCount(init, tenantId, tagsOf, x);
      TenantReposSnoc(allRepos, tenantId, tagsOf, x);
      CountStep(Occurrences(init, x), Matches(tagsOf, x, tenantId));
    }
  }

  /** The count for one more listed repository. */
  lemma TenantReposSnoc(allRepos: seq<Repository>, tenantId: string,
                        tagsOf: Repository -> Attempt<Option<seq<Tag>>>, x: Repository)
    requires allRepos != []
    ensures var init := allRepos[..|allRepos| - 1];
            var last := allRepos[|allRepos| - 1];
            Occurrences(TenantRepos(allRepos, tenantId, tagsOf), x) ==
              Occurrences(TenantRepos(init, tenantId, tagsOf), x) + (if last == x then Matches(tagsOf, x, tenantId) else 0) &&
            Occurrences(allRepos, x) == Occurrences(init, x) + (if last == x then 1 else 0)
  {
    var init := allRepos[..|allRepos| - 1];
    var last := allRepos[|allRepos| - 1];
    var c := Copies(last, Matches(tagsOf, last, tenantId));
    OccurrencesConcat(TenantRepos(init, tenantId, tagsOf), c, x);
    assert allRepos == init + [last];
    OccurrencesConcat(init, [last], x);
    if last != x {
      assert x !in c;
    }
  }

  lemma OccurrencesConcat(a: seq<Repository>, b: seq<Repository>, x: Repository)
    ensures Occurrences(a + b, x) == Occurrences(a, x) + Occurrences(b, x)
  {
    assert multiset(a + b) == multiset(a) + multiset(b);
  }

  lemma CountStep(before: nat, m: nat)
    ensures (before + 1) * m == before * m + m
  {
  }

  /** A repository's tags match only if some tag's value is the tenant id. */
  lemma {:induction false} MatchCountPositive(tags: Option<seq<Tag>>, tenantId: string)
    ensures MatchCount(tags, tenantId) > 0 <==> tags.Some? && exists t :: t in tags.value && t.value == tenantId
    decreases if tags.Some? then |tags.value| else 0
  {
    if tags.Some? && tags.value != [] {
      var ts := tags.value;
      MatchCountPositive(Some(ts[1..]), tenantId);
      assert ts == [ts[0]] + ts[1..];
    }
  }

  /** Everything in a tenant listing was listed and carries a tag with the tenant id. */
  lemma TenantReposSound(allRepos: seq<Repository>, tenantId: string,
                         tagsOf: Repository -> Attempt<Option<seq<Tag>>>, x: Repository)
    requires x in TenantRepos(allRepos, tenantId, tagsOf)
    ensures x in allRepos
    ensures tagsOf(x).Returned? && tagsOf(x).value.Some?
    ensures exists t :: t in tagsOf(x).value.value && t.value == tenantId
  {
    TenantReposCount(allRepos, tenantId, tagsOf, x);
    MatchCountPositive(tagsOf(x).value, tenantId);
  }

  /** A repository tagged twice with the tenant id, under two keys, is listed twice. */
  lemma TwiceTagged(tenantId: string, x: Repository, tagsOf: Repository -> Attempt<Option<seq<Tag>>>)
    requires tagsOf(x) == Returned(Some([Tag("tenantId", tenantId), Tag("owner", tenantId)]))
    ensures TenantRepos([x], tenantId, tagsOf) == [x, x]
  {
    var tags := [Tag("tenantId", tenantId), Tag("owner", tenantId)];
    assert tags[1..] == [Tag("owner", tenantId)];
    assert tags[1..][1..] == [];
    assert MatchCount(Some(tags[1..][1..]), tenantId) == 0;
    assert MatchCount(Some(tags[1..]), tenantId) == 1;
    assert MatchCount(Some(tags), tenantId) == 2;
    assert Copies(x, 2) == [x, x];
    assert [x][..0] == [];
  }

  // ---------------------------------------------------------------------------
  // createRepository

  /** `[{Key: 'tenantId', Value: tenantId}]`. */
  function TenantTagList(tenantId: string): JsValue
  {
    Arr([Obj([Entry("Key", Str("tenantId")), Entry("Value", Str(tenantId))])])
  }

  /** The input CreateRepository is sent: the non-empty entries, then the tenant tag in tenant mode. */
  function CreateInput(args: JsValue, tenantId: string): seq<Entry>
  {
    var kept := Stripped(SpreadEntries(args), NotLodashEmpty);
    // the isEmpty test never throws (StrippedNeverThrows), so `kept` is always Returned
    var filtered := if kept.Returned? then kept.value else [];
    if tenantId != "" then Put(filtered, "tags", TenantTagList(tenantId)) else filtered
  }

  lemma StrippedNeverThrows(fields: seq<Entry>)
    ensures Stripped(fields, NotLodashEmpty).Returned?
  {
    StrippedThrows(fields, NotLodashEmpty);
  }

  /**
   * What CreateRepository receives from a well-keyed argument object: the
   * caller's entries whose value is not lodash-empty (so numbers and booleans
   * go), unchanged, except that in tenant mode `tags` is exactly the tenant tag.
   */
  lemma CreateInputMembers(args: JsValue, tenantId: string, e: Entry)
    requires WellKeyed(SpreadEntries(args))
    ensures e in CreateInput(args, tenantId) <==>
              (e in SpreadEntries(args) && !LodashIsEmpty(e.value) && (tenantId == "" || e.key != "tags"))
              || (tenantId != "" && e == Entry("tags", TenantTagList(tenantId)))
  {
    var fields := SpreadEntries(args);
    StrippedNeverThrows(fields);
    StrippedIsKept(fields, NotLodashEmpty);
    KeptMembers(fields, NotLodashEmpty, e);
    var filtered := Stripped(fields, NotLodashEmpty).value;
    if tenantId != "" {
      StrippedWellKeyed(fields, NotLodashEmpty);
      PutMembers(filtered, "tags", TenantTagList(tenantId), e);
    }
  }

  /** Numbers and booleans are dropped; a one-tag override replaces whatever the caller tagged. */
  lemma CreateInputDropsScalars(args: JsValue, tenantId: string, k: string, n: int, b: bool)
    requires WellKeyed(SpreadEntries(args))
    ensures Entry(k, Num(n)) !in CreateInput(args, tenantId)
    ensures Entry(k, Bool(b)) !in CreateInput(args, tenantId)
  {
    CreateInputMembers(args, tenantId, Entry(k, Num(n)));
    CreateInputMembers(args, tenantId, Entry(k, Bool(b)));
  }

  // ---------------------------------------------------------------------------
  // The handler

  datatype Event = Event(field: string, claims: map<string, string>, arguments: JsValue)

  /** `event.arguments.input` when `arguments` can be read (undefined otherwise, where the read throws instead). */
  function CallerInput(event: Event): JsValue
  {
    Member(event.arguments, "input")
  }

  /**
   * The answers of ECR: to CreateRepository, with the `$metadata` member of
   * the error object it rejects with (the SDK's service errors carry one), to
   * the successive DescribeRepositories calls, and to each tag lookup.
   */
  datatype Services = Services(
    createRepository: seq<Entry> -> Attempt<JsValue>,
    errorMetadata: JsValue,
    pages: seq<Attempt<Page>>,
    tagsOf: Repository -> Attempt<Option<seq<Tag>>>)

  /** What the handler returns as its resolved value. */
  datatype EcrResult = Created(response: JsValue) | Repositories(repos: seq<Repository>) | Failed(message: string)  // Failed: the returned error object

  /** The reply, and the input sent to CreateRepository if one was sent. */
  datatype Invocation = Invocation(reply: Reply<EcrResult>, created: Option<seq<Entry>>)

  /**
   * describeRepositories: the listing, filtered by tenant in tenant mode; a
   * failure anywhere is returned as the error object.
   */
  function Describe(pages: seq<Attempt<Page>>, tenantId: string,
                    tagsOf: Repository -> Attempt<Option<seq<Tag>>>): EcrResult
    requires Finite(pages)
  {
    match Listing(pages)
    case Threw(m) => Failed(m)
    case Returned(allRepos) =>
      if tenantId == "" then Repositories(allRepos)
      else if !AllTagged(allRepos, tagsOf) then Failed(FirstFailure(allRepos, tagsOf).value)
      else Repositories(TenantRepos(allRepos, tenantId, tagsOf))
  }

  /**
   * The log line after createRepository reads `res.$metadata.httpStatusCode`,
   * on the response or on the caught error object alike.
   */
  function AfterCreate(res: Attempt<JsValue>, errorMetadata: JsValue, requestJson: string): Reply<EcrResult>
  {
    var meta := if res.Returned? then Member(res.value, "$metadata") else errorMetadata;
    if Nullish(meta) then Caught(ReadOfNullish(meta, "httpStatusCode"), requestJson)
    else if res.Threw? then Resolved(Failed(res.message))
    else Resolved(Created(res.value))
  }

  function Invoke(event: Event, requestJson: string, svc: Services): Invocation
    requires Finite(svc.pages)
  {
    var tenantId := TenantOf(event.claims);
    if event.field == CreateRepositoryField then
      match Argument(event.arguments, "input")
      case Threw(m) => Invocation(Caught(m, requestJson), None)
      case Returned(args) =>
        var input := CreateInput(args, tenantId);
        Invocation(AfterCreate(svc.createRepository(input), svc.errorMetadata, requestJson), Some(input))
    else if event.field == DescribeRepositoriesField then
      Invocation(Resolved(Describe(svc.pages, tenantId, svc.tagsOf)), None)
    else Invocation(Unresolved(UnknownField(event.field)), None)
  }

  /** Two replies agree, a repository listing only up to order. */
  predicate SameUpToOrder(a: Invocation, b: Invocation)
  {
    if a.reply.Resolved? && b.reply.Resolved? && a.reply.value.Repositories? && b.reply.value.Repositories?
    then a.created == b.created && multiset(a.reply.value.repos) == multiset(b.reply.value.repos)
    else a == b
  }

  method DescribeRepositories(pages: seq<Attempt<Page>>, tenantId: string,
                              tagsOf: Repository -> Attempt<Option<seq<Tag>>>) returns (r: EcrResult)
    requires Finite(pages)
    ensures r.Repositories? <==> Describe(pages, tenantId, tagsOf).Repositories?
    ensures r.Repositories? ==> multiset(r.repos) == multiset(Describe(pages, tenantId, tagsOf).repos)
    ensures !r.Repositories? ==> r == Describe(pages, tenantId, tagsOf)
  {
    var listing, _ := CollectRepositories(pages);
    if listing.Threw? {
      return Failed(listing.message);
    }
    if tenantId == "" {
      return Repositories(listing.value);
    }
    var tenantRepos := FilterByTenant(listing.value, tenantId, tagsOf);
    if tenantRepos.Threw? {
      return Failed(tenantRepos.message);
    }
    r := Repositories(tenantRepos.value);
  }

  method CreateRepository(args: JsValue, tenantId: string, createRepository: seq<Entry> -> Attempt<JsValue>)
    returns (res: Attempt<JsValue>, input: seq<Entry>)
    ensures input == CreateInput(args, tenantId)
    ensures res == createRepository(input)
  {
    var filtered := StripEntries(SpreadEntries(args), NotLodashEmpty);
    StrippedNeverThrows(SpreadEntries(args));
    input := filtered.value;
    if tenantId != "" {
      input := Put(input, "tags", TenantTagList(tenantId));
    }
    res := createRepository(input);
  }

  method Handle(event: Event, requestJson: string, svc: Services) returns (inv: Invocation)
    requires Finite(svc.pages)
    ensures SameUpToOrder(inv, Invoke(event, requestJson, svc))
  {
    var tenantId := TenantOf(event.claims);
    if event.field == CreateRepositoryField {
      var args := Argument(event.arguments, "input");
      if args.Threw? {
        return Invocation(Caught(args.message, requestJson), None);
      }
      var res, input := CreateRepository(args.value, tenantId, svc.createRepository);
      inv := Invocation(AfterCreate(res, svc.errorMetadata, requestJson), Some(input));
    } else if event.field == DescribeRepositoriesField {
      var res := DescribeRepositories(svc.pages, tenantId, svc.tagsOf);
      inv := Invocation(Resolved(res), None);
    } else {
      inv := Invocation(Unresolved(UnknownField(event.field)), None);
    }
  }

  // ---------------------------------------------------------------------------
  // Properties of the handler

  lemma UnknownFieldUnresolved(event: Event, requestJson: string, svc: Services)
    requires Finite(svc.pages) && event.field !in Fields
    ensures Invoke(event, requestJson, svc) == Invocation(Unresolved(UnknownField(event.field)), None)
  {
  }

  /** Without a tenant the whole listing comes back unchanged. */
  lemma SingleTenantListsAll(event: Event, requestJson: string, svc: Services)
    requires Finite(svc.pages) && event.field == DescribeRepositoriesField && TenantOf(event.claims) == ""
    requires Listing(svc.pages).Returned?
    ensures Invoke(event, requestJson, svc).reply == Resolved(Repositories(Listing(svc.pages).value))
  {
  }

  /** In tenant mode every listed repository was reported by ECR and carries the tenant's tag. */
  lemma TenantListingSound(event: Event, requestJson: string, svc: Services, x: Repository)
    requires Finite(svc.pages) && event.field == DescribeRepositoriesField && TenantOf(event.claims) != ""
    requires var r := Invoke(event, requestJson, svc).reply;
             r.Resolved? && r.value.Repositories? && x in r.value.repos
    ensures Listing(svc.pages).Returned? && x in Listing(svc.pages).value
    ensures svc.tagsOf(x).Returned? && svc.tagsOf(x).value.Some?
    ensures exists t :: t in svc.tagsOf(x).value.value && t.value == TenantOf(event.claims)
  {
    TenantReposSound(Listing(svc.pages).value, TenantOf(event.claims), svc.tagsOf, x);
  }

  /** A failing tag lookup turns a tenant listing into the error object of a failed lookup. */
  lemma TenantLookupFailure(event: Event, requestJson: string, svc: Services, x: Repository)
    requires Finite(svc.pages) && event.field == DescribeRepositoriesField && TenantOf(event.claims) != ""
    requires Listing(svc.pages).Returned? && x in Listing(svc.pages).value && svc.tagsOf(x).Threw?
    ensures var r := Invoke(event, requestJson, svc).reply;
            r.Resolved? && r.value.Failed? &&
            exists y :: y in Listing(svc.pages).value && svc.tagsOf(y) == Threw(r.value.message)
  {
  }

  /** A CreateRepository response without `$metadata` is turned into a 403 by the log line. */
  lemma CreateWithoutMetadata(event: Event, requestJson: string, svc: Services)
    requires Finite(svc.pages) && event.field == CreateRepositoryField && !Nullish(event.arguments)
    requires svc.createRepository(CreateInput(CallerInput(event), TenantOf(event.claims))) == Returned(Obj([]))
    ensures var r := Invoke(event, requestJson, svc).reply;
            r.Envelope? && r.statusCode == 403 && Unquote(r.body) == Some(ReadOfNullish(Undefined, "httpStatusCode"))
  {
  }

  /**
   * A rejected CreateRepository is handed back as its error object when the
   * error carries `$metadata`; without it the log line throws and the reply
   * is a 403. Either way the input was sent.
   */
  lemma RejectedCreate(event: Event, requestJson: string, svc: Services)
    requires Finite(svc.pages) && event.field == CreateRepositoryField && !Nullish(event.arguments)
    requires svc.createRepository(CreateInput(CallerInput(event), TenantOf(event.claims))).Threw?
    ensures var inv := Invoke(event, requestJson, svc);
            var m := svc.createRepository(CreateInput(CallerInput(event), TenantOf(event.claims))).message;
            inv.created == Some(CreateInput(CallerInput(event), TenantOf(event.claims))) &&
            (!Nullish(svc.errorMetadata) ==> inv.reply == Resolved(Failed(m))) &&
            (Nullish(svc.errorMetadata) ==>
               inv.reply.Envelope? && inv.reply.statusCode == 403 &&
               Unquote(inv.reply.body) == Some(ReadOfNullish(svc.errorMetadata, "httpStatusCode")))
  {
  }

  /**
   * Creating a repository reads `event.arguments.input` first: without
   * `arguments` the reply is a 403 naming the read and nothing is sent.
   * Listing repositories never reads the arguments.
   */
  lemma MissingInput(event: Event, requestJson: string, svc: Services, arguments: JsValue)
    requires Finite(svc.pages) && Nullish(event.arguments)
    ensures event.field == CreateRepositoryField ==>
              var inv := Invoke(event, requestJson, svc);
              inv.created == None && inv.reply.Envelope? && inv.reply.statusCode == 403 &&
              Unquote(inv.reply.body) == Some(ReadOfNullish(event.arguments, "input"))
    ensures event.field == DescribeRepositoriesField ==>
              Invoke(event, requestJson, svc) == Invoke(event.(arguments := arguments), requestJson, svc)
  {
  }
}
