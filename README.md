# Multi-tenant HealthOmics web app: the decision layer

The application is a Vue web app with a CDK backend. It runs and inspects
AWS HealthOmics workflows for several tenants that share one deployment. A
tenant is named by the `custom:tenantId` attribute of a Cognito user. It is
carried in the identity claims AppSync hands to three Lambda resolvers:

- `listOmicsJob`: read-only queries over workflows, runs and tasks;
- `mutationOmics`: starting runs and creating workflows;
- `manipulationEcr`: listing and creating ECR repositories.

Each resolver scopes what it does to the caller's tenant. An empty claim
means single-tenant mode. The web app guards its routes, keeps the signed-in
user in an auth store, attaches the Cognito token to every GraphQL operation,
and filters the Cognito user list by tenant. The infrastructure code picks the
deployment account and region, tags and names the stack, wires the resolver
tables to the Lambdas, and assembles the WAF rule list.

This project models that decision layer in Dafny:

- Every AWS call (Omics, ECR, IAM, Cognito, Amplify Auth) is an input. It is
  either an `Attempt` (a returned value or a thrown message) or a function
  from the command sent to such an answer.
- JavaScript values are the `Js.JsValue` datatype. The module `Js` gives them
  truthiness, `toString`, object spread and the lodash helpers the code uses
  (`get`, `has`, `isEmpty`, `values`, `forIn` + `assign`).
- A `Promise.all` over callbacks is run one callback after the other.
- Code that updates state step by step is written as methods:
  - the auth store and the shared WAF rule list are classes;
  - the page loop, the tag filter, the run/task join, the Cognito user
    filter and the resolver wiring are loops.
  Each method is proved against a function that specifies it.

Modules, one per source file, plus the shared modules `Wrappers`, `Text`,
`Js` and `Lambda`:

| module | source |
|---|---|
| `MutationOmics` | `api/lambda/mutationOmics/mutationOmics.ts` |
| `ManipulationEcr` | `api/lambda/manipulationEcr/manipulationEcr.ts` |
| `ListOmicsJob` | `api/lambda/listOmicsJob/listOmicsJob.ts` |
| `WafConstruct` | `lib/constructs/waf.ts` |
| `RouterGuard` | `webapp/src/boot/auth.ts` and the route table |
| `AuthStore` | `webapp/src/stores/auth-store.ts` |
| `CognitoApi` | `webapp/src/api/cognito/cognito.ts` |
| `UrqlBoot` | `webapp/src/boot/urql.ts` |
| `DeployConfig` | `utils/utils.ts` |
| `InfraApp` | `bin/infra.ts` |
| `ResolverWiring` | `api/graphql/resolvers/addResolver.ts` and the resolver tables |

## Model

| member | source | states |
|---|---|---|
| Lambda.TenantOf | api/lambda/mutationOmics/mutationOmics.ts:110 | The tenant is the `custom:tenantId` claim, or the empty string when the claim is absent. |
| Lambda.Settled | api/lambda/listOmicsJob/listOmicsJob.ts:22-32 | A helper that returns its caught error resolves with the SDK answer, or with the error as a value; it never throws. |
| Lambda.UnknownField | api/lambda/listOmicsJob/listOmicsJob.ts:131-132 | The default-branch reply ends with the field name it could not resolve. |
| Lambda.Caught | api/lambda/listOmicsJob/listOmicsJob.ts:134-145 | An error with a non-empty message becomes a 403 whose body parses back, as a JSON string, to that message; otherwise the reply is the 200 envelope with the serialized request. |
| Lambda.Argument | api/lambda/listOmicsJob/listOmicsJob.ts:84-106 | Reading `event.arguments.<name>` throws exactly when `arguments` is null or undefined, with the TypeError naming the property; otherwise it is the property's value. All three Lambdas read their arguments this way. |
| Lambda.CaughtBoom | api/lambda/listOmicsJob/listOmicsJob.ts:134-140 | An `Error("boom")` is answered with status 403 and body `"boom"`, quotes included. |
| Js.StripEntries | api/lambda/mutationOmics/mutationOmics.ts:138-143 | The `forIn` + `assign` loop computes the stripped object: the kept entries in order, or the first error the keep test throws. |
| Js.StrippedThrows | api/lambda/mutationOmics/mutationOmics.ts:138-143 | Stripping throws exactly when the keep test throws on some value. |
| Js.KeptMembers | api/lambda/mutationOmics/mutationOmics.ts:138-143 | An entry is kept exactly when it is in the input and the test keeps its value; kept values are unchanged and nothing is added. |
| Js.StrippedIsKept | api/lambda/mutationOmics/mutationOmics.ts:138-143 | When no test throws, stripping a well-keyed input yields exactly the kept entries. |
| MutationOmics.SelectRole | api/lambda/mutationOmics/mutationOmics.ts:115-132 | Without a tenant, the role is the configured run role with the empty tag. With a tenant, it is the looked-up role, and both parts are undefined when the lookup failed. |
| MutationOmics.ImageUrisThrows | api/lambda/mutationOmics/mutationOmics.ts:82-89 | Extracting image URIs throws exactly when some parameter value is neither a string nor an array. |
| MutationOmics.ImageUrisExact | api/lambda/mutationOmics/mutationOmics.ts:82-89 | The extracted URIs are exactly the parameter values that mention `dkr.ecr.<region>.amazonaws.com`, each as often as it occurs, in parameter order. |
| MutationOmics.EveryIncludesSearchable | api/lambda/mutationOmics/mutationOmics.ts:92-97 | On strings and arrays, `every` answers whether each URI mentions the role tag. |
| MutationOmics.CheckRepositoryPermission | api/lambda/mutationOmics/mutationOmics.ts:56-101 | Every verdict case: an ECR error propagates; a repository without tags throws; a first tag whose value differs from the role tag is denied; an unsearchable parameter throws; otherwise the verdict is Passed exactly when every image URI mentions the role tag. |
| MutationOmics.VerdictMarkers | api/lambda/mutationOmics/mutationOmics.ts:79-100 | Both refusal messages contain `AccessDenied` and the Passed message does not, so the handler's `includes` test tells them apart. |
| MutationOmics.NoImagesPass | api/lambda/mutationOmics/mutationOmics.ts:92-100 | With agreeing tags and no ECR image among the parameters, the verdict is Passed. |
| MutationOmics.AcmeImagePasses | api/lambda/mutationOmics/mutationOmics.ts:56-101 | A tenant image stored under the tenant's own repository passes. |
| MutationOmics.OtherTenantRepositoryDenied | api/lambda/mutationOmics/mutationOmics.ts:78-81 | The same request against a repository tagged for another tenant is denied. |
| MutationOmics.ForeignImageDenied | api/lambda/mutationOmics/mutationOmics.ts:92-99 | An image under another tenant's path is denied even when the repository tags agree. |
| MutationOmics.Submit | api/lambda/mutationOmics/mutationOmics.ts:136-172 | The submitting closure strips its input with the `forIn` loop and sends the rest; any throw becomes the returned error object. |
| MutationOmics.Handle | api/lambda/mutationOmics/mutationOmics.ts:103-224 | The handler, step by step, equals the handler specification: role selection, input building, the check, then the dispatch. |
| MutationOmics.MissingInput | api/lambda/mutationOmics/mutationOmics.ts:173-218 | Both cases read `event.arguments.input` first. Without `arguments` the reply is a 403 naming that read, and nothing is sent. |
| MutationOmics.UnknownFieldUnresolved | api/lambda/mutationOmics/mutationOmics.ts:209-210 | Any other field gets the "Unknown field" string and nothing is sent. |
| MutationOmics.RunParameters | api/lambda/mutationOmics/mutationOmics.ts:177-187 | The check reads the caller's own `parameters`: forcing `roleArn` and `tags` does not touch them. |
| MutationOmics.StartRunCases | api/lambda/mutationOmics/mutationOmics.ts:175-195 | Without `arguments` the run is refused through the outer catch. Otherwise it is submitted when there is no tenant or the check passes, and refused through the outer catch, with nothing sent, when it does not. |
| MutationOmics.DeniedRunReply | api/lambda/mutationOmics/mutationOmics.ts:181-218 | A refused verdict sends nothing. The reply is a 403 whose body is the JSON text of the AccessDenied message. |
| MutationOmics.SingleTenantSkipsCheck | api/lambda/mutationOmics/mutationOmics.ts:181-191 | Without a tenant, the repository tags never influence the reply or what is sent. |
| MutationOmics.WorkflowSkipsCheck | api/lambda/mutationOmics/mutationOmics.ts:196-208 | Creating a workflow never consults the repository tags. |
| MutationOmics.SentRunStripped | api/lambda/mutationOmics/mutationOmics.ts:136-148 | A started run was requested by `startRunCommand` and carries the stripped run input. |
| MutationOmics.SentWorkflowStripped | api/lambda/mutationOmics/mutationOmics.ts:156-165 | A created workflow was requested by `createWorkflowCommand` and carries the stripped workflow input. |
| MutationOmics.RunInputRole | api/lambda/mutationOmics/mutationOmics.ts:177-180 | The run input always holds `roleArn` set to the chosen role, whatever the caller supplied. |
| MutationOmics.MissingRoleNeverRuns | api/lambda/mutationOmics/mutationOmics.ts:136-153 | With no role ARN, `toString` of the undefined `roleArn` throws, so no run is started. |
| MutationOmics.StrippedMembers | api/lambda/mutationOmics/mutationOmics.ts:139-143 | Stripping keeps exactly the entries whose value is defined and whose text is non-empty. |
| MutationOmics.StrippedRunInput | api/lambda/mutationOmics/mutationOmics.ts:177-182 | The stripped run input has the chosen `roleArn` (dropped only when empty) and, in tenant mode, `tags` exactly `{tenantId}`. Every other entry is the caller's own, with non-empty text. |
| MutationOmics.SentRunInput | api/lambda/mutationOmics/mutationOmics.ts:175-195 | The same facts, stated for the run the handler actually started. |
| MutationOmics.WorkflowInputEntries | api/lambda/mutationOmics/mutationOmics.ts:197-203 | The workflow input has the clock's `requestId`. In tenant mode `tags` is `{tenantId}`; otherwise `tags` is whatever the caller sent. |
| MutationOmics.StrippedWorkflowInput | api/lambda/mutationOmics/mutationOmics.ts:156-163 | Stripping keeps the `requestId` and the forced tags, and only entries with non-empty text. |
| MutationOmics.SentWorkflowInput | api/lambda/mutationOmics/mutationOmics.ts:196-208 | A created workflow carries the `requestId` and, in tenant mode, the tenant tags. |
| ManipulationEcr.EndFrom | api/lambda/manipulationEcr/manipulationEcr.ts:65-71 | Gives the first answer from a given call on that ends the `do/while`: a failure, or a page without a token. |
| ManipulationEcr.LastCall | api/lambda/manipulationEcr/manipulationEcr.ts:65-71 | The loop's last DescribeRepositories call is the first answer that ends it. |
| ManipulationEcr.CollectRepositories | api/lambda/manipulationEcr/manipulationEcr.ts:64-71 | The page loop yields the listing specification. Its first call carries no token, and each later call carries the previous page's `nextToken`. |
| ManipulationEcr.OnePage | api/lambda/manipulationEcr/manipulationEcr.ts:64-71 | One page without a token gives that page's repositories, a missing list read as empty. |
| ManipulationEcr.ListingIgnoresLater | api/lambda/manipulationEcr/manipulationEcr.ts:65-71 | Answers after the last call are never looked at. |
| ManipulationEcr.ListingFails | api/lambda/manipulationEcr/manipulationEcr.ts:60-98 | The listing fails exactly when the last call failed, with that call's error. |
| ManipulationEcr.ListingMembers | api/lambda/manipulationEcr/manipulationEcr.ts:64-71 | A repository is listed exactly when some page, up to the last call, reports it. |
| ManipulationEcr.FirstFailure | api/lambda/manipulationEcr/manipulationEcr.ts:75-90 | There is no failure exactly when every tag lookup succeeded; a reported failure is the error of a listed repository's lookup. |
| ManipulationEcr.FilterByTenant | api/lambda/manipulationEcr/manipulationEcr.ts:73-91 | The tenant filter fails exactly when a tag lookup fails, with the error of a listed repository's failed lookup: in this sequential model, the first in listing order. Otherwise its result equals the tenant listing as a multiset. |
| ManipulationEcr.PushMatches | api/lambda/manipulationEcr/manipulationEcr.ts:83-87 | The `filter` over one repository's tags pushes the repository once per tag whose value is the tenant id. |
| ManipulationEcr.TenantReposCount | api/lambda/manipulationEcr/manipulationEcr.ts:75-90 | A repository occurs in the tenant listing (times listed) × (matching tags) times. |
| ManipulationEcr.MatchCountPositive | api/lambda/manipulationEcr/manipulationEcr.ts:82-87 | A repository matches only when some tag's value, under any key, is the tenant id. Untagged repositories never match. |
| ManipulationEcr.TenantReposSound | api/lambda/manipulationEcr/manipulationEcr.ts:75-91 | Everything in the tenant listing was listed and carries a tag with the tenant id. |
| ManipulationEcr.TwiceTagged | api/lambda/manipulationEcr/manipulationEcr.ts:83-87 | A repository tagged with the tenant id under two keys is listed twice. |
| ManipulationEcr.StrippedNeverThrows | api/lambda/manipulationEcr/manipulationEcr.ts:32-36 | The `isEmpty` test never throws, so stripping always succeeds. |
| ManipulationEcr.CreateInputMembers | api/lambda/manipulationEcr/manipulationEcr.ts:29-48 | CreateRepository receives the caller's entries that are not lodash-empty, unchanged. In tenant mode the caller's `tags` is replaced by exactly the tenant tag. |
| ManipulationEcr.CreateInputDropsScalars | api/lambda/manipulationEcr/manipulationEcr.ts:31-48 | Numbers and booleans are never sent. A caller's own tags never survive tenant mode. |
| ManipulationEcr.DescribeRepositories | api/lambda/manipulationEcr/manipulationEcr.ts:60-99 | describeRepositories yields the same kind of answer as its specification: the same repositories up to order, or the same error object. |
| ManipulationEcr.CreateRepository | api/lambda/manipulationEcr/manipulationEcr.ts:29-58 | createRepository sends the specified input and returns ECR's answer or error. |
| ManipulationEcr.Handle | api/lambda/manipulationEcr/manipulationEcr.ts:17-126 | The handler agrees with its specification, with repository listings compared up to order. |
| ManipulationEcr.UnknownFieldUnresolved | api/lambda/manipulationEcr/manipulationEcr.ts:111-112 | Any other field gets the "Unknown field" string and nothing is sent. |
| ManipulationEcr.SingleTenantListsAll | api/lambda/manipulationEcr/manipulationEcr.ts:92-94 | Without a tenant, the whole listing comes back unchanged. |
| ManipulationEcr.TenantListingSound | api/lambda/manipulationEcr/manipulationEcr.ts:73-91 | In tenant mode, every returned repository was reported by ECR and has a tag whose value is the tenant id. |
| ManipulationEcr.TenantLookupFailure | api/lambda/manipulationEcr/manipulationEcr.ts:75-98 | A failing tag lookup turns a tenant listing into the error object of a failed lookup. |
| ManipulationEcr.RejectedCreate | api/lambda/manipulationEcr/manipulationEcr.ts:29-58 | A rejected CreateRepository, after its input was sent, is handed back as the error object when the error carries `$metadata`. Without it, the log line at line 104 throws and the reply is a 403. |
| ManipulationEcr.MissingInput | api/lambda/manipulationEcr/manipulationEcr.ts:100-120 | Creating a repository without `arguments` is answered with a 403 naming the `input` read, and nothing is sent. Listing repositories never reads the arguments. |
| ManipulationEcr.CreateWithoutMetadata | api/lambda/manipulationEcr/manipulationEcr.ts:102-106 | A CreateRepository response without `$metadata` makes the log line throw, so the reply is a 403. |
| ListOmicsJob.ItemsOrError | api/lambda/listOmicsJob/listOmicsJob.ts:21-43 | `listWorkflow` and `listRunCommand` resolve with `items`, or with the caught error as a value. |
| ListOmicsJob.ItemsOrUndefined | api/lambda/listOmicsJob/listOmicsJob.ts:45-56 | `listRunTasksCommand` resolves with `items`, or with undefined on failure. |
| ListOmicsJob.ResponseOrUndefined | api/lambda/listOmicsJob/listOmicsJob.ts:57-81 | The run and workflow lookups resolve with the whole response, or with undefined on failure. |
| ListOmicsJob.FindFrom | api/lambda/listOmicsJob/listOmicsJob.ts:121 | lodash `find(runs, ['id', id])` gives the first run carrying the id, or none. |
| ListOmicsJob.FindIsFirst | api/lambda/listOmicsJob/listOmicsJob.ts:121 | The first carrier of an id is the one found. |
| ListOmicsJob.Tasked | api/lambda/listOmicsJob/listOmicsJob.ts:123 | Writing `tasks` leaves a run object whose `tasks` is the value written. |
| ListOmicsJob.TaskedKeepsId | api/lambda/listOmicsJob/listOmicsJob.ts:121-123 | Writing `tasks` does not change the run's id, nor which ids it carries. |
| ListOmicsJob.Target | api/lambda/listOmicsJob/listOmicsJob.ts:119-125 | The run a callback pushes is a listed one. |
| ListOmicsJob.Pushed | api/lambda/listOmicsJob/listOmicsJob.ts:118-127 | Every pushed index is a listed run. |
| ListOmicsJob.NullishFailure | api/lambda/listOmicsJob/listOmicsJob.ts:119-121 | A callback throws exactly when some run is null or undefined. |
| ListOmicsJob.Joined | api/lambda/listOmicsJob/listOmicsJob.ts:118-127 | The join leaves as many run objects as were listed. |
| ListOmicsJob.Entries | api/lambda/listOmicsJob/listOmicsJob.ts:124-129 | `result` has one element per push. |
| ListOmicsJob.PushedFirsts | api/lambda/listOmicsJob/listOmicsJob.ts:118-127 | The runs that end up in `result` are exactly the first carriers of their ids. |
| ListOmicsJob.PushedLength | api/lambda/listOmicsJob/listOmicsJob.ts:118-127 | With no null run, every callback pushes exactly once. |
| ListOmicsJob.PushedAt | api/lambda/listOmicsJob/listOmicsJob.ts:118-127 | With no null run, entry i is the first run carrying run i's id. |
| ListOmicsJob.FindRun | api/lambda/listOmicsJob/listOmicsJob.ts:121 | The search over the run array finds the first run carrying the id, or reports that none does. |
| ListOmicsJob.JoinRunTasks | api/lambda/listOmicsJob/listOmicsJob.ts:118-127 | The in-place join leaves the array equal to the joined listing. It throws at the first null run, and otherwise pushes the specified indices. |
| ListOmicsJob.RunDetails | api/lambda/listOmicsJob/listOmicsJob.ts:115-130 | A failed run listing is an error object, and calling `.map` on it throws. |
| ListOmicsJob.GetListRunDetails | api/lambda/listOmicsJob/listOmicsJob.ts:115-130 | The case, with its loop, equals the run-details specification. |
| ListOmicsJob.Handle | api/lambda/listOmicsJob/listOmicsJob.ts:14-146 | The handler, step by step, equals the handler specification. |
| ListOmicsJob.Dispatch | api/lambda/listOmicsJob/listOmicsJob.ts:83-133 | Each of the six case labels is answered by its own case; any other name gets the "Unknown field" string. |
| ListOmicsJob.DetailsPerRun | api/lambda/listOmicsJob/listOmicsJob.ts:115-130 | With object runs, there is one entry per run. Entry i is the first run with run i's id, and its `tasks` is that id's task listing. |
| ListOmicsJob.DistinctIdsEachRun | api/lambda/listOmicsJob/listOmicsJob.ts:115-130 | With distinct ids, each run is returned itself, its own tasks added. |
| ListOmicsJob.DuplicateIdRepeatsFirst | api/lambda/listOmicsJob/listOmicsJob.ts:121-124 | With a duplicated id, the later run's entry is the earlier run object. |
| ListOmicsJob.RunDetailsReply | api/lambda/listOmicsJob/listOmicsJob.ts:115-130 | The handler's getListRunDetails reply is the join of the listed runs with their tasks. |
| ListOmicsJob.RunDetailsOfFailedListing | api/lambda/listOmicsJob/listOmicsJob.ts:115-140 | A failed run listing makes the reply a 403. |
| ListOmicsJob.RunDetailsOfNullRun | api/lambda/listOmicsJob/listOmicsJob.ts:119-140 | A null run in the listing makes the reply a 403 naming the `id` read. |
| ListOmicsJob.ListFailuresReturned | api/lambda/listOmicsJob/listOmicsJob.ts:21-43 | A failure of `listWorkflow` or `listRunCommand` is handed back as the error object. |
| ListOmicsJob.LookupFailuresUndefined | api/lambda/listOmicsJob/listOmicsJob.ts:45-81 | A failure of the task, run or workflow lookup resolves with undefined. |
| ListOmicsJob.MissingArguments | api/lambda/listOmicsJob/listOmicsJob.ts:84-140 | Without `arguments`, every case that reads one answers with a 403. |
| WafConstruct.IpFilterRule | lib/constructs/waf.ts:190-218 | The filter rule is named `custom-web-ipfilter`, has priority 600, and blocks, with a 403 and the `response` body, every address outside the IP set. |
| WafConstruct.BaseRulesShape | lib/constructs/waf.ts:60-176 | The base list has five uniquely named rules with priorities 100 to 500, the first being the 3000-per-IP rate limit, and no IP filter. |
| WafConstruct.UniqFromNames | lib/constructs/waf.ts:187 | `uniqBy` yields unique names: exactly the input's names that were not already seen. |
| WafConstruct.UniqFromInOrder | lib/constructs/waf.ts:187 | `uniqBy` keeps entries in their original relative order. |
| WafConstruct.UniqFromFirstWins | lib/constructs/waf.ts:187 | An entry is kept exactly when it is the first with its name. |
| WafConstruct.UniqFromConcat | lib/constructs/waf.ts:187 | `uniqBy` over a concatenation walks the second part with the first part's names seen. |
| WafConstruct.UniqFromUnique | lib/constructs/waf.ts:187 | A list with unique names comes back unchanged. |
| WafConstruct.MergeKeepsExisting | lib/constructs/waf.ts:186-188 | Merging extra rules keeps the list as it is and appends the new-named extras, first occurrence first. |
| WafConstruct.RuleRegistry.constructor | lib/constructs/waf.ts:60 | The module-level list starts as the base rules. |
| WafConstruct.RuleRegistry.Extend | lib/constructs/waf.ts:186-219 | One construction replaces the shared list by its extension. |
| WafConstruct.ExtendedWithoutIpSet | lib/constructs/waf.ts:186-188 | Without an IP set, names stay unique, the list only grows at its end, and its names become the union. |
| WafConstruct.ExtendedIpFilterLast | lib/constructs/waf.ts:189-219 | With an IP set, the priority-600 filter rule comes last, after everything the list held. |
| WafConstruct.ExistingRuleWins | lib/constructs/waf.ts:186-188 | A same-named extra rule never replaces a rule already in the list. |
| WafConstruct.FiltersAccumulate | lib/constructs/waf.ts:186-219 | The list persists: two constructions with an IP set leave two filter rules of the same name, and a later merge of extra rules reduces them to the first. |
| WafConstruct.Properties | lib/constructs/waf.ts:235 | The web ACL receives the rules in list order, one per entry. |
| WafConstruct.NewWebAcl | lib/constructs/waf.ts:178-237 | `WAF` extends the shared list, then declares a web ACL named `<id>-waf` over all of it. The ACL allows what no rule matches, logs metrics without sampling, and declares the `response` body for custom responses. |
| WafConstruct.ExtendedBodiesDeclared | lib/constructs/waf.ts:186-232 | A construction keeps every custom response resolvable. If the list and the extra rules name only declared bodies, so does the extended list, the IP filter's `response` included. |
| WafConstruct.BaseRulesDeclared | lib/constructs/waf.ts:60-176 | The base rules name no custom response body. |
| WafConstruct.NewWaf | lib/constructs/waf.ts:19-57 | The scope is CLOUDFRONT exactly when `useCloudFront` holds, else REGIONAL. An IP set is created exactly when `allowedIps` is non-empty. An association is made exactly when not on CloudFront and an ARN is given. |
| RouterGuard.Guard | webapp/src/boot/auth.ts:11-34 | A route without `requiresAuth` gets one plain `next()`. A signed-out visitor of a guarded route gets only the sign-in redirect. |
| RouterGuard.GuardNextCalls | webapp/src/boot/auth.ts:14-25 | `next` is called once, except on an admin route with an authenticated user. There it is called twice: twice plainly for an admin; the dashboard redirect and then a plain call for anyone else. |
| RouterGuard.GuardOnceAgrees | webapp/src/boot/auth.ts:14-25 | The corrected guard calls `next` exactly once. That call is the first one the guard as written makes, and the notifications agree. |
| RouterGuard.RouteTableFlags | webapp/src/router/routes.ts:8-74 | Only `/users` is an admin route. `/signin` and the catch-all are the only routes without `requiresAuth`, so anyone reaches them with a single `next()`. |
| RouterGuard.RouteTableDecisions | webapp/src/router/routes.ts:8-66 | A signed-out visitor of any guarded page is sent to sign in. A non-admin on `/users` is notified and redirected to the dashboard. |
| AuthStore.IsAdminOfGroups | webapp/src/stores/auth-store.ts:22-31 | Missing groups make nobody an admin. A group list makes the caller an admin exactly when it contains `admin`. |
| AuthStore.IsAdminExactly | webapp/src/stores/auth-store.ts:22-31 | Both directions for group arrays. An object or number group value throws when truthy. |
| AuthStore.Store.constructor | webapp/src/stores/auth-store.ts:11-15 | The initial state: no user, not authenticated, no password challenge. |
| AuthStore.Store.UserEmail | webapp/src/stores/auth-store.ts:17 | The user's `attributes.email`, or `N/A` when missing. |
| AuthStore.Store.UserAttributes | webapp/src/stores/auth-store.ts:18 | The user's `attributes`, or `N/A` when missing. |
| AuthStore.Store.UserName | webapp/src/stores/auth-store.ts:19 | The user's `username`, or `N/A` when missing. |
| AuthStore.Store.UserCredentials | webapp/src/stores/auth-store.ts:20 | Always null: the state has no `credentials`. |
| AuthStore.Store.UserPoolId | webapp/src/stores/auth-store.ts:21 | The user's `pool.userPoolId`. |
| AuthStore.Store.IsAdmin | webapp/src/stores/auth-store.ts:22-31 | The admin test applied to the access token's `cognito:groups`. |
| AuthStore.Store.AccessToken | webapp/src/stores/auth-store.ts:32-37 | The access token's `jwtToken`, or null. |
| AuthStore.Store.Exp | webapp/src/stores/auth-store.ts:38-46 | The access token payload's `exp`. |
| AuthStore.Store.Login | webapp/src/stores/auth-store.ts:49-65 | A failed sign-in changes nothing. A successful one stores the user, sets `isAuthenticated` to its truthiness, and raises (never clears) `newPasswordRequired` on the new-password challenge. |
| AuthStore.Store.SignOut | webapp/src/stores/auth-store.ts:67-71 | A failing sign-out rejects and changes nothing. Otherwise the user is cleared and the store is signed out. |
| AuthStore.Store.LoadUser | webapp/src/stores/auth-store.ts:73-83 | On error the state is unchanged. Otherwise the current user is stored and the flag is only ever raised, never cleared. |
| AuthStore.Store.SetPassword | webapp/src/stores/auth-store.ts:117-122 | Completes the challenge for the stored user. A rejection leaves the state as it was. A success clears `newPasswordRequired` and then has `loadUser`'s effect: with a live session the current user is stored and the flag is raised for a truthy one; if the reload fails, user and flag are unchanged. |
| AuthStore.FreshStoreDefaults | webapp/src/stores/auth-store.ts:11-46 | With no user, the defaulted getters give `N/A`, nobody is an admin, and there is no token or expiry. |
| CognitoApi.Send | webapp/src/api/cognito/cognito.ts:34-39 | Nothing is sent when the credentials cannot be obtained; otherwise the answer is the service's. |
| CognitoApi.Catch | webapp/src/api/cognito/cognito.ts:71-73 | A caught error resolves as a value carrying its message. |
| CognitoApi.CallerTenant | webapp/src/api/cognito/cognito.ts:57-64 | The caller has a tenant exactly when `has(userAttributes, 'custom:tenantId')`; the tenant is that attribute. |
| CognitoApi.SignedOutHasNoTenant | webapp/src/api/cognito/cognito.ts:124-131 | A signed-out store, whose attributes read `N/A`, has no tenant. |
| CognitoApi.CreateUser | webapp/src/api/cognito/cognito.ts:41-74 | The first command creates the user with its email in the caller's pool. A second command is sent only for a caller with a tenant, after a successful creation, and copies that tenant id. |
| CognitoApi.CreateUserTenancy | webapp/src/api/cognito/cognito.ts:56-70 | A caller with a tenant creates users of that tenant. The creation's response is returned only when the update also succeeded. A caller without a tenant sends the creation alone. |
| CognitoApi.AddUserToGroup | webapp/src/api/cognito/cognito.ts:76-90 | Any failure, the credentials included, resolves as an error value. |
| CognitoApi.DeleteUser | webapp/src/api/cognito/cognito.ts:92-101 | Deletes in the caller's pool. A failure rejects. |
| CognitoApi.GetCognitoUsers | webapp/src/api/cognito/cognito.ts:103-111 | Lists the whole pool, whatever the caller's tenant. A failure rejects. |
| CognitoApi.ListGroupsOfPool | webapp/src/api/cognito/cognito.ts:113-121 | Lists the groups of the caller's pool. A failure rejects. |
| CognitoApi.AdminListGroupsForUsers | webapp/src/api/cognito/cognito.ts:147-156 | Lists one user's groups in the caller's pool. A failure rejects. |
| CognitoApi.CommandsAddressCallerPool | webapp/src/api/cognito/cognito.ts:41-156 | Every command sent addresses the signed-in user's pool. Without credentials nothing is sent: `addUserToGroup` resolves with the error and the propagating operations reject. |
| CognitoApi.Scan | webapp/src/api/cognito/cognito.ts:134-138 | The attribute filter pushes at most once per attribute. |
| CognitoApi.RunCallback | webapp/src/api/cognito/cognito.ts:133-139 | The loop over one user's attributes appends the user once per match, and stops at the first unreadable attribute. |
| CognitoApi.ListUsersOfTenant | webapp/src/api/cognito/cognito.ts:122-145 | `listUsers`, with its loops, equals the listing specification for the caller's tenant. |
| CognitoApi.ScanSound | webapp/src/api/cognito/cognito.ts:134-138 | A user is pushed only if some readable attribute's value is the tenant id; without a throw, exactly then. The scan throws exactly on a missing attribute. |
| CognitoApi.CollectSound | webapp/src/api/cognito/cognito.ts:131-141 | Every listed user comes from the response and carries the tenant id in one of its attributes. |
| CognitoApi.CollectComplete | webapp/src/api/cognito/cognito.ts:131-141 | The listing rejects exactly when some callback throws. When it resolves, every user carrying the tenant id is listed. |
| CognitoApi.CollectFailsFirst | webapp/src/api/cognito/cognito.ts:132-140 | The rejection is the error of the first callback, in index order, that throws. |
| CognitoApi.ListUsersPartners | webapp/src/api/cognito/cognito.ts:122-145 | Without a tenant, `listUsers` is `getCognitoUsers`. With one, it returns only users of that tenant, and all of them. |
| CognitoApi.ScanTwo | webapp/src/api/cognito/cognito.ts:134-138 | On two readable attributes, the callback counts those equal to the tenant id. |
| CognitoApi.AnyAttributeMatches | webapp/src/api/cognito/cognito.ts:134-138 | Any attribute counts: a user of another tenant whose `name` equals the caller's tenant id is listed. |
| CognitoApi.ScanCount | webapp/src/api/cognito/cognito.ts:134-138 | An attribute scan that does not throw pushes once per attribute whose value is the tenant id. |
| CognitoApi.CallbackCount | webapp/src/api/cognito/cognito.ts:133-139 | A callback that does not throw pushes its user once per matching attribute. |
| CognitoApi.CollectCount | webapp/src/api/cognito/cognito.ts:131-141 | When no callback throws, a user is listed as often as the response lists it, times its number of matching attributes. |
| CognitoApi.DuplicatesPerMatch | webapp/src/api/cognito/cognito.ts:134-138 | A user is pushed once per matching attribute, so one whose `name` repeats its tenant id is listed twice. |
| UrqlBoot.BaseOptions | webapp/src/boot/urql.ts:28-31 | Non-function fetch options are always truthy (`|| {}`). |
| UrqlBoot.AddAuthToOperation | webapp/src/boot/urql.ts:24-43 | Without a state or token, the operation is passed on as it is. It throws exactly when a `fetchOptions` function returns null or undefined. |
| UrqlBoot.AuthorizationAttached | webapp/src/boot/urql.ts:33-42 | The operation keeps its kind, context and everything else. Its headers carry the token as `Authorization`, and every other header and fetch option keeps its value. |
| UrqlBoot.AddAuthIdempotent | webapp/src/boot/urql.ts:24-43 | Adding the token to an operation that already carries it changes nothing. |
| UrqlBoot.GetAuth | webapp/src/boot/urql.ts:45-52 | Undefined when signed out. A rejected session rejects `getAuth`. A truthy state is always `{token}` holding the session's non-empty token. |
| UrqlBoot.AuthStateRoundTrip | webapp/src/boot/urql.ts:24-52 | An operation is sent with the session's token exactly when the store is authenticated and the token is non-empty; otherwise it is unchanged. |
| UrqlBoot.WillAuthErrorExactly | webapp/src/boot/urql.ts:55-59 | No re-authentication is asked for exactly when there is a state, the store is authenticated, and `exp` is not more than 30 seconds in the past. |
| UrqlBoot.ExpiryIsPermanent | webapp/src/boot/urql.ts:55-59 | Once the predicate holds, it keeps holding as the clock moves on. |
| UrqlBoot.SignedOutAlwaysErrors | webapp/src/boot/urql.ts:57 | A signed-out store always asks for re-authentication. |
| UrqlBoot.MakeClientOptions | webapp/src/boot/urql.ts:19-85 | The pipeline is auth, error, devtools (only in development), then dedup, cache and fetch. Each exchange appears once, and the request policy is cache-and-network. |
| DeployConfig.FirstPresent | utils/utils.ts:7-13 | An `||` chain gives the first truthy operand: it is truthy exactly when some operand is. |
| DeployConfig.ResolveConfig | utils/utils.ts:6-19 | A returned account and region are both non-empty. An undefined argument throws when its `account` is read. |
| DeployConfig.ChainsAreFirstPresent | utils/utils.ts:7-13 | Account and region each take the first non-empty of the override, the deploy variable and the default variable. |
| DeployConfig.ConfigExactly | utils/utils.ts:6-19 | `{account, region}` is returned exactly when both have a non-empty source, and is then built from the first such sources; otherwise the function throws `Wrong config`. |
| DeployConfig.OverrideWins | utils/utils.ts:7-18 | Non-empty overrides win over both environment variables. |
| InfraApp.InfraConfig | bin/infra.ts:23-32 | Throws only when `baseConfg` or its `deployAwsEnv` is missing. |
| InfraApp.InfraConfigNeverChecks | bin/infra.ts:23-32 | Unlike the deployment helper, an empty `deployAwsEnv` gives an undefined account and region where the helper throws `Wrong config`. |
| InfraApp.InfraConfigFallback | bin/infra.ts:28-30 | The account is `accountId` or else `CDK_DEFAULT_ACCOUNT`. The region is `region`, else `AWS_REGION`, else `CDK_DEFAULT_REGION`, empty values falling through. |
| InfraApp.StackTagsShape | bin/infra.ts:17-21 | Exactly three tags: `environment` is the stage; `appName` and `stageAlias` come from the stage's context. |
| InfraApp.Synthesize | bin/infra.ts:13-98 | The stack's `environment` tag is the `stage` context value. |
| InfraApp.StackIdShape | bin/infra.ts:92 | The stack id is `<alias>-<stage>-<appName>-infraStack`. For a fixed stage and app name, different aliases give different ids. |
| InfraApp.SynthesizeTags | bin/infra.ts:13-98 | A missing stage context throws. Otherwise the stack carries the stage's tags, its id and the config's environment, and its application stack's id is `<id>-application`. |
| ResolverWiring.ConfigOf | api/graphql/resolvers/addResolver.ts:7-14 | Every resolver reads `responses/default.vtl`. |
| ResolverWiring.DataSource.constructor | lib/application-stack.ts:284-290 | A new Lambda data source has no resolvers. |
| ResolverWiring.DataSource.CreateResolver | api/graphql/resolvers/addResolver.ts:15 | `createResolver` adds one resolver with the given id and config. |
| ResolverWiring.AddResolver | api/graphql/resolvers/addResolver.ts:5-17 | The data source gains exactly the table's resolvers, in order. |
| ResolverWiring.ResolversPerEntry | api/graphql/resolvers/addResolver.ts:6-16 | Exactly one resolver per entry. The i-th has id `<i>-<field>`, type and field copied, the request template under `requests/`, and the default response template, whatever the entry names. |
| ResolverWiring.ResolverIdInjective | api/graphql/resolvers/addResolver.ts:15 | Different index/field pairs give different construct ids. |
| ResolverWiring.ResolverIdsDistinct | api/graphql/resolvers/addResolver.ts:15 | Within one table the construct ids never clash. |
| ResolverWiring.TablesMatchDispatchers | api/graphql/resolvers/resolverConfig.ts:9-40 | Each table routes exactly the fields its Lambda's dispatcher has a case for, so no wired field reaches a default branch. |
| ResolverWiring.ApiResolverIdsDistinct | lib/application-stack.ts:284-309 | Across the three data sources of the one API, the ten construct ids are distinct. |

## Left out

- AWS services (Omics, ECR, IAM, Cognito, Amplify Auth) are inputs. Their answers are not modelled, and an error they throw is represented by its message. The one exception is the error of a CreateRepository call: whether it carries `$metadata` is also an input, because the handler reads it.
- `getTenantRole` (api/lambda/mutationOmics/mutationOmics.ts:26-54): its result is an input, either a role or a failed lookup. Its IAM calls are not modelled.
- The `catch` at api/lambda/mutationOmics/mutationOmics.ts:124-127 is not modelled. `getTenantRole` catches everything, so that branch cannot be reached.
- `Promise.all` fan-outs run one callback after the other.
  - In the ECR tag filter and the run/task join, each callback awaits before it pushes, so the real order of `tenantRepos` and `result` is completion order. ManipulationEcr.FilterByTenant and ManipulationEcr.DescribeRepositories therefore promise the repositories only as a multiset.
  - ManipulationEcr.FilterByTenant: when several tag lookups fail, the source rejects with whichever failure settles first, which can be a later repository's. The model fixes the reported error to the first failure in listing order. What holds under any schedule is the weaker clause it also states: the error is some listed repository's failed lookup, as ManipulationEcr.TenantLookupFailure states for the handler.
  - In the run/task join the listing order is used: entry contents and multiplicities are as stated, and the order of entries is not a promise of the source.
  - The Cognito callbacks hold no `await`, so their order is exact.
- Logging (`console.log`/`console.error`) and the `Notify` toasts of `login` and of the error exchange are left out. The guard's notification is kept as an effect.
- Numbers are integers; floating point is not modelled.
  - UrqlBoot.WillAuthErrorExactly compares `exp * 1000` with the millisecond clock. This is exact for integer `exp`.
  - UrqlBoot.NumberOf treats a string or array `exp` as NaN, whereas JavaScript would convert numeric strings.
- The clocks (`new Date().getTime()`, `Date.now()`) are parameters.
- `event.identity` is taken to be present. A missing identity, which throws before any `try`, is not modelled. A missing `event.arguments` is modelled in all three Lambdas.
- The serialized request of the 200 envelope, `JSON.stringify({...event, ...context})`, is an input string.
- ListOmicsJob.Carries compares object and array ids structurally, where lodash's matcher uses partial deep equality. Runs' ids are strings in practice.
- CognitoApi.SameValue treats two objects as never identical, because the tenant id and the attribute come from different sources.
- The Cognito client's region variable is not modelled. Neither is how the credentials value reaches `send`: only whether obtaining it failed.
- `register` and `confirmRegistration` in the auth store are not modelled. They pass straight through to Amplify and leave the state alone.
- The `isAdmin` getter may throw; the guard is given its value as a boolean, and that throw is not fed into the guard.
- The IP set's and web ACL's ARNs (`attrArn`) are inputs. An absent `useCloudFront` is read as false.
- The WAF association construct and CfnIPSet are represented by their props only.
- CDK Nag suppressions and the `CfnOutput`s of bin/infra.ts are not modelled; neither are `createClient`/`app.use` of the GraphQL client, or `errorExchange`'s `onError` body.
- Mapping templates are represented by the paths they are read from, not their contents.
- `tryGetContext` keys are the string form of the key, as CDK context keys are strings.
- The CDK stack and construct wiring outside addResolver (application stack, Cognito, web, SPA deploy, AppSync constructs) is not part of this model.

## Findings

| source | as written | input that shows it | evidently intended | confidence | as-written member | corrected member |
|---|---|---|---|---|---|---|
| webapp/src/boot/auth.ts:14-25 | On a route whose record has `isAdmin`, the inner `if` calls `next()` (admin) or `next({name: 'dashboard'})` (non-admin), and control then falls through to the plain `next()` at line 25, so `next` is called twice | an authenticated user navigating to `/users` | exactly one `next` per navigation: `next()` for an admin, only the dashboard redirect otherwise | not executed | RouterGuard.GuardNextCalls | RouterGuard.GuardOnceAgrees |
