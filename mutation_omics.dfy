/**
 * The `mutationOmics` AppSync resolver: it starts HealthOmics runs and
 * creates workflows. In tenant mode (the caller carries a `custom:tenantId`
 * claim) it runs under the tenant's own IAM role, forces a `tags` object
 * naming the tenant, and, for runs, first checks that the ECR repository
 * named after the role's tag belongs to the tenant and that every ECR image
 * the run refers to lies under that tenant's name.
 */
module MutationOmics {
  import opened Wrappers
  import opened Text
  import opened Js
  import opened Lambda

  /** The IAM role a run is started with, and the value of its first tag; None is `undefined`. */
  datatype Role = Role(arn: Option<string>, tag: Option<string>)

  const StartRunField: string := "startRunCommand"
  const CreateWorkflowField: string := "createWorkflowCommand"

  /** The fields this resolver answers. */
  const Fields: set<string> := {StartRunField, CreateWorkflowField}

  // The three verdicts of the permission check, spelled as the handler spells them.
  const TagMismatch: string := DeniedMarker + ": No match tenantId tags between ECR repositotry and Omics Role"
  const ImageDenied: string := DeniedMarker + ": No permission of accessing the repository"
  const Passed: string := "Passed: TanantId tags between ECR repositotry and Omics Role"

  /** The marker the handler searches a verdict for before it refuses the run. */
  const DeniedMarker: string := "AccessDenied"

  /**
   * `omicsRoleArn` and `omicsRoleTag`. With no tenant: the deployment's run role
   * and the empty tag. With a tenant: whatever getTenantRole found; when that
   * lookup failed it returned `{error}`, so both are `undefined` and the
   * handler carries on regardless.
   */
  function SelectRole(tenantId: string, lookup: Option<Role>, runCommandRoleArn: Option<string>): (r: Role)
    ensures tenantId == "" ==> r == Role(runCommandRoleArn, Some(""))
    ensures tenantId != "" && lookup.Some? ==> r == lookup.value
    ensures tenantId != "" && lookup.None? ==> r.arn.None? && r.tag.None?
  {
    if tenantId == "" then Role(runCommandRoleArn, Some(""))
    else if lookup.Some? then lookup.value
    else Role(None, None)
  }

  /** The host part of an ECR image URI in `region`. */
  function RegistryHost(region: string): string
  {
    "dkr.ecr." + region + ".amazonaws.com"
  }

  // ---------------------------------------------------------------------------
  // The permission check

  /** `v.includes(x)` on a parameter value (the callback's variable is `v`). */
  function Hit(v: JsValue, x: string): Attempt<bool>
  {
    Includes(v, x, "v")
  }

  /** Every value is a string or an array, so `includes` can be called on it. */
  predicate Searchable(vals: seq<JsValue>)
  {
    forall v :: v in vals ==> v.Str? || v.Arr?
  }

  /**
   * `values.map(v => v.includes(host) ? v : undefined).filter(v => v !== undefined)`:
   * the first TypeError of the `map`, or the values that mention the registry host.
   */
  function ImageUris(vals: seq<JsValue>, host: string): Attempt<seq<JsValue>>
    decreases |vals|
  {
    if vals == [] then Returned([])
    else
      match Hit(vals[0], host)
      case Threw(m) => Threw(m)
      case Returned(hit) =>
        var rest := ImageUris(vals[1..], host);
        if rest.Threw? then rest
        else if hit then Returned([vals[0]] + rest.value)
        else rest
  }

  /** The extraction fails exactly when some value is neither a string nor an array. */
  lemma {:induction false} ImageUrisThrows(vals: seq<JsValue>, host: string)
    ensures ImageUris(vals, host).Threw? <==> !Searchable(vals)
    decreases |vals|
  {
    if vals != [] {
      ImageUrisThrows(vals[1..], host);
      assert vals == [vals[0]] + vals[1..];
    }
  }

  /**
   * The extracted URIs are exactly the values that mention the host: each as
   * often as it occurs among the values, and in the order of the values.
   */
  lemma {:induction false} ImageUrisExact(vals: seq<JsValue>, host: string, uris: seq<JsValue>)
    requires ImageUris(vals, host) == Returned(uris)
    ensures forall x :: multiset(uris)[x] == if Hit(x, host) == Returned(true) then multiset(vals)[x] else 0
    ensures SubsequenceOf(uris, vals)
    decreases |vals|
  {
    if vals != [] {
      var v := vals[0];
      var rest := ImageUris(vals[1..], host);
      assert vals == [v] + vals[1..];
      assert rest.Returned?;
      ImageUrisExact(vals[1..], host, rest.value);
      if Hit(v, host) == Returned(true) {
        assert uris == [v] + rest.value;
        assert uris[1..] == rest.value;
      } else {
        assert uris == rest.value;
        if uris != [] {
          assert multiset(uris)[uris[0]] > 0;
        }
      }
    }
  }

  /** lodash `every(uris, v => v.includes(tag))`: stops at the first URI that lacks the tag. */
  function EveryIncludes(uris: seq<JsValue>, tag: string): Attempt<bool>
    decreases |uris|
  {
    if uris == [] then Returned(true)
    else
      match Hit(uris[0], tag)
      case Threw(m) => Threw(m)
      case Returned(b) => if b then EveryIncludes(uris[1..], tag) else Returned(false)
  }

  /** On searchable URIs, `every` answers whether each one mentions the tag. */
  lemma {:induction false} EveryIncludesSearchable(uris: seq<JsValue>, tag: string)
    requires Searchable(uris)
    ensures EveryIncludes(uris, tag) == Returned(forall u :: u in uris ==> Hit(u, tag) == Returned(true))
    decreases |uris|
  {
    if uris != [] {
      assert uris[0] in uris;
      assert forall u :: u in uris[1..] ==> u in uris;
      EveryIncludesSearchable(uris[1..], tag);
      assert uris == [uris[0]] + uris[1..];
    }
  }

  /** The repository's first tag carries the role's tag value (whatever the tag's key). */
  predicate TagsAgree(repoTags: seq<Tag>, roleTag: Option<string>)
  {
    |repoTags| > 0 && roleTag == Some(repoTags[0].value)
  }

  /** Every value that mentions the registry host also mentions the role tag. */
  predicate ImagesCarryTag(vals: seq<JsValue>, host: string, tag: string)
  {
    forall v :: v in vals && Hit(v, host) == Returned(true) ==> Hit(v, tag) == Returned(true)
  }

  /**
   * checkRepositoryPermission. `repoTags` is what ECR reports for the
   * repository named after the role tag (DescribeRepositories followed by
   * ListTagsForResource), or the error either call raised.
   */
  function CheckRepositoryPermission(region: string, inputParams: JsValue, roleTag: Option<string>,
                                     repoTags: Attempt<seq<Tag>>): (r: Attempt<string>)
    ensures repoTags.Threw? ==> r == Threw(repoTags.message)
    ensures repoTags == Returned([]) ==> r == Threw(ReadOfNullish(Undefined, "Value"))
    ensures repoTags.Returned? && repoTags.value != [] && !TagsAgree(repoTags.value, roleTag) ==>
              r == Returned(TagMismatch)
    ensures repoTags.Returned? && TagsAgree(repoTags.value, roleTag) && !Searchable(LodashValues(inputParams)) ==>
              r.Threw?
    ensures repoTags.Returned? && TagsAgree(repoTags.value, roleTag) && Searchable(LodashValues(inputParams)) ==>
              r == Returned(if ImagesCarryTag(LodashValues(inputParams), RegistryHost(region), roleTag.value)
                            then Passed else ImageDenied)
  {
    match repoTags
    case Threw(m) => Threw(m)
    case Returned(tags) =>
      if tags == [] then Threw(ReadOfNullish(Undefined, "Value"))
      else if Some(tags[0].value) != roleTag then Returned(TagMismatch)
      else
        var vals := LodashValues(inputParams);
        var host := RegistryHost(region);
        ImageUrisThrows(vals, host);
        match ImageUris(vals, host)
        case Threw(m) => Threw(m)
        case Returned(uris) =>
          ImageUrisExact(vals, host, uris);
          assert forall u :: u in uris ==> u in vals && Hit(u, host) == Returned(true) by {
            forall u | u in uris ensures u in vals && Hit(u, host) == Returned(true) {
              assert multiset(uris)[u] > 0;
            }
          }
          assert forall v :: v in vals && Hit(v, host) == Returned(true) ==> v in uris by {
            forall v | v in vals && Hit(v, host) == Returned(true) ensures v in uris {
              assert multiset(vals)[v] > 0;
            }
          }
          EveryIncludesSearchable(uris, roleTag.value);
          match EveryIncludes(uris, roleTag.value)
          case Threw(m) => Threw(m)
          case Returned(all) => Returned(if all then Passed else ImageDenied)
  }

  /** The handler refuses a run on both AccessDenied verdicts and accepts the Passed one. */
  lemma VerdictMarkers()
    ensures Contains(TagMismatch, DeniedMarker)
    ensures Contains(ImageDenied, DeniedMarker)
    ensures !Contains(Passed, DeniedMarker)
  {
    assert OccursAt(TagMismatch, DeniedMarker, 0);
    assert OccursAt(ImageDenied, DeniedMarker, 0);
    PassedNotDenied();
  }

  lemma PassedNotDenied()
    ensures !Contains(Passed, DeniedMarker)
  {
    PassedLacksA();
    assert DeniedMarker[0] == 'A';
    NotContainsFirst(Passed, DeniedMarker);
  }

  lemma PassedLacksA()
    ensures 'A' !in Passed
  {
    assert 'A' !in "Passed: TanantId tags";
    assert 'A' !in " between ECR repositotry";
    assert 'A' !in " and Omics Role";
  }

  /** With no ECR image among the parameters, agreeing tags are enough to pass. */
  lemma NoImagesPass(region: string, inputParams: JsValue, roleTag: Option<string>, tags: seq<Tag>)
    requires TagsAgree(tags, roleTag)
    requires forall v :: v in LodashValues(inputParams) ==> v.Str? && !Contains(v.s, RegistryHost(region))
    ensures CheckRepositoryPermission(region, inputParams, roleTag, Returned(tags)) == Returned(Passed)
  {
  }

  /** A tenant image in the tenant's own repository passes. */
  lemma AcmeImagePasses()
    ensures CheckRepositoryPermission("us-east-1",
              Obj([Entry("image", Str("123." + RegistryHost("us-east-1") + "/acme/tool:latest"))]),
              Some("acme"), Returned([Tag("tenantId", "acme")])) == Returned(Passed)
  {
    var uri := "123." + RegistryHost("us-east-1") + "/acme/tool:latest";
    assert LodashValues(Obj([Entry("image", Str(uri))])) == [Str(uri)];
    ContainsConcat("123.", RegistryHost("us-east-1"), "/acme/tool:latest");
    assert "/acme/tool:latest" == "/" + "acme" + "/tool:latest";
    assert uri == "123." + RegistryHost("us-east-1") + "/" + "acme" + "/tool:latest";
    ContainsConcat("123." + RegistryHost("us-east-1") + "/", "acme", "/tool:latest");
  }

  /** The same request against a repository tagged for another tenant is refused. */
  lemma OtherTenantRepositoryDenied()
    ensures CheckRepositoryPermission("us-east-1",
              Obj([Entry("image", Str("123." + RegistryHost("us-east-1") + "/acme/tool:latest"))]),
              Some("acme"), Returned([Tag("tenantId", "other")])) == Returned(TagMismatch)
  {
  }

  /** An image under another tenant's path is refused even when the repository tags agree. */
  lemma ForeignImageDenied()
    ensures CheckRepositoryPermission("us-east-1",
              Obj([Entry("image", Str("123." + RegistryHost("us-east-1") + "/beta/tool:latest"))]),
              Some("gamma"), Returned([Tag("tenantId", "gamma")])) == Returned(ImageDenied)
  {
    var uri := "123." + RegistryHost("us-east-1") + "/beta/tool:latest";
    var vals := LodashValues(Obj([Entry("image", Str(uri))]));
    assert vals == [Str(uri)];
    ContainsConcat("123.", RegistryHost("us-east-1"), "/beta/tool:latest");
    BetaUriLacksGamma();
    assert Hit(Str(uri), RegistryHost("us-east-1")) == Returned(true);
    assert Hit(Str(uri), "gamma") == Returned(false);
    assert !ImagesCarryTag(vals, RegistryHost("us-east-1"), "gamma");
  }

  lemma BetaUriLacksGamma()
    ensures !Contains("123." + RegistryHost("us-east-1") + "/beta/tool:latest", "gamma")
  {
    var uri := "123." + RegistryHost("us-east-1") + "/beta/tool:latest";
    assert 'g' !in "123." && 'g' !in "dkr.ecr." && 'g' !in "us-east-1" && 'g' !in ".amazonaws.com";
    assert 'g' !in "/beta/tool:latest";
    assert 'g' !in uri;
    assert "gamma"[0] == 'g';
    NotContainsFirst(uri, "gamma");
  }

  // ---------------------------------------------------------------------------
  // The handler

  /** The part of the AppSync event the handler reads. */
  datatype Event = Event(field: string, claims: map<string, string>, arguments: JsValue)

  /** `event.arguments.input` when `arguments` can be read (undefined otherwise, where the read throws instead). */
  function CallerInput(event: Event): JsValue
  {
    Member(event.arguments, "input")
  }

  /**
   * The Lambda's environment and clock: `process.env.region`,
   * `process.env.runCommandRoleArn`, the serialized request (used only by the
   * fallback reply) and `new Date().getTime()`.
   */
  datatype Environment = Environment(region: Option<string>, runCommandRoleArn: Option<string>,
                                     requestJson: string, nowMs: int)

  /**
   * The answers of the AWS services: the tenant role (None when getTenantRole
   * failed), the tags of the repository named after the role tag, and the
   * responses of StartRun and CreateWorkflow to the input they are sent.
   */
  datatype Services = Services(
    tenantRole: Option<Role>,
    repoTags: Attempt<seq<Tag>>,
    startRun: seq<Entry> -> Attempt<JsValue>,
    createWorkflow: seq<Entry> -> Attempt<JsValue>)

  /** A command sent to HealthOmics, with the input it carried. */
  datatype Command = StartRun(input: seq<Entry>) | CreateWorkflow(input: seq<Entry>)

  /** The handler's reply, and the command it sent (None when it sent nothing). */
  datatype Invocation = Invocation(reply: Reply<Outcome>, sent: Option<Command>)

  function RegionOf(env: Environment): string
  {
    if Present(env.region) then env.region.value else ""
  }

  /** `{tenantId: tenantId}`. */
  function TenantTags(tenantId: string): JsValue
  {
    Obj([Entry("tenantId", Str(tenantId))])
  }

  function ChosenRole(event: Event, env: Environment, svc: Services): Role
  {
    SelectRole(TenantOf(event.claims), svc.tenantRole, env.runCommandRoleArn)
  }

  /** `{...arguments.input, roleArn}`, then `{...input, tags: {tenantId}}` in tenant mode. */
  function RunInput(args: JsValue, tenantId: string, role: Role): seq<Entry>
  {
    var withRole := Put(SpreadEntries(args), "roleArn", OptStr(role.arn));
    if tenantId != "" then Put(withRole, "tags", TenantTags(tenantId)) else withRole
  }

  /** `{...arguments.input, requestId}`, then `{...input, tags: {tenantId}}` in tenant mode. */
  function WorkflowInput(args: JsValue, tenantId: string, nowMs: int): seq<Entry>
  {
    var withId := Put(SpreadEntries(args), "requestId", Str(IntToString(nowMs)));
    if tenantId != "" then Put(withId, "tags", TenantTags(tenantId)) else withId
  }

  /**
   * The `startRunCommand` and `createWorkflow` closures: strip the entries
   * whose `toString()` is empty, send the rest; a throw anywhere becomes the
   * returned error object.
   */
  function Submission(input: seq<Entry>, workflow: bool, svc: Services): Invocation
  {
    match Stripped(input, ToStringNonEmpty)
    case Threw(m) => Invocation(Resolved(ErrorObject(m)), None)
    case Returned(filtered) =>
      if workflow then Invocation(Resolved(Settled(svc.createWorkflow(filtered))), Some(CreateWorkflow(filtered)))
      else Invocation(Resolved(Settled(svc.startRun(filtered))), Some(StartRun(filtered)))
  }

  /** The handler, as one expression over the event, the environment and the services. */
  function Invoke(event: Event, env: Environment, svc: Services): Invocation
  {
    var tenantId := TenantOf(event.claims);
    var role := ChosenRole(event, env, svc);
    if event.field in Fields && Nullish(event.arguments) then
      Invocation(Caught(ReadOfNullish(event.arguments, "input"), env.requestJson), None)
    else if event.field == StartRunField then
      var input := RunInput(CallerInput(event), tenantId, role);
      if tenantId == "" then Submission(input, false, svc)
      else
        match CheckRepositoryPermission(RegionOf(env), Lookup(input, "parameters"), role.tag, svc.repoTags)
        case Threw(m) => Invocation(Caught(m, env.requestJson), None)
        case Returned(verdict) =>
          if Contains(verdict, DeniedMarker) then Invocation(Caught(verdict, env.requestJson), None)
          else Submission(input, false, svc)
    else if event.field == CreateWorkflowField then
      Submission(WorkflowInput(CallerInput(event), tenantId, env.nowMs), true, svc)
    else Invocation(Unresolved(UnknownField(event.field)), None)
  }

  /** One of the two submitting closures, with its forIn loop. */
  method Submit(input: seq<Entry>, workflow: bool, svc: Services) returns (inv: Invocation)
    ensures inv == Submission(input, workflow, svc)
  {
    var filtered := StripEntries(input, ToStringNonEmpty);
    if filtered.Threw? {
      return Invocation(Resolved(ErrorObject(filtered.message)), None);
    }
    if workflow {
      var response := svc.createWorkflow(filtered.value);
      inv := Invocation(Resolved(Settled(response)), Some(CreateWorkflow(filtered.value)));
    } else {
      var response := svc.startRun(filtered.value);
      inv := Invocation(Resolved(Settled(response)), Some(StartRun(filtered.value)));
    }
  }

  /** The handler, step by step: role selection, input building, the check, the dispatch. */
  method Handle(event: Event, env: Environment, svc: Services) returns (inv: Invocation)
    ensures inv == Invoke(event, env, svc)
  {
    var region := RegionOf(env);
    var tenantId := TenantOf(event.claims);
    var role := SelectRole(tenantId, svc.tenantRole, env.runCommandRoleArn);
    if event.field == StartRunField {
      var args := Argument(event.arguments, "input");
      if args.Threw? {
        return Invocation(Caught(args.message, env.requestJson), None);
      }
      var input := Put(SpreadEntries(args.value), "roleArn", OptStr(role.arn));
      if tenantId != "" {
        input := Put(input, "tags", TenantTags(tenantId));
        var res := CheckRepositoryPermission(region, Lookup(input, "parameters"), role.tag, svc.repoTags);
        if res.Threw? {
          return Invocation(Caught(res.message, env.requestJson), None);
        }
        if Contains(res.value, DeniedMarker) {
          return Invocation(Caught(res.value, env.requestJson), None);
        }
      }
      inv := Submit(input, false, svc);
    } else if event.field == CreateWorkflowField {
      var args := Argument(event.arguments, "input");
      if args.Threw? {
        return Invocation(Caught(args.message, env.requestJson), None);
      }
      var input := Put(SpreadEntries(args.value), "requestId", Str(IntToString(env.nowMs)));
      if tenantId != "" {
        input := Put(input, "tags", TenantTags(tenantId));
      }
      inv := Submit(input, true, svc);
    } else {
      inv := Invocation(Unresolved(UnknownField(event.field)), None);
    }
  }

  // ---------------------------------------------------------------------------
  // Properties of the handler

  /** The verdict the tenant-mode check reaches on the caller's `parameters`. */
  function CheckOf(event: Event, env: Environment, svc: Services): Attempt<string>
  {
    CheckRepositoryPermission(RegionOf(env), Lookup(SpreadEntries(CallerInput(event)), "parameters"),
                              ChosenRole(event, env, svc).tag, svc.repoTags)
  }

  /** The message a refused run is answered with: the error thrown, or the verdict. */
  function Refusal(check: Attempt<string>): string
  {
    if check.Threw? then check.message else check.value
  }

  /** A field outside the two it serves gets the "Unknown field" string and sends nothing. */
  lemma UnknownFieldUnresolved(event: Event, env: Environment, svc: Services)
    requires event.field !in Fields
    ensures Invoke(event, env, svc) == Invocation(Unresolved(UnknownField(event.field)), None)
  {
  }

  /**
   * Both cases read `event.arguments.input` first: without `arguments` the
   * TypeError reaches the outer catch, the reply is a 403 naming the read,
   * and nothing is sent.
   */
  lemma MissingInput(event: Event, env: Environment, svc: Services)
    requires event.field in Fields && Nullish(event.arguments)
    ensures var inv := Invoke(event, env, svc);
            inv.sent == None && inv.reply.Envelope? && inv.reply.statusCode == 403 &&
            Unquote(inv.reply.body) == Some(ReadOfNullish(event.arguments, "input"))
  {
  }

  /** The check reads the caller's `parameters`: forcing roleArn and tags does not touch them. */
  lemma RunParameters(args: JsValue, tenantId: string, role: Role)
    ensures Lookup(RunInput(args, tenantId, role), "parameters") == Lookup(SpreadEntries(args), "parameters")
  {
    var withRole := Put(SpreadEntries(args), "roleArn", OptStr(role.arn));
    PutOther(SpreadEntries(args), "roleArn", OptStr(role.arn), "parameters");
    PutOther(withRole, "tags", TenantTags(tenantId), "parameters");
  }

  /**
   * A run request whose `arguments` cannot be read is refused through the
   * outer catch. Otherwise it is submitted when there is no tenant or the
   * check passes; otherwise (an AccessDenied verdict, or an error inside the
   * check) it is refused through the outer catch and nothing is sent.
   */
  lemma StartRunCases(event: Event, env: Environment, svc: Services)
    requires event.field == StartRunField
    ensures var input := RunInput(CallerInput(event), TenantOf(event.claims), ChosenRole(event, env, svc));
            Invoke(event, env, svc) ==
              if Nullish(event.arguments) then Invocation(Caught(ReadOfNullish(event.arguments, "input"), env.requestJson), None)
              else if TenantOf(event.claims) == "" || CheckOf(event, env, svc) == Returned(Passed)
              then Submission(input, false, svc)
              else Invocation(Caught(Refusal(CheckOf(event, env, svc)), env.requestJson), None)
  {
    RunParameters(CallerInput(event), TenantOf(event.claims), ChosenRole(event, env, svc));
    VerdictMarkers();
  }

  /** A refused verdict comes back as a 403 whose body is the JSON text of the AccessDenied message. */
  lemma DeniedRunReply(event: Event, env: Environment, svc: Services)
    requires event.field == StartRunField && TenantOf(event.claims) != "" && !Nullish(event.arguments)
    requires CheckOf(event, env, svc).Returned? && CheckOf(event, env, svc).value != Passed
    ensures Invoke(event, env, svc).sent == None
    ensures var r := Invoke(event, env, svc).reply;
            r.Envelope? && r.statusCode == 403 && Unquote(r.body) == Some(CheckOf(event, env, svc).value)
    ensures Contains(CheckOf(event, env, svc).value, DeniedMarker)
  {
    StartRunCases(event, env, svc);
    VerdictMarkers();
    assert CheckOf(event, env, svc).value in {TagMismatch, ImageDenied};
  }

  /** In single-tenant mode the repository tags are never consulted. */
  lemma SingleTenantSkipsCheck(event: Event, env: Environment, svc: Services, repoTags: Attempt<seq<Tag>>)
    requires TenantOf(event.claims) == ""
    ensures Invoke(event, env, svc) == Invoke(event, env, svc.(repoTags := repoTags))
  {
  }

  /** Creating a workflow never runs the permission check. */
  lemma WorkflowSkipsCheck(event: Event, env: Environment, svc: Services, repoTags: Attempt<seq<Tag>>)
    requires event.field == CreateWorkflowField
    ensures Invoke(event, env, svc) == Invoke(event, env, svc.(repoTags := repoTags))
  {
  }

  /** A run that was sent was read from `arguments.input` and carries the stripped run input. */
  lemma SentRunStripped(event: Event, env: Environment, svc: Services, x: seq<Entry>)
    requires Invoke(event, env, svc).sent == Some(StartRun(x))
    ensures event.field == StartRunField && !Nullish(event.arguments)
    ensures Stripped(RunInput(CallerInput(event), TenantOf(event.claims), ChosenRole(event, env, svc)), ToStringNonEmpty) == Returned(x)
  {
    if event.field == StartRunField {
      StartRunCases(event, env, svc);
    }
  }

  /** A created workflow was read from `arguments.input` and carries the stripped workflow input. */
  lemma SentWorkflowStripped(event: Event, env: Environment, svc: Services, x: seq<Entry>)
    requires Invoke(event, env, svc).sent == Some(CreateWorkflow(x))
    ensures event.field == CreateWorkflowField && !Nullish(event.arguments)
    ensures Stripped(WorkflowInput(CallerInput(event), TenantOf(event.claims), env.nowMs), ToStringNonEmpty) == Returned(x)
  {
    if event.field == StartRunField {
      StartRunCases(event, env, svc);
    }
  }

  /** The run input always has a `roleArn` property holding the chosen role. */
  lemma RunInputRole(args: JsValue, tenantId: string, role: Role)
    ensures Entry("roleArn", OptStr(role.arn)) in RunInput(args, tenantId, role)
  {
    var withRole := Put(SpreadEntries(args), "roleArn", OptStr(role.arn));
    var input := RunInput(args, tenantId, role);
    PutKeys(SpreadEntries(args), "roleArn", OptStr(role.arn));
    PutKeys(withRole, "tags", TenantTags(tenantId));
    PutOther(withRole, "tags", TenantTags(tenantId), "roleArn");
    LookupOfMember(input, "roleArn");
  }

  /** With no role ARN (a failed tenant role lookup, or no configured run role) no run is started. */
  lemma MissingRoleNeverRuns(event: Event, env: Environment, svc: Services)
    requires event.field == StartRunField && ChosenRole(event, env, svc).arn.None?
    ensures Invoke(event, env, svc).sent == None
  {
    var input := RunInput(CallerInput(event), TenantOf(event.claims), ChosenRole(event, env, svc));
    RunInputRole(CallerInput(event), TenantOf(event.claims), ChosenRole(event, env, svc));
    StrippedThrows(input, ToStringNonEmpty);
    StartRunCases(event, env, svc);
  }

  /** Stripping a well-keyed input leaves the kept entries, each with non-empty text. */
  lemma StrippedMembers(input: seq<Entry>, x: seq<Entry>)
    requires WellKeyed(input) && Stripped(input, ToStringNonEmpty) == Returned(x)
    ensures forall e :: e in x <==> e in input && StringOf(e.value) != "" && e.value != Undefined && e.value != Null
  {
    StrippedThrows(input, ToStringNonEmpty);
    StrippedIsKept(input, ToStringNonEmpty);
    forall e
      ensures e in x <==> e in input && ToStringNonEmpty(e.value) == Returned(true)
    {
      KeptMembers(input, ToStringNonEmpty, e);
    }
  }

  /**
   * The stripped run input: the chosen role ARN and nothing else under
   * `roleArn`, exactly `{tenantId}` under `tags` in tenant mode, and otherwise
   * the caller's own entries whose text is not empty, unchanged.
   */
  lemma StrippedRunInput(args: JsValue, tenantId: string, role: Role, x: seq<Entry>)
    requires WellKeyed(SpreadEntries(args))
    requires Stripped(RunInput(args, tenantId, role), ToStringNonEmpty) == Returned(x)
    ensures role.arn.Some? && (role.arn.value != "" <==> Entry("roleArn", Str(role.arn.value)) in x)
    ensures forall e :: e in x && e.key == "roleArn" ==> e.value == OptStr(role.arn)
    ensures tenantId != "" ==>
              Entry("tags", TenantTags(tenantId)) in x &&
              forall e :: e in x && e.key == "tags" ==> e.value == TenantTags(tenantId)
    ensures forall e :: e in x ==> StringOf(e.value) != ""
    ensures forall e :: e in x && e.key != "roleArn" && e.key != "tags" ==> e in SpreadEntries(args)
  {
    var spread := SpreadEntries(args);
    var withRole := Put(spread, "roleArn", OptStr(role.arn));
    var input := RunInput(args, tenantId, role);
    PutWellKeyed(spread, "roleArn", OptStr(role.arn));
    PutWellKeyed(withRole, "tags", TenantTags(tenantId));
    RunInputRole(args, tenantId, role);
    StrippedThrows(input, ToStringNonEmpty);
    StrippedMembers(input, x);
    forall e | e in input
      ensures e.key == "roleArn" ==> e.value == OptStr(role.arn)
      ensures tenantId != "" && e.key == "tags" ==> e.value == TenantTags(tenantId)
      ensures e.key != "roleArn" && e.key != "tags" ==> e in spread
    {
      if tenantId != "" {
        PutMembers(withRole, "tags", TenantTags(tenantId), e);
      }
      PutMembers(spread, "roleArn", OptStr(role.arn), e);
    }
    if tenantId != "" {
      PutMembers(withRole, "tags", TenantTags(tenantId), Entry("tags", TenantTags(tenantId)));
    }
  }

  /** What a started run carries, stated on the handler. */
  lemma SentRunInput(event: Event, env: Environment, svc: Services, x: seq<Entry>)
    requires WellKeyed(SpreadEntries(CallerInput(event)))
    requires Invoke(event, env, svc).sent == Some(StartRun(x))
    ensures var arn := ChosenRole(event, env, svc).arn;
            arn.Some? && (arn.value != "" <==> Entry("roleArn", Str(arn.value)) in x)
    ensures TenantOf(event.claims) != "" ==> Entry("tags", TenantTags(TenantOf(event.claims))) in x
    ensures forall e :: e in x && e.key != "roleArn" && e.key != "tags" ==> e in SpreadEntries(CallerInput(event))
  {
    SentRunStripped(event, env, svc, x);
    StrippedRunInput(CallerInput(event), TenantOf(event.claims), ChosenRole(event, env, svc), x);
  }

  /** The workflow input before stripping: the clock's requestId, and `{tenantId}` as tags in tenant mode. */
  lemma WorkflowInputEntries(args: JsValue, tenantId: string, nowMs: int)
    requires WellKeyed(SpreadEntries(args))
    ensures WellKeyed(WorkflowInput(args, tenantId, nowMs))
    ensures Entry("requestId", Str(IntToString(nowMs))) in WorkflowInput(args, tenantId, nowMs)
    ensures forall e :: e in WorkflowInput(args, tenantId, nowMs) && e.key == "requestId" ==>
              e.value == Str(IntToString(nowMs))
    ensures tenantId != "" ==> Entry("tags", TenantTags(tenantId)) in WorkflowInput(args, tenantId, nowMs)
    ensures tenantId == "" ==> forall e :: e in WorkflowInput(args, tenantId, nowMs) && e.key == "tags" ==>
              e in SpreadEntries(args)
  {
    var spread := SpreadEntries(args);
    var stamp := Str(IntToString(nowMs));
    var withId := Put(spread, "requestId", stamp);
    var input := WorkflowInput(args, tenantId, nowMs);
    PutWellKeyed(spread, "requestId", stamp);
    PutWellKeyed(withId, "tags", TenantTags(tenantId));
    forall e | e in input
      ensures e.key == "requestId" ==> e.value == stamp
      ensures tenantId == "" && e.key == "tags" ==> e in spread
    {
      if tenantId != "" {
        PutMembers(withId, "tags", TenantTags(tenantId), e);
      }
      PutMembers(spread, "requestId", stamp, e);
    }
    PutMembers(spread, "requestId", stamp, Entry("requestId", stamp));
    if tenantId != "" {
      PutMembers(withId, "tags", TenantTags(tenantId), Entry("requestId", stamp));
      PutMembers(withId, "tags", TenantTags(tenantId), Entry("tags", TenantTags(tenantId)));
    }
  }

  /** The stripped workflow input keeps the requestId and the forced tags. */
  lemma StrippedWorkflowInput(args: JsValue, tenantId: string, nowMs: int, x: seq<Entry>)
    requires WellKeyed(SpreadEntries(args))
    requires Stripped(WorkflowInput(args, tenantId, nowMs), ToStringNonEmpty) == Returned(x)
    ensures Entry("requestId", Str(IntToString(nowMs))) in x
    ensures forall e :: e in x && e.key == "requestId" ==> e.value == Str(IntToString(nowMs))
    ensures tenantId != "" ==> Entry("tags", TenantTags(tenantId)) in x
    ensures tenantId == "" ==> forall e :: e in x && e.key == "tags" ==> e in SpreadEntries(args)
    ensures forall e :: e in x ==> StringOf(e.value) != ""
  {
    WorkflowInputEntries(args, tenantId, nowMs);
    StrippedMembers(WorkflowInput(args, tenantId, nowMs), x);
    assert StringOf(Str(IntToString(nowMs))) != "";
    assert StringOf(TenantTags(tenantId)) != "";
  }

  /** What a created workflow carries, stated on the handler. */
  lemma SentWorkflowInput(event: Event, env: Environment, svc: Services, x: seq<Entry>)
    requires WellKeyed(SpreadEntries(CallerInput(event)))
    requires Invoke(event, env, svc).sent == Some(CreateWorkflow(x))
    ensures Entry("requestId", Str(IntToString(env.nowMs))) in x
    ensures TenantOf(event.claims) != "" ==> Entry("tags", TenantTags(TenantOf(event.claims))) in x
  {
    SentWorkflowStripped(event, env, svc, x);
    StrippedWorkflowInput(CallerInput(event), TenantOf(event.claims), env.nowMs, x);
  }
}
