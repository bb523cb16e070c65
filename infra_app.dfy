/**
 * The infrastructure app's entry point: it reads the stage and the base
 * configuration from the CDK context, derives the stack's environment, tags
 * and id, and creates the infrastructure stack with the application stack
 * inside. The CDK context and the process environment are inputs.
 */
module InfraApp {
  import opened Wrappers
  import opened Js
  import DeployConfig

  /** `String(v)`, as a template literal renders a value. */
  function TemplateString(v: JsValue): (s: string)
    ensures v.Str? ==> s == v.s
  {
    if v == Undefined then "undefined" else if v == Null then "null" else StringOf(v)
  }

  /** `app.node.tryGetContext(key)`: the key is converted to a string, a missing entry is undefined. */
  function TryGetContext(context: map<string, JsValue>, key: JsValue): JsValue
  {
    var k := TemplateString(key);
    if k in context then context[k] else Undefined
  }

  /** `a || b` on values. */
  function JsOr(a: JsValue, b: JsValue): (r: JsValue)
    ensures Truthy(a) ==> r == a
    ensures !Truthy(a) ==> r == b
  {
    if Truthy(a) then a else b
  }

  datatype Env = Env(account: JsValue, region: JsValue)

  /**
   * `config(baseConfg)`: the account is `deployAwsEnv.accountId` or else
   * `CDK_DEFAULT_ACCOUNT`; the region is `deployAwsEnv.region`, else
   * `AWS_REGION`, else `CDK_DEFAULT_REGION`. Nothing is checked: only a
   * missing `baseConfg` or `deployAwsEnv` throws.
   */
  function InfraConfig(baseConfg: JsValue, env: map<string, string>): (r: Attempt<Env>)
    ensures r.Threw? <==> Nullish(baseConfg) || Nullish(Member(baseConfg, "deployAwsEnv"))
  {
    if Nullish(baseConfg) then Threw(ReadOfNullish(baseConfg, "deployAwsEnv"))
    else
      var deployAwsEnv := Member(baseConfg, "deployAwsEnv");
      if Nullish(deployAwsEnv) then Threw(ReadOfNullish(deployAwsEnv, "accountId"))
      else
        var account := JsOr(Member(deployAwsEnv, "accountId"), OptStr(DeployConfig.EnvVar(env, "CDK_DEFAULT_ACCOUNT")));
        var region := JsOr(JsOr(Member(deployAwsEnv, "region"), OptStr(DeployConfig.EnvVar(env, "AWS_REGION"))),
                           OptStr(DeployConfig.EnvVar(env, "CDK_DEFAULT_REGION")));
        Returned(Env(account, region))
  }

  /** The props the application stack is created with. */
  datatype ApplicationProps = ApplicationProps(adminEmail: JsValue, adminUsername: JsValue,
                                               omicsInput: JsValue, omicsOutput: JsValue)

  /** The infrastructure stack as created: its id, environment and tags, and the application stack inside. */
  datatype InfraStack = InfraStack(id: string, env: Env, tags: seq<Entry>,
                                   applicationId: string, application: ApplicationProps)

  /** The stack's tags `{environment: stage, appName, stageAlias: alias}`. */
  function StackTags(stage: JsValue, stageContext: JsValue): seq<Entry>
  {
    [Entry("environment", stage), Entry("appName", Member(stageContext, "appName")),
     Entry("stageAlias", Member(stageContext, "alias"))]
  }

  /** Exactly three tags: the stage as `environment`, and the context's app name and alias. */
  lemma StackTagsShape(stage: JsValue, stageContext: JsValue)
    ensures Keys(StackTags(stage, stageContext)) == {"environment", "appName", "stageAlias"}
    ensures WellKeyed(StackTags(stage, stageContext))
    ensures Lookup(StackTags(stage, stageContext), "environment") == stage
    ensures Lookup(StackTags(stage, stageContext), "appName") == Member(stageContext, "appName")
    ensures Lookup(StackTags(stage, stageContext), "stageAlias") == Member(stageContext, "alias")
  {
    var tags := StackTags(stage, stageContext);
    assert "environment"[0] == 'e' && "appName"[0] == 'a' && "stageAlias"[0] == 's';
    assert tags[1..] == [tags[1], tags[2]];
    assert tags[1..][1..] == [tags[2]];
    assert Lookup(tags[1..], "stageAlias") == Lookup(tags[1..][1..], "stageAlias");
  }

  /** The stack id `${alias}-${stage}-${appName}-infraStack`. */
  function StackId(alias: JsValue, stage: JsValue, appName: JsValue): string
  {
    TemplateString(alias) + "-" + TemplateString(stage) + "-" + TemplateString(appName) + "-infraStack"
  }

  /**
   * The whole entry point, in program order: the tags read the stage's
   * context (which throws when the stage has none), then the stack id, then
   * `config`, then the application stack's props.
   */
  function Synthesize(context: map<string, JsValue>, env: map<string, string>): (r: Attempt<InfraStack>)
    ensures r.Returned? ==> Lookup(r.value.tags, "environment") == TryGetContext(context, Str("stage"))
  {
    var stage := TryGetContext(context, Str("stage"));
    var baseConfg := TryGetContext(context, Str("base"));
    var stageContext := TryGetContext(context, stage);
    if Nullish(stageContext) then Threw(ReadOfNullish(stageContext, "appName"))
    else
      var tags := StackTags(stage, stageContext);
      var id := StackId(Member(stageContext, "alias"), stage, Member(stageContext, "appName"));
      match InfraConfig(baseConfg, env)
      case Threw(m) => Threw(m)
      case Returned(e) =>
        var buckets := Member(stageContext, "omicsBuckets");
        if Nullish(buckets) then Threw(ReadOfNullish(buckets, "input"))
        else
          Returned(InfraStack(id, e, tags, id + "-application",
                              ApplicationProps(Member(stageContext, "appAdminEmail"), Member(stageContext, "alias"),
                                               Member(buckets, "input"), Member(buckets, "output"))))
  }

  /**
   * Unlike the deployment helper, this `config` never rejects what it finds:
   * with an empty `deployAwsEnv` and no variables set it yields an undefined
   * account and region, where the helper throws `Wrong config`.
   */
  lemma InfraConfigNeverChecks(env: map<string, string>)
    requires "CDK_DEFAULT_ACCOUNT" !in env && "AWS_REGION" !in env && "CDK_DEFAULT_REGION" !in env
    requires "CDK_DEPLOY_ACCOUNT" !in env && "CDK_DEPLOY_REGION" !in env
    ensures InfraConfig(Obj([Entry("deployAwsEnv", Obj([]))]), env) == Returned(Env(Undefined, Undefined))
    ensures DeployConfig.ResolveConfig(Some(DeployConfig.Overrides(None, None)), env) == Threw(DeployConfig.WrongConfig)
  {
  }

  /**
   * The account and region are the first truthy of their sources, in order;
   * an empty `accountId` falls through to the environment.
   */
  lemma InfraConfigFallback(deployAwsEnv: JsValue, env: map<string, string>)
    requires !Nullish(deployAwsEnv)
    ensures var r := InfraConfig(Obj([Entry("deployAwsEnv", deployAwsEnv)]), env);
            var accountId := Member(deployAwsEnv, "accountId");
            var region := Member(deployAwsEnv, "region");
            r.Returned? &&
            r.value.account == (if Truthy(accountId) then accountId else OptStr(DeployConfig.EnvVar(env, "CDK_DEFAULT_ACCOUNT"))) &&
            r.value.region == (if Truthy(region) then region
                               else if Present(DeployConfig.EnvVar(env, "AWS_REGION")) then OptStr(DeployConfig.EnvVar(env, "AWS_REGION"))
                               else OptStr(DeployConfig.EnvVar(env, "CDK_DEFAULT_REGION")))
  {
  }

  /**
   * With string settings the stack id is the dash-joined alias, stage and
   * app name followed by `-infraStack`, and the application stack's id
   * extends it; for a fixed stage and app name, different aliases give
   * different stack ids.
   */
  lemma StackIdShape(alias: string, stage: string, appName: string, otherAlias: string)
    ensures StackId(Str(alias), Str(stage), Str(appName)) == alias + "-" + stage + "-" + appName + "-infraStack"
    ensures StackId(Str(otherAlias), Str(stage), Str(appName)) == StackId(Str(alias), Str(stage), Str(appName)) ==>
              otherAlias == alias
  {
    var tail := "-" + stage + "-" + appName + "-infraStack";
    assert StackId(Str(alias), Str(stage), Str(appName)) == alias + tail;
    assert StackId(Str(otherAlias), Str(stage), Str(appName)) == otherAlias + tail;
    if otherAlias + tail == alias + tail {
      assert |otherAlias| == |alias|;
      assert otherAlias == (otherAlias + tail)[..|otherAlias|];
      assert alias == (alias + tail)[..|alias|];
    }
  }

  /** The stack is tagged and named from the stage and its context, which must exist. */
  lemma SynthesizeTags(context: map<string, JsValue>, env: map<string, string>)
    ensures var stage := TryGetContext(context, Str("stage"));
            var stageContext := TryGetContext(context, stage);
            var r := Synthesize(context, env);
            (Nullish(stageContext) ==> r == Threw(ReadOfNullish(stageContext, "appName"))) &&
            (r.Returned? ==>
               r.value.tags == StackTags(stage, stageContext) &&
               r.value.id == StackId(Member(stageContext, "alias"), stage, Member(stageContext, "appName")) &&
               r.value.applicationId == r.value.id + "-application" &&
               InfraConfig(TryGetContext(context, Str("base")), env) == Returned(r.value.env))
  {
  }
}
