/**
 * The deployment environment helper: the account and the region are each
 * the first non-empty of an override and two environment variables, and a
 * missing one is a configuration error.
 */
module DeployConfig {
  import opened Wrappers
  import opened Js

  /** The optional overrides; `undefined` for the whole argument is `None` of the caller's Option. */
  datatype Overrides = Overrides(account: Option<string>, region: Option<string>)

  datatype Config = Config(account: string, region: string)

  const WrongConfig: string := "Wrong config"

  /** `process.env[name]`. */
  function EnvVar(env: map<string, string>, name: string): (v: Option<string>)
    ensures name in env <==> v.Some?
    ensures name in env ==> v.value == env[name]
  {
    if name in env then Some(env[name]) else None
  }

  /** `a || b || ...`: the first truthy operand, or the last operand when none is. */
  function FirstPresent(operands: seq<Option<string>>): (r: Option<string>)
    requires operands != []
    ensures Present(r) <==> exists i :: 0 <= i < |operands| && Present(operands[i])
    ensures forall i :: 0 <= i < |operands| && Present(operands[i]) && (forall j :: 0 <= j < i ==> !Present(operands[j])) ==>
              r == operands[i]
  {
    if |operands| == 1 || Present(operands[0]) then operands[0] else FirstPresent(operands[1..])
  }

  function AccountChain(overrides: Overrides, env: map<string, string>): Option<string>
  {
    Or(Or(overrides.account, EnvVar(env, "CDK_DEPLOY_ACCOUNT")), EnvVar(env, "CDK_DEFAULT_ACCOUNT"))
  }

  function RegionChain(overrides: Overrides, env: map<string, string>): Option<string>
  {
    Or(Or(overrides.region, EnvVar(env, "CDK_DEPLOY_REGION")), EnvVar(env, "CDK_DEFAULT_REGION"))
  }

  /**
   * `config(overrideProps)`: reading the overrides of an undefined argument
   * throws (the non-null assertion checks nothing); an account or region
   * that ends up empty or missing throws `Wrong config`.
   */
  function ResolveConfig(overrideProps: Option<Overrides>, env: map<string, string>): (r: Attempt<Config>)
    ensures r.Returned? ==> r.value.account != "" && r.value.region != ""
    ensures overrideProps.None? ==> r == Threw(ReadOfNullish(Undefined, "account"))
  {
    if overrideProps.None? then Threw(ReadOfNullish(Undefined, "account"))
    else
      var account := AccountChain(overrideProps.value, env);
      var region := RegionChain(overrideProps.value, env);
      if !Present(account) || !Present(region) then Threw(WrongConfig)
      else Returned(Config(account.value, region.value))
  }

  /** A chain of two `||` is the first-truthy choice among its three operands. */
  lemma FirstPresentOfThree(x: Option<string>, y: Option<string>, z: Option<string>)
    ensures FirstPresent([x, y, z]) == Or(Or(x, y), z)
  {
    var ops := [x, y, z];
    assert ops[1..] == [y, z];
    assert ops[1..][1..] == [z];
    assert FirstPresent(ops[1..]) == Or(y, z);
  }

  /**
   * The chains are first-truthy choices: an empty override falls through to
   * the deploy variable, then to the default one, in that order.
   */
  lemma ChainsAreFirstPresent(overrides: Overrides, env: map<string, string>)
    ensures AccountChain(overrides, env) ==
            FirstPresent([overrides.account, EnvVar(env, "CDK_DEPLOY_ACCOUNT"), EnvVar(env, "CDK_DEFAULT_ACCOUNT")])
    ensures RegionChain(overrides, env) ==
            FirstPresent([overrides.region, EnvVar(env, "CDK_DEPLOY_REGION"), EnvVar(env, "CDK_DEFAULT_REGION")])
  {
    FirstPresentOfThree(overrides.account, EnvVar(env, "CDK_DEPLOY_ACCOUNT"), EnvVar(env, "CDK_DEFAULT_ACCOUNT"));
    FirstPresentOfThree(overrides.region, EnvVar(env, "CDK_DEPLOY_REGION"), EnvVar(env, "CDK_DEFAULT_REGION"));
  }

  /**
   * The configuration is returned exactly when each of account and region has
   * a non-empty source, and then it is `{account, region}` taken from the first
   * non-empty source of each; otherwise the error is `Wrong config`.
   */
  lemma ConfigExactly(overrides: Overrides, env: map<string, string>)
    ensures var accounts := [overrides.account, EnvVar(env, "CDK_DEPLOY_ACCOUNT"), EnvVar(env, "CDK_DEFAULT_ACCOUNT")];
            var regions := [overrides.region, EnvVar(env, "CDK_DEPLOY_REGION"), EnvVar(env, "CDK_DEFAULT_REGION")];
            var r := ResolveConfig(Some(overrides), env);
            (r.Returned? <==> (exists i :: 0 <= i < 3 && Present(accounts[i])) && (exists i :: 0 <= i < 3 && Present(regions[i]))) &&
            (r.Returned? ==> r.value == Config(FirstPresent(accounts).value, FirstPresent(regions).value)) &&
            (r.Threw? ==> r.message == WrongConfig)
  {
    ChainsAreFirstPresent(overrides, env);
  }

  /** An override wins over both environment variables, as long as it is not empty. */
  lemma OverrideWins(account: string, region: string, env: map<string, string>)
    requires account != "" && region != ""
    ensures ResolveConfig(Some(Overrides(Some(account), Some(region))), env) == Returned(Config(account, region))
  {
  }
}
