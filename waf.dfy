/**
 * The web application firewall of the web app: the `Waf` construct, which
 * decides the scope, the allowed-IP set and the web-ACL association, and the
 * `WAF` web ACL, whose rule list lives in one module-level variable that
 * every construction extends and that later constructions see.
 */
module WafConstruct {
  import opened Wrappers
  import opened Text
  import opened Js

  // ---------------------------------------------------------------------------
  // Rules

  datatype Statement =
    | RateBased(limit: nat, aggregateKeyType: string)
    | ManagedRuleGroup(vendorName: string, groupName: string, excludedRules: seq<string>)
    | NotInIpSet(ipSetArn: string)

  /** `action` of a rule, or its `overrideAction: {none: {}}` for a rule group. */
  datatype RuleAction =
    | Block
    | BlockWithResponse(responseCode: int, customResponseBodyKey: string)
    | OverrideNone

  datatype Visibility = Visibility(sampledRequestsEnabled: bool, cloudWatchMetricsEnabled: bool, metricName: string)

  datatype RuleProperty = RuleProperty(name: string, priority: int, statement: Statement,
                                       action: RuleAction, visibility: Visibility)

  /** An entry of the rule list: the name `uniqBy` keys on, and the rule handed to the web ACL. */
  datatype WafRule = WafRule(name: string, rule: RuleProperty)

  function Metric(name: string): Visibility
  {
    Visibility(true, true, name)
  }

  function ManagedRule(name: string, groupName: string, priority: int, excluded: seq<string>, metric: string): WafRule
  {
    WafRule(name, RuleProperty(name, priority, ManagedRuleGroup("AWS", groupName, excluded), OverrideNone, Metric(metric)))
  }

  const RateFilterName: string := "web-rate-filter"
  const IpFilterName: string := "custom-web-ipfilter"

  /** The initial value of the rule list. */
  const BaseRules: seq<WafRule> := [
    WafRule(RateFilterName, RuleProperty(RateFilterName, 100, RateBased(3000, "IP"), Block, Metric(RateFilterName))),
    ManagedRule("AWS-AWSManagedRulesAmazonIpReputationList", "AWSManagedRulesAmazonIpReputationList", 200, [],
                "AWSManagedRulesAmazonIpReputationList"),
    ManagedRule("AWS-AWSManagedRulesCommonRuleSet", "AWSManagedRulesCommonRuleSet", 300,
                ["GenericRFI_BODY", "SizeRestrictions_BODY", "CrossSiteScripting_BODY"],
                "AWS-AWSManagedRulesCommonRuleSet"),
    ManagedRule("AWS-AWSManagedRulesKnownBadInputsRuleSet", "AWSManagedRulesKnownBadInputsRuleSet", 400, [],
                "AWS-AWSManagedRulesKnownBadInputsRuleSet"),
    ManagedRule("AWS-AWSManagedRulesSQLiRuleSet", "AWSManagedRulesSQLiRuleSet", 500, [],
                "AWS-AWSManagedRulesSQLiRuleSet")
  ]

  /** The rule blocking, with a 403 and the `response` body, every address outside the IP set. */
  function IpFilterRule(ipSetArn: string): (r: WafRule)
    ensures r.name == IpFilterName && r.rule.name == IpFilterName && r.rule.priority == 600
    ensures r.rule.statement == NotInIpSet(ipSetArn) && r.rule.action == BlockWithResponse(403, "response")
  {
    WafRule(IpFilterName, RuleProperty(IpFilterName, 600, NotInIpSet(ipSetArn),
                                       BlockWithResponse(403, "response"), Metric(IpFilterName)))
  }

  function Names(rules: seq<WafRule>): set<string>
  {
    set r | r in rules :: r.name
  }

  predicate UniqueNames(rules: seq<WafRule>)
  {
    forall i, j :: 0 <= i < j < |rules| ==> rules[i].name != rules[j].name
  }

  /** The base list: five rules, named as their entries, with priorities 100, 200, ..., 500. */
  lemma BaseRulesShape()
    ensures |BaseRules| == 5 && UniqueNames(BaseRules) && IpFilterName !in Names(BaseRules)
    ensures forall i :: 0 <= i < 5 ==> BaseRules[i].rule.priority == 100 * (i + 1)
    ensures forall i :: 0 <= i < 5 ==> BaseRules[i].rule.name == BaseRules[i].name
    ensures BaseRules[0].rule.statement == RateBased(3000, "IP") && BaseRules[0].rule.action == Block
  {
    forall r | r in BaseRules ensures r.name != IpFilterName {
      assert |r.name| != |IpFilterName|;
    }
  }

  // ---------------------------------------------------------------------------
  // lodash `uniqBy(rules, 'name')`

  /** The walk `uniqBy` makes: keep an entry unless an earlier kept one (or `seen`) has its name. */
  function UniqFrom(rules: seq<WafRule>, seen: set<string>): seq<WafRule>
    decreases |rules|
  {
    if rules == [] then []
    else if rules[0].name in seen then UniqFrom(rules[1..], seen)
    else [rules[0]] + UniqFrom(rules[1..], seen + {rules[0].name})
  }

  function UniqByName(rules: seq<WafRule>): seq<WafRule>
  {
    UniqFrom(rules, {})
  }

  /** The result has each name once: exactly the names of the input not already seen. */
  lemma {:induction false} UniqFromNames(rules: seq<WafRule>, seen: set<string>)
    ensures UniqueNames(UniqFrom(rules, seen))
    ensures Names(UniqFrom(rules, seen)) == Names(rules) - seen
  {
    if rules != [] {
      var head := rules[0];
      var rest := rules[1..];
      assert rules == [head] + rest;
      assert Names(rules) == {head.name} + Names(rest) by {
        forall x | x in rules ensures x == head || x in rest { }
      }
      if head.name in seen {
        UniqFromNames(rest, seen);
      } else {
        var tail := UniqFrom(rest, seen + {head.name});
        UniqFromNames(rest, seen + {head.name});
        var r := [head] + tail;
        assert Names(r) == {head.name} + Names(tail) by {
          forall x | x in r ensures x == head || x in tail { }
        }
        forall i, j | 0 <= i < j < |r| ensures r[i].name != r[j].name {
          if i == 0 {
            assert r[j] in tail;
          } else {
            assert r[i] == tail[i - 1] && r[j] == tail[j - 1];
          }
        }
      }
    }
  }

  /** The kept entries are in their original order. */
  lemma {:induction false} UniqFromInOrder(rules: seq<WafRule>, seen: set<string>)
    ensures SubsequenceOf(UniqFrom(rules, seen), rules)
  {
    if rules != [] {
      var rest := rules[1..];
      assert rules == [rules[0]] + rest;
      if rules[0].name in seen {
        UniqFromInOrder(rest, seen);
        SubsequenceCons(UniqFrom(rest, seen), rest, rules[0]);
      } else {
        UniqFromInOrder(rest, seen + {rules[0].name});
        var r := UniqFrom(rules, seen);
        assert r[1..] == UniqFrom(rest, seen + {rules[0].name});
      }
    }
  }

  /** An entry is kept exactly when it is the first with its name and that name was not seen. */
  lemma {:induction false} UniqFromFirstWins(rules: seq<WafRule>, seen: set<string>, i: nat)
    requires i < |rules|
    ensures (rules[i].name !in seen && forall k :: 0 <= k < i ==> rules[k].name != rules[i].name) ==>
              rules[i] in UniqFrom(rules, seen)
    ensures forall x :: x in UniqFrom(rules, seen) ==>
              exists k :: 0 <= k < |rules| && rules[k] == x && x.name !in seen &&
                          forall m :: 0 <= m < k ==> rules[m].name != x.name
  {
    var head := rules[0];
    var rest := rules[1..];
    var seen' := if head.name in seen then seen else seen + {head.name};
    if i > 0 {
      UniqFromFirstWins(rest, seen', i - 1);
    } else if |rest| > 0 {
      UniqFromFirstWins(rest, seen', 0);
    }
    var r := UniqFrom(rules, seen);
    forall x | x in r
      ensures exists k :: 0 <= k < |rules| && rules[k] == x && x.name !in seen &&
                          forall m :: 0 <= m < k ==> rules[m].name != x.name
    {
      if head.name !in seen && x == head {
        assert rules[0] == x;
      } else {
        assert x in UniqFrom(rest, seen');
        var k :| 0 <= k < |rest| && rest[k] == x && x.name !in seen' &&
                 forall m :: 0 <= m < k ==> rest[m].name != x.name;
        assert rules[k + 1] == x;
        forall m | 0 <= m < k + 1 ensures rules[m].name != x.name {
          if m > 0 {
            assert rules[m] == rest[m - 1];
          }
        }
      }
    }
  }

  /** `uniqBy` of a concatenation walks the second part with the first part's names seen. */
  lemma {:induction false} UniqFromConcat(a: seq<WafRule>, b: seq<WafRule>, seen: set<string>)
    ensures UniqFrom(a + b, seen) == UniqFrom(a, seen) + UniqFrom(b, seen + Names(a))
  {
    if a == [] {
      assert a + b == b;
      assert Names(a) == {};
      assert seen + Names(a) == seen;
    } else {
      var head := a[0];
      var rest := a[1..];
      assert (a + b)[0] == head && (a + b)[1..] == rest + b;
      assert Names(a) == {head.name} + Names(rest) by {
        assert a == [head] + rest;
        forall x | x in a ensures x == head || x in rest { }
      }
      if head.name in seen {
        UniqFromConcat(rest, b, seen);
        assert seen + Names(rest) == seen + Names(a);
      } else {
        UniqFromConcat(rest, b, seen + {head.name});
        assert seen + {head.name} + Names(rest) == seen + Names(a);
      }
    }
  }

  /** A list whose names are already unique and unseen comes back unchanged. */
  lemma {:induction false} UniqFromUnique(rules: seq<WafRule>, seen: set<string>)
    requires UniqueNames(rules) && Names(rules) !! seen
    ensures UniqFrom(rules, seen) == rules
  {
    if rules != [] {
      var rest := rules[1..];
      assert rules[0] in rules;
      assert UniqueNames(rest) by {
        forall i, j | 0 <= i < j < |rest| ensures rest[i].name != rest[j].name {
          assert rest[i] == rules[i + 1] && rest[j] == rules[j + 1];
        }
      }
      assert Names(rest) !! seen + {rules[0].name} by {
        forall x | x in rest ensures x.name !in seen + {rules[0].name} {
          var k :| 0 <= k < |rest| && rest[k] == x;
          assert rules[k + 1] == x && rules[k + 1] in rules;
        }
      }
      UniqFromUnique(rest, seen + {rules[0].name});
    }
  }

  /**
   * Merging extra rules into a list with unique names keeps the list as it is
   * and appends the extra rules whose names are new, first occurrence first.
   */
  lemma MergeKeepsExisting(rules: seq<WafRule>, extra: seq<WafRule>)
    requires UniqueNames(rules)
    ensures UniqByName(rules + extra) == rules + UniqFrom(extra, Names(rules))
  {
    UniqFromConcat(rules, extra, {});
    UniqFromUnique(rules, {});
    assert {} + Names(rules) == Names(rules);
  }

  // ---------------------------------------------------------------------------
  // The module-level rule list

  /** What one `WAF` construction does to the rule list. */
  function Extended(rules: seq<WafRule>, ipSetArn: Option<string>, extraRules: Option<seq<WafRule>>): seq<WafRule>
  {
    var merged := if extraRules.Some? && extraRules.value != [] then UniqByName(rules + extraRules.value) else rules;
    if ipSetArn.Some? then merged + [IpFilterRule(ipSetArn.value)] else merged
  }

  /**
   * The module-level `let wafRules`: it starts as the base list and every
   * construction of a web ACL reassigns or extends it, so later
   * constructions start from what earlier ones left.
   */
  class RuleRegistry {
    var rules: seq<WafRule>

    constructor()
      ensures rules == BaseRules
    {
      rules := BaseRules;
    }

    /** The two updates at the top of the `WAF` constructor. */
    method Extend(ipSetArn: Option<string>, extraRules: Option<seq<WafRule>>)
      modifies this
      ensures rules == Extended(old(rules), ipSetArn, extraRules)
    {
      if extraRules.Some? && extraRules.value != [] {
        rules := UniqByName(rules + extraRules.value);
      }
      if ipSetArn.Some? {
        rules := rules + [IpFilterRule(ipSetArn.value)];
      }
    }
  }

  /** Without an IP set, a list with unique names keeps them, and the list grows only at its end. */
  lemma ExtendedWithoutIpSet(rules: seq<WafRule>, extraRules: Option<seq<WafRule>>)
    requires UniqueNames(rules)
    ensures var r := Extended(rules, None, extraRules);
            UniqueNames(r) && |r| >= |rules| && r[..|rules|] == rules
    ensures extraRules.Some? ==> Names(Extended(rules, None, extraRules)) == Names(rules) + Names(extraRules.value)
  {
    if extraRules.Some? && extraRules.value != [] {
      var extra := extraRules.value;
      MergeKeepsExisting(rules, extra);
      UniqFromNames(rules + extra, {});
      assert Names(rules + extra) == Names(rules) + Names(extra) by {
        forall x | x in rules + extra ensures x in rules || x in extra { }
      }
    }
  }

  /** With an IP set, the filter rule with priority 600 comes last, after everything the list held. */
  lemma ExtendedIpFilterLast(rules: seq<WafRule>, ipSetArn: string, extraRules: Option<seq<WafRule>>)
    requires UniqueNames(rules)
    ensures var r := Extended(rules, Some(ipSetArn), extraRules);
            |r| > |rules| && r[..|rules|] == rules && r[|r| - 1] == IpFilterRule(ipSetArn)
  {
    ExtendedWithoutIpSet(rules, extraRules);
  }

  /** A same-named extra rule never replaces a rule already in the list. */
  lemma ExistingRuleWins(rules: seq<WafRule>, extra: seq<WafRule>, ipSetArn: Option<string>, x: WafRule)
    requires UniqueNames(rules) && x in extra && x.name in Names(rules) && x !in rules
    ensures x !in Extended(rules, ipSetArn, Some(extra)) || (ipSetArn.Some? && x == IpFilterRule(ipSetArn.value))
  {
    MergeKeepsExisting(rules, extra);
    var k :| 0 <= k < |extra| && extra[k] == x;
    UniqFromFirstWins(extra, Names(rules), k);
  }

  /**
   * The list outlives a construction: two constructions with an IP set leave
   * two filter rules of the same name, which a later merge of extra rules
   * reduces to the first.
   */
  lemma FiltersAccumulate(a: string, b: string, extra: WafRule)
    requires extra.name !in Names(BaseRules) && extra.name != IpFilterName
    ensures Extended(Extended(BaseRules, Some(a), None), Some(b), None) == BaseRules + [IpFilterRule(a), IpFilterRule(b)]
    ensures Extended(BaseRules + [IpFilterRule(a), IpFilterRule(b)], None, Some([extra])) ==
            BaseRules + [IpFilterRule(a), extra]
  {
    BaseRulesShape();
    var once := BaseRules + [IpFilterRule(a)];
    assert UniqueNames(once) by {
      forall i, j | 0 <= i < j < |once| ensures once[i].name != once[j].name {
        if j == 5 {
          assert once[i] in BaseRules;
        }
      }
    }
    MergeKeepsExisting(once, [IpFilterRule(b), extra]);
    assert once + [IpFilterRule(b)] + [extra] == once + [IpFilterRule(b), extra];
    assert Names(once) == Names(BaseRules) + {IpFilterName} by {
      forall x | x in once ensures x in BaseRules || x == IpFilterRule(a) { }
    }
    var rest := [IpFilterRule(b), extra];
    assert UniqFrom(rest, Names(once)) == [extra] by {
      assert rest[1..] == [extra];
      assert UniqFrom(rest, Names(once)) == UniqFrom([extra], Names(once));
    }
  }

  // ---------------------------------------------------------------------------
  // The constructs

  /** The rules handed to the web ACL: `wafRules.map(r => r.rule)`. */
  function Properties(rules: seq<WafRule>): (r: seq<RuleProperty>)
    ensures |r| == |rules| && forall i :: 0 <= i < |r| ==> r[i] == rules[i].rule
  {
    seq(|rules|, i requires 0 <= i < |rules| => rules[i].rule)
  }

  /** What the web ACL does with a request no rule matches. */
  datatype DefaultAction = DefaultAllow | DefaultBlock

  /** A body a blocking rule can answer with, looked up by its key. */
  datatype ResponseBody = ResponseBody(contentType: string, content: string)

  /** The ACL's `customResponseBodies`: the one `response` body the IP filter names. */
  const ResponseBodies: map<string, ResponseBody> :=
    map["response" := ResponseBody("TEXT_HTML", "<div> Access denied </div>")]

  datatype WebAcl = WebAcl(name: string, scope: string, defaultAction: DefaultAction, visibility: Visibility,
                           customResponseBodies: map<string, ResponseBody>, rules: seq<RuleProperty>)

  /** Every rule that blocks with a custom response names a body the ACL declares. */
  predicate BodiesDeclared(rules: seq<WafRule>, bodies: map<string, ResponseBody>)
  {
    forall r :: r in rules && r.rule.action.BlockWithResponse? ==> r.rule.action.customResponseBodyKey in bodies
  }

  /** `uniqBy` only drops entries: whatever it keeps was in its input. */
  lemma {:induction false} UniqFromMembers(rules: seq<WafRule>, seen: set<string>, x: WafRule)
    requires x in UniqFrom(rules, seen)
    ensures x in rules
    decreases |rules|
  {
    if rules[0].name in seen {
      UniqFromMembers(rules[1..], seen, x);
    } else if x != rules[0] {
      UniqFromMembers(rules[1..], seen + {rules[0].name}, x);
    }
  }

  /**
   * A construction keeps every custom response resolvable: when the list and
   * the extra rules only name declared bodies, so does the extended list, the
   * IP filter's `response` included.
   */
  lemma ExtendedBodiesDeclared(rules: seq<WafRule>, ipSetArn: Option<string>, extraRules: Option<seq<WafRule>>)
    requires BodiesDeclared(rules, ResponseBodies)
    requires extraRules.Some? ==> BodiesDeclared(extraRules.value, ResponseBodies)
    ensures BodiesDeclared(Extended(rules, ipSetArn, extraRules), ResponseBodies)
  {
    var merged := if extraRules.Some? && extraRules.value != [] then UniqByName(rules + extraRules.value) else rules;
    forall x | x in merged
      ensures x in rules || (extraRules.Some? && x in extraRules.value)
    {
      if extraRules.Some? && extraRules.value != [] {
        UniqFromMembers(rules + extraRules.value, {}, x);
      }
    }
    assert "response" in ResponseBodies;
  }

  /** The base rules block without a custom response, so they name no body. */
  lemma BaseRulesDeclared()
    ensures BodiesDeclared(BaseRules, ResponseBodies)
  {
    forall r | r in BaseRules ensures !r.rule.action.BlockWithResponse? {
    }
  }

  datatype IpSet = IpSet(name: string, addresses: seq<string>, ipAddressVersion: string, scope: string)

  datatype Association = Association(resourceArn: string, webAclArn: string)

  /** The props of `Waf`; an absent `useCloudFront` is `false`. */
  datatype WafProps = WafProps(useCloudFront: bool, webACLResourceArn: Option<string>,
                               extraRules: Option<seq<WafRule>>, allowedIps: seq<string>)

  /** What a `Waf` construction declares. */
  datatype Deployment = Deployment(scope: string, ipSet: Option<IpSet>, webAcl: WebAcl, association: Option<Association>)

  /**
   * `new WAF(scope, id, ipset, distScope, extraRules)`: extends the shared
   * list, then declares a web ACL over all of it.
   */
  method NewWebAcl(registry: RuleRegistry, id: string, ipSetArn: Option<string>, distScope: string,
                   extraRules: Option<seq<WafRule>>) returns (acl: WebAcl)
    modifies registry
    ensures registry.rules == Extended(old(registry.rules), ipSetArn, extraRules)
    ensures acl == WebAcl(id + "-waf", distScope, DefaultAllow, Visibility(false, true, id + "-metric"),
                          ResponseBodies, Properties(registry.rules))
  {
    registry.Extend(ipSetArn, extraRules);
    acl := WebAcl(id + "-waf", distScope, DefaultAllow, Visibility(false, true, id + "-metric"),
                  ResponseBodies, Properties(registry.rules));
  }

  /** The construct id `Waf` gives its web ACL. */
  function AclId(id: string): string
  {
    id + "-WAFv2"
  }

  /**
   * `new Waf(scope, id, props)`. The ARNs CloudFormation assigns to the IP set
   * and to the web ACL are inputs: the construct only passes them on.
   */
  method NewWaf(registry: RuleRegistry, id: string, props: WafProps, ipSetArn: string, webAclArn: string)
    returns (d: Deployment)
    modifies registry
    ensures d.scope == "CLOUDFRONT" <==> props.useCloudFront
    ensures d.scope == "REGIONAL" <==> !props.useCloudFront
    ensures d.ipSet.Some? <==> props.allowedIps != []
    ensures d.ipSet.Some? ==> d.ipSet.value == IpSet(id + "-webapp-ip-list", props.allowedIps, "IPV4", d.scope)
    ensures d.association.Some? <==> !props.useCloudFront && Present(props.webACLResourceArn)
    ensures d.association.Some? ==> d.association.value == Association(props.webACLResourceArn.value, webAclArn)
    ensures registry.rules ==
              Extended(old(registry.rules), if d.ipSet.Some? then Some(ipSetArn) else None, props.extraRules)
    ensures d.webAcl == WebAcl(AclId(id) + "-waf", d.scope, DefaultAllow, Visibility(false, true, AclId(id) + "-metric"),
                               ResponseBodies, Properties(registry.rules))
  {
    var distScope := if props.useCloudFront then "CLOUDFRONT" else "REGIONAL";
    var ipSet: Option<IpSet> := None;
    if props.allowedIps != [] {
      ipSet := Some(IpSet(id + "-webapp-ip-list", props.allowedIps, "IPV4", distScope));
    }
    var acl := NewWebAcl(registry, AclId(id), if ipSet.Some? then Some(ipSetArn) else None,
                         distScope, props.extraRules);
    var association: Option<Association> := None;
    if !props.useCloudFront && Present(props.webACLResourceArn) {
      association := Some(Association(props.webACLResourceArn.value, webAclArn));
    }
    d := Deployment(distScope, ipSet, acl, association);
  }
}
