/**
 * The GraphQL resolver wiring: `addResolver` creates one resolver per entry
 * of a resolver table on a Lambda data source, with a request template named
 * by the entry and the shared default response template. The three tables
 * are included as data, with the data source each is attached to.
 */
module ResolverWiring {
  import opened Wrappers
  import opened Text
  import ListOmicsJob
  import MutationOmics
  import ManipulationEcr

  /** One entry of a resolver table (`resolverSet`). */
  datatype ResolverSet = ResolverSet(typeName: string, field: string, requestTemplate: string,
                                     responseTemplate: Option<string>, templatesBase: Option<string>)

  /** The props of `createResolver`; a mapping template is named by the file it is read from. */
  datatype ResolverConfig = ResolverConfig(typeName: string, fieldName: string,
                                           requestMappingTemplate: string, responseMappingTemplate: string)

  /** A resolver created on a data source, under its construct id. */
  datatype Resolver = Resolver(id: string, config: ResolverConfig)

  const TemplatePath: string := "./api/graphql/resolvers"

  const ResponseTemplateFile: string := TemplatePath + "/responses/default.vtl"

  function RequestTemplateFile(requestTemplate: string): string
  {
    TemplatePath + "/requests/" + requestTemplate
  }

  /** The config built for one entry: its type and field, its request template, and the default response template. */
  function ConfigOf(entry: ResolverSet): (c: ResolverConfig)
    ensures c.responseMappingTemplate == ResponseTemplateFile
  {
    ResolverConfig(entry.typeName, entry.field, RequestTemplateFile(entry.requestTemplate), ResponseTemplateFile)
  }

  /** The construct id `${index}-${field}`. */
  function ResolverId(index: nat, field: string): string
  {
    IntToString(index) + "-" + field
  }

  /** The resolvers `addResolver` creates for a table, in creation order. */
  function Resolvers(table: seq<ResolverSet>): seq<Resolver>
    decreases |table|
  {
    if table == [] then []
    else
      var n := |table| - 1;
      Resolvers(table[..n]) + [Resolver(ResolverId(n, table[n].field), ConfigOf(table[n]))]
  }

  /** A Lambda data source and the resolvers created on it so far. */
  class DataSource {
    var resolvers: seq<Resolver>

    constructor()
      ensures resolvers == []
    {
      resolvers := [];
    }

    /** `createResolver(id, config)`. */
    method CreateResolver(id: string, config: ResolverConfig)
      modifies this
      ensures resolvers == old(resolvers) + [Resolver(id, config)]
    {
      resolvers := resolvers + [Resolver(id, config)];
    }
  }

  /** `addResolver(datasource, resolverConfig)`: `map` used as a loop, one `createResolver` per entry. */
  method AddResolver(datasource: DataSource, table: seq<ResolverSet>)
    modifies datasource
    ensures datasource.resolvers == old(datasource.resolvers) + Resolvers(table)
  {
    var i := 0;
    while i < |table|
      invariant 0 <= i <= |table|
      invariant datasource.resolvers == old(datasource.resolvers) + Resolvers(table[..i])
    {
      assert table[..i + 1][..i] == table[..i];
      datasource.CreateResolver(ResolverId(i, table[i].field), ConfigOf(table[i]));
      i := i + 1;
    }
    assert table[..i] == table;
  }

  /**
   * Exactly one resolver per entry, in table order: the i-th has id
   * `${i}-${field}`, copies the entry's type and field, reads the entry's
   * request template, and ignores any response template the entry names.
   */
  lemma {:induction false} ResolversPerEntry(table: seq<ResolverSet>)
    ensures |Resolvers(table)| == |table|
    ensures forall i :: 0 <= i < |table| ==>
              Resolvers(table)[i].id == ResolverId(i, table[i].field) &&
              Resolvers(table)[i].config.typeName == table[i].typeName &&
              Resolvers(table)[i].config.fieldName == table[i].field &&
              Resolvers(table)[i].config.requestMappingTemplate == TemplatePath + "/requests/" + table[i].requestTemplate &&
              Resolvers(table)[i].config.responseMappingTemplate == TemplatePath + "/responses/default.vtl"
    decreases |table|
  {
    if table != [] {
      var n := |table| - 1;
      ResolversPerEntry(table[..n]);
      forall i | 0 <= i < n ensures table[..n][i] == table[i] { }
    }
  }

  // Construct ids

  /** The position of the first `-` in `s`, or `|s|`. */
  function FirstDash(s: string): (k: nat)
    ensures k <= |s|
  {
    if s == [] || s[0] == '-' then 0 else 1 + FirstDash(s[1..])
  }

  lemma {:induction false} FirstDashAfter(p: string, x: string)
    requires forall i :: 0 <= i < |p| ==> p[i] != '-'
    requires x != [] && x[0] == '-'
    ensures FirstDash(p + x) == |p|
  {
    if p != [] {
      assert (p + x)[1..] == p[1..] + x;
      FirstDashAfter(p[1..], x);
    }
  }

  /** A numeral has no dash, so the first dash after it marks where it ends. */
  lemma NumeralEnds(n: nat, x: string)
    requires x != [] && x[0] == '-'
    ensures FirstDash(DecimalString(n) + x) == |DecimalString(n)|
  {
    var d := DecimalString(n);
    forall k | 0 <= k < |d| ensures d[k] != '-' {
      assert '0' <= d[k] <= '9';
    }
    FirstDashAfter(d, x);
  }

  /** Two strings cut at their first dash agree on both sides of it. */
  lemma SplitAtDash(p: string, x: string, q: string, y: string)
    requires FirstDash(p + x) == |p| && FirstDash(q + y) == |q| && p + x == q + y
    ensures p == q && x == y
  {
    var s := p + x;
    assert p == s[..|p|] && x == s[|p|..];
    assert q == s[..|q|] && y == s[|q|..];
  }

  /** A construct id is the numeral of its index, a dash, and its field. */
  lemma ResolverIdParts(i: nat, f: string)
    ensures ResolverId(i, f) == DecimalString(i) + (['-'] + f)
    ensures FirstDash(ResolverId(i, f)) == |DecimalString(i)|
  {
    assert IntToString(i) == DecimalString(i);
    NumeralEnds(i, ['-'] + f);
  }

  /** A construct id names its index and its field: different pairs give different ids. */
  lemma ResolverIdInjective(i: nat, f: string, j: nat, g: string)
    requires ResolverId(i, f) == ResolverId(j, g)
    ensures i == j && f == g
  {
    var x, y := ['-'] + f, ['-'] + g;
    ResolverIdParts(i, f);
    ResolverIdParts(j, g);
    SplitAtDash(DecimalString(i), x, DecimalString(j), y);
    DecimalInjective(i, j);
    assert f == x[1..] && g == y[1..];
  }

  /** Within one table the construct ids never clash, whatever its fields. */
  lemma ResolverIdsDistinct(table: seq<ResolverSet>)
    ensures forall i, j :: 0 <= i < j < |Resolvers(table)| ==> Resolvers(table)[i].id != Resolvers(table)[j].id
  {
    ResolversPerEntry(table);
    forall i, j | 0 <= i < j < |Resolvers(table)|
      ensures Resolvers(table)[i].id != Resolvers(table)[j].id
    {
      if Resolvers(table)[i].id == Resolvers(table)[j].id {
        ResolverIdInjective(i, table[i].field, j, table[j].field);
      }
    }
  }

  // ---------------------------------------------------------------------------
  // The tables and their data sources

  function Entry(field: string, typeName: string): ResolverSet
  {
    ResolverSet(typeName, field, field + ".vtl", None, None)
  }

  /** `resolvers`, attached to the data source of `listOmicsJob`. */
  const QueryResolvers: seq<ResolverSet> := [
    Entry("getListWorkflow", "Query"),
    Entry("getListRunTasks", "Query"),
    Entry("getListRunCommand", "Query"),
    Entry("getListRunDetails", "Query"),
    Entry("getRunCommand", "Query"),
    Entry("getWorkflowCommand", "Query")
  ]

  /** `mutationResolvers`, attached to the data source of `mutationOmics`. */
  const MutationResolvers: seq<ResolverSet> := [
    Entry("startRunCommand", "Mutation"),
    Entry("createWorkflowCommand", "Mutation")
  ]

  /** `ecrResolvers`, attached to the data source of `manipulationEcr`. */
  const EcrResolvers: seq<ResolverSet> := [
    Entry("describeRepositoriesCommand", "Query"),
    Entry("createRepositoryCommand", "Mutation")
  ]

  function FieldsOf(table: seq<ResolverSet>): set<string>
  {
    set e | e in table :: e.field
  }

  /**
   * Each table routes exactly the fields its Lambda's dispatcher has a case
   * for, so no resolved field falls through to the dispatcher's default.
   */
  lemma TablesMatchDispatchers()
    ensures FieldsOf(QueryResolvers) == set f | f in ListOmicsJob.Fields
    ensures FieldsOf(MutationResolvers) == MutationOmics.Fields
    ensures FieldsOf(EcrResolvers) == ManipulationEcr.Fields
  {
    assert FieldsOf(MutationResolvers) == {MutationResolvers[0].field, MutationResolvers[1].field};
    assert FieldsOf(EcrResolvers) == {EcrResolvers[0].field, EcrResolvers[1].field};
    assert FieldsOf(QueryResolvers) == set i | 0 <= i < 6 :: QueryResolvers[i].field;
  }

  /** No two resolvers of `rs` share a construct id. */
  predicate IdsDistinct(rs: seq<Resolver>)
  {
    forall i, j :: 0 <= i < j < |rs| ==> rs[i].id != rs[j].id
  }

  /** Tables with no field in common create resolvers with no id in common. */
  lemma CrossTableIds(a: seq<ResolverSet>, b: seq<ResolverSet>)
    requires FieldsOf(a) !! FieldsOf(b)
    ensures forall x, y :: x in Resolvers(a) && y in Resolvers(b) ==> x.id != y.id
  {
    ResolversPerEntry(a);
    ResolversPerEntry(b);
    forall x, y | x in Resolvers(a) && y in Resolvers(b) ensures x.id != y.id {
      var i :| 0 <= i < |Resolvers(a)| && Resolvers(a)[i] == x;
      var j :| 0 <= j < |Resolvers(b)| && Resolvers(b)[j] == y;
      assert a[i].field in FieldsOf(a) && b[j].field in FieldsOf(b);
      if x.id == y.id {
        ResolverIdInjective(i, a[i].field, j, b[j].field);
      }
    }
  }

  lemma ConcatIdsDistinct(r1: seq<Resolver>, r2: seq<Resolver>)
    requires IdsDistinct(r1) && IdsDistinct(r2)
    requires forall x, y :: x in r1 && y in r2 ==> x.id != y.id
    ensures IdsDistinct(r1 + r2)
  {
    forall i, j | 0 <= i < j < |r1 + r2| ensures (r1 + r2)[i].id != (r1 + r2)[j].id {
      if j < |r1| {
        assert (r1 + r2)[i] == r1[i] && (r1 + r2)[j] == r1[j];
      } else if i >= |r1| {
        assert (r1 + r2)[i] == r2[i - |r1|] && (r1 + r2)[j] == r2[j - |r1|];
      } else {
        assert (r1 + r2)[i] in r1 && (r1 + r2)[j] in r2;
      }
    }
  }

  /**
   * The three data sources create their resolvers in the same API, so the
   * construct ids share one scope: across the three tables they still never
   * clash.
   */
  lemma ApiResolverIdsDistinct()
    ensures var all := Resolvers(QueryResolvers) + Resolvers(MutationResolvers) + Resolvers(EcrResolvers);
            forall a, b :: 0 <= a < b < |all| ==> all[a].id != all[b].id
  {
    TablesMatchDispatchers();
    ResolverIdsDistinct(QueryResolvers);
    ResolverIdsDistinct(MutationResolvers);
    ResolverIdsDistinct(EcrResolvers);
    CrossTableIds(QueryResolvers, MutationResolvers);
    CrossTableIds(QueryResolvers, EcrResolvers);
    CrossTableIds(MutationResolvers, EcrResolvers);
    ConcatIdsDistinct(Resolvers(QueryResolvers), Resolvers(MutationResolvers));
    ConcatIdsDistinct(Resolvers(QueryResolvers) + Resolvers(MutationResolvers), Resolvers(EcrResolvers));
  }
}
