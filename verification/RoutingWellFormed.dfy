/** Which configurations are well-formed, told from the statements that can be
    reached in the reference graph. */
module RoutingWellFormed {
  import opened RoutingInstructions
  import opened RoutingRules
  import opened RoutingPolicies
  import opened RoutingDemand
  import opened RoutingAcceptance
  import opened RoutingGraph

  predicate FilterOk(filter: seq<Clause>) {
    filter != [] && forall c <- filter :: c.tests != []
  }

  // Routes go to defined outbounds; connectivity of built-in ones is never in
  // question. Flow rules do anything but route.
  predicate RuleOk(kind: Kind, outbounds: set<nat>, rule: SourceRule) {
    && FilterOk(rule.filter)
    && match rule.action
       case ToOutbound(t) =>
         kind == RouteSet && t.outbound in outbounds && (t.skipNoalive ==> t.outbound != DIRECT && t.outbound != BLOCK)
       case _ => kind == FlowSet
  }

  predicate StatementOk(kind: Kind, outbounds: set<nat>, sets: RuleSets, s: Statement) {
    match s
    case RuleStatement(rule) => RuleOk(kind, outbounds, rule)
    case UseStatement(name, condition) =>
      name in sets && (forall c <- condition :: c.tests != []) && Tests(condition) <= MAX_MATCH_SETS
  }

  // Along a chain of references.
  ghost predicate ReachedOk(kind: Kind, outbounds: set<nat>, sets: RuleSets, block: seq<Statement>, path: seq<string>) {
    Chain(sets, block, path) ==> forall s <- End(sets, block, path) :: StatementOk(kind, outbounds, sets, s)
  }

  ghost predicate BlockOk(kind: Kind, outbounds: set<nat>, sets: RuleSets, block: seq<Statement>) {
    forall path: seq<string> :: ReachedOk(kind, outbounds, sets, block, path)
  }

  predicate RoutesOk(outbounds: set<nat>, rules: seq<SourceRule>) {
    forall r <- rules :: RuleOk(RouteSet, outbounds, r)
  }

  predicate SharedOk(outbounds: set<nat>, shared: SharedRules) {
    && RoutesOk(outbounds, shared.bypass) && RoutesOk(outbounds, shared.early) && RoutesOk(outbounds, shared.late)
    && (forall d <- shared.destinations :: FilterOk(d.filter))
    && (forall f <- shared.request :: FilterOk(f)) && (forall f <- shared.http :: FilterOk(f))
  }

  ghost predicate PolicyOk(outbounds: set<nat>, sets: RuleSets, policy: Policy) {
    && BlockOk(FlowSet, outbounds, sets, policy.rules) && BlockOk(RouteSet, outbounds, sets, policy.statements)
    && policy.fallback.outbound in outbounds && !policy.fallback.skipNoalive
  }

  ghost predicate WellFormed(outbounds: set<nat>, sets: RuleSets, shared: SharedRules, policies: seq<Policy>) {
    SharedOk(outbounds, shared) && forall p <- policies :: PolicyOk(outbounds, sets, p)
  }

  // ------ Statements ------

  lemma {:induction false} RuleIff(kind: Kind, outbounds: set<nat>, rule: SourceRule)
    ensures Accepts(kind, outbounds, rule) <==> RuleOk(kind, outbounds, rule)
  {
    FilterIff(rule.filter);
  }

  lemma {:induction false} FilterIff(filter: seq<Clause>)
    ensures Filtered(filter) <==> FilterOk(filter)
  {
  }

  lemma {:induction false} RulesIff(outbounds: set<nat>, rules: seq<SourceRule>)
    ensures RoutesSane(outbounds, rules) <==> RoutesOk(outbounds, rules)
  {
    if rules != [] {
      var front, last := rules[..|rules| - 1], rules[|rules| - 1];
      assert rules == front + [last];
      RulesIff(outbounds, front);
      RuleIff(RouteSet, outbounds, last);
    }
  }

  lemma {:induction false} FiltersIff(filters: seq<seq<Clause>>)
    ensures AllFiltered(filters) <==> forall f <- filters :: FilterOk(f)
  {
    forall f <- filters
      ensures Filtered(f) <==> FilterOk(f)
    {
      FilterIff(f);
    }
  }

  lemma {:induction false} SharedIff(outbounds: set<nat>, shared: SharedRules)
    ensures SharedDemand(outbounds, shared).sane <==> SharedOk(outbounds, shared)
  {
    RulesIff(outbounds, shared.bypass);
    RulesIff(outbounds, shared.early);
    RulesIff(outbounds, shared.late);
    FiltersIff(shared.request);
    FiltersIff(shared.http);
    FiltersIff(Filters(shared.destinations));
    DestinationFilters(shared.destinations);
  }

  lemma {:induction false} DestinationFilters(rules: seq<DestinationRule>)
    ensures (forall f <- Filters(rules) :: FilterOk(f)) <==> forall d <- rules :: FilterOk(d.filter)
  {
    forall d <- rules
      ensures d.filter in Filters(rules)
    {
      var k :| 0 <= k < |rules| && rules[k] == d;
      assert Filters(rules)[k] == d.filter;
    }
  }

  // A statement list is well-formed if its own statements are and so is every
  // block it refers to.
  ghost predicate HereOk(kind: Kind, outbounds: set<nat>, sets: RuleSets, block: seq<Statement>) {
    forall s <- block :: StatementOk(kind, outbounds, sets, s)
      && (s.UseStatement? && s.name in sets ==> BlockOk(kind, outbounds, sets, sets[s.name]))
  }

  lemma {:induction false} BlockOkHere(kind: Kind, outbounds: set<nat>, sets: RuleSets, block: seq<Statement>)
    ensures BlockOk(kind, outbounds, sets, block) <==> HereOk(kind, outbounds, sets, block)
  {
    if BlockOk(kind, outbounds, sets, block) {
      assert ReachedOk(kind, outbounds, sets, block, []);
      forall s <- block | s.UseStatement? && s.name in sets
        ensures BlockOk(kind, outbounds, sets, sets[s.name])
      {
        forall path: seq<string>
          ensures ReachedOk(kind, outbounds, sets, sets[s.name], path)
        {
          assert ReachedOk(kind, outbounds, sets, block, [s.name] + path);
          assert ([s.name] + path)[1..] == path && Uses(block, s.name);
        }
      }
    }
    if HereOk(kind, outbounds, sets, block) {
      forall path: seq<string>
        ensures ReachedOk(kind, outbounds, sets, block, path)
      {
        if path != [] && Chain(sets, block, path) {
          var s :| s in block && s.UseStatement? && s.name == path[0];
          assert ReachedOk(kind, outbounds, sets, sets[s.name], path[1..]);
        }
      }
    }
  }

  // The demand of statements is sane if and only if whatever they reach is.
  lemma {:induction false} StatementsIff(kind: Kind, outbounds: set<nat>, sets: RuleSets, rank: Ranks, bound: nat,
                                         statements: seq<Statement>)
    requires Ranked(sets, rank) && Below(sets, rank, statements, bound)
    ensures StatementsDemand(kind, outbounds, sets, rank, bound, statements).sane
      <==> BlockOk(kind, outbounds, sets, statements)
    decreases bound, |statements|
  {
    BlockOkHere(kind, outbounds, sets, statements);
    if statements != [] {
      var front, last := statements[..|statements| - 1], statements[|statements| - 1];
      assert statements == front + [last];
      assert last in statements && forall s <- front :: s in statements;
      StatementsIff(kind, outbounds, sets, rank, bound, front);
      BlockOkHere(kind, outbounds, sets, front);
      StatementIff(kind, outbounds, sets, rank, bound, last);
    }
  }

  lemma {:induction false} StatementIff(kind: Kind, outbounds: set<nat>, sets: RuleSets, rank: Ranks, bound: nat,
                                        s: Statement)
    requires Ranked(sets, rank) && Below(sets, rank, [s], bound)
    ensures StatementDemand(kind, outbounds, sets, rank, bound, s).sane
      <==> HereOk(kind, outbounds, sets, [s])
    decreases bound, 0
  {
    assert s in [s];
    match s
    case RuleStatement(rule) => RuleIff(kind, outbounds, rule);
    case UseStatement(name, condition) =>
      if name in sets {
        StatementsIff(kind, outbounds, sets, rank, rank[name], sets[name]);
      }
  }

  lemma {:induction false} SetIff(kind: Kind, outbounds: set<nat>, sets: RuleSets, rank: Ranks, name: string)
    requires Ranked(sets, rank) && name in sets
    ensures UseDemand(kind, outbounds, sets, rank, name, []).sane <==> BlockOk(kind, outbounds, sets, sets[name])
  {
    StatementsIff(kind, outbounds, sets, rank, rank[name], sets[name]);
  }

  // ------ Configurations ------

  lemma {:induction false} AskedIff(s: Setting, policies: seq<Policy>)
    requires s.Resolvable()
    ensures Asked(s, policies).sane <==>
      && SharedOk(s.context.outbounds, s.shared)
      && forall p <- policies ::
           && BlockOk(FlowSet, s.context.outbounds, s.context.sets, p.rules)
           && BlockOk(RouteSet, s.context.outbounds, s.context.sets, p.statements)
  {
    var c := s.context;
    if policies == [] {
      SharedIff(c.outbounds, s.shared);
    } else {
      var front, last := policies[..|policies| - 1], policies[|policies| - 1];
      assert policies == front + [last];
      AskedIff(s, front);
      StatementsIff(FlowSet, c.outbounds, c.sets, c.rank, s.bound, last.rules);
      StatementsIff(RouteSet, c.outbounds, c.sets, c.rank, s.bound, last.statements);
    }
  }

  // Every limit of the pool, the cache and the programs.
  ghost predicate WithinLimits(s: Setting, policies: seq<Policy>)
    requires s.Resolvable()
  {
    && PoolSize(s, policies) <= MAX_MATCH_SETS && |Asked(s, policies).variants| <= MAX_MATCH_SETS
    && forall p <- policies :: s.Length(p) <= MAX_MATCH_SETS
  }

  // What the compiler accepts: well-formed configurations within the limits.
  lemma {:induction false} AcceptableIff(s: Setting, policies: seq<Policy>)
    requires s.Resolvable()
    ensures Acceptable(s, policies)
      <==> WellFormed(s.context.outbounds, s.context.sets, s.shared, policies) && WithinLimits(s, policies)
  {
    AskedIff(s, policies);
    forall p <- policies
      ensures s.Sane(p) <==>
        && p.fallback.outbound in s.context.outbounds && !p.fallback.skipNoalive
        && s.Length(p) <= MAX_MATCH_SETS
    {
    }
  }
}
