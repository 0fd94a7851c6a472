/** Memoized compilation of policies into profiles over the shared pool. */
module RoutingCompiler {
  import opened Common
  import opened RoutingInstructions
  import opened RoutingSpans
  import opened RoutingJumps
  import opened RoutingRules
  import opened RoutingEmission
  import opened RoutingPolicies
  import opened RoutingDemand
  import opened RoutingFragments
  import opened RoutingBuilder

  type Fragment = seq<DestinationRule>

  datatype Block = Block(routes: seq<Span>, captures: seq<Span>, controls: seq<Span>, destinations: seq<Fragment>)

  const EMPTY := Block([], [], [], [])

  function Joined(fragments: seq<Fragment>): seq<DestinationRule> {
    if fragments == [] then [] else fragments[0] + Joined(fragments[1..])
  }

  // What a compiled block stands for.
  datatype Meaning = Meaning(routes: seq<Node>, captures: seq<Node>, controls: seq<Node>,
                             destinations: seq<DestinationRule>)
  {
    function Plus(other: Meaning): Meaning {
      Meaning(routes + other.routes, captures + other.captures, controls + other.controls,
              destinations + other.destinations)
    }
  }

  ghost function OfStatements(sets: RuleSets, rank: Ranks, bound: nat, statements: seq<Statement>): Meaning
    requires Ranked(sets, rank) && Below(sets, rank, statements, bound)
  {
    Meaning(Resolve(Routes, sets, rank, bound, statements), Resolve(Captures, sets, rank, bound, statements),
            Resolve(Controls, sets, rank, bound, statements), Destinations(sets, rank, bound, statements))
  }

  ghost function OfUse(sets: RuleSets, rank: Ranks, name: string, condition: seq<Clause>): Meaning
    requires Ranked(sets, rank) && name in sets
  {
    Under(condition, OfStatements(sets, rank, rank[name], sets[name]))
  }

  function Under(condition: seq<Clause>, m: Meaning): Meaning {
    Meaning([Scope(condition, m.routes)], [Scope(condition, m.captures)], [Scope(condition, m.controls)],
            Conditioned(condition, m.destinations))
  }

  function OfRules(rules: seq<SourceRule>): Meaning {
    Meaning(Leaves(Routes, rules), Leaves(Captures, rules), Leaves(Controls, rules), DestinationsIn(rules))
  }

  ghost predicate BlockMeans(pool: seq<Instr>, block: Block, kind: Kind, m: Meaning) {
    match kind
    case RouteSet => Means(pool, block.routes, RoutePhase, m.routes) && block == EMPTY.(routes := block.routes)
    case FlowSet =>
      && Means(pool, block.captures, IngressPhase, m.captures)
      && Means(pool, block.controls, FlowPhase, m.controls)
      && Joined(block.destinations) == m.destinations
      && block.routes == []
  }

  // Every span list of a block is short enough.
  ghost predicate Fits(kind: Kind, m: Meaning) {
    match kind
    case RouteSet => NodesLength(m.routes) <= MAX_MATCH_SETS
    case FlowSet => NodesLength(m.captures) <= MAX_MATCH_SETS && NodesLength(m.controls) <= MAX_MATCH_SETS
  }

  lemma {:induction false} SpansLength(pool: seq<Instr>, spans: seq<Span>, phase: Phase, nodes: seq<Node>)
    requires Means(pool, spans, phase, nodes)
    ensures ExecutionLength(spans) == NodesLength(nodes)
  {
    FlattenLength(pool, spans);
    EmittedLength(nodes);
  }

  lemma {:induction false} FitsPlus(kind: Kind, m: Meaning, n: Meaning)
    ensures Fits(kind, m.Plus(n)) ==> Fits(kind, m) && Fits(kind, n)
  {
    PlusLengths(m, n);
  }

  // What comes first is due and fits if all does.
  lemma {:induction false} UseDue(kind: Kind, m: Meaning, n: Meaning, before: Store, d: Demand, e: Demand)
    ensures Due(before, d.Plus(e)) && Fits(kind, m.Plus(n)) ==> Due(before, d) && Fits(kind, m)
  {
    FitsPlus(kind, m, n);
    if Due(before, d.Plus(e)) {
      DueFirst(before, d, e);
    }
  }

  lemma {:induction false} FitsUnder(kind: Kind, condition: seq<Clause>, m: Meaning)
    ensures Fits(kind, Under(condition, m)) ==> Fits(kind, m)
    ensures condition == [] ==> (Fits(kind, Under(condition, m)) <==> Fits(kind, m))
  {
    UnderLengths(condition, m);
  }

  lemma {:induction false} UnderLengths(condition: seq<Clause>, m: Meaning)
    ensures NodesLength(Under(condition, m).routes)
      == EntryLength(condition, NodesLength(m.routes)) + NodesLength(m.routes)
    ensures NodesLength(Under(condition, m).captures)
      == EntryLength(condition, NodesLength(m.captures)) + NodesLength(m.captures)
    ensures NodesLength(Under(condition, m).controls)
      == EntryLength(condition, NodesLength(m.controls)) + NodesLength(m.controls)
  {
    LengthOne(Scope(condition, m.routes));
    LengthOne(Scope(condition, m.captures));
    LengthOne(Scope(condition, m.controls));
  }

  // The entries of a conditioned block.
  ghost function Entered(kind: Kind, condition: seq<Clause>, m: Meaning): nat {
    match kind
    case RouteSet => EntryLength(condition, NodesLength(m.routes))
    case FlowSet => EntryLength(condition, NodesLength(m.captures)) + EntryLength(condition, NodesLength(m.controls))
  }

  lemma {:induction false} NothingMet(store: Store, d: Demand)
    requires d.sane && d.weight == 0 && d.variants == {}
    ensures Met(store, d, store)
  {
    MetRules(store, d, store);
  }

  // Rules alone use no variants.
  lemma {:induction false} MetRules(before: Store, d: Demand, after: Store)
    requires d.sane && d.variants == {} && after == before.(rules := after.rules)
      && |after.rules| == |before.rules| + d.weight
    requires Encodable(before.rules) ==> Encodable(after.rules)
    ensures Met(before, d, after)
  {
    assert before.variants + {} == before.variants && {} - before.variants == {};
  }

  // A block stands for a well-formed use that fits, and what it uses is there.
  ghost predicate Cached(pool: seq<Instr>, block: Block, key: Key, outbounds: set<nat>, sets: RuleSets, rank: Ranks,
                         keys: set<Key>)
    requires Ranked(sets, rank)
  {
    && key.name in sets
    && BlockMeans(pool, block, key.kind, OfUse(sets, rank, key.name, key.condition))
    && Fits(key.kind, OfUse(sets, rank, key.name, key.condition))
    && Warranted(UseDemand(key.kind, outbounds, sets, rank, key.name, key.condition), keys)
  }

  ghost predicate Warranted(d: Demand, keys: set<Key>) {
    match d
    case Demand(sane, _, variants) => sane && variants <= keys
  }

  ghost predicate CacheHolds(pool: seq<Instr>, cache: map<Key, Block>, outbounds: set<nat>, sets: RuleSets,
                             rank: Ranks)
  {
    && Ranked(sets, rank)
    && forall key :: key in cache ==> Cached(pool, cache[key], key, outbounds, sets, rank, cache.Keys)
  }

  lemma {:induction false} BlockGrows(pool: seq<Instr>, grown: seq<Instr>, block: Block, kind: Kind, m: Meaning)
    requires BlockMeans(pool, block, kind, m) && pool <= grown
    ensures BlockMeans(grown, block, kind, m)
  {
    match kind
    case RouteSet => MeansGrows(pool, grown, block.routes, RoutePhase, m.routes);
    case FlowSet =>
      MeansGrows(pool, grown, block.captures, IngressPhase, m.captures);
      MeansGrows(pool, grown, block.controls, FlowPhase, m.controls);
  }

  lemma {:induction false} CacheGrows(pool: seq<Instr>, grown: seq<Instr>, cache: map<Key, Block>, outbounds: set<nat>,
                                      sets: RuleSets, rank: Ranks)
    requires CacheHolds(pool, cache, outbounds, sets, rank) && pool <= grown
    ensures CacheHolds(grown, cache, outbounds, sets, rank)
  {
    forall key | key in cache
      ensures Cached(grown, cache[key], key, outbounds, sets, rank, cache.Keys)
    {
      assert Cached(pool, cache[key], key, outbounds, sets, rank, cache.Keys);
      BlockGrows(pool, grown, cache[key], key.kind, OfUse(sets, rank, key.name, key.condition));
    }
  }

  lemma {:induction false} CacheAdds(pool: seq<Instr>, cache: map<Key, Block>, outbounds: set<nat>, sets: RuleSets,
                                     rank: Ranks, key: Key, block: Block)
    requires CacheHolds(pool, cache, outbounds, sets, rank)
    requires Cached(pool, block, key, outbounds, sets, rank, cache.Keys + {key})
    ensures CacheHolds(pool, cache[key := block], outbounds, sets, rank)
  {
    var now := cache[key := block];
    assert now.Keys == cache.Keys + {key};
    forall k | k in now
      ensures Cached(pool, now[k], k, outbounds, sets, rank, now.Keys)
    {
      if k != key {
        assert Cached(pool, cache[k], k, outbounds, sets, rank, cache.Keys);
      }
    }
  }

  lemma {:induction false} EmptyMeans(pool: seq<Instr>, kind: Kind)
    ensures BlockMeans(pool, EMPTY, kind, Meaning([], [], [], [])) && Fits(kind, Meaning([], [], [], []))
  {
    assert Tag(EmitNodes([]), RoutePhase) == Tag(EmitNodes([]), IngressPhase) == Tag(EmitNodes([]), FlowPhase) == [];
  }

  lemma {:induction false} JoinedConcat(a: seq<Fragment>, b: seq<Fragment>)
    ensures Joined(a + b) == Joined(a) + Joined(b)
  {
    if a == [] {
      assert a + b == b;
    } else {
      assert (a + b)[1..] == a[1..] + b;
      JoinedConcat(a[1..], b);
    }
  }

  // Statement lists concatenate.

  lemma {:induction false} ResolveSnoc(part: Part, sets: RuleSets, rank: Ranks, bound: nat, statements: seq<Statement>,
                                       s: Statement)
    requires Ranked(sets, rank) && Below(sets, rank, statements, bound) && Below(sets, rank, [s], bound)
    ensures Below(sets, rank, statements + [s], bound)
    ensures Resolve(part, sets, rank, bound, statements + [s])
         == Resolve(part, sets, rank, bound, statements) + ResolveOne(part, sets, rank, bound, s)
    decreases |statements|
  {
    assert s in [s];
    if statements == [] {
      assert [] + [s] == [s] && [s][1..] == [];
    } else {
      assert (statements + [s])[1..] == statements[1..] + [s];
      ResolveSnoc(part, sets, rank, bound, statements[1..], s);
    }
  }

  lemma {:induction false} DestinationsSnoc(sets: RuleSets, rank: Ranks, bound: nat, statements: seq<Statement>,
                                            s: Statement)
    requires Ranked(sets, rank) && Below(sets, rank, statements, bound) && Below(sets, rank, [s], bound)
    ensures Below(sets, rank, statements + [s], bound)
    ensures Destinations(sets, rank, bound, statements + [s])
         == Destinations(sets, rank, bound, statements) + DestinationsOne(sets, rank, bound, s)
    decreases |statements|
  {
    assert s in [s];
    if statements == [] {
      assert [] + [s] == [s] && [s][1..] == [];
    } else {
      assert (statements + [s])[1..] == statements[1..] + [s];
      DestinationsSnoc(sets, rank, bound, statements[1..], s);
    }
  }

  lemma {:induction false} PrefixLength(part: Part, sets: RuleSets, rank: Ranks, bound: nat,
                                        statements: seq<Statement>, k: nat)
    requires Ranked(sets, rank) && Below(sets, rank, statements, bound) && k <= |statements|
    ensures Below(sets, rank, statements[..k], bound)
    ensures NodesLength(Resolve(part, sets, rank, bound, statements[..k]))
      <= NodesLength(Resolve(part, sets, rank, bound, statements))
    decreases |statements| - k
  {
    assert forall s <- statements[..k] :: s in statements;
    if k == |statements| {
      assert statements[..k] == statements;
    } else {
      assert statements[k] in statements;
      assert statements[..k + 1] == statements[..k] + [statements[k]];
      ResolveSnoc(part, sets, rank, bound, statements[..k], statements[k]);
      LengthConcat(Resolve(part, sets, rank, bound, statements[..k]),
                   ResolveOne(part, sets, rank, bound, statements[k]));
      PrefixLength(part, sets, rank, bound, statements, k + 1);
    }
  }

  lemma {:induction false} FitsPrefix(kind: Kind, sets: RuleSets, rank: Ranks, bound: nat, statements: seq<Statement>,
                                      k: nat)
    requires Ranked(sets, rank) && Below(sets, rank, statements, bound) && k <= |statements|
    ensures Below(sets, rank, statements[..k], bound)
    ensures Fits(kind, OfStatements(sets, rank, bound, statements))
      ==> Fits(kind, OfStatements(sets, rank, bound, statements[..k]))
  {
    PrefixLength(Routes, sets, rank, bound, statements, k);
    PrefixLength(Captures, sets, rank, bound, statements, k);
    PrefixLength(Controls, sets, rank, bound, statements, k);
  }

  lemma {:induction false} StatementsSnocUse(sets: RuleSets, rank: Ranks, bound: nat, statements: seq<Statement>,
                                             s: Statement)
    requires Ranked(sets, rank) && Below(sets, rank, statements, bound) && Below(sets, rank, [s], bound)
    requires s.UseStatement? && s.name in sets
    ensures Below(sets, rank, statements + [s], bound)
    ensures OfStatements(sets, rank, bound, statements + [s])
         == OfStatements(sets, rank, bound, statements).Plus(OfUse(sets, rank, s.name, s.condition))
  {
    ResolveSnoc(Routes, sets, rank, bound, statements, s);
    ResolveSnoc(Captures, sets, rank, bound, statements, s);
    ResolveSnoc(Controls, sets, rank, bound, statements, s);
    DestinationsSnoc(sets, rank, bound, statements, s);
  }

  lemma {:induction false} LeavesSnoc(part: Part, rules: seq<SourceRule>, rule: SourceRule)
    ensures Leaves(part, rules + [rule]) == Leaves(part, rules) + LeafOf(part, rule)
  {
    if rules == [] {
      assert [] + [rule] == [rule] && [rule][1..] == [];
    } else {
      assert (rules + [rule])[1..] == rules[1..] + [rule];
      LeavesSnoc(part, rules[1..], rule);
    }
  }

  lemma {:induction false} DestinationsInSnoc(rules: seq<SourceRule>, rule: SourceRule)
    ensures DestinationsIn(rules + [rule]) == DestinationsIn(rules) + DestinationOf(rule)
  {
    if rules == [] {
      assert [] + [rule] == [rule] && [rule][1..] == [];
    } else {
      assert (rules + [rule])[1..] == rules[1..] + [rule];
      DestinationsInSnoc(rules[1..], rule);
    }
  }

  // A pending batch of rules contributes the same as its statements.
  lemma {:induction false} StatementsSnocRule(sets: RuleSets, rank: Ranks, bound: nat, statements: seq<Statement>,
                                              done: Meaning, local: seq<SourceRule>, rule: SourceRule)
    requires Ranked(sets, rank) && Below(sets, rank, statements, bound)
    requires OfStatements(sets, rank, bound, statements) == done.Plus(OfRules(local))
    ensures Below(sets, rank, statements + [RuleStatement(rule)], bound)
    ensures OfStatements(sets, rank, bound, statements + [RuleStatement(rule)]) == done.Plus(OfRules(local + [rule]))
  {
    var s := RuleStatement(rule);
    assert Below(sets, rank, [s], bound);
    ResolveSnoc(Routes, sets, rank, bound, statements, s);
    ResolveSnoc(Captures, sets, rank, bound, statements, s);
    ResolveSnoc(Controls, sets, rank, bound, statements, s);
    DestinationsSnoc(sets, rank, bound, statements, s);
    LeavesSnoc(Routes, local, rule);
    LeavesSnoc(Captures, local, rule);
    LeavesSnoc(Controls, local, rule);
    DestinationsInSnoc(local, rule);
    Associate(done.routes, Leaves(Routes, local), LeafOf(Routes, rule));
    Associate(done.captures, Leaves(Captures, local), LeafOf(Captures, rule));
    Associate(done.controls, Leaves(Controls, local), LeafOf(Controls, rule));
    Associate(done.destinations, DestinationsIn(local), DestinationOf(rule));
  }

  lemma {:induction false} NoLocal(m: Meaning)
    ensures m.Plus(OfRules([])) == m
  {
  }

  lemma {:induction false} LengthInPool(pool: seq<Instr>, spans: seq<Span>)
    requires InPool(pool, spans)
    ensures ExecutionLength(spans) >= 0
  {
    FlattenLength(pool, spans);
  }

  lemma {:induction false} BlockInPool(pool: seq<Instr>, kind: Kind, block: Block, m: Meaning)
    requires BlockMeans(pool, block, kind, m)
    ensures InPool(pool, block.routes) && InPool(pool, block.captures) && InPool(pool, block.controls)
  {
  }

  lemma {:induction false} BlockLengths(pool: seq<Instr>, kind: Kind, block: Block, m: Meaning)
    requires BlockMeans(pool, block, kind, m)
    ensures kind == RouteSet ==>
      ExecutionLength(block.routes) == NodesLength(m.routes)
      && block.captures == block.controls == []
    ensures kind == FlowSet ==> ExecutionLength(block.captures) == NodesLength(m.captures) && block.routes == []
    ensures kind == FlowSet ==> ExecutionLength(block.controls) == NodesLength(m.controls)
  {
    match kind
    case RouteSet => SpansLength(pool, block.routes, RoutePhase, m.routes);
    case FlowSet =>
      SpansLength(pool, block.captures, IngressPhase, m.captures);
      SpansLength(pool, block.controls, FlowPhase, m.controls);
  }

  lemma {:induction false} PlusLengths(m: Meaning, n: Meaning)
    ensures NodesLength(m.Plus(n).routes) == NodesLength(m.routes) + NodesLength(n.routes)
    ensures NodesLength(m.Plus(n).captures) == NodesLength(m.captures) + NodesLength(n.captures)
    ensures NodesLength(m.Plus(n).controls) == NodesLength(m.controls) + NodesLength(n.controls)
  {
    LengthConcat(m.routes, n.routes);
    LengthConcat(m.captures, n.captures);
    LengthConcat(m.controls, n.controls);
  }

  // Appending blocks adds meanings.
  method AppendBlocks(ghost pool: seq<Instr>, kind: Kind, block: Block, other: Block, ghost m: Meaning,
                      ghost n: Meaning)
    returns (fits: bool, result: Block)
    requires BlockMeans(pool, block, kind, m) && BlockMeans(pool, other, kind, n)
    ensures fits ==> BlockMeans(pool, result, kind, m.Plus(n))
    ensures fits <==> Fits(kind, m.Plus(n))
  {
    BlockLengths(pool, kind, block, m);
    BlockLengths(pool, kind, other, n);
    PlusLengths(m, n);
    var routes, captures, controls;
    fits, routes := AppendBlock(block.routes, other.routes);
    if fits {
      fits, captures := AppendBlock(block.captures, other.captures);
    }
    if fits {
      fits, controls := AppendBlock(block.controls, other.controls);
    }
    if !fits {
      return false, EMPTY;
    }
    result := Block(routes, captures, controls, block.destinations + other.destinations);
    JoinedConcat(block.destinations, other.destinations);
    match kind {
      case RouteSet =>
        AppendMeans(pool, block.routes, m.routes, other.routes, n.routes, RoutePhase);
      case FlowSet =>
        AppendMeans(pool, block.captures, m.captures, other.captures, n.captures, IngressPhase);
        AppendMeans(pool, block.controls, m.controls, other.controls, n.controls, FlowPhase);
    }
  }

  lemma {:induction false} StatementsPrefix(statements: seq<Statement>, i: nat)
    requires i < |statements|
    ensures statements[..i + 1] == statements[..i] + [statements[i]]
  {
  }

  lemma {:induction false} AllStatements(statements: seq<Statement>)
    ensures statements[..|statements|] == statements
  {
  }

  class Compiler {
    const builder: Builder
    const sets: RuleSets
    ghost const rank: Ranks
    var cache: map<Key, Block>

    ghost predicate Valid()
      reads this, builder
    {
      && CacheHolds(builder.rules, cache, builder.outbounds, sets, rank)
      && FallbacksHold(builder.rules, builder.fallbacks)
    }

    constructor (outbounds: set<nat>, sets: RuleSets, ghost rank: Ranks)
      requires Ranked(sets, rank)
      ensures Valid() && fresh(builder) && builder.rules == [] && builder.fallbacks == map[]
        && builder.outbounds == outbounds && cache == map[]
      ensures this.sets == sets && this.rank == rank
    {
      builder := new Builder(outbounds);
      this.sets := sets;
      this.rank := rank;
      cache := map[];
    }

    ghost function State(): Store
      reads this, builder
    {
      Store(builder.rules, cache.Keys, Context(builder.outbounds, sets, rank))
    }

    // The pool grew at its end.
    lemma {:induction false} Grown(pool: seq<Instr>)
      requires CacheHolds(pool, cache, builder.outbounds, sets, rank) && FallbacksHold(pool, builder.fallbacks)
        && pool <= builder.rules
      ensures Valid()
    {
      CacheGrows(pool, builder.rules, cache, builder.outbounds, sets, rank);
      FallbacksGrow(pool, builder.rules, builder.fallbacks);
    }

    // Interning a fallback also grew the pool.
    lemma {:induction false} Interned(pool: seq<Instr>)
      requires CacheHolds(pool, cache, builder.outbounds, sets, rank)
        && FallbacksHold(builder.rules, builder.fallbacks) && pool <= builder.rules
      ensures Valid()
    {
      CacheGrows(pool, builder.rules, cache, builder.outbounds, sets, rank);
    }

    // Emits the rules of one part; a rule of another family is refused.
    method EmitBatch(part: Part, rules: seq<SourceRule>) returns (r: Result<Span>)
      requires Valid()
      modifies builder`rules
      ensures Valid() && old(builder.rules) <= builder.rules
      ensures r.Ok? ==> r.value == Span(|old(builder.rules)|, |builder.rules|, PhaseOf(part), false)
      ensures r.Ok? ==> Emitted(part, rules, old(builder.rules), builder.rules)
      ensures r.Ok? <==> AllAccepted(part, builder.outbounds, rules)
    {
      var start := |builder.rules|;
      var i := 0;
      EmittedNothing(part, builder.rules);
      assert rules[..0] == [];
      while i < |rules|
        invariant 0 <= i <= |rules| && old(builder.rules) <= builder.rules
        invariant Emitted(part, rules[..i], old(builder.rules), builder.rules)
        invariant AllAccepted(part, builder.outbounds, rules[..i])
      {
        ghost var before := builder.rules;
        var refused := EmitRule(part, rules[i]);
        assert rules[..i + 1] == rules[..i] + [rules[i]];
        if refused.Some? {
          assert rules[i] in rules;
          Grown(old(builder.rules));
          return Err(refused.value);
        }
        EmittedNext(part, rules[..i], rules[i], old(builder.rules), before, builder.rules);
        i := i + 1;
      }
      assert rules[..|rules|] == rules;
      Grown(old(builder.rules));
      return Ok(Span(start, |builder.rules|, PhaseOf(part), false));
    }

    // A batch as a block of its own.
    method EmitBlock(part: Part, rules: seq<SourceRule>) returns (r: Result<seq<Span>>)
      requires Valid()
      modifies builder`rules
      ensures Valid() && old(builder.rules) <= builder.rules
      ensures r.Ok? ==> Means(builder.rules, r.value, PhaseOf(part), Leaves(part, rules))
      ensures r.Ok? ==> Added(old(builder.rules), builder.rules, PartWeight(part, rules), ExecutionLength(r.value))
      ensures r.Ok? <==> AllAccepted(part, builder.outbounds, rules)
    {
      var batch := EmitBatch(part, rules);
      if batch.Err? {
        return Err(batch.error);
      }
      BatchMeans(old(builder.rules), builder.rules, batch.value, PhaseOf(part), Leaves(part, rules));
      BatchCost(part, rules, old(builder.rules));
      return Ok(AppendSpan([], batch.value));
    }

    method EmitRule(part: Part, rule: SourceRule) returns (refused: Option<CompileError>)
      modifies builder`rules
      ensures old(builder.rules) <= builder.rules
      ensures refused.None? <==> PartAccepts(part, builder.outbounds, rule)
      ensures refused.None? ==>
        NodesFormed(LeafOf(part, rule))
        && builder.rules == old(builder.rules) + EmitNodes(LeafOf(part, rule))
    {
      var effect := EffectIn(part, rule.action);
      if part == Routes && effect.None? {
        return Some(WrongActionFamily);
      }
      if effect.Some? {
        if effect.value.RouteTo? {
          var check := CheckTarget(builder.outbounds, rule.action.target, false);
          if check.Some? {
            return check;
          }
        }
        var ok := builder.ApplyPredicate(rule.filter, TailOf(effect.value));
        if !ok {
          return Some(EmptyPredicate);
        }
      }
      LeafEmission(part, rule);
      return None;
    }

    // One batch of consecutive rules of a rule set or policy.
    method CompileBatch(kind: Kind, rules: seq<SourceRule>) returns (r: Result<Block>)
      requires Valid()
      modifies builder`rules
      ensures Valid() && old(builder.rules) <= builder.rules
      ensures r.Ok? ==> BlockMeans(builder.rules, r.value, kind, OfRules(rules))
      ensures r.Ok? ==>
        Met(old(State()), RulesDemand(kind, builder.outbounds, rules), State())
        && Fits(kind, OfRules(rules))
      ensures Due(old(State()), RulesDemand(kind, builder.outbounds, rules)) ==> r.Ok?
    {
      match kind {
        case RouteSet => r := CompileRoutes(rules);
        case FlowSet => r := CompileFlow(rules);
      }
    }

    method CompileRoutes(rules: seq<SourceRule>) returns (r: Result<Block>)
      requires Valid()
      modifies builder`rules
      ensures Valid() && old(builder.rules) <= builder.rules
      ensures r.Ok? ==> BlockMeans(builder.rules, r.value, RouteSet, OfRules(rules))
      ensures r.Ok? ==>
        Met(old(State()), RulesDemand(RouteSet, builder.outbounds, rules), State())
        && Fits(RouteSet, OfRules(rules))
      ensures Due(old(State()), RulesDemand(RouteSet, builder.outbounds, rules)) ==> r.Ok?
    {
      RoutesDemand(builder.outbounds, rules);
      var routes := EmitBlock(Routes, rules);
      if routes.Err? {
        return Err(routes.error);
      }
      if |builder.rules| > MAX_MATCH_SETS {
        return Err(TooManyMatchSets);
      }
      SpansLength(builder.rules, routes.value, RoutePhase, Leaves(Routes, rules));
      MetRules(old(State()), RulesDemand(RouteSet, builder.outbounds, rules), State());
      return Ok(EMPTY.(routes := routes.value));
    }

    // A flow set becomes two span lists, one per phase, plus its exact rules.
    method CompileFlow(rules: seq<SourceRule>) returns (r: Result<Block>)
      requires Valid()
      modifies builder`rules
      ensures Valid() && old(builder.rules) <= builder.rules
      ensures r.Ok? ==> BlockMeans(builder.rules, r.value, FlowSet, OfRules(rules))
      ensures r.Ok? ==>
        Met(old(State()), RulesDemand(FlowSet, builder.outbounds, rules), State())
        && Fits(FlowSet, OfRules(rules))
      ensures Due(old(State()), RulesDemand(FlowSet, builder.outbounds, rules)) ==> r.Ok?
    {
      FlowDemand(builder.outbounds, rules);
      if !NoRoutes(rules) {
        return Err(WrongActionFamily);
      }
      ghost var pool := builder.rules;
      var parts := CompileParts(rules);
      if parts.Err? {
        return Err(parts.error);
      }
      FlowMeans(builder.rules, parts.value.0, parts.value.1, rules);
      FlowMet(builder.rules, parts.value.0, parts.value.1, rules, old(State()), State());
      return Ok(FlowBlock(parts.value.0, parts.value.1, rules));
    }

    method CompileParts(rules: seq<SourceRule>) returns (r: Result<(seq<Span>, seq<Span>)>)
      requires Valid()
      modifies builder`rules
      ensures Valid() && old(builder.rules) <= builder.rules
      ensures r.Ok? ==>
        Means(builder.rules, r.value.0, IngressPhase, Leaves(Captures, rules))
        && Means(builder.rules, r.value.1, FlowPhase, Leaves(Controls, rules))
      ensures r.Ok? ==> Added(old(builder.rules), builder.rules,
                              PartWeight(Captures, rules) + PartWeight(Controls, rules),
                              ExecutionLength(r.value.0) + ExecutionLength(r.value.1))
      ensures r.Ok? <==> (AllAccepted(Captures, builder.outbounds, rules)
                          && AllAccepted(Controls, builder.outbounds, rules)
                          && |old(builder.rules)| + PartWeight(Captures, rules) + PartWeight(Controls, rules)
                            <= MAX_MATCH_SETS)
    {
      var captures := EmitBlock(Captures, rules);
      if captures.Err? {
        return Err(captures.error);
      }
      if ExecutionLength(captures.value) > MAX_MATCH_SETS {
        return Err(TooManyMatchSets);
      }
      r := CompileControls(captures.value, rules, old(builder.rules));
    }

    // The controls, behind captures already in the pool.
    method CompileControls(captures: seq<Span>, rules: seq<SourceRule>, ghost pool: seq<Instr>)
      returns (r: Result<(seq<Span>, seq<Span>)>)
      requires Valid() && Means(builder.rules, captures, IngressPhase, Leaves(Captures, rules))
      requires Added(pool, builder.rules, PartWeight(Captures, rules), ExecutionLength(captures))
      modifies builder`rules
      ensures Valid() && old(builder.rules) <= builder.rules
      ensures r.Ok? ==>
        Means(builder.rules, r.value.0, IngressPhase, Leaves(Captures, rules))
        && Means(builder.rules, r.value.1, FlowPhase, Leaves(Controls, rules))
      ensures r.Ok? ==> Added(pool, builder.rules, PartWeight(Captures, rules) + PartWeight(Controls, rules),
                              ExecutionLength(r.value.0) + ExecutionLength(r.value.1))
      ensures r.Ok? <==>
        AllAccepted(Controls, builder.outbounds, rules)
        && |old(builder.rules)| + PartWeight(Controls, rules) <= MAX_MATCH_SETS
    {
      ghost var captured := builder.rules;
      var controls := EmitBlock(Controls, rules);
      if controls.Err? {
        return Err(controls.error);
      }
      if |builder.rules| > MAX_MATCH_SETS {
        return Err(TooManyMatchSets);
      }
      MeansGrows(captured, builder.rules, captures, IngressPhase, Leaves(Captures, rules));
      return Ok((captures, controls.value));
    }

    // A use site's condition, with its own entry in each phase.
    method Condition(kind: Kind, body: Block, condition: seq<Clause>, ghost m: Meaning) returns (r: Result<Block>)
      requires Valid() && BlockMeans(builder.rules, body, kind, m)
      modifies builder`rules
      ensures Valid() && old(builder.rules) <= builder.rules
      ensures r.Ok? ==> BlockMeans(builder.rules, r.value, kind, Under(condition, m))
      ensures r.Ok? ==> Met(old(State()), Asks(Guards(condition), Entered(kind, condition, m)), State())
      ensures r.Ok? && condition != [] ==> Fits(kind, Under(condition, m))
      ensures Guards(condition) && Fits(kind, Under(condition, m)) ==> r.Ok?
    {
      match kind {
        case RouteSet => r := ConditionRoutes(body, condition, m);
        case FlowSet => r := ConditionFlow(body, condition, m);
      }
    }

    method ConditionRoutes(body: Block, condition: seq<Clause>, ghost m: Meaning) returns (r: Result<Block>)
      requires Valid() && BlockMeans(builder.rules, body, RouteSet, m)
      modifies builder`rules
      ensures Valid() && old(builder.rules) <= builder.rules
      ensures r.Ok? ==> BlockMeans(builder.rules, r.value, RouteSet, Under(condition, m))
      ensures r.Ok? ==> Met(old(State()), Asks(Guards(condition), Entered(RouteSet, condition, m)), State())
      ensures r.Ok? && condition != [] ==> Fits(RouteSet, Under(condition, m))
      ensures Guards(condition) && Fits(RouteSet, Under(condition, m)) ==> r.Ok?
    {
      BlockLengths(builder.rules, RouteSet, body, m);
      UnderLengths(condition, m);
      var routes := Enter(body.routes, condition, m.routes, RoutePhase);
      if routes.Err? {
        return Err(routes.error);
      }
      MetRules(old(State()), Asks(Guards(condition), Entered(RouteSet, condition, m)), State());
      return Ok(EMPTY.(routes := routes.value));
    }

    method ConditionFlow(body: Block, condition: seq<Clause>, ghost m: Meaning) returns (r: Result<Block>)
      requires Valid() && BlockMeans(builder.rules, body, FlowSet, m)
      modifies builder`rules
      ensures Valid() && old(builder.rules) <= builder.rules
      ensures r.Ok? ==> BlockMeans(builder.rules, r.value, FlowSet, Under(condition, m))
      ensures r.Ok? ==> Met(old(State()), Asks(Guards(condition), Entered(FlowSet, condition, m)), State())
      ensures r.Ok? && condition != [] ==> Fits(FlowSet, Under(condition, m))
      ensures Guards(condition) && Fits(FlowSet, Under(condition, m)) ==> r.Ok?
    {
      ghost var pool := builder.rules;
      BlockLengths(pool, FlowSet, body, m);
      UnderLengths(condition, m);
      var captures := Enter(body.captures, condition, m.captures, IngressPhase);
      if captures.Err? {
        return Err(captures.error);
      }
      ghost var captured := builder.rules;
      MeansGrows(pool, captured, body.controls, FlowPhase, m.controls);
      var controls := Enter(body.controls, condition, m.controls, FlowPhase);
      if controls.Err? {
        return Err(controls.error);
      }
      MeansGrows(captured, builder.rules, captures.value, IngressPhase, [Scope(condition, m.captures)]);
      MetRules(old(State()), Asks(Guards(condition), Entered(FlowSet, condition, m)), State());
      var destinations := ConditionDestinations(condition, body.destinations);
      return Ok(Block([], captures.value, controls.value, destinations));
    }

    // One entry of a use site.
    method Enter(body: seq<Span>, condition: seq<Clause>, ghost nodes: seq<Node>, ghost phase: Phase)
      returns (r: Result<seq<Span>>)
      requires Valid() && Means(builder.rules, body, phase, nodes)
      modifies builder`rules
      ensures Valid() && old(builder.rules) <= builder.rules
      ensures r.Ok? ==> Means(builder.rules, r.value, phase, [Scope(condition, nodes)])
      ensures r.Ok? ==> Guarded(old(builder.rules), builder.rules, condition, body, r.value)
      ensures (Guards(condition)
               && EntryLength(condition, ExecutionLength(body)) + ExecutionLength(body) <= MAX_MATCH_SETS) ==> r.Ok?
    {
      r := builder.ConditionalBlock(body, condition, nodes, phase);
      Grown(old(builder.rules));
    }

    ghost function AskedByUse(kind: Kind, name: string, condition: seq<Clause>): Demand
      requires Ranked(sets, rank) && name in sets
    {
      UseDemand(kind, builder.outbounds, sets, rank, name, condition)
    }

    ghost function AskedBy(kind: Kind, bound: nat, statements: seq<Statement>): Demand
      requires Ranked(sets, rank) && Below(sets, rank, statements, bound)
    {
      StatementsDemand(kind, builder.outbounds, sets, rank, bound, statements)
    }

    // Everything a use asks for but its own place in the cache.
    ghost function AskedAfresh(kind: Kind, name: string, condition: seq<Clause>): Demand
      requires Ranked(sets, rank) && name in sets
    {
      if condition == [] then AskedBy(kind, rank[name], sets[name])
      else AskedByUse(kind, name, []).Plus(Asks(Guards(condition), Entered(kind, condition,
          OfStatements(sets, rank, rank[name], sets[name]))))
    }

    lemma {:induction false} FreshUse(kind: Kind, name: string, condition: seq<Clause>)
      requires Ranked(sets, rank) && name in sets
      ensures var d, key := AskedAfresh(kind, name, condition), Key(kind, name, condition);
        && key !in d.variants && d.weight == Own(Context(builder.outbounds, sets, rank), key)
        && AskedByUse(kind, name, condition) == Demand(d.sane, 0, d.variants + {key})
    {
      VariantsBelow(kind, builder.outbounds, sets, rank, rank[name], sets[name]);
    }

    // Each (rule set, condition) pair compiles once; every later use shares it.
    method ResolveRuleSet(kind: Kind, name: string, condition: seq<Clause>) returns (r: Result<Block>)
      requires Valid()
      modifies builder`rules, this`cache
      ensures Valid() && old(builder.rules) <= builder.rules
      ensures r.Ok? ==> name in sets && BlockMeans(builder.rules, r.value, kind, OfUse(sets, rank, name, condition))
      ensures r.Ok? ==>
        Met(old(State()), AskedByUse(kind, name, condition), State())
        && Fits(kind, OfUse(sets, rank, name, condition))
      ensures (name in sets && Due(old(State()), AskedByUse(kind, name, condition))
               && Fits(kind, OfUse(sets, rank, name, condition))) ==> r.Ok?
      decreases if name in sets then rank[name] else 0, 6, if condition == [] then 0 else 1, 1
    {
      var key := Key(kind, name, condition);
      if key in cache {
        assert Cached(builder.rules, cache[key], key, builder.outbounds, sets, rank, cache.Keys);
        MetAlready(State(), AskedByUse(kind, name, condition));
        return Ok(cache[key]);
      }
      if name !in sets {
        return Err(UndefinedRuleSet);
      }
      FreshUse(kind, name, condition);
      ghost var before, afresh := State(), AskedAfresh(kind, name, condition);
      DueAfresh(before, afresh, key);
      r := ResolveFresh(kind, name, condition);
      if r.Ok? {
        r := Remember(key, r.value, before, afresh);
      }
    }

    method Remember(key: Key, block: Block, ghost before: Store, ghost d: Demand) returns (r: Result<Block>)
      requires Valid() && key.name in sets && BlockMeans(builder.rules, block, key.kind,
                                                         OfUse(sets, rank, key.name, key.condition))
      requires Fits(key.kind, OfUse(sets, rank, key.name, key.condition))
      requires AskedByUse(key.kind, key.name, key.condition) == Demand(d.sane, 0, d.variants + {key})
      requires ForOne(before, d, key) && Met(before, d, State())
      modifies this`cache
      ensures Valid()
      ensures r.Ok? ==> r.value == block && Met(before, Demand(d.sane, 0, d.variants + {key}), State())
      ensures Due(before, Demand(d.sane, 0, d.variants + {key})) ==> r.Ok?
    {
      RoomFor(before, d, State(), key);
      if |cache| >= MAX_MATCH_SETS {
        return Err(TooManyVariants);
      }
      Files(key, block, before, d);
      ghost var filed := State().(variants := cache.Keys + {key});
      cache := cache[key := block];
      assert State() == filed;
      return Ok(block);
    }

    // The block can be filed under its key.
    lemma {:induction false} Files(key: Key, block: Block, before: Store, d: Demand)
      requires Valid() && key.name in sets && BlockMeans(builder.rules, block, key.kind,
                                                         OfUse(sets, rank, key.name, key.condition))
      requires Fits(key.kind, OfUse(sets, rank, key.name, key.condition))
      requires AskedByUse(key.kind, key.name, key.condition) == Demand(d.sane, 0, d.variants + {key})
      requires ForOne(before, d, key) && Met(before, d, State()) && |cache| < MAX_MATCH_SETS
      ensures cache[key := block].Keys == cache.Keys + {key}
      ensures CacheHolds(builder.rules, cache[key := block], builder.outbounds, sets, rank)
      ensures Met(before, Demand(d.sane, 0, d.variants + {key}), State().(variants := cache.Keys + {key}))
    {
      MetAfresh(before, d, State(), key);
      assert Cached(builder.rules, block, key, builder.outbounds, sets, rank, cache.Keys + {key});
      CacheAdds(builder.rules, cache, builder.outbounds, sets, rank, key, block);
    }

    method ResolveFresh(kind: Kind, name: string, condition: seq<Clause>) returns (r: Result<Block>)
      requires Valid() && name in sets
      modifies builder`rules, this`cache
      ensures Valid() && old(builder.rules) <= builder.rules
      ensures r.Ok? ==> BlockMeans(builder.rules, r.value, kind, OfUse(sets, rank, name, condition))
      ensures r.Ok? ==>
        Met(old(State()), AskedAfresh(kind, name, condition), State())
        && Fits(kind, OfUse(sets, rank, name, condition))
      ensures Due(old(State()), AskedAfresh(kind, name, condition)) && Fits(kind, OfUse(sets, rank, name, condition))
        ==> r.Ok?
      decreases rank[name], 6, if condition == [] then 0 else 1, 0
    {
      ghost var m := OfStatements(sets, rank, rank[name], sets[name]);
      FitsUnder(kind, condition, m);
      if condition == [] {
        r := ResolveStatements(kind, sets[name], rank[name]);
        if r.Ok? {
          UnderNothing(builder.rules, r.value, kind, m);
        }
        return;
      }
      FitsUnder(kind, [], m);
      ghost var before, asked, entry := State(), AskedByUse(kind, name, []),
        Asks(Guards(condition), Entered(kind, condition, m));
      if Due(before, asked.Plus(entry)) {
        DueFirst(before, asked, entry);
      }
      r := ResolveRuleSet(kind, name, []);
      if r.Ok? {
        ghost var between := State();
        UnderNothing(builder.rules, r.value, kind, m);
        r := Condition(kind, r.value, condition, m);
        if r.Ok? {
          MetBoth(before, asked, between, entry, State());
        }
      }
    }

    // The first statements are compiled, up to a batch of pending rules.
    ghost predicate Progress(kind: Kind, block: Block, local: seq<SourceRule>, done: Meaning, bound: nat,
                             statements: seq<Statement>)
      requires Valid() && Below(sets, rank, statements, bound)
      reads this, builder
    {
      && BlockMeans(builder.rules, block, kind, done) && Fits(kind, done)
      && OfStatements(sets, rank, bound, statements) == done.Plus(OfRules(local))
    }

    // What was taken since a given state of all that is asked, again up to the
    // pending rules.
    ghost predicate Spent(before: Store, spent: Demand, kind: Kind, local: seq<SourceRule>, asked: Demand)
      reads this, builder
    {
      && Met(before, spent, State())
      && asked == spent.Plus(RulesDemand(kind, builder.outbounds, local))
    }

    ghost predicate Stands(kind: Kind, block: Block, local: seq<SourceRule>, done: Meaning, bound: nat,
                           first: seq<Statement>,
                           before: Store, spent: Demand, asked: Demand)
      requires Valid()
      reads this, builder
    {
      && Below(sets, rank, first, bound)
      && Progress(kind, block, local, done, bound, first)
      && Spent(before, spent, kind, local, asked)
    }

    // The first statements are compiled, for no more than they ask, up to a batch
    // of pending rules.
    ghost predicate Standing(kind: Kind, block: Block, local: seq<SourceRule>, bound: nat, first: seq<Statement>,
                             before: Store, asked: Demand)
      requires Valid()
      reads this, builder
    {
      exists done, spent :: Stands(kind, block, local, done, bound, first, before, spent, asked)
    }

    ghost function AskedByOne(kind: Kind, bound: nat, s: Statement): Demand
      requires Ranked(sets, rank) && Below(sets, rank, [s], bound)
    {
      StatementDemand(kind, builder.outbounds, sets, rank, bound, s)
    }

    // The running totals of a statement list.
    ghost predicate Totals(asked: seq<Demand>, kind: Kind, bound: nat, statements: seq<Statement>, n: nat)
      requires Ranked(sets, rank) && |asked| == |statements| + 1 && n <= |statements|
    {
      forall k {:trigger Adds(asked, kind, bound, statements, k)} :: 0 <= k < n
        ==> Adds(asked, kind, bound, statements, k)
    }

    ghost predicate Adds(asked: seq<Demand>, kind: Kind, bound: nat, statements: seq<Statement>, k: nat)
      requires Ranked(sets, rank) && |asked| == |statements| + 1 && k < |statements|
    {
      Below(sets, rank, [statements[k]], bound) && asked[k + 1] == asked[k].Plus(AskedByOne(kind, bound, statements[k]))
    }

    // Nothing is taken for no statements.
    lemma {:induction false} Open(kind: Kind, bound: nat, statements: seq<Statement>) returns (asked: seq<Demand>)
      requires Valid() && Below(sets, rank, statements, bound)
      ensures |asked| == |statements| + 1 && asked[|statements|] == AskedBy(kind, bound, statements)
      ensures Totals(asked, kind, bound, statements, |statements|)
      ensures Standing(kind, EMPTY, [], bound, statements[..0], State(), asked[0])
    {
      assert statements[..0] == [];
      asked := Total(kind, bound, statements);
      NothingMet(State(), asked[0]);
      NothingStands(kind, bound, statements[..0], State(), asked[0]);
    }

    lemma {:induction false} NothingStands(kind: Kind, bound: nat, none: seq<Statement>, before: Store, asked: Demand)
      requires Valid() && none == [] && Met(before, asked, State())
      ensures Standing(kind, EMPTY, [], bound, none, before, asked)
    {
      var nothing := Meaning([], [], [], []);
      EmptyMeans(builder.rules, kind);
      NoLocal(nothing);
      UsePaid(kind, before, asked);
      assert Stands(kind, EMPTY, [], nothing, bound, none, before, asked, asked);
    }

    lemma {:induction false} Total(kind: Kind, bound: nat, statements: seq<Statement>) returns (asked: seq<Demand>)
      requires Ranked(sets, rank) && Below(sets, rank, statements, bound)
      ensures |asked| == |statements| + 1 && asked[|statements|] == AskedBy(kind, bound, statements)
      ensures asked[0].sane && asked[0].weight == 0 && asked[0].variants == {}
      ensures Totals(asked, kind, bound, statements, |statements|)
      decreases |statements|
    {
      if statements == [] {
        asked := [AskedBy(kind, bound, statements)];
      } else {
        var n := |statements| - 1;
        assert statements == statements[..n] + [statements[n]];
        StatementsDemandSnoc(kind, builder.outbounds, sets, rank, bound, statements[..n], statements[n]);
        var front := Total(kind, bound, statements[..n]);
        asked := front + [front[n].Plus(AskedByOne(kind, bound, statements[n]))];
        forall k | 0 <= k < n
          ensures Adds(asked, kind, bound, statements, k)
        {
          assert Adds(front, kind, bound, statements[..n], k);
        }
        assert Adds(asked, kind, bound, statements, n);
      }
    }

    lemma {:induction false} DueTotals(before: Store, asked: seq<Demand>, kind: Kind, bound: nat,
                                       statements: seq<Statement>, k: nat)
      requires Ranked(sets, rank) && |asked| == |statements| + 1 && k <= |statements|
      requires Totals(asked, kind, bound, statements, |statements|)
      ensures Due(before, asked[|statements|]) ==> Due(before, asked[k])
      decreases |statements| - k
    {
      if k < |statements| {
        DueTotals(before, asked, kind, bound, statements, k + 1);
        assert Adds(asked, kind, bound, statements, k);
        if Due(before, asked[k + 1]) {
          DueFirst(before, asked[k], AskedByOne(kind, bound, statements[k]));
        }
      }
    }

    // Consecutive rules form one batch; every use closes the pending batch.
    method ResolveStatements(kind: Kind, statements: seq<Statement>, ghost bound: nat) returns (r: Result<Block>)
      requires Valid() && Below(sets, rank, statements, bound)
      modifies builder`rules, this`cache
      ensures Valid() && old(builder.rules) <= builder.rules
      ensures r.Ok? ==> BlockMeans(builder.rules, r.value, kind, OfStatements(sets, rank, bound, statements))
      ensures r.Ok? ==>
        Met(old(State()), AskedBy(kind, bound, statements), State())
        && Fits(kind, OfStatements(sets, rank, bound, statements))
      ensures (Due(old(State()), AskedBy(kind, bound, statements))
               && Fits(kind, OfStatements(sets, rank, bound, statements))) ==> r.Ok?
      decreases bound, 5
    {
      ghost var before := State();
      ghost var asked := Open(kind, bound, statements);
      ghost var granted := Granted(kind, bound, statements, before, asked[|statements|]);
      var block, local;
      r, block, local := ResolveEach(kind, statements, 0, EMPTY, [], bound, before, asked, granted);
      AllStatements(statements);
      if r.Ok? {
        ghost var done, spent :| Stands(kind, block, local, done, bound, statements, before, spent,
                                        asked[|statements|]);
        r := Flush(kind, block, local, done, before, spent);
      }
    }

    // The statements ask for no more than there is.
    ghost predicate Granted(kind: Kind, bound: nat, statements: seq<Statement>, before: Store, asked: Demand)
      requires Ranked(sets, rank) && Below(sets, rank, statements, bound)
    {
      Due(before, asked) && Fits(kind, OfStatements(sets, rank, bound, statements))
    }

    // Still going, or stopped for good reason.
    ghost predicate Going(r: Result<Block>, kind: Kind, block: Block, local: seq<SourceRule>, bound: nat,
                          statements: seq<Statement>, i: nat, before: Store, asked: seq<Demand>, granted: bool,
                          pool: seq<Instr>)
      reads this, builder
    {
      match r
      case Err(_) => Valid() && pool <= builder.rules && !granted && i <= |statements|
      case Ok(_) =>
        && Valid() && pool <= builder.rules && i <= |statements| && |asked| == |statements| + 1
        && Standing(kind, block, local, bound, statements[..i], before, asked[i])
    }

    // From one statement on, behind what was compiled before it.
    method ResolveEach(kind: Kind, statements: seq<Statement>, start: nat, first: Block, pending: seq<SourceRule>,
                       ghost bound: nat, ghost before: Store, ghost asked: seq<Demand>, ghost granted: bool)
      returns (r: Result<Block>, block: Block, local: seq<SourceRule>)
      requires Ranked(sets, rank) && Below(sets, rank, statements, bound)
      requires |asked| == |statements| + 1 && Totals(asked, kind, bound, statements, |statements|)
      requires granted ==> Granted(kind, bound, statements, before, asked[|statements|])
      requires Going(Ok(first), kind, first, pending, bound, statements, start, before, asked, granted, builder.rules)
      modifies builder`rules, this`cache
      ensures Going(r, kind, block, local, bound, statements, |statements|, before, asked, granted, old(builder.rules))
      decreases bound, 4
    {
      block, local, r := first, pending, Ok(first);
      ghost var pool := builder.rules;
      var i := start;
      while i < |statements| && r.Ok?
        invariant Going(r, kind, block, local, bound, statements, i, before, asked, granted, pool)
        decreases |statements| - i
      {
        r, block, local, i := ResolveNext(kind, statements, i, block, local, bound, before, asked, granted, pool, r);
      }
    }

    method ResolveNext(kind: Kind, statements: seq<Statement>, i: nat, block: Block, local: seq<SourceRule>,
                       ghost bound: nat,
                       ghost before: Store, ghost asked: seq<Demand>, ghost granted: bool, ghost pool: seq<Instr>,
                       ghost so: Result<Block>)
      returns (r: Result<Block>, block': Block, local': seq<SourceRule>, next: nat)
      requires Ranked(sets, rank) && Below(sets, rank, statements, bound) && i < |statements|
      requires |asked| == |statements| + 1 && Totals(asked, kind, bound, statements, |statements|)
      requires granted ==> Granted(kind, bound, statements, before, asked[|statements|])
      requires so.Ok? && Going(so, kind, block, local, bound, statements, i, before, asked, granted, pool)
      modifies builder`rules, this`cache
      ensures next == i + 1 && Going(r, kind, block', local', bound, statements, next, before, asked, granted, pool)
      decreases bound, 3
    {
      StatementsPrefix(statements, i);
      FitsPrefix(kind, sets, rank, bound, statements, i + 1);
      assert Adds(asked, kind, bound, statements, i);
      DueTotals(before, asked, kind, bound, statements, i + 1);
      ghost var done, spent :| Stands(kind, block, local, done, bound, statements[..i], before, spent, asked[i]);
      r, block', local', done, spent := ResolveStatement(kind, statements[i], block, local, bound, done,
                                                         statements[..i], before, spent, asked[i]);
      next := i + 1;
      assert r.Ok? ==> Stands(kind, block', local', done, bound, statements[..i + 1], before, spent, asked[i + 1]);
    }

    // A rule joins the pending ones; nothing is taken for it yet.
    lemma {:induction false} RulePends(kind: Kind, block: Block, local: seq<SourceRule>, rule: SourceRule,
                                       done: Meaning, bound: nat,
                                       first: seq<Statement>, before: Store, spent: Demand, asked: Demand)
      requires Valid() && Below(sets, rank, first + [RuleStatement(rule)], bound) && Below(sets, rank, first, bound)
      requires Progress(kind, block, local, done, bound, first) && Spent(before, spent, kind, local, asked)
      ensures Progress(kind, block, local + [rule], done, bound, first + [RuleStatement(rule)])
      ensures Spent(before, spent, kind, local + [rule], asked.Plus(RuleDemand(kind, builder.outbounds, rule)))
    {
      StatementsSnocRule(sets, rank, bound, first, done, local, rule);
      RulesDemandSnoc(kind, builder.outbounds, local, rule);
      PlusAssociates(spent, RulesDemand(kind, builder.outbounds, local), RuleDemand(kind, builder.outbounds, rule));
    }

    // A use closes the pending rules.
    lemma {:induction false} UseCloses(kind: Kind, block: Block, local: seq<SourceRule>, s: Statement, done: Meaning,
                                       bound: nat, first: seq<Statement>)
      requires Valid() && Below(sets, rank, first + [s], bound) && Below(sets, rank, first, bound) && s.UseStatement?
        && s.name in sets
      requires OfStatements(sets, rank, bound, first) == done.Plus(OfRules(local))
      requires BlockMeans(builder.rules, block, kind,
                          done.Plus(OfRules(local)).Plus(OfUse(sets, rank, s.name, s.condition)))
      requires Fits(kind, done.Plus(OfRules(local)).Plus(OfUse(sets, rank, s.name, s.condition)))
      ensures Progress(kind, block, [], OfStatements(sets, rank, bound, first + [s]), bound, first + [s])
    {
      assert Below(sets, rank, [s], bound) by {
        assert s in first + [s];
      }
      StatementsSnocUse(sets, rank, bound, first, s);
      NoLocal(OfStatements(sets, rank, bound, first + [s]));
    }

    lemma {:induction false} UsePaid(kind: Kind, before: Store, total: Demand)
      requires Met(before, total, State())
      ensures Spent(before, total, kind, [], total)
    {
      PlusNothing(kind, builder.outbounds, total);
    }

    method ResolveStatement(kind: Kind, s: Statement, block: Block, local: seq<SourceRule>, ghost bound: nat,
                            ghost done: Meaning,
                            ghost first: seq<Statement>, ghost before: Store, ghost spent: Demand, ghost asked: Demand)
      returns (r: Result<Block>, block': Block, local': seq<SourceRule>, ghost done': Meaning, ghost spent': Demand)
      requires Valid() && Below(sets, rank, first + [s], bound) && Below(sets, rank, first, bound)
        && Below(sets, rank, [s], bound)
      requires Progress(kind, block, local, done, bound, first) && Spent(before, spent, kind, local, asked)
      modifies builder`rules, this`cache
      ensures Valid() && old(builder.rules) <= builder.rules
      ensures r.Ok? ==> Progress(kind, block', local', done', bound, first + [s])
      ensures r.Ok? ==> Spent(before, spent', kind, local', asked.Plus(AskedByOne(kind, bound, s)))
      ensures (Due(before, asked.Plus(AskedByOne(kind, bound, s)))
               && Fits(kind, OfStatements(sets, rank, bound, first + [s]))) ==> r.Ok?
      decreases bound, 2
    {
      block', local', done', spent' := block, local, done, spent;
      match s {
        case RuleStatement(rule) =>
          RulePends(kind, block, local, rule, done, bound, first, before, spent, asked);
          local' := local + [rule];
          r := Ok(block);
        case UseStatement(name, condition) =>
          assert s in [s];
          if name in sets {
            StatementsSnocUse(sets, rank, bound, first, s);
          }
          r := ResolveUse(kind, block, local, name, condition, bound, done, before, spent);
          if r.Ok? {
            UseCloses(kind, r.value, local, s, done, bound, first);
            block', local' := r.value, [];
            done', spent' := OfStatements(sets, rank, bound, first + [s]), asked.Plus(AskedByOne(kind, bound, s));
            UsePaid(kind, before, spent');
          }
      }
    }

    // Close the pending batch, then append what the use refers to.
    method ResolveUse(kind: Kind, block: Block, local: seq<SourceRule>, name: string, condition: seq<Clause>,
                      ghost bound: nat, ghost done: Meaning, ghost before: Store, ghost spent: Demand)
                        returns (r: Result<Block>)
      requires Valid() && BlockMeans(builder.rules, block, kind, done) && Fits(kind, done)
        && Met(before, spent, State())
      requires name in sets ==> rank[name] < bound
      modifies builder`rules, this`cache
      ensures Valid() && old(builder.rules) <= builder.rules
      ensures r.Ok? ==> name in sets
      ensures r.Ok? ==> BlockMeans(builder.rules, r.value, kind,
                                   done.Plus(OfRules(local)).Plus(OfUse(sets, rank, name, condition)))
      ensures r.Ok? ==> Met(before, spent.Plus(RulesDemand(kind, builder.outbounds, local)).Plus(AskedByUse(kind, name,
          condition)), State())
      ensures r.Ok? ==> Fits(kind, done.Plus(OfRules(local)).Plus(OfUse(sets, rank, name, condition)))
      ensures (name in sets && Due(before, spent.Plus(RulesDemand(kind, builder.outbounds,
          local)).Plus(AskedByUse(kind, name, condition)))
               && Fits(kind, done.Plus(OfRules(local)).Plus(OfUse(sets, rank, name, condition)))) ==> r.Ok?
      decreases bound, 1
    {
      ghost var paid := spent.Plus(RulesDemand(kind, builder.outbounds, local));
      if name in sets {
        UseDue(kind, done.Plus(OfRules(local)), OfUse(sets, rank, name, condition), before, paid,
               AskedByUse(kind, name, condition));
      }
      r := Flush(kind, block, local, done, before, spent);
      if r.Err? {
        return;
      }
      if name !in sets {
        return Err(UndefinedRuleSet);
      }
      r := AppendUse(kind, r.value, name, condition, bound, done.Plus(OfRules(local)), before, paid);
    }

    method AppendUse(kind: Kind, block: Block, name: string, condition: seq<Clause>, ghost bound: nat,
                     ghost done: Meaning, ghost before: Store, ghost paid: Demand) returns (r: Result<Block>)
      requires Valid() && BlockMeans(builder.rules, block, kind, done) && Fits(kind, done) && Met(before, paid, State())
      requires name in sets && rank[name] < bound
      modifies builder`rules, this`cache
      ensures Valid() && old(builder.rules) <= builder.rules
      ensures r.Ok? ==> BlockMeans(builder.rules, r.value, kind, done.Plus(OfUse(sets, rank, name, condition)))
      ensures r.Ok? ==>
        Met(before, paid.Plus(AskedByUse(kind, name, condition)), State())
        && Fits(kind, done.Plus(OfUse(sets, rank, name, condition)))
      ensures (Due(before, paid.Plus(AskedByUse(kind, name, condition)))
               && Fits(kind, done.Plus(OfUse(sets, rank, name, condition)))) ==> r.Ok?
      decreases bound, 0
    {
      ghost var pool, between := builder.rules, State();
      FitsPlus(kind, done, OfUse(sets, rank, name, condition));
      if Due(before, paid.Plus(AskedByUse(kind, name, condition))) {
        DueNext(before, paid, between, AskedByUse(kind, name, condition));
      }
      var called := ResolveRuleSet(kind, name, condition);
      if called.Err? {
        return called;
      }
      MetBoth(before, paid, between, AskedByUse(kind, name, condition), State());
      BlockGrows(pool, builder.rules, block, kind, done);
      var fits, appended := AppendBlocks(builder.rules, kind, block, called.value, done,
                                         OfUse(sets, rank, name, condition));
      if !fits {
        return Err(TooManyMatchSets);
      }
      return Ok(appended);
    }

    method Flush(kind: Kind, block: Block, local: seq<SourceRule>, ghost done: Meaning, ghost before: Store,
                 ghost spent: Demand)
      returns (r: Result<Block>)
      requires Valid() && BlockMeans(builder.rules, block, kind, done) && Fits(kind, done)
        && Met(before, spent, State())
      modifies builder`rules
      ensures Valid() && old(builder.rules) <= builder.rules
      ensures r.Ok? ==> BlockMeans(builder.rules, r.value, kind, done.Plus(OfRules(local)))
      ensures r.Ok? ==>
        Met(before, spent.Plus(RulesDemand(kind, builder.outbounds, local)), State())
        && Fits(kind, done.Plus(OfRules(local)))
      ensures (Due(before, spent.Plus(RulesDemand(kind, builder.outbounds, local)))
               && Fits(kind, done.Plus(OfRules(local)))) ==> r.Ok?
    {
      if |local| == 0 {
        NoLocal(done);
        return Ok(block);
      }
      ghost var pool, between, asked := builder.rules, State(), RulesDemand(kind, builder.outbounds, local);
      if Due(before, spent.Plus(asked)) {
        DueNext(before, spent, between, asked);
      }
      var batch := CompileBatch(kind, local);
      if batch.Err? {
        return batch;
      }
      MetBoth(before, spent, between, asked, State());
      BlockGrows(pool, builder.rules, block, kind, done);
      var fits, appended := AppendBlocks(builder.rules, kind, block, batch.value, done, OfRules(local));
      if !fits {
        return Err(TooManyMatchSets);
      }
      return Ok(appended);
    }
  }

  lemma {:induction false} LeafEmission(part: Part, rule: SourceRule)
    ensures EffectIn(part, rule.action).None? ==> NodesFormed(LeafOf(part, rule)) && EmitNodes(LeafOf(part, rule)) == []
    ensures EffectIn(part, rule.action).Some? && rule.filter != [] && ClausesFormed(rule.filter) ==>
      && NodesFormed(LeafOf(part, rule))
      && EmitNodes(LeafOf(part, rule)) == EmitClauses(rule.filter, TailOf(EffectIn(part, rule.action).value))
  {
    match EffectIn(part, rule.action)
    case Some(effect) =>
      if rule.filter != [] && ClausesFormed(rule.filter) {
        EmitOne(Leaf(Rule(rule.filter, effect)));
      }
    case None =>
  }

  // Which rules a part takes, and the match sets it emits for them.
  predicate PartAccepts(part: Part, outbounds: set<nat>, rule: SourceRule) {
    if part == Routes then Accepts(RouteSet, outbounds, rule)
    else EffectIn(part, rule.action).Some? ==> Filtered(rule.filter)
  }

  function PartWeight(part: Part, rules: seq<SourceRule>): nat {
    if rules == [] then 0
    else
      var last := rules[|rules| - 1];
      PartWeight(part, rules[..|rules| - 1]) + if EffectIn(part, last.action).Some? then Tests(last.filter) else 0
  }

  predicate AllAccepted(part: Part, outbounds: set<nat>, rules: seq<SourceRule>) {
    forall rule <- rules :: PartAccepts(part, outbounds, rule)
  }

  // Match sets emitted, and executed by the spans that lay them out.
  ghost predicate Added(pool: seq<Instr>, grown: seq<Instr>, weight: nat, length: int) {
    && |grown| == |pool| + weight && length == weight
    && (Encodable(pool) && weight <= MAX_MATCH_SETS ==> Encodable(grown))
  }

  // The rules of one part behind a pool.
  ghost predicate Emitted(part: Part, rules: seq<SourceRule>, pool: seq<Instr>, grown: seq<Instr>) {
    NodesFormed(Leaves(part, rules)) && grown == pool + EmitNodes(Leaves(part, rules))
  }

  lemma {:induction false} EmittedNothing(part: Part, pool: seq<Instr>)
    ensures Emitted(part, [], pool, pool)
  {
    assert pool + EmitNodes([]) == pool;
  }

  lemma {:induction false} EmittedNext(part: Part, rules: seq<SourceRule>, rule: SourceRule, pool: seq<Instr>,
                                       grown: seq<Instr>, more: seq<Instr>)
    requires Emitted(part, rules, pool, grown) && NodesFormed(LeafOf(part, rule))
      && more == grown + EmitNodes(LeafOf(part, rule))
    ensures Emitted(part, rules + [rule], pool, more)
  {
    LeavesSnoc(part, rules, rule);
    EmitConcat(Leaves(part, rules), LeafOf(part, rule));
    Associate(pool, EmitNodes(Leaves(part, rules)), EmitNodes(LeafOf(part, rule)));
  }

  // The block of a batch of flow rules.
  function FlowBlock(captures: seq<Span>, controls: seq<Span>, rules: seq<SourceRule>): Block {
    var destinations := DestinationsIn(rules);
    Block([], captures, controls, if destinations == [] then [] else [destinations])
  }

  lemma {:induction false} FlowMeans(pool: seq<Instr>, captures: seq<Span>, controls: seq<Span>, rules: seq<SourceRule>)
    requires Means(pool, captures, IngressPhase, Leaves(Captures, rules))
      && Means(pool, controls, FlowPhase, Leaves(Controls, rules))
    ensures BlockMeans(pool, FlowBlock(captures, controls, rules), FlowSet, OfRules(rules))
  {
    JoinedOne(DestinationsIn(rules));
  }

  lemma {:induction false} FlowMet(pool: seq<Instr>, captures: seq<Span>, controls: seq<Span>, rules: seq<SourceRule>,
                                   before: Store, after: Store)
    requires RulesDemand(FlowSet, before.context.outbounds, rules).sane && |after.rules| <= MAX_MATCH_SETS
    requires Means(pool, captures, IngressPhase, Leaves(Captures, rules))
      && Means(pool, controls, FlowPhase, Leaves(Controls, rules))
    requires Added(before.rules, after.rules, PartWeight(Captures, rules) + PartWeight(Controls, rules),
                   ExecutionLength(captures) + ExecutionLength(controls))
    requires after == before.(rules := after.rules)
    ensures Met(before, RulesDemand(FlowSet, before.context.outbounds, rules), after) && Fits(FlowSet, OfRules(rules))
  {
    FlowDemand(before.context.outbounds, rules);
    MetRules(before, RulesDemand(FlowSet, before.context.outbounds, rules), after);
    SpansLength(pool, captures, IngressPhase, Leaves(Captures, rules));
    SpansLength(pool, controls, FlowPhase, Leaves(Controls, rules));
  }

  lemma {:induction false} AcceptedSnoc(part: Part, outbounds: set<nat>, rules: seq<SourceRule>, rule: SourceRule)
    ensures AllAccepted(part, outbounds, rules + [rule])
      <==> AllAccepted(part, outbounds, rules) && PartAccepts(part, outbounds, rule)
  {
    assert rule in rules + [rule];
    assert forall r <- rules :: r in rules + [rule];
  }

  predicate NoRoutes(rules: seq<SourceRule>) {
    forall rule <- rules :: !rule.action.ToOutbound?
  }

  lemma {:induction false} NoRoutesSnoc(rules: seq<SourceRule>, rule: SourceRule)
    ensures NoRoutes(rules + [rule]) <==> NoRoutes(rules) && !rule.action.ToOutbound?
  {
    assert rule in rules + [rule];
    assert forall r <- rules :: r in rules + [rule];
  }

  // A batch is well-formed exactly if its parts are, and asks for what they emit.
  lemma {:induction false} RoutesDemand(outbounds: set<nat>, rules: seq<SourceRule>)
    ensures var d := RulesDemand(RouteSet, outbounds, rules);
      && d.variants == {}
      && (d.sane <==> AllAccepted(Routes, outbounds, rules))
      && (d.sane ==> d.weight == PartWeight(Routes, rules))
  {
    if rules != [] {
      var front, last := rules[..|rules| - 1], rules[|rules| - 1];
      assert rules == front + [last];
      RoutesDemand(outbounds, front);
      AcceptedSnoc(Routes, outbounds, front, last);
    }
  }

  lemma {:induction false} FlowDemand(outbounds: set<nat>, rules: seq<SourceRule>)
    ensures var d := RulesDemand(FlowSet, outbounds, rules);
      && d.variants == {}
      && (d.sane <==>
          NoRoutes(rules) && AllAccepted(Captures, outbounds, rules)
          && AllAccepted(Controls, outbounds, rules))
      && (d.sane ==> d.weight == PartWeight(Captures, rules) + PartWeight(Controls, rules))
  {
    if rules != [] {
      var front, last := rules[..|rules| - 1], rules[|rules| - 1];
      assert rules == front + [last];
      FlowDemand(outbounds, front);
      NoRoutesSnoc(front, last);
      AcceptedSnoc(Captures, outbounds, front, last);
      AcceptedSnoc(Controls, outbounds, front, last);
    }
  }

  lemma {:induction false} BatchCost(part: Part, rules: seq<SourceRule>, pool: seq<Instr>)
    requires NodesFormed(Leaves(part, rules))
    ensures |EmitNodes(Leaves(part, rules))| == PartWeight(part, rules)
    ensures Encodable(pool) ==> Encodable(pool + EmitNodes(Leaves(part, rules)))
  {
    if rules == [] {
      assert pool + EmitNodes([]) == pool;
    } else {
      var front, last := rules[..|rules| - 1], rules[|rules| - 1];
      assert rules == front + [last];
      LeavesSnoc(part, front, last);
      assert forall n <- Leaves(part, front) :: n in Leaves(part, front) + LeafOf(part, last);
      assert forall n <- LeafOf(part, last) :: n in Leaves(part, front) + LeafOf(part, last);
      EmitConcat(Leaves(part, front), LeafOf(part, last));
      BatchCost(part, front, pool);
      LeafCost(part, last, pool + EmitNodes(Leaves(part, front)));
      Associate(pool, EmitNodes(Leaves(part, front)), EmitNodes(LeafOf(part, last)));
    }
  }

  lemma {:induction false} LeafCost(part: Part, rule: SourceRule, pool: seq<Instr>)
    requires NodesFormed(LeafOf(part, rule))
    ensures |EmitNodes(LeafOf(part, rule))| == if EffectIn(part, rule.action).Some? then Tests(rule.filter) else 0
    ensures Encodable(pool) ==> Encodable(pool + EmitNodes(LeafOf(part, rule)))
  {
    LeafEmission(part, rule);
    match EffectIn(part, rule.action)
    case Some(effect) =>
      assert Leaf(Rule(rule.filter, effect)) in LeafOf(part, rule);
      EmittedTests(rule.filter, TailOf(effect));
      ClausesEncodable(rule.filter, TailOf(effect));
      if Encodable(pool) {
        EncodableConcat(pool, EmitClauses(rule.filter, TailOf(effect)));
      }
    case None =>
      assert pool + [] == pool;
  }

  lemma {:induction false} BatchMeans(pool: seq<Instr>, grown: seq<Instr>, span: Span, phase: Phase, nodes: seq<Node>)
    requires NodesFormed(nodes) && grown == pool + EmitNodes(nodes)
    requires span.start == |pool| && span.end == |grown| && span.phase == phase
    ensures Means(grown, AppendSpan([], span), phase, nodes)
    ensures ExecutionLength(AppendSpan([], span)) == |grown| - |pool|
  {
    EncodeNodes(nodes);
    assert grown[span.start..span.end] == EmitNodes(nodes);
    assert Flatten(grown, []) == [];
    HoldsAppend(grown, [], [], span);
    AppendSpanFlattens(grown, [], span);
    assert [] + SpanOps(grown, span) == Tag(EmitNodes(nodes), phase);
  }

  lemma {:induction false} JoinedOne(destinations: seq<DestinationRule>)
    ensures Joined(if destinations == [] then [] else [destinations]) == destinations
  {
    if destinations != [] {
      assert [destinations][1..] == [];
    }
  }

  lemma {:induction false} ConditionedConcat(condition: seq<Clause>, a: seq<DestinationRule>, b: seq<DestinationRule>)
    ensures Conditioned(condition, a + b) == Conditioned(condition, a) + Conditioned(condition, b)
  {
  }

  method ConditionDestinations(condition: seq<Clause>, fragments: seq<Fragment>) returns (conditioned: seq<Fragment>)
    ensures Joined(conditioned) == Conditioned(condition, Joined(fragments))
  {
    conditioned := seq(|fragments|, k requires 0 <= k < |fragments| => Conditioned(condition, fragments[k]));
    JoinedConditioned(condition, fragments, conditioned);
  }

  lemma {:induction false} JoinedConditioned(condition: seq<Clause>, fragments: seq<Fragment>,
                                             conditioned: seq<Fragment>)
    requires |conditioned| == |fragments|
    requires forall k :: 0 <= k < |fragments| ==> conditioned[k] == Conditioned(condition, fragments[k])
    ensures Joined(conditioned) == Conditioned(condition, Joined(fragments))
  {
    if fragments != [] {
      JoinedConditioned(condition, fragments[1..], conditioned[1..]);
      ConditionedConcat(condition, fragments[0], Joined(fragments[1..]));
    }
  }

  lemma {:induction false} ConditionedByNothing(rules: seq<DestinationRule>)
    ensures Conditioned([], rules) == rules
  {
    forall k | 0 <= k < |rules|
      ensures Conditioned([], rules)[k] == rules[k]
    {
      assert [] + rules[k].filter == rules[k].filter;
    }
  }

  lemma {:induction false} MeansUnderNothing(pool: seq<Instr>, spans: seq<Span>, phase: Phase, nodes: seq<Node>)
    ensures Means(pool, spans, phase, nodes) <==> Means(pool, spans, phase, [Scope([], nodes)])
  {
    var scope := Scope([], nodes);
    assert scope in [scope];
    if NodesFormed(nodes) {
      EmitEmptyScope([], nodes);
    } else {
      assert !Formed(scope);
    }
  }

  // An unconditional use means what its rule set means.
  lemma {:induction false} UnderNothing(pool: seq<Instr>, block: Block, kind: Kind, m: Meaning)
    ensures BlockMeans(pool, block, kind, m) <==> BlockMeans(pool, block, kind, Under([], m))
  {
    MeansUnderNothing(pool, block.routes, RoutePhase, m.routes);
    MeansUnderNothing(pool, block.captures, IngressPhase, m.captures);
    MeansUnderNothing(pool, block.controls, FlowPhase, m.controls);
    ConditionedByNothing(m.destinations);
  }
}
