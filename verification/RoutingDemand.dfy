/** What a configuration asks of the compiler: well-formed rules, match sets of its
    own, and variants of rule sets, each of which is paid for once. The compiler
    must grant what fits and refuse everything else. */
module RoutingDemand {
  import opened Common
  import opened RoutingInstructions
  import opened RoutingJumps
  import opened RoutingRules
  import opened RoutingEmission
  import opened RoutingPolicies

  datatype CompileError =
    | InvalidGraph
    | EmptyPredicate
    | UndefinedOutbound
    | SkipNotAllowed
    | WrongActionFamily
    | UndefinedRuleSet
    | TooManyMatchSets
    | TooManyVariants
    | InvalidJumps
    | InvalidBlocks

  datatype Result<+T> = Ok(value: T) | Err(error: CompileError)

  // Rule sets of routes and of flow actions compile separately.
  datatype Kind = RouteSet | FlowSet

  datatype Key = Key(kind: Kind, name: string, condition: seq<Clause>)

  // A route's outbound must be defined; built-in outbounds and fallbacks take
  // part in no connectivity check.
  function CheckTarget(outbounds: set<nat>, t: Target, fallback: bool): Option<CompileError> {
    if t.outbound !in outbounds then Some(UndefinedOutbound)
    else if t.skipNoalive && (fallback || t.outbound == DIRECT || t.outbound == BLOCK) then Some(SkipNotAllowed)
    else None
  }

  predicate Filtered(filter: seq<Clause>) {
    filter != [] && ClausesFormed(filter)
  }

  // Every test takes one match set.
  function Tests(clauses: seq<Clause>): nat {
    if clauses == [] then 0 else |clauses[0].tests| + Tests(clauses[1..])
  }

  lemma {:induction false} EmittedTests(clauses: seq<Clause>, tail: Instr)
    requires Filtered(clauses)
    ensures |EmitClauses(clauses, tail)| == Tests(clauses)
  {
    if |clauses| == 1 {
      assert clauses[1..] == [];
    } else {
      EmittedTests(clauses[1..], tail);
    }
  }

  // Match sets that nodes execute. A block without rules has no entry.

  function NodeLength(node: Node): nat
    decreases node, 0
  {
    match node
    case Leaf(rule) => Tests(rule.clauses)
    case Scope(condition, body) => EntryLength(condition, NodesLength(body)) + NodesLength(body)
  }

  function NodesLength(nodes: seq<Node>): nat
    decreases nodes
  {
    if nodes == [] then 0 else NodeLength(nodes[0]) + NodesLength(nodes[1..])
  }

  function EntryLength(condition: seq<Clause>, body: int): nat {
    if body == 0 then 0 else Tests(condition)
  }

  lemma {:induction false} EmittedNode(node: Node)
    requires Formed(node)
    ensures |EmitNode(node)| == NodeLength(node)
    decreases node, 0
  {
    match node
    case Leaf(rule) => EmittedTests(rule.clauses, TailOf(rule.effect));
    case Scope(condition, body) =>
      EmittedLength(body);
      if condition != [] && EmitNodes(body) != [] {
        EmittedTests(condition, JumpTail(|EmitNodes(body)|));
      }
  }

  lemma {:induction false} EmittedLength(nodes: seq<Node>)
    requires NodesFormed(nodes)
    ensures |EmitNodes(nodes)| == NodesLength(nodes)
    decreases nodes
  {
    if nodes != [] {
      EmittedNode(nodes[0]);
      EmittedLength(nodes[1..]);
    }
  }

  lemma {:induction false} LengthConcat(a: seq<Node>, b: seq<Node>)
    ensures NodesLength(a + b) == NodesLength(a) + NodesLength(b)
  {
    if a == [] {
      assert a + b == b;
    } else {
      assert (a + b)[1..] == a[1..] + b;
      LengthConcat(a[1..], b);
    }
  }

  lemma {:induction false} LengthOne(node: Node)
    ensures NodesLength([node]) == NodeLength(node)
  {
    assert [node][1..] == [];
  }

  // Code whose jumps link.

  lemma {:induction false} EncodableConcat(a: seq<Instr>, b: seq<Instr>)
    requires Encodable(a) && Encodable(b)
    ensures Encodable(a + b)
  {
    if b == [] {
      assert a + b == a;
    }
  }

  lemma {:induction false} TestsEncodable(tests: seq<Predicate>, tail: Instr)
    requires tests != [] && JumpInRange(tail)
    ensures var code := EmitTests(tests, tail);
      (forall k :: 0 <= k < |code| ==> JumpInRange(code[k])) && code[|code| - 1].action == tail.action
  {
    if |tests| > 1 {
      TestsEncodable(tests[1..], tail);
    }
  }

  lemma {:induction false} ClausesEncodable(clauses: seq<Clause>, tail: Instr)
    requires Filtered(clauses) && JumpInRange(tail) && !Linking(tail)
    ensures Encodable(EmitClauses(clauses, tail))
  {
    var c := clauses[0];
    if |clauses| == 1 {
      TestsEncodable(c.tests, tail.(negated := c.negated));
    } else {
      TestsEncodable(c.tests, Logical(Always, And, c.negated, 0));
      ClausesEncodable(clauses[1..], tail);
    }
  }

  function Both(a: set<Key>, b: set<Key>): (r: set<Key>)
    ensures a == {} ==> r == b
    ensures b == {} ==> r == a
  {
    a + b
  }

  datatype Demand = Demand(sane: bool, weight: nat, variants: set<Key>) {
    function Plus(other: Demand): Demand {
      Demand(sane && other.sane, weight + other.weight, Both(variants, other.variants))
    }
  }

  function Asks(sane: bool, weight: nat): Demand {
    Demand(sane, weight, {})
  }

  predicate Accepts(kind: Kind, outbounds: set<nat>, rule: SourceRule) {
    && Filtered(rule.filter)
    && match kind
       case RouteSet => rule.action.ToOutbound? && CheckTarget(outbounds, rule.action.target, false).None?
       case FlowSet => !rule.action.ToOutbound?
  }

  function RuleDemand(kind: Kind, outbounds: set<nat>, rule: SourceRule): Demand {
    Asks(Accepts(kind, outbounds, rule), Tests(rule.filter))
  }

  function RulesDemand(kind: Kind, outbounds: set<nat>, rules: seq<SourceRule>): Demand {
    if rules == [] then Asks(true, 0)
    else RulesDemand(kind, outbounds, rules[..|rules| - 1]).Plus(RuleDemand(kind, outbounds, rules[|rules| - 1]))
  }

  lemma {:induction false} RulesDemandSnoc(kind: Kind, outbounds: set<nat>, rules: seq<SourceRule>, rule: SourceRule)
    ensures RulesDemand(kind, outbounds, rules + [rule])
      == RulesDemand(kind, outbounds, rules).Plus(RuleDemand(kind, outbounds, rule))
  {
    assert (rules + [rule])[..|rules|] == rules;
  }

  // Bare filters of captures.

  predicate AllFiltered(filters: seq<seq<Clause>>) {
    forall k :: 0 <= k < |filters| ==> Filtered(filters[k])
  }

  function FiltersWeight(filters: seq<seq<Clause>>): nat {
    if filters == [] then 0 else FiltersWeight(filters[..|filters| - 1]) + Tests(filters[|filters| - 1])
  }

  // HTTP captures share one test of client admission.
  function HttpWeight(filters: seq<seq<Clause>>): nat {
    if filters == [] then 0 else FiltersWeight(filters) + 1
  }

  function Filters(rules: seq<DestinationRule>): (r: seq<seq<Clause>>)
    ensures |r| == |rules|
  {
    seq(|rules|, k requires 0 <= k < |rules| => rules[k].filter)
  }

  // An exact destination predicate ends in one more match set.
  function ExactWeight(rules: seq<DestinationRule>): nat {
    if rules == [] then 0 else ExactWeight(rules[..|rules| - 1]) + Tests(rules[|rules| - 1].filter) + 1
  }

  lemma {:induction false} ExactWeightConcat(a: seq<DestinationRule>, b: seq<DestinationRule>)
    ensures ExactWeight(a + b) == ExactWeight(a) + ExactWeight(b)
  {
    if b == [] {
      assert a + b == a;
    } else {
      assert (a + b)[..|a + b| - 1] == a + b[..|b| - 1];
      ExactWeightConcat(a, b[..|b| - 1]);
    }
  }

  predicate RoutesSane(outbounds: set<nat>, rules: seq<SourceRule>) {
    RulesDemand(RouteSet, outbounds, rules).sane
  }

  function RoutesWeight(outbounds: set<nat>, rules: seq<SourceRule>): nat {
    RulesDemand(RouteSet, outbounds, rules).weight
  }

  predicate CapturesSane(outbounds: set<nat>, shared: SharedRules) {
    && RoutesSane(outbounds, shared.bypass)
    && AllFiltered(Filters(shared.destinations)) && AllFiltered(shared.request) && AllFiltered(shared.http)
  }

  function CapturesWeight(outbounds: set<nat>, shared: SharedRules): nat {
    RoutesWeight(outbounds, shared.bypass)
    + FiltersWeight(Filters(shared.destinations)) + HttpWeight(shared.request) + HttpWeight(shared.http)
  }

  predicate PluginsSane(outbounds: set<nat>, shared: SharedRules) {
    RoutesSane(outbounds, shared.early) && RoutesSane(outbounds, shared.late)
  }

  function PluginsWeight(outbounds: set<nat>, shared: SharedRules): nat {
    RoutesWeight(outbounds, shared.early) + RoutesWeight(outbounds, shared.late)
  }

  function SharedDemand(outbounds: set<nat>, shared: SharedRules): Demand {
    Asks(CapturesSane(outbounds, shared) && PluginsSane(outbounds, shared),
         CapturesWeight(outbounds, shared) + PluginsWeight(outbounds, shared))
  }

  ghost function StatementsDemand(kind: Kind, outbounds: set<nat>, sets: RuleSets, rank: Ranks, bound: nat,
                                  statements: seq<Statement>): Demand
    requires Ranked(sets, rank) && Below(sets, rank, statements, bound)
    decreases bound, 1, |statements|
  {
    if statements == [] then Asks(true, 0)
    else
      var last := statements[|statements| - 1];
      StatementsDemand(kind, outbounds, sets, rank, bound, statements[..|statements| - 1]).Plus(
        StatementDemand(kind, outbounds, sets, rank, bound, last))
  }

  ghost function StatementDemand(kind: Kind, outbounds: set<nat>, sets: RuleSets, rank: Ranks, bound: nat,
                                 s: Statement): Demand
    requires Ranked(sets, rank) && Below(sets, rank, [s], bound)
    decreases bound, 0, 0
  {
    match s
    case RuleStatement(rule) => RuleDemand(kind, outbounds, rule)
    case UseStatement(name, condition) =>
      if name in sets then
        assert s in [s];
        UseDemand(kind, outbounds, sets, rank, name, condition)
      else Asks(false, 0)
  }

  // A condition is compiled even if it guards nothing.
  predicate Guards(condition: seq<Clause>) {
    ClausesFormed(condition) && Tests(condition) <= MAX_MATCH_SETS
  }

  // A use has no match sets of its own: it asks for the set it names, once plain
  // and once under its condition.
  ghost function UseDemand(kind: Kind, outbounds: set<nat>, sets: RuleSets, rank: Ranks, name: string,
                           condition: seq<Clause>): Demand
    requires Ranked(sets, rank) && name in sets
    decreases rank[name], 2, 0
  {
    var inner := StatementsDemand(kind, outbounds, sets, rank, rank[name], sets[name]);
    Demand(inner.sane && Guards(condition), 0, Both(inner.variants, {Key(kind, name, []), Key(kind, name, condition)}))
  }

  lemma {:induction false} StatementsDemandSnoc(kind: Kind, outbounds: set<nat>, sets: RuleSets, rank: Ranks,
                                                bound: nat, statements: seq<Statement>, s: Statement)
    requires Ranked(sets, rank) && Below(sets, rank, statements + [s], bound)
    ensures Below(sets, rank, statements, bound) && Below(sets, rank, [s], bound)
    ensures StatementsDemand(kind, outbounds, sets, rank, bound, statements + [s])
         == StatementsDemand(kind, outbounds, sets, rank, bound,
                             statements).Plus(StatementDemand(kind, outbounds, sets, rank, bound, s))
  {
    assert forall t <- statements :: t in statements + [s];
    assert s in statements + [s];
    assert (statements + [s])[..|statements|] == statements;
  }

  // A rule set is never a variant of its own statements.
  lemma {:induction false} VariantsBelow(kind: Kind, outbounds: set<nat>, sets: RuleSets, rank: Ranks, bound: nat,
                                         statements: seq<Statement>)
    requires Ranked(sets, rank) && Below(sets, rank, statements, bound)
    ensures forall k <- StatementsDemand(kind, outbounds, sets, rank, bound, statements).variants ::
      k.name in rank && rank[k.name] < bound
    decreases bound, |statements|
  {
    if statements != [] {
      var last := statements[|statements| - 1];
      VariantsBelow(kind, outbounds, sets, rank, bound, statements[..|statements| - 1]);
      assert last in statements;
      if last.UseStatement? && last.name in sets {
        VariantsBelow(kind, outbounds, sets, rank, rank[last.name], sets[last.name]);
        assert StatementDemand(kind, outbounds, sets, rank, bound, last)
          == UseDemand(kind, outbounds, sets, rank, last.name, last.condition);
      }
    }
  }

  // ------ What variants cost ------

  datatype Context = Context(outbounds: set<nat>, sets: RuleSets, rank: Ranks)

  // The entry of a block, in each phase that it has rules in.
  ghost function EntryWeight(kind: Kind, sets: RuleSets, rank: Ranks, name: string, condition: seq<Clause>): nat
    requires Ranked(sets, rank) && name in sets
  {
    var bound, statements := rank[name], sets[name];
    match kind
    case RouteSet => EntryLength(condition, NodesLength(Resolve(Routes, sets, rank, bound, statements)))
    case FlowSet =>
      EntryLength(condition, NodesLength(Resolve(Captures, sets, rank, bound, statements)))
      + EntryLength(condition, NodesLength(Resolve(Controls, sets, rank, bound, statements)))
  }

  // Match sets that a variant adds: the set's own rules, or the entry of a condition.
  ghost function Own(c: Context, key: Key): nat {
    if !Ranked(c.sets, c.rank) || key.name !in c.sets then 0
    else if key.condition == [] then
      StatementsDemand(key.kind, c.outbounds, c.sets, c.rank, c.rank[key.name], c.sets[key.name]).weight
    else EntryWeight(key.kind, c.sets, c.rank, key.name, key.condition)
  }

  ghost function Cost(c: Context, keys: set<Key>): nat {
    if keys == {} then 0
    else
      var key :| key in keys;
      Own(c, key) + Cost(c, keys - {key})
  }

  lemma {:induction false} CostWithout(c: Context, keys: set<Key>, key: Key)
    requires key in keys
    ensures Cost(c, keys) == Own(c, key) + Cost(c, keys - {key})
  {
    var first :| first in keys && Cost(c, keys) == Own(c, first) + Cost(c, keys - {first});
    if first != key {
      CostWithout(c, keys - {first}, key);
      CostWithout(c, keys - {key}, first);
      assert keys - {first} - {key} == keys - {key} - {first};
    }
  }

  lemma {:induction false} CostSplit(c: Context, a: set<Key>, b: set<Key>)
    requires a !! b
    ensures Cost(c, a + b) == Cost(c, a) + Cost(c, b)
  {
    if a == {} {
      assert a + b == b;
    } else {
      var key :| key in a;
      CostWithout(c, a, key);
      CostWithout(c, a + b, key);
      assert (a + b) - {key} == (a - {key}) + b;
      CostSplit(c, a - {key}, b);
    }
  }

  lemma {:induction false} CostGrows(c: Context, a: set<Key>, b: set<Key>)
    requires a <= b
    ensures Cost(c, a) <= Cost(c, b)
  {
    assert b == a + (b - a);
    CostSplit(c, a, b - a);
  }

  lemma {:induction false} CostMore(c: Context, a: set<Key>, b: set<Key>)
    ensures Cost(c, a + b) == Cost(c, a) + Cost(c, b - a)
  {
    assert a + b == a + (b - a);
    CostSplit(c, a, b - a);
  }

  lemma {:induction false} CostOne(c: Context, key: Key)
    ensures Cost(c, {key}) == Own(c, key)
  {
    CostWithout(c, {key}, key);
    assert {key} - {key} == {};
  }

  // How many variants there are.
  ghost function Size(keys: set<Key>): nat {
    if keys == {} then 0
    else
      var key :| key in keys;
      1 + Size(keys - {key})
  }

  lemma {:induction false} SizeIs(keys: set<Key>)
    ensures Size(keys) == |keys|
  {
    if keys != {} {
      var key :| key in keys && Size(keys) == 1 + Size(keys - {key});
      SizeIs(keys - {key});
    }
  }

  lemma {:induction false} SizeGrows(a: set<Key>, b: set<Key>)
    requires a <= b
    ensures Size(a) <= Size(b)
  {
    SizeIs(a);
    SizeIs(b);
    SubsetSize(a, b);
  }

  lemma {:induction false} SizeNext(a: set<Key>, key: Key)
    requires key !in a
    ensures Size(a + {key}) == Size(a) + 1
  {
    SizeIs(a);
    SizeIs(a + {key});
  }

  // ------ Meeting a demand ------

  // What the compiler's limits refer to.
  datatype Store = Store(rules: seq<Instr>, variants: set<Key>, context: Context)

  // The demand was met: it was well-formed, and took its own match sets and those
  // of every variant that was not there.
  ghost predicate Met(before: Store, d: Demand, after: Store) {
    match d
    case Demand(sane, weight, variants) =>
      && sane && after.context == before.context
      && after.variants == before.variants + variants
      && |after.rules| == |before.rules| + weight + Cost(before.context, variants - before.variants)
      && (Size(before.variants) <= MAX_MATCH_SETS ==> Size(after.variants) <= MAX_MATCH_SETS)
      && (Encodable(before.rules) ==> Encodable(after.rules))
  }

  // A well-formed demand that fits must be met.
  ghost predicate Due(before: Store, d: Demand) {
    match d
    case Demand(sane, weight, variants) =>
      && sane
      && |before.rules| + weight + Cost(before.context, variants - before.variants) <= MAX_MATCH_SETS
      && Size(before.variants + variants) <= MAX_MATCH_SETS
  }

  // Variants of two demands, seen from before either and from between them.
  lemma {:induction false} CostBoth(c: Context, a: set<Key>, d: set<Key>, e: set<Key>)
    ensures Cost(c, (d + e) - a) == Cost(c, d - a) + Cost(c, e - (a + d))
  {
    assert (d + e) - a == (d - a) + (e - (a + d));
    CostSplit(c, d - a, e - (a + d));
  }

  lemma {:induction false} MetBoth(a: Store, d: Demand, b: Store, e: Demand, c: Store)
    requires Met(a, d, b) && Met(b, e, c)
    ensures Met(a, d.Plus(e), c)
  {
    CostBoth(a.context, a.variants, d.variants, e.variants);
  }

  lemma {:induction false} DueFirst(a: Store, d: Demand, e: Demand)
    requires Due(a, d.Plus(e))
    ensures Due(a, d)
  {
    CostBoth(a.context, a.variants, d.variants, e.variants);
    SizeGrows(a.variants + d.variants, a.variants + d.Plus(e).variants);
  }

  lemma {:induction false} DueNext(a: Store, d: Demand, b: Store, e: Demand)
    requires Met(a, d, b) && Due(a, d.Plus(e))
    ensures Due(b, e)
  {
    CostBoth(a.context, a.variants, d.variants, e.variants);
    assert b.variants + e.variants == a.variants + d.Plus(e).variants;
  }

  // A demand whose own match sets are those of one new variant.
  ghost predicate ForOne(a: Store, d: Demand, key: Key) {
    key !in a.variants && key !in d.variants && d.weight == Own(a.context, key)
  }

  lemma {:induction false} CostAfresh(a: Store, d: Demand, key: Key)
    requires ForOne(a, d, key)
    ensures Cost(a.context, (d.variants + {key}) - a.variants) == d.weight + Cost(a.context, d.variants - a.variants)
    ensures a.variants + (d.variants + {key}) == (a.variants + d.variants) + {key}
    ensures Size(a.variants + (d.variants + {key})) == Size(a.variants + d.variants) + 1
  {
    CostOne(a.context, key);
    CostBoth(a.context, a.variants, d.variants, {key});
    assert {key} - (a.variants + d.variants) == {key};
    assert a.variants + (d.variants + {key}) == (a.variants + d.variants) + {key};
    SizeNext(a.variants + d.variants, key);
  }

  lemma {:induction false} DueAfresh(a: Store, d: Demand, key: Key)
    requires ForOne(a, d, key)
    ensures Due(a, Demand(d.sane, 0, d.variants + {key})) ==> Due(a, d)
  {
    CostAfresh(a, d, key);
  }

  lemma {:induction false} RoomFor(a: Store, d: Demand, b: Store, key: Key)
    requires ForOne(a, d, key) && Met(a, d, b)
    ensures Due(a, Demand(d.sane, 0, d.variants + {key})) ==> |b.variants| < MAX_MATCH_SETS
  {
    CostAfresh(a, d, key);
    SizeIs(b.variants);
  }

  lemma {:induction false} MetAfresh(a: Store, d: Demand, b: Store, key: Key)
    requires ForOne(a, d, key) && Met(a, d, b) && |b.variants| < MAX_MATCH_SETS
    ensures Met(a, Demand(d.sane, 0, d.variants + {key}), b.(variants := b.variants + {key}))
  {
    CostAfresh(a, d, key);
    SizeIs(b.variants);
  }

  // What was met within the limits was due.
  lemma {:induction false} MetIsDue(a: Store, d: Demand, b: Store)
    requires Met(a, d, b) && Size(a.variants) <= MAX_MATCH_SETS && |b.rules| <= MAX_MATCH_SETS
    ensures Due(a, d)
  {
  }

  // What is there already costs nothing.
  lemma {:induction false} MetAlready(a: Store, d: Demand)
    requires d.sane && d.weight == 0 && d.variants <= a.variants
    ensures Met(a, d, a)
  {
    assert a.variants + d.variants == a.variants && d.variants - a.variants == {};
  }

  lemma {:induction false} PlusNothing(kind: Kind, outbounds: set<nat>, d: Demand)
    ensures d.Plus(RulesDemand(kind, outbounds, [])) == d
  {
    assert d.variants + {} == d.variants;
  }

  lemma {:induction false} PlusAssociates(a: Demand, b: Demand, c: Demand)
    ensures a.Plus(b).Plus(c) == a.Plus(b.Plus(c))
  {
  }
}
