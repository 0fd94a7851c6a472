/** Routing configuration as written: policies of ordered rules and `use`
    references to shared rule sets, and the program each policy stands for. */
module RoutingPolicies {
  import opened Common
  import opened RoutingInstructions
  import opened RoutingRules
  import opened RoutingEmission
  import opened RoutingSimulation

  datatype Target = Target(outbound: nat, mark: nat, must: bool, skipNoalive: bool)

  // Where a matching flow goes instead: one of at least one address, and a port
  // unless it is zero.
  datatype Rewrite = Rewrite(target: nat, others: seq<nat>, port: nat) {
    function Targets(): (targets: seq<nat>)
      ensures targets != []
    {
      [target] + others
    }
  }

  datatype SourceAction = ToOutbound(target: Target) | Dnat(rewrite: Rewrite) | MustControl | BumpControl

  datatype SourceRule = SourceRule(filter: seq<Clause>, action: SourceAction)

  // A rule of its own, or a reference whose condition guards the whole set it names.
  datatype Statement = RuleStatement(rule: SourceRule) | UseStatement(name: string, condition: seq<Clause>)

  // `rules` holds flow statements (dnat, must, bump), `statements` routes.
  datatype Policy = Policy(rules: seq<Statement>, statements: seq<Statement>, fallback: Target)

  datatype DestinationRule = DestinationRule(filter: seq<Clause>, rewrite: Rewrite)

  // The rules that belong to no policy and run in all of them.
  datatype SharedRules = SharedRules(
    bypass: seq<SourceRule>,
    destinations: seq<DestinationRule>,
    request: seq<seq<Clause>>,
    http: seq<seq<Clause>>,
    early: seq<SourceRule>,
    late: seq<SourceRule>)

  type RuleSets = map<string, seq<Statement>>
  type Ranks = map<string, nat>

  // An acyclic reference graph: every reference goes down in rank.
  ghost predicate Ranked(sets: RuleSets, rank: Ranks) {
    forall name :: name in sets ==> name in rank && Below(sets, rank, sets[name], rank[name])
  }

  ghost predicate Below(sets: RuleSets, rank: Ranks, statements: seq<Statement>, bound: nat) {
    forall s <- statements :: s.UseStatement? && s.name in sets ==> s.name in rank && rank[s.name] < bound
  }

  // The three programs a statement list contributes to.
  datatype Part = Routes | Captures | Controls

  function PhaseOf(part: Part): Phase {
    match part
    case Routes => RoutePhase
    case Captures => IngressPhase
    case Controls => FlowPhase
  }

  function EffectIn(part: Part, action: SourceAction): Option<Effect> {
    match (part, action)
    case (Routes, ToOutbound(t)) => Some(RouteTo(t.outbound, t.mark, t.must, t.skipNoalive, false))
    case (Captures, Dnat(_)) => Some(CaptureFor({Destination}))
    case (Controls, MustControl) => Some(ForceMust)
    case (Controls, BumpControl) => Some(RequestBump)
    case _ => None
  }

  function LeafOf(part: Part, rule: SourceRule): seq<Node> {
    match EffectIn(part, rule.action)
    case Some(effect) => [Leaf(Rule(rule.filter, effect))]
    case None => []
  }

  function Leaves(part: Part, rules: seq<SourceRule>): seq<Node> {
    if rules == [] then [] else LeafOf(part, rules[0]) + Leaves(part, rules[1..])
  }

  // A statement list with every reference replaced by what it names.
  ghost function Resolve(part: Part, sets: RuleSets, rank: Ranks, bound: nat, statements: seq<Statement>): seq<Node>
    requires Ranked(sets, rank) && Below(sets, rank, statements, bound)
    decreases bound, |statements|
  {
    if statements == [] then []
    else ResolveOne(part, sets, rank, bound, statements[0]) + Resolve(part, sets, rank, bound, statements[1..])
  }

  ghost function ResolveOne(part: Part, sets: RuleSets, rank: Ranks, bound: nat, s: Statement): seq<Node>
    requires Ranked(sets, rank) && Below(sets, rank, [s], bound)
    decreases bound, 0
  {
    match s
    case RuleStatement(rule) => LeafOf(part, rule)
    case UseStatement(name, condition) =>
      if name in sets then
        assert s in [s];
        [Scope(condition, Resolve(part, sets, rank, rank[name], sets[name]))]
      else []
  }

  // The exact rules a use contributes: each filter starts with the conditions of
  // the uses on the way.
  function Conditioned(condition: seq<Clause>, rules: seq<DestinationRule>): (r: seq<DestinationRule>)
    ensures |r| == |rules|
    ensures forall k :: 0 <= k < |rules| ==> r[k] == DestinationRule(condition + rules[k].filter, rules[k].rewrite)
  {
    seq(|rules|, k requires 0 <= k < |rules| => DestinationRule(condition + rules[k].filter, rules[k].rewrite))
  }

  function DestinationOf(rule: SourceRule): seq<DestinationRule> {
    if rule.action.Dnat? then [DestinationRule(rule.filter, rule.action.rewrite)] else []
  }

  function DestinationsIn(rules: seq<SourceRule>): seq<DestinationRule> {
    if rules == [] then [] else DestinationOf(rules[0]) + DestinationsIn(rules[1..])
  }

  ghost function Destinations(sets: RuleSets, rank: Ranks, bound: nat, statements: seq<Statement>): seq<DestinationRule>
    requires Ranked(sets, rank) && Below(sets, rank, statements, bound)
    decreases bound, |statements|
  {
    if statements == [] then []
    else DestinationsOne(sets, rank, bound, statements[0]) + Destinations(sets, rank, bound, statements[1..])
  }

  ghost function DestinationsOne(sets: RuleSets, rank: Ranks, bound: nat, s: Statement): seq<DestinationRule>
    requires Ranked(sets, rank) && Below(sets, rank, [s], bound)
    decreases bound, 0
  {
    match s
    case RuleStatement(rule) => DestinationOf(rule)
    case UseStatement(name, condition) =>
      if name in sets then
        assert s in [s];
        Conditioned(condition, Destinations(sets, rank, rank[name], sets[name]))
      else []
  }

  // Client admission guards every HTTP capture.
  const HTTP_CLIENT := Fact(0)
  const ADMITTED := [Clause(false, [HTTP_CLIENT])]
  const ANY := [Clause(false, [Always])]

  function CaptureLeaves(filters: seq<seq<Clause>>, flags: set<CaptureFlag>): seq<Node> {
    if filters == [] then [] else [Leaf(Rule(filters[0], CaptureFor(flags)))] + CaptureLeaves(filters[1..], flags)
  }

  function HttpCapture(filters: seq<seq<Clause>>, flags: set<CaptureFlag>): seq<Node> {
    if filters == [] then [] else [Scope(ADMITTED, CaptureLeaves(filters, flags))]
  }

  function BypassLeaves(rules: seq<SourceRule>): seq<Node> {
    if rules == [] then []
    else (match rules[0].action
          case ToOutbound(t) => [Leaf(Rule(rules[0].filter, RouteTo(t.outbound, t.mark, t.must, t.skipNoalive, true)))]
          case _ => []) + BypassLeaves(rules[1..])
  }

  function DestinationCaptures(rules: seq<DestinationRule>): seq<Node> {
    if rules == [] then [] else
      [Leaf(Rule(rules[0].filter, CaptureFor({Destination})))]
      + DestinationCaptures(rules[1..])
  }

  function FallbackLeaf(t: Target): Node {
    Leaf(Rule(ANY, RouteTo(t.outbound, t.mark, t.must, t.skipNoalive, false)))
  }

  const FLOW_END := Leaf(Rule(ANY, EndFlow))

  // Flow controls and captures that need a closing flow end.
  function FlowEnds(controls: seq<Node>, http: seq<Node>): seq<Node>
    requires NodesFormed(controls) && NodesFormed(http)
  {
    if EmitNodes(controls) == [] && EmitNodes(http) == [] then [] else [FLOW_END]
  }

  // The whole program of a policy, in execution order.
  ghost function PolicySegments(shared: SharedRules, sets: RuleSets, rank: Ranks, bound: nat,
                                policy: Policy): seq<Segment>
    requires Ranked(sets, rank) && Below(sets, rank, policy.rules, bound) && Below(sets, rank, policy.statements, bound)
    requires NodesFormed(Resolve(Controls, sets, rank, bound, policy.rules))
    requires NodesFormed(HttpCapture(shared.http, {Http}))
  {
    var controls := Resolve(Controls, sets, rank, bound, policy.rules);
    var http := HttpCapture(shared.http, {Http});
    [ Segment(IngressPhase, BypassLeaves(shared.bypass)),
      Segment(IngressPhase, Resolve(Captures, sets, rank, bound, policy.rules)),
      Segment(IngressPhase, DestinationCaptures(shared.destinations)),
      Segment(IngressPhase, HttpCapture(shared.request, {Http, HttpRequest})),
      Segment(FlowPhase, controls),
      Segment(FlowPhase, http),
      Segment(FlowPhase, FlowEnds(controls, http)),
      Segment(RoutePhase, Leaves(Routes, shared.early)),
      Segment(RoutePhase, Resolve(Routes, sets, rank, bound, policy.statements)),
      Segment(RoutePhase, Leaves(Routes, shared.late)),
      Segment(RoutePhase, [FallbackLeaf(policy.fallback)]) ]
  }
}
