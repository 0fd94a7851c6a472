/** What compiled profiles decide: the policy's first match, always, and the same
    decision for every name folded into an ambiguous address. */
module RoutingTheorems {
  import opened Common
  import opened RoutingInstructions
  import opened RoutingSpans
  import opened RoutingRules
  import opened RoutingMeaning
  import opened RoutingEmission
  import opened RoutingMachine
  import opened RoutingSimulation
  import opened RoutingMatcher
  import opened RoutingPolicies
  import opened RoutingProfiles
  import opened RoutingBlocks
  import opened RoutingScopes
  import opened RoutingStages
  import opened RoutingFinish
  import Ambiguity = RoutingAmbiguity

  // A policy's rules with every use inlined, in evaluation order.
  ghost function PolicyRules(c: ProfileCompiler, policy: Policy, afterTarget: bool): seq<Rule>
    requires c.CanResolve()
    requires NodesFormed(Resolve(Controls, c.compiler.sets, c.compiler.rank, c.bound, policy.rules))
    requires NodesFormed(HttpCapture(c.rules.http, {Http}))
  {
    ProgramRules(c.Program(policy), afterTarget)
  }

  // Evaluating a compiled profile is first-match evaluation of its policy.
  lemma {:induction false} CompilerCorrect(c: ProfileCompiler, pool: seq<Instr>, kernelEnd: nat, p: CompiledProfile,
                                           policy: Policy, input: Input)
    requires CompiledFor(c, pool, kernelEnd, p, policy) && input.valid
    ensures Evaluate(pool, p.spans, input) == Settled(Exec(PolicyRules(c, policy, input.afterTarget), NO_FLOW, input))
  {
    RunProgram(c.Program(policy), input);
  }

  // The uncertainty position alone evaluates a compiled profile as a scope stack does.
  lemma {:induction false} CompiledScopes(c: ProfileCompiler, pool: seq<Instr>, kernelEnd: nat, p: CompiledProfile,
                                          policy: Policy, input: Input)
    requires CompiledFor(c, pool, kernelEnd, p, policy) && input.valid
    ensures Evaluate(pool, p.spans, input) == RunScoped(Flatten(pool, p.spans), 0, START, [], input)
  {
    CompiledNests(c, pool, kernelEnd, p, policy);
    OnePositionSuffices(Flatten(pool, p.spans), input);
  }

  // After target selection a profile evaluates as if it had no ingress spans.
  lemma {:induction false} CompiledStages(c: ProfileCompiler, pool: seq<Instr>, kernelEnd: nat, p: CompiledProfile,
                                          policy: Policy, input: Input)
    requires CompiledFor(c, pool, kernelEnd, p, policy) && input.afterTarget
    ensures InPool(pool, WithoutIngress(p.spans))
    ensures Evaluate(pool, p.spans, input) == Evaluate(pool, WithoutIngress(p.spans), input)
  {
    CompiledNests(c, pool, kernelEnd, p, policy);
    StageSkipIsSpanFilter(pool, p.spans, input);
  }

  // ------ Totality ------

  lemma {:induction false} ProgramRulesSnoc(segments: seq<Segment>, s: Segment, afterTarget: bool)
    requires s.phase != IngressPhase
    ensures ProgramRules(segments + [s], afterTarget) == ProgramRules(segments, afterTarget) + Inline([], s.nodes)
  {
    if segments == [] {
      assert [] + [s] == [s] && [s][1..] == [];
    } else {
      assert (segments + [s])[1..] == segments[1..] + [s];
      ProgramRulesSnoc(segments[1..], s, afterTarget);
    }
  }

  lemma {:induction false} FallbackDecides(t: Target, f: Flow, input: Input)
    requires !t.skipNoalive
    ensures Exec(Inline([], [FallbackLeaf(t)]), f, input).Done?
  {
    var rule := Rule(ANY, RouteTo(t.outbound, t.mark, t.must, t.skipNoalive, false));
    assert [FallbackLeaf(t)][1..] == [] && [] + ANY == ANY;
    assert Inline([], [FallbackLeaf(t)]) == [rule];
    Ambiguity.UnconditionalMatches(rule, input);
  }

  // Every evaluation of a compiled profile on valid addresses ends in a decision.
  lemma {:induction false} CompiledDecides(c: ProfileCompiler, pool: seq<Instr>, kernelEnd: nat, p: CompiledProfile,
                                           policy: Policy, input: Input)
    requires CompiledFor(c, pool, kernelEnd, p, policy)
    ensures Evaluate(pool, p.spans, input).Decided? <==> input.valid
  {
    if input.valid {
      CompilerCorrect(c, pool, kernelEnd, p, policy, input);
      var segments := c.Program(policy);
      var before, last := segments[..10], Segment(RoutePhase, [FallbackLeaf(policy.fallback)]);
      assert segments == before + [last];
      ProgramRulesSnoc(before, last, input.afterTarget);
      var rules := ProgramRules(before, input.afterTarget);
      ExecConcat(rules, Inline([], last.nodes), NO_FLOW, input);
      match Exec(rules, NO_FLOW, input)
      case Done(_) =>
      case Continue(f) => FallbackDecides(policy.fallback, f, input);
    }
  }

  // ------ Jumps of accepted programs ------

  ghost predicate Lost(o: Outcome) {
    o == Failed(InvalidJump) || o == Failed(InvalidConditionalJump)
  }

  // No evaluation of a program whose jumps fit ever jumps out of it.
  lemma {:induction false} NeverLost(code: seq<Op>, position: nat, m: Machine, input: Input)
    requires position <= |code| && JumpsFit(code, |code|)
    ensures !Lost(Run(code, position, m, input))
    decreases |code| - position
  {
    if position < |code| {
      if input.afterTarget && code[position].phase == IngressPhase {
        NeverLost(code, position + 1, m, input);
      } else {
        assert JumpFits(code, position);
        match Transit(code[position].instr, position, |code|, m, input)
        case Halt(_) =>
        case Goto(distance, next) => NeverLost(code, position + distance, next, input);
      }
    }
  }

  // ------ Ambiguity ------

  predicate InPart(part: Part, effect: Effect) {
    match part
    case Routes => effect.RouteTo?
    case Captures => effect.CaptureFor?
    case Controls => effect.ForceMust? || effect.RequestBump?
  }

  predicate AllIn(part: Part, rules: seq<Rule>) {
    forall r <- rules :: InPart(part, r.effect)
  }

  predicate NodesIn(part: Part, nodes: seq<Node>) {
    forall n <- nodes :: NodeIn(part, n)
  }

  predicate NodeIn(part: Part, node: Node) {
    match node
    case Leaf(rule) => InPart(part, rule.effect)
    case Scope(_, body) => forall n <- body :: NodeIn(part, n)
  }

  lemma {:induction false} InlineIn(part: Part, guard: seq<Clause>, nodes: seq<Node>)
    requires NodesIn(part, nodes)
    ensures AllIn(part, Inline(guard, nodes))
    decreases nodes
  {
    if nodes != [] {
      assert NodeIn(part, nodes[0]);
      InlineIn(part, guard, nodes[1..]);
      match nodes[0]
      case Leaf(_) =>
      case Scope(condition, body) => InlineIn(part, guard + condition, body);
    }
  }

  lemma {:induction false} ResolveIn(part: Part, sets: RuleSets, rank: Ranks, bound: nat, statements: seq<Statement>)
    requires Ranked(sets, rank) && Below(sets, rank, statements, bound)
    ensures NodesIn(part, Resolve(part, sets, rank, bound, statements))
    decreases bound, |statements|
  {
    if statements != [] {
      ResolveIn(part, sets, rank, bound, statements[1..]);
      match statements[0]
      case RuleStatement(_) =>
      case UseStatement(name, _) =>
        if name in sets {
          assert statements[0] in statements;
          ResolveIn(part, sets, rank, rank[name], sets[name]);
        }
    }
  }

  lemma {:induction false} LeavesIn(part: Part, rules: seq<SourceRule>)
    ensures NodesIn(part, Leaves(part, rules))
  {
    if rules != [] {
      LeavesIn(part, rules[1..]);
    }
  }

  lemma {:induction false} BypassIn(rules: seq<SourceRule>)
    ensures NodesIn(Routes, BypassLeaves(rules))
  {
    if rules != [] {
      BypassIn(rules[1..]);
    }
  }

  lemma {:induction false} CaptureLeavesIn(filters: seq<seq<Clause>>, flags: set<CaptureFlag>)
    ensures NodesIn(Captures, CaptureLeaves(filters, flags))
  {
    if filters != [] {
      CaptureLeavesIn(filters[1..], flags);
    }
  }

  lemma {:induction false} DestinationCapturesIn(rules: seq<DestinationRule>)
    ensures NodesIn(Captures, DestinationCaptures(rules))
  {
    if rules != [] {
      DestinationCapturesIn(rules[1..]);
    }
  }

  lemma {:induction false} HttpCaptureIn(filters: seq<seq<Clause>>, flags: set<CaptureFlag>)
    ensures NodesIn(Captures, HttpCapture(filters, flags))
  {
    CaptureLeavesIn(filters, flags);
  }

  // Closing one block in front of closed rules: captures and controls may leave
  // `must` open, routes need it settled.
  lemma {:induction false} ClosedBlock(part: Part, block: seq<Rule>, rest: seq<Rule>, open: bool)
    requires AllIn(part, block) && (part == Routes ==> !open)
    requires Ambiguity.Closed(rest, open) && (part == Controls ==> Ambiguity.Closed(rest, true))
    ensures Ambiguity.Closed(block + rest, open)
    decreases |block|
  {
    if block == [] {
      assert block + rest == rest;
    } else {
      assert (block + rest)[0] == block[0] && (block + rest)[1..] == block[1..] + rest;
      assert InPart(part, block[0].effect);
      ClosedBlock(part, block[1..], rest, if block[0].effect.ForceMust? then true else open);
    }
  }

  lemma {:induction false} ClosedSegment(part: Part, s: Segment, rest: seq<Segment>, afterTarget: bool, open: bool)
    requires NodesIn(part, s.nodes) && (part == Routes ==> !open)
    requires Ambiguity.Closed(ProgramRules(rest, afterTarget), open)
    requires part == Controls ==> Ambiguity.Closed(ProgramRules(rest, afterTarget), true)
    ensures Ambiguity.Closed(ProgramRules([s] + rest, afterTarget), open)
  {
    assert ([s] + rest)[1..] == rest;
    InlineIn(part, [], s.nodes);
    ClosedBlock(part, Inline([], s.nodes), ProgramRules(rest, afterTarget), open);
  }

  // Controls never go without the flow end that settles them.
  lemma {:induction false} ClosedFlow(controls: seq<Node>, http: seq<Node>, rest: seq<Segment>, afterTarget: bool)
    requires NodesFormed(controls) && NodesFormed(http)
    requires NodesIn(Controls, controls) && NodesIn(Captures, http)
    requires Ambiguity.Closed(ProgramRules(rest, afterTarget), false)
    ensures Ambiguity.Closed(ProgramRules(
              [Segment(FlowPhase, controls)] + ([Segment(FlowPhase, http)]
                                                + ([Segment(FlowPhase, FlowEnds(controls, http))] + rest)),
              afterTarget), false)
  {
    var flow, capture, end := Segment(FlowPhase, controls), Segment(FlowPhase, http),
      Segment(FlowPhase, FlowEnds(controls, http));
    var ending := [end] + rest;
    assert ending[1..] == rest;
    if end.nodes == [] {
      EmptyEmission([], controls);
      EmptyEmission([], http);
      assert ([capture] + ending)[1..] == ending && ([flow] + ([capture] + ending))[1..] == [capture] + ending;
      assert Inline([], end.nodes) == [];
      assert ProgramRules(ending, afterTarget) == ProgramRules(rest, afterTarget);
      assert ProgramRules([capture] + ending, afterTarget) == ProgramRules(rest, afterTarget);
    } else {
      assert [FLOW_END][1..] == [] && [] + ANY == ANY;
      assert Inline([], [FLOW_END]) == [Rule(ANY, EndFlow)];
      var after := ProgramRules(rest, afterTarget);
      assert ProgramRules(ending, afterTarget) == [Rule(ANY, EndFlow)] + after;
      assert ([Rule(ANY, EndFlow)] + after)[1..] == after;
      ClosedSegment(Captures, capture, ending, afterTarget, true);
      ClosedSegment(Captures, capture, ending, afterTarget, false);
      ClosedSegment(Controls, flow, [capture] + ending, afterTarget, false);
    }
  }

  lemma {:induction false} ClosedRoutes(early: seq<Node>, routes: seq<Node>, late: seq<Node>, fallback: Target,
                                        afterTarget: bool)
    requires NodesIn(Routes, early) && NodesIn(Routes, routes) && NodesIn(Routes, late)
    ensures Ambiguity.Closed(ProgramRules(
              [Segment(RoutePhase, early)] + ([Segment(RoutePhase, routes)] + ([Segment(RoutePhase, late)] +
              ([Segment(RoutePhase, [FallbackLeaf(fallback)])] + []))), afterTarget), false)
  {
    var rest := [Segment(RoutePhase, [FallbackLeaf(fallback)])] + [];
    ClosedSegment(Routes, Segment(RoutePhase, [FallbackLeaf(fallback)]), [], afterTarget, false);
    ClosedSegment(Routes, Segment(RoutePhase, late), rest, afterTarget, false);
    rest := [Segment(RoutePhase, late)] + rest;
    ClosedSegment(Routes, Segment(RoutePhase, routes), rest, afterTarget, false);
    rest := [Segment(RoutePhase, routes)] + rest;
    ClosedSegment(Routes, Segment(RoutePhase, early), rest, afterTarget, false);
  }

  lemma {:induction false} ClosedIngress(bypass: seq<Node>, captures: seq<Node>, shared: seq<Node>, request: seq<Node>,
                                         rest: seq<Segment>, afterTarget: bool)
    requires NodesIn(Routes, bypass) && NodesIn(Captures, captures) && NodesIn(Captures, shared)
      && NodesIn(Captures, request)
    requires Ambiguity.Closed(ProgramRules(rest, afterTarget), false)
    ensures Ambiguity.Closed(ProgramRules(
              [Segment(IngressPhase, bypass)] + ([Segment(IngressPhase, captures)] + ([Segment(IngressPhase, shared)] +
              ([Segment(IngressPhase, request)] + rest))), afterTarget), false)
  {
    ClosedSegment(Captures, Segment(IngressPhase, request), rest, afterTarget, false);
    var after := [Segment(IngressPhase, request)] + rest;
    ClosedSegment(Captures, Segment(IngressPhase, shared), after, afterTarget, false);
    after := [Segment(IngressPhase, shared)] + after;
    ClosedSegment(Captures, Segment(IngressPhase, captures), after, afterTarget, false);
    after := [Segment(IngressPhase, captures)] + after;
    ClosedSegment(Routes, Segment(IngressPhase, bypass), after, afterTarget, false);
  }

  // Every policy's program settles `must` before it routes.
  lemma {:induction false} PolicyClosed(shared: SharedRules, sets: RuleSets, rank: Ranks, bound: nat, policy: Policy,
                                        afterTarget: bool)
    requires Ranked(sets, rank) && Below(sets, rank, policy.rules, bound) && Below(sets, rank, policy.statements, bound)
    requires NodesFormed(Resolve(Controls, sets, rank, bound, policy.rules))
    requires NodesFormed(HttpCapture(shared.http, {Http}))
    ensures Ambiguity.Closed(ProgramRules(PolicySegments(shared, sets, rank, bound, policy), afterTarget), false)
  {
    ResolveIn(Captures, sets, rank, bound, policy.rules);
    ResolveIn(Controls, sets, rank, bound, policy.rules);
    ResolveIn(Routes, sets, rank, bound, policy.statements);
    LeavesIn(Routes, shared.early);
    LeavesIn(Routes, shared.late);
    BypassIn(shared.bypass);
    DestinationCapturesIn(shared.destinations);
    HttpCaptureIn(shared.request, {Http, HttpRequest});
    HttpCaptureIn(shared.http, {Http});
    var segments := PolicySegments(shared, sets, rank, bound, policy);
    ClosedProgram(segments, policy.fallback, afterTarget);
  }

  lemma {:induction false} ClosedProgram(segments: seq<Segment>, fallback: Target, afterTarget: bool)
    requires |segments| == 11
    requires forall i ::
      0 <= i < 11
      ==> segments[i].phase == if i < 4 then IngressPhase else if i < 7 then FlowPhase else RoutePhase
    requires NodesIn(Routes, segments[0].nodes)
    requires NodesIn(Captures, segments[1].nodes) && NodesIn(Captures, segments[2].nodes)
      && NodesIn(Captures, segments[3].nodes)
    requires NodesIn(Controls, segments[4].nodes) && NodesFormed(segments[4].nodes)
    requires NodesIn(Captures, segments[5].nodes) && NodesFormed(segments[5].nodes)
    requires segments[6].nodes == FlowEnds(segments[4].nodes, segments[5].nodes)
    requires NodesIn(Routes, segments[7].nodes) && NodesIn(Routes, segments[8].nodes)
      && NodesIn(Routes, segments[9].nodes)
    requires segments[10].nodes == [FallbackLeaf(fallback)]
    ensures Ambiguity.Closed(ProgramRules(segments, afterTarget), false)
  {
    Split(segments);
    ClosedRoutes(segments[7].nodes, segments[8].nodes, segments[9].nodes, fallback, afterTarget);
    ClosedFlow(segments[4].nodes, segments[5].nodes, segments[7..], afterTarget);
    ClosedIngress(segments[0].nodes, segments[1].nodes, segments[2].nodes, segments[3].nodes, segments[4..],
                  afterTarget);
  }

  lemma {:induction false} Split(segments: seq<Segment>)
    requires |segments| == 11
    ensures segments == [segments[0]] + ([segments[1]] + ([segments[2]] + ([segments[3]] + segments[4..])))
    ensures segments[4..] == [segments[4]] + ([segments[5]] + ([segments[6]] + segments[7..]))
    ensures segments[7..] == [segments[7]] + ([segments[8]] + ([segments[9]] + ([segments[10]] + [])))
  {
  }

  // A definite decision under folded bitmaps is the decision of every folded name.
  lemma {:induction false} CompiledApproximates(c: ProfileCompiler, pool: seq<Instr>, kernelEnd: nat,
                                                p: CompiledProfile, policy: Policy,
                                                folded: Input, name: Input)
    requires CompiledFor(c, pool, kernelEnd, p, policy)
    requires Ambiguity.NameOf(name, folded) && folded.valid
    requires Evaluate(pool, p.spans, folded).Decided? && Evaluate(pool, p.spans, folded).value.outbound != CONTROL_PLANE
    ensures Evaluate(pool, p.spans, name).Decided?
    ensures Ambiguity.SameDecision(Evaluate(pool, p.spans, folded).value, Evaluate(pool, p.spans, name).value)
  {
    CompilerCorrect(c, pool, kernelEnd, p, policy, folded);
    CompilerCorrect(c, pool, kernelEnd, p, policy, name);
    PolicyClosed(c.rules, c.compiler.sets, c.compiler.rank, c.bound, policy, folded.afterTarget);
    Ambiguity.ExecApproximates(PolicyRules(c, policy, folded.afterTarget), false, NO_FLOW, NO_FLOW, folded, name);
  }

  // ------ Destination captures ------

  // The generated captures test exactly the filters of the destination rules.
  ghost predicate CapturesOf(rules: seq<Rule>, guard: seq<Clause>, destinations: seq<DestinationRule>) {
    && |rules| == |destinations|
    && forall k :: 0 <= k < |rules| ==> rules[k] == Rule(guard + destinations[k].filter, CaptureFor({Destination}))
  }

  lemma {:induction false} ResolvedCaptures(sets: RuleSets, rank: Ranks, bound: nat, statements: seq<Statement>,
                                            guard: seq<Clause>)
    requires Ranked(sets, rank) && Below(sets, rank, statements, bound)
    ensures CapturesOf(Inline(guard, Resolve(Captures, sets, rank, bound, statements)), guard,
                       Destinations(sets, rank, bound, statements))
    decreases bound, |statements|
  {
    if statements != [] {
      ResolvedCapture(sets, rank, bound, statements[0], guard);
      ResolvedCaptures(sets, rank, bound, statements[1..], guard);
      InlineConcat(guard, ResolveOne(Captures, sets, rank, bound, statements[0]),
                   Resolve(Captures, sets, rank, bound, statements[1..]));
    }
  }

  lemma {:induction false} ResolvedCapture(sets: RuleSets, rank: Ranks, bound: nat, s: Statement, guard: seq<Clause>)
    requires Ranked(sets, rank) && Below(sets, rank, [s], bound)
    ensures CapturesOf(Inline(guard, ResolveOne(Captures, sets, rank, bound, s)), guard,
                       DestinationsOne(sets, rank, bound, s))
    decreases bound, 0
  {
    match s
    case RuleStatement(rule) =>
      if rule.action.Dnat? {
        assert LeafOf(Captures, rule)[1..] == [];
      }
    case UseStatement(name, condition) =>
      if name in sets {
        assert s in [s];
        ResolvedCaptures(sets, rank, rank[name], sets[name], guard + condition);
        var body := Resolve(Captures, sets, rank, rank[name], sets[name]);
        assert [Scope(condition, body)][1..] == [];
        assert Inline(guard, [Scope(condition, body)]) == Inline(guard + condition, body);
        var inner := Destinations(sets, rank, rank[name], sets[name]);
        forall k | 0 <= k < |inner|
          ensures (guard + condition) + inner[k].filter == guard + (condition + inner[k].filter)
        {
        }
      }
  }

  lemma {:induction false} SharedCaptures(rules: seq<DestinationRule>)
    ensures CapturesOf(Inline([], DestinationCaptures(rules)), [], rules)
  {
    if rules != [] {
      SharedCaptures(rules[1..]);
      InlineConcat([], [Leaf(Rule(rules[0].filter, CaptureFor({Destination})))], DestinationCaptures(rules[1..]));
    }
  }

  // In kernel mode a destination capture that may hold hands the flow over.
  lemma {:induction false} CaptureHandsOver(rules: seq<Rule>, destinations: seq<DestinationRule>, k: nat, f: Flow,
                                            input: Input)
    requires CapturesOf(rules, [], destinations) && k < |rules|
    requires input.SimulatesKernel() && AllOf(destinations[k].filter, input) != MISS
    ensures Exec(rules, f, input) == Done(ToControlPlane(false, f.captures + {Destination}))
    decreases k
  {
    assert [] + destinations[0].filter == destinations[0].filter;
    if AllOf(rules[0].clauses, input) == MISS {
      CaptureHandsOver(rules[1..], destinations[1..], k - 1, f, input);
    } else {
      assert Destination in {Destination, HttpRequest} * (f.captures + {Destination});
    }
  }

  lemma {:induction false} RoutesKeepFlow(rules: seq<Rule>, f: Flow, input: Input)
    requires AllIn(Routes, rules)
    ensures Exec(rules, f, input).Continue? ==> Exec(rules, f, input).flow == f
  {
    if rules != [] {
      assert InPart(Routes, rules[0].effect);
      RoutesKeepFlow(rules[1..], f, input);
    }
  }

  // A compiled exact predicate tests its rule's filter.
  lemma {:induction false} ExactDecides(pool: seq<Instr>, p: DestinationPredicate, rule: DestinationRule, input: Input)
    requires ExactFor(pool, p, rule) && input.valid
    ensures Evaluate(pool, [p.span], input) == Decided(Evaluation(0, 0, false, {}, AllOf(rule.filter, input) != MISS))
  {
    RunProgram(ExactProgram(rule.filter), input);
    ExactRules(rule.filter, input.afterTarget);
    ExactRun(rule.filter, input);
  }

  lemma {:induction false} ExactRun(filter: seq<Clause>, input: Input)
    requires input.valid
    ensures Exec([Rule(filter, Accept), Rule(ANY, Reject)], NO_FLOW, input)
      == Done(Evaluation(0, 0, false, {}, AllOf(filter, input) != MISS))
  {
    var accept, reject := Rule(filter, Accept), Rule(ANY, Reject);
    assert [accept, reject][1..] == [reject];
    Ambiguity.UnconditionalMatches(reject, input);
  }

  lemma {:induction false} ExactRules(filter: seq<Clause>, afterTarget: bool)
    ensures ProgramRules(ExactProgram(filter), afterTarget) == [Rule(filter, Accept), Rule(ANY, Reject)]
  {
    var accept, reject := Rule(filter, Accept), Rule(ANY, Reject);
    var nodes := [Leaf(accept), Leaf(reject)];
    assert nodes[1..] == [Leaf(reject)] && [Leaf(reject)][1..] == [];
    assert [] + filter == filter && [] + ANY == ANY;
    assert Inline([], [Leaf(reject)]) == [reject];
    assert Inline([], nodes) == [accept, reject];
    assert ExactProgram(filter)[1..] == [];
  }

  ghost predicate ExactMatches(pool: seq<Instr>, p: DestinationPredicate, input: Input) {
    && InPool(pool, [p.span])
    && Evaluate(pool, [p.span], input).Decided? && Evaluate(pool, [p.span], input).value.matched
  }

  // Rules of the ingress phase before and including the destination captures.
  lemma {:induction false} CapturesFirst(bypass: seq<Rule>, captures: seq<Rule>, shared: seq<Rule>, rest: seq<Rule>,
                                         own: seq<DestinationRule>, others: seq<DestinationRule>, k: nat, input: Input)
    requires AllIn(Routes, bypass) && CapturesOf(captures, [], own) && CapturesOf(shared, [], others)
    requires k < |own + others| && input.SimulatesKernel() && AllOf((own + others)[k].filter, input) != MISS
    ensures Exec(bypass + (captures + (shared + rest)), NO_FLOW, input) ==
      match Exec(bypass, NO_FLOW, input)
      case Done(value) => Done(value)
      case Continue(_) => Done(ToControlPlane(false, {Destination}))
  {
    RoutesKeepFlow(bypass, NO_FLOW, input);
    ExecConcat(bypass, captures + (shared + rest), NO_FLOW, input);
    var all := captures + shared;
    forall i | 0 <= i < |all|
      ensures all[i] == Rule([] + (own + others)[i].filter, CaptureFor({Destination}))
    {
    }
    CaptureHandsOver(all, own + others, k, NO_FLOW, input);
    ExecConcat(all, rest, NO_FLOW, input);
    assert captures + (shared + rest) == all + rest;
  }

  // If an exact destination predicate matches some name folded into the address,
  // the kernel decision is a bypass or a hand-over flagged for the destination.
  lemma {:induction false} NoMissedDestination(c: ProfileCompiler, pool: seq<Instr>, kernelEnd: nat,
                                               p: CompiledProfile, policy: Policy,
                                               k: nat, folded: Input, name: Input)
    requires CompiledFor(c, pool, kernelEnd, p, policy) && k < |p.destinations|
    requires Ambiguity.NameOf(name, folded) && folded.valid && folded.kernel && !folded.afterTarget
    requires ExactMatches(pool, p.destinations[k], name)
    ensures Evaluate(pool, p.spans, folded) ==
      match Exec(Inline([], BypassLeaves(c.rules.bypass)), NO_FLOW, folded)
      case Done(value) => Decided(value)
      case Continue(_) => Decided(ToControlPlane(false, {Destination}))
  {
    var own, others := Destinations(c.compiler.sets, c.compiler.rank, c.bound, policy.rules), c.rules.destinations;
    assert ExactFor(pool, p.destinations[k], (own + others)[k]);
    ExactDecides(pool, p.destinations[k], (own + others)[k], name);
    Ambiguity.AllOfApproximates((own + others)[k].filter, folded, name);
    CompilerCorrect(c, pool, kernelEnd, p, policy, folded);
    var segments := c.Program(policy);
    BypassIn(c.rules.bypass);
    InlineIn(Routes, [], BypassLeaves(c.rules.bypass));
    ResolvedCaptures(c.compiler.sets, c.compiler.rank, c.bound, policy.rules, []);
    SharedCaptures(others);
    IngressRules(segments);
    CapturesFirst(Inline([], segments[0].nodes), Inline([], segments[1].nodes), Inline([], segments[2].nodes),
                  ProgramRules(segments[3..], false), own, others, k, folded);
  }

  lemma {:induction false} IngressRules(segments: seq<Segment>)
    requires |segments| >= 3
    ensures ProgramRules(segments, false) ==
            Inline([], segments[0].nodes) + (Inline([], segments[1].nodes)
                                             + (Inline([], segments[2].nodes) + ProgramRules(segments[3..], false)))
  {
    assert segments[1..][1..] == segments[2..] && segments[2..][1..] == segments[3..];
    assert ProgramRules(segments[2..], false) == Inline([], segments[2].nodes) + ProgramRules(segments[3..], false);
    assert ProgramRules(segments[1..], false) == Inline([], segments[1].nodes) + ProgramRules(segments[2..], false);
  }

  // ------ Destination rewriting ------

  // Destination rules of a policy in matching order: its own, then the shared ones.
  ghost function PolicyDestinations(c: ProfileCompiler, policy: Policy): seq<DestinationRule>
    requires c.CanResolve()
  {
    Destinations(c.compiler.sets, c.compiler.rank, c.bound, policy.rules) + c.rules.destinations
  }

  // Without a name, a rule that tests a domain cannot be proved and is passed over.
  predicate Applies(rule: DestinationRule, named: bool, input: Input) {
    Maybe(rule.filter, input) && (named || forall c <- rule.filter :: forall t <- c.tests :: !t.Domain?)
  }

  // What becomes of a flow to a port: the first rule that applies rewrites it. Of
  // several addresses, the choice is a hash of the flow and the rule, or random.
  ghost predicate RewrittenBy(rules: seq<DestinationRule>, named: bool, input: Input, port: nat, pick: nat -> nat,
                              destination: Option<(nat, nat)>)
  {
    match destination
    case None => forall k :: 0 <= k < |rules| ==> !Applies(rules[k], named, input)
    case Some(d) =>
      exists k :: 0 <= k < |rules| && Applies(rules[k], named, input)
        && (forall j :: 0 <= j < k ==> !Applies(rules[j], named, input))
        && d.0 == ([rules[k].rewrite.target] + rules[k].rewrite.others)[pick(k) % (|rules[k].rewrite.others| + 1)]
        && d.1 == (if rules[k].rewrite.port != 0 then rules[k].rewrite.port else port)
  }

  // Profiles are numbered from one, and zero is the first of them.
  const DEFAULT_PROFILE: nat := 1

  function ProfileOf(id: nat): (number: nat)
    ensures number >= 1
  {
    if id == 0 then DEFAULT_PROFILE else id
  }

  method MatchDestination(ghost c: ProfileCompiler, m: Matcher, id: nat, ghost policies: seq<Policy>, named: bool,
                          input: Input, port: nat, pick: nat -> nat)
    returns (destination: Option<(nat, nat)>, failed: bool)
    requires MatcherFor(c, m, policies)
    ensures failed ==> destination == None && (ProfileOf(id) > |policies| || !input.valid)
    ensures ProfileOf(id) > |policies| ==> failed
    ensures !failed && input.valid
      ==> c.CanResolve() && RewrittenBy(PolicyDestinations(c, policies[ProfileOf(id) - 1]), named, input, port, pick,
                                        destination)
  {
    var number := if id == 0 then DEFAULT_PROFILE else id;
    if number > |m.profiles| {
      return None, true;
    }
    var profile := m.profiles[number - 1];
    ghost var policy := policies[ProfileOf(id) - 1];
    assert CompiledFor(c, m.pool, m.kernelEnd, profile, policy);
    destination, failed := MatchPredicates(m.pool, profile.destinations, PolicyDestinations(c, policy), named, input,
                                           port, pick);
  }

  method MatchPredicates(pool: seq<Instr>, predicates: seq<DestinationPredicate>, ghost rules: seq<DestinationRule>,
                         named: bool, input: Input, port: nat, pick: nat -> nat)
    returns (destination: Option<(nat, nat)>, failed: bool)
    requires AllExact(pool, predicates, rules)
    ensures failed ==> destination == None && !input.valid
    ensures input.valid ==> RewrittenBy(rules, named, input, port, pick, destination)
  {
    destination, failed := None, false;
    var i := 0;
    while i < |predicates|
      invariant 0 <= i <= |predicates|
      invariant input.valid ==> forall k :: 0 <= k < i ==> !Applies(rules[k], named, input)
    {
      assert ExactFor(pool, predicates[i], rules[i]);
      RuleMeans(rules[i].filter, input);
      if named || !predicates[i].domain {
        var outcome := EvaluateSpans(pool, [predicates[i].span], input);
        if input.valid {
          ExactDecides(pool, predicates[i], rules[i], input);
        }
        if outcome.Failed? {
          return None, true;
        }
        if outcome.value.matched {
          var rewrite := predicates[i].rewrite;
          var targets := rewrite.Targets();
          return Some((targets[pick(i) % |targets|], if rewrite.port == 0 then port else rewrite.port)), false;
        }
      }
      i := i + 1;
    }
  }
}
