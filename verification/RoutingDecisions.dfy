/** What a policy decides, told from its rules as they are written: which of them
    stop a flow, force `must`, ask for a bump or capture. Nothing here refers to
    effects, nodes, instructions or the order in which they run. */
module RoutingDecisions {
  import opened Common
  import opened RoutingInstructions
  import opened RoutingRules
  import opened RoutingMeaning
  import opened RoutingPolicies

  // ------ Rules as written, with the conditions of the uses on the way ------

  ghost function Written(sets: RuleSets, rank: Ranks, bound: nat, statements: seq<Statement>): seq<SourceRule>
    requires Ranked(sets, rank) && Below(sets, rank, statements, bound)
    decreases bound, |statements|
  {
    if statements == [] then []
    else WrittenOne(sets, rank, bound, statements[0]) + Written(sets, rank, bound, statements[1..])
  }

  ghost function WrittenOne(sets: RuleSets, rank: Ranks, bound: nat, s: Statement): seq<SourceRule>
    requires Ranked(sets, rank) && Below(sets, rank, [s], bound)
    decreases bound, 0
  {
    match s
    case RuleStatement(rule) => [rule]
    case UseStatement(name, condition) =>
      if name in sets then
        assert s in [s];
        Guarded(condition, Written(sets, rank, rank[name], sets[name]))
      else []
  }

  ghost function Guarded(condition: seq<Clause>, rules: seq<SourceRule>): (r: seq<SourceRule>)
    ensures |r| == |rules|
    ensures forall k :: 0 <= k < |rules| ==> r[k] == SourceRule(condition + rules[k].filter, rules[k].action)
  {
    seq(|rules|, k requires 0 <= k < |rules| => SourceRule(condition + rules[k].filter, rules[k].action))
  }

  // ------ Routes ------

  // Evaluation that must not go beyond what the kernel can know.
  predicate AsKernel(input: Input) {
    !input.afterTarget && (input.kernel || input.bump.Some?)
  }

  // A route that may hold stops the flow, unless it is to be passed over while
  // its outbound is down.
  predicate Stops(r: SourceRule, input: Input) {
    && r.action.ToOutbound? && Maybe(r.filter, input)
    && !(r.action.target.skipNoalive && r.action.target.outbound in input.down)
  }

  ghost predicate First(rules: seq<SourceRule>, input: Input, i: nat) {
    i < |rules| && Stops(rules[i], input) && forall j :: 0 <= j < i ==> !Stops(rules[j], input)
  }

  predicate HandedOver(must: bool, captures: set<CaptureFlag>, e: Evaluation) {
    e.outbound == CONTROL_PLANE && e.mark == 0 && e.must == must && e.captures == captures && !e.matched
  }

  function When(asked: bool, flags: set<CaptureFlag>): set<CaptureFlag> {
    if asked then flags else {}
  }

  // What becomes of a flow that a route stops. Plain DNS that nothing exempts is
  // captured on the way.
  predicate Gives(r: SourceRule, bypass: bool, forced: bool, captures: set<CaptureFlag>, input: Input, e: Evaluation)
    requires r.action.ToOutbound?
  {
    if !Surely(r.filter, input) then HandedOver(forced, captures, e)
    else
      && e.outbound == r.action.target.outbound && e.mark == r.action.target.mark
      && (e.must <==> forced || r.action.target.must) && !e.matched
      && e.captures == captures + When(input.dnsPort && AsKernel(input) && !e.must && !bypass, {Dns})
  }

  ghost predicate Routed(rules: seq<SourceRule>, bypass: bool, forced: bool, captures: set<CaptureFlag>, input: Input,
                         e: Evaluation)
  {
    exists i: nat :: First(rules, input, i) && Gives(rules[i], bypass, forced, captures, input, e)
  }

  // ------ The whole decision ------

  predicate Forced(rules: seq<SourceRule>, input: Input) {
    exists r <- rules :: r.action.MustControl? && Surely(r.filter, input)
  }

  predicate MayBeForced(rules: seq<SourceRule>, input: Input) {
    exists r <- rules :: r.action.MustControl? && Maybe(r.filter, input)
  }

  predicate BumpAsked(rules: seq<SourceRule>, input: Input) {
    exists r <- rules :: r.action.BumpControl? && Maybe(r.filter, input)
  }

  predicate RewriteAsked(own: seq<SourceRule>, shared: seq<DestinationRule>, input: Input) {
    || (exists r <- own :: r.action.Dnat? && Maybe(r.filter, input))
    || (exists d <- shared :: Maybe(d.filter, input))
  }

  // HTTP is captured for admitted clients only.
  predicate HttpAsked(filters: seq<seq<Clause>>, input: Input) {
    Holds(HTTP_CLIENT, input) && exists f <- filters :: Maybe(f, input)
  }

  // Controls and HTTP captures come before routes. A kernel leaves bumped flows,
  // and nobody routes while it is open whether `must` is forced.
  ghost predicate FlowDecided(own: seq<SourceRule>, http: seq<seq<Clause>>, routes: seq<SourceRule>,
                              captures: set<CaptureFlag>, input: Input, e: Evaluation)
  {
    var seen := captures + When(HttpAsked(http, input), {Http});
    if (MayBeForced(own, input) && !Forced(own, input)) || (BumpAsked(own, input) && AsKernel(input)) then
      HandedOver(Forced(own, input), seen, e)
    else Routed(routes, false, Forced(own, input), seen, input, e)
  }

  // Until the target is selected, bypass routes come first, then rewriting and
  // HTTP requests, which a kernel hands over.
  ghost predicate Decreed(shared: SharedRules, own: seq<SourceRule>, routes: seq<SourceRule>, input: Input,
                          e: Evaluation)
  {
    var rewrite := RewriteAsked(own, shared.destinations, input);
    var request := HttpAsked(shared.request, input);
    if input.afterTarget then FlowDecided(own, shared.http, routes, {}, input, e)
    else if exists r <- shared.bypass :: Stops(r, input) then Routed(shared.bypass, true, false, {}, input, e)
    else if AsKernel(input) && rewrite then HandedOver(false, {Destination}, e)
    else if AsKernel(input) && request then HandedOver(false, {Http, HttpRequest}, e)
    else FlowDecided(own, shared.http, routes,
                     When(rewrite, {Destination}) + When(request, {Http, HttpRequest}), input, e)
  }

  // The routes of a policy in order; the fallback takes every flow.
  ghost function RoutesOf(shared: SharedRules, sets: RuleSets, rank: Ranks, bound: nat,
                          policy: Policy): seq<SourceRule>
    requires Ranked(sets, rank) && Below(sets, rank, policy.statements, bound)
  {
    shared.early + (Written(sets, rank, bound, policy.statements)
                    + (shared.late + [SourceRule([Clause(false, [Always])], ToOutbound(policy.fallback))]))
  }

  ghost predicate AsWritten(shared: SharedRules, sets: RuleSets, rank: Ranks, bound: nat, policy: Policy, input: Input,
                            e: Evaluation)
    requires Ranked(sets, rank) && Below(sets, rank, policy.rules, bound) && Below(sets, rank, policy.statements, bound)
  {
    Decreed(shared, Written(sets, rank, bound, policy.rules), RoutesOf(shared, sets, rank, bound, policy), input, e)
  }

  // ------ There is one such decision ------

  lemma {:induction false} RoutedOnce(rules: seq<SourceRule>, bypass: bool, forced: bool, captures: set<CaptureFlag>,
                                      input: Input, e: Evaluation, e': Evaluation)
    requires Routed(rules, bypass, forced, captures, input, e) && Routed(rules, bypass, forced, captures, input, e')
    ensures e == e'
  {
    var i: nat :| First(rules, input, i) && Gives(rules[i], bypass, forced, captures, input, e);
    var j: nat :| First(rules, input, j) && Gives(rules[j], bypass, forced, captures, input, e');
    assert !(i < j) && !(j < i);
  }

  lemma {:induction false} DecreedOnce(shared: SharedRules, own: seq<SourceRule>, routes: seq<SourceRule>,
                                       input: Input, e: Evaluation, e': Evaluation)
    requires Decreed(shared, own, routes, input, e) && Decreed(shared, own, routes, input, e')
    ensures e == e'
  {
    if !input.afterTarget && exists r <- shared.bypass :: Stops(r, input) {
      RoutedOnce(shared.bypass, true, false, {}, input, e, e');
    } else {
      var captures := if input.afterTarget then {} else
        When(RewriteAsked(own, shared.destinations, input), {Destination})
        + When(HttpAsked(shared.request, input), {Http, HttpRequest});
      if FlowDecided(own, shared.http, routes, captures, input, e) {
        FlowDecidedOnce(own, shared.http, routes, captures, input, e, e');
      }
    }
  }

  lemma {:induction false} FlowDecidedOnce(own: seq<SourceRule>, http: seq<seq<Clause>>, routes: seq<SourceRule>,
                                           captures: set<CaptureFlag>, input: Input, e: Evaluation, e': Evaluation)
    requires FlowDecided(own, http, routes, captures, input, e) && FlowDecided(own, http, routes, captures, input, e')
    ensures e == e'
  {
    var seen := captures + When(HttpAsked(http, input), {Http});
    if Routed(routes, false, Forced(own, input), seen, input, e)
      && Routed(routes, false, Forced(own, input), seen, input, e') {
      RoutedOnce(routes, false, Forced(own, input), seen, input, e, e');
    }
  }
}
