/** Compiled profiles decide what the rules of their policies say, rule by rule. */
module RoutingWritten {
  import opened Common
  import opened RoutingInstructions
  import opened RoutingRules
  import opened RoutingMeaning
  import opened RoutingEmission
  import opened RoutingSimulation
  import opened RoutingMatcher
  import opened RoutingPolicies
  import opened RoutingDecisions
  import opened RoutingProfiles
  import opened RoutingFinish
  import opened RoutingTheorems
  import Ambiguity = RoutingAmbiguity

  // ------ Inlining keeps every written rule ------

  ghost function Translated(part: Part, rules: seq<SourceRule>): seq<Rule> {
    Inline([], Leaves(part, rules))
  }

  lemma {:induction false} InlineOne(guard: seq<Clause>, rule: Rule)
    ensures Inline(guard, [Leaf(rule)]) == [Rule(guard + rule.clauses, rule.effect)]
  {
    assert [Leaf(rule)][1..] == [];
  }

  lemma {:induction false} LeavesConcat(part: Part, a: seq<SourceRule>, b: seq<SourceRule>)
    ensures Leaves(part, a + b) == Leaves(part, a) + Leaves(part, b)
  {
    if a == [] {
      assert a + b == b;
    } else {
      assert (a + b)[1..] == a[1..] + b;
      LeavesConcat(part, a[1..], b);
    }
  }

  lemma {:induction false} TranslatedConcat(part: Part, a: seq<SourceRule>, b: seq<SourceRule>)
    ensures Translated(part, a + b) == Translated(part, a) + Translated(part, b)
  {
    LeavesConcat(part, a, b);
    InlineConcat([], Leaves(part, a), Leaves(part, b));
  }

  lemma {:induction false} TranslatedOne(part: Part, guard: seq<Clause>, rule: SourceRule)
    ensures Inline(guard, LeafOf(part, rule)) == Translated(part, [SourceRule(guard + rule.filter, rule.action)])
    ensures Translated(part, [rule]) ==
      match EffectIn(part, rule.action)
      case Some(effect) => [Rule(rule.filter, effect)]
      case None => []
  {
    var guarded := SourceRule(guard + rule.filter, rule.action);
    assert [guarded][1..] == [] && [rule][1..] == [];
    assert Leaves(part, [guarded]) == LeafOf(part, guarded) && Leaves(part, [rule]) == LeafOf(part, rule);
    match EffectIn(part, rule.action)
    case None =>
    case Some(effect) =>
      InlineOne(guard, Rule(rule.filter, effect));
      InlineOne([], Rule(guarded.filter, effect));
      InlineOne([], Rule(rule.filter, effect));
      assert [] + guarded.filter == guarded.filter && [] + rule.filter == rule.filter;
  }

  lemma {:induction false} GuardedConcat(guard: seq<Clause>, a: seq<SourceRule>, b: seq<SourceRule>)
    ensures Guarded(guard, a + b) == Guarded(guard, a) + Guarded(guard, b)
  {
  }

  lemma {:induction false} GuardedTwice(guard: seq<Clause>, condition: seq<Clause>, rules: seq<SourceRule>)
    ensures Guarded(guard, Guarded(condition, rules)) == Guarded(guard + condition, rules)
  {
    forall k | 0 <= k < |rules|
      ensures guard + (condition + rules[k].filter) == (guard + condition) + rules[k].filter
    {
    }
  }

  lemma {:induction false} GuardedByNothing(rules: seq<SourceRule>)
    ensures Guarded([], rules) == rules
  {
    forall k | 0 <= k < |rules|
      ensures [] + rules[k].filter == rules[k].filter
    {
    }
  }

  // A resolved statement list means its written rules, part by part.
  lemma {:induction false} ResolvedAsWritten(part: Part, sets: RuleSets, rank: Ranks, bound: nat,
                                             statements: seq<Statement>, guard: seq<Clause>)
    requires Ranked(sets, rank) && Below(sets, rank, statements, bound)
    ensures Inline(guard, Resolve(part, sets, rank, bound, statements))
      == Translated(part, Guarded(guard, Written(sets, rank, bound, statements)))
    decreases bound, |statements|
  {
    if statements != [] {
      var first, rest := WrittenOne(sets, rank, bound, statements[0]), Written(sets, rank, bound, statements[1..]);
      ResolvedOneAsWritten(part, sets, rank, bound, statements[0], guard);
      ResolvedAsWritten(part, sets, rank, bound, statements[1..], guard);
      InlineConcat(guard, ResolveOne(part, sets, rank, bound, statements[0]),
                   Resolve(part, sets, rank, bound, statements[1..]));
      GuardedConcat(guard, first, rest);
      TranslatedConcat(part, Guarded(guard, first), Guarded(guard, rest));
    }
  }

  lemma {:induction false} ResolvedOneAsWritten(part: Part, sets: RuleSets, rank: Ranks, bound: nat, s: Statement,
                                                guard: seq<Clause>)
    requires Ranked(sets, rank) && Below(sets, rank, [s], bound)
    ensures Inline(guard, ResolveOne(part, sets, rank, bound, s))
      == Translated(part, Guarded(guard, WrittenOne(sets, rank, bound, s)))
    decreases bound, 0
  {
    match s
    case RuleStatement(rule) =>
      TranslatedOne(part, guard, rule);
      assert Guarded(guard, [rule]) == [SourceRule(guard + rule.filter, rule.action)];
    case UseStatement(name, condition) =>
      if name in sets {
        assert s in [s];
        ResolvedAsWritten(part, sets, rank, rank[name], sets[name], guard + condition);
        var body := Resolve(part, sets, rank, rank[name], sets[name]);
        assert [Scope(condition, body)][1..] == [];
        assert Inline(guard, [Scope(condition, body)]) == Inline(guard + condition, body);
        GuardedTwice(guard, condition, Written(sets, rank, rank[name], sets[name]));
      }
  }

  // ------ Routes ------

  ghost function RouteRules(rules: seq<SourceRule>, bypass: bool): seq<Rule> {
    if bypass then Inline([], BypassLeaves(rules)) else Translated(Routes, rules)
  }

  lemma {:induction false} RouteRulesHead(rules: seq<SourceRule>, bypass: bool)
    requires rules != []
    ensures RouteRules(rules, bypass) == RouteRule(rules[0], bypass) + RouteRules(rules[1..], bypass)
  {
    if bypass {
      var first := BypassLeaf(rules[0]);
      InlineConcat([], first, BypassLeaves(rules[1..]));
      if rules[0].action.ToOutbound? {
        InlineOne([], first[0].rule);
        assert [] + rules[0].filter == rules[0].filter;
      }
    } else {
      assert rules == [rules[0]] + rules[1..];
      TranslatedConcat(Routes, [rules[0]], rules[1..]);
      TranslatedOne(Routes, [], rules[0]);
    }
  }

  function BypassLeaf(r: SourceRule): seq<Node> {
    match r.action
    case ToOutbound(t) => [Leaf(Rule(r.filter, RouteTo(t.outbound, t.mark, t.must, t.skipNoalive, true)))]
    case _ => []
  }

  function RouteRule(r: SourceRule, bypass: bool): seq<Rule> {
    match r.action
    case ToOutbound(t) => [Rule(r.filter, RouteTo(t.outbound, t.mark, t.must, t.skipNoalive, bypass))]
    case _ => []
  }

  lemma {:induction false} ExecOne(rule: Rule, f: Flow, input: Input)
    ensures Exec([rule], f, input) == ExecRule(rule, f, input)
  {
    assert [rule][1..] == [];
  }

  // The first route that stops the flow decides it.
  lemma {:induction false} RoutesRun(rules: seq<SourceRule>, bypass: bool, f: Flow, input: Input)
    ensures match Exec(RouteRules(rules, bypass), f, input)
      case Continue(g) => g == f && forall r <- rules :: !Stops(r, input)
      case Done(e) => Routed(rules, bypass, f.must == MATCH, f.captures, input, e)
  {
    if rules == [] {
    } else {
      var r, rest := rules[0], rules[1..];
      assert rules == [r] + rest;
      RouteRulesHead(rules, bypass);
      ExecConcat(RouteRule(r, bypass), RouteRules(rest, bypass), f, input);
      RoutesRun(rest, bypass, f, input);
      RouteRun(r, bypass, f, input);
      if Stops(r, input) {
        assert First(rules, input, 0);
      } else if Exec(RouteRules(rest, bypass), f, input).Done? {
        var e := Exec(RouteRules(rest, bypass), f, input).value;
        var i: nat :| First(rest, input, i) && Gives(rest[i], bypass, f.must == MATCH, f.captures, input, e);
        FirstBehind(r, rest, input, i);
        assert rules[i + 1] == rest[i];
      }
    }
  }

  lemma {:induction false} FirstBehind(r: SourceRule, rest: seq<SourceRule>, input: Input, i: nat)
    requires !Stops(r, input) && First(rest, input, i)
    ensures First([r] + rest, input, i + 1)
  {
    var rules := [r] + rest;
    forall j | 0 <= j < i + 1
      ensures !Stops(rules[j], input)
    {
      if j > 0 {
        assert rules[j] == rest[j - 1];
      }
    }
  }

  lemma {:induction false} RouteRun(r: SourceRule, bypass: bool, f: Flow, input: Input)
    ensures match Exec(RouteRule(r, bypass), f, input)
      case Continue(g) => g == f && !Stops(r, input)
      case Done(e) => Stops(r, input) && Gives(r, bypass, f.must == MATCH, f.captures, input, e)
  {
    RuleMeans(r.filter, input);
    if r.action.ToOutbound? {
      ExecOne(RouteRule(r, bypass)[0], f, input);
    } else {
      assert Exec([], f, input) == Continue(f);
    }
  }

  // ------ Captures ------

  ghost predicate AllCapture(rules: seq<Rule>, flags: set<CaptureFlag>) {
    forall r <- rules :: r.effect == CaptureFor(flags)
  }

  ghost predicate SomeMaybe(rules: seq<Rule>, input: Input) {
    exists r <- rules :: Maybe(r.clauses, input)
  }

  // What captures do to a flow, whichever of them hold.
  ghost function CapturedBy(asked: bool, flags: set<CaptureFlag>, f: Flow, input: Input): Progress {
    if !asked then Continue(f)
    else if AsKernel(input) && (Destination in f.captures + flags || HttpRequest in f.captures + flags) then
      Done(Evaluation(CONTROL_PLANE, 0, false, f.captures + flags, false))
    else Continue(f.(captures := f.captures + flags))
  }

  lemma {:induction false} CapturesRun(rules: seq<Rule>, flags: set<CaptureFlag>, f: Flow, input: Input)
    requires AllCapture(rules, flags)
    ensures Exec(rules, f, input) == CapturedBy(SomeMaybe(rules, input), flags, f, input)
    decreases |rules|
  {
    if rules != [] {
      assert rules == [rules[0]] + rules[1..];
      RuleMeans(rules[0].clauses, input);
      CaptureHit(f.captures + flags);
      if Maybe(rules[0].clauses, input) {
        var g := f.(captures := f.captures + flags);
        CapturesRun(rules[1..], flags, g, input);
        assert g.captures + flags == g.captures;
      } else {
        CapturesRun(rules[1..], flags, f, input);
      }
    }
  }

  lemma {:induction false} CaptureHit(flags: set<CaptureFlag>)
    ensures {Destination, HttpRequest} * flags != {} <==> Destination in flags || HttpRequest in flags
  {
    if Destination in flags {
      assert Destination in {Destination, HttpRequest} * flags;
    }
    if HttpRequest in flags {
      assert HttpRequest in {Destination, HttpRequest} * flags;
    }
  }

  lemma {:induction false} RewritesTranslated(rules: seq<SourceRule>, input: Input)
    ensures AllCapture(Translated(Captures, rules), {Destination})
    ensures SomeMaybe(Translated(Captures, rules), input)
      <==> exists r <- rules :: r.action.Dnat? && Maybe(r.filter, input)
  {
    if rules == [] {
    } else {
      assert rules == [rules[0]] + rules[1..];
      TranslatedConcat(Captures, [rules[0]], rules[1..]);
      TranslatedOne(Captures, [], rules[0]);
      RewritesTranslated(rules[1..], input);
    }
  }

  lemma {:induction false} SharedTranslated(rules: seq<DestinationRule>, input: Input)
    ensures AllCapture(Inline([], DestinationCaptures(rules)), {Destination})
    ensures SomeMaybe(Inline([], DestinationCaptures(rules)), input) <==> exists d <- rules :: Maybe(d.filter, input)
  {
    SharedCaptures(rules);
    var captures := Inline([], DestinationCaptures(rules));
    forall k | 0 <= k < |rules|
      ensures captures[k].clauses == rules[k].filter
    {
      assert [] + rules[k].filter == rules[k].filter;
    }
    if d :| d in rules && Maybe(d.filter, input) {
      var k :| 0 <= k < |rules| && rules[k] == d;
      assert captures[k] in captures && Maybe(captures[k].clauses, input);
    }
  }

  lemma {:induction false} HttpTranslated(filters: seq<seq<Clause>>, flags: set<CaptureFlag>, input: Input)
    ensures AllCapture(Inline([], HttpCapture(filters, flags)), flags)
    ensures SomeMaybe(Inline([], HttpCapture(filters, flags)), input) <==> HttpAsked(filters, input)
  {
    if filters != [] {
      var body := CaptureLeaves(filters, flags);
      assert [Scope(ADMITTED, body)][1..] == [] && [] + ADMITTED == ADMITTED;
      assert Inline([], HttpCapture(filters, flags)) == Inline(ADMITTED, body);
      AdmittedTranslated(filters, flags, input);
    }
  }

  lemma {:induction false} AdmittedTranslated(filters: seq<seq<Clause>>, flags: set<CaptureFlag>, input: Input)
    ensures AllCapture(Inline(ADMITTED, CaptureLeaves(filters, flags)), flags)
    ensures SomeMaybe(Inline(ADMITTED, CaptureLeaves(filters, flags)), input) <==> HttpAsked(filters, input)
  {
    if filters != [] {
      assert filters == [filters[0]] + filters[1..];
      InlineConcat(ADMITTED, [Leaf(Rule(filters[0], CaptureFor(flags)))], CaptureLeaves(filters[1..], flags));
      InlineOne(ADMITTED, Rule(filters[0], CaptureFor(flags)));
      AdmittedTranslated(filters[1..], flags, input);
      AdmittedFilter(filters[0], input);
    }
  }

  lemma {:induction false} AdmittedFilter(filter: seq<Clause>, input: Input)
    ensures Maybe(ADMITTED + filter, input) <==> Holds(HTTP_CLIENT, input) && Maybe(filter, input)
  {
    assert HTTP_CLIENT in ADMITTED[0].tests;
    assert Possible(ADMITTED[0], input) <==> Holds(HTTP_CLIENT, input);
    assert ADMITTED[0] in ADMITTED + filter;
  }

  // ------ Controls ------

  // What controls do to a flow, whichever of them hold.
  ghost predicate Controlled(rules: seq<SourceRule>, f: Flow, input: Input, g: Flow) {
    && g.captures == f.captures
    && (g.bump <==> f.bump || BumpAsked(rules, input))
    && (g.must == MATCH <==> f.must == MATCH || Forced(rules, input))
    && (g.must == MISS <==> f.must == MISS && !MayBeForced(rules, input))
  }

  lemma {:induction false} ControlsRun(rules: seq<SourceRule>, f: Flow, input: Input)
    ensures var p := Exec(Translated(Controls, rules), f, input); p.Continue? && Controlled(rules, f, input, p.flow)
  {
    if rules == [] {
    } else {
      var r, rest := rules[0], rules[1..];
      assert rules == [r] + rest;
      TranslatedConcat(Controls, [r], rest);
      ExecConcat(Translated(Controls, [r]), Translated(Controls, rest), f, input);
      ControlRun(r, f, input);
      var g := Exec(Translated(Controls, [r]), f, input).flow;
      ControlsRun(rest, g, input);
    }
  }

  lemma {:induction false} ControlRun(r: SourceRule, f: Flow, input: Input)
    ensures var p := Exec(Translated(Controls, [r]), f, input); p.Continue? && Controlled([r], f, input, p.flow)
  {
    TranslatedOne(Controls, [], r);
    RuleMeans(r.filter, input);
    assert r in [r] && forall x <- [r] :: x == r;
    if r.action.MustControl? || r.action.BumpControl? {
      ExecOne(Translated(Controls, [r])[0], f, input);
    }
  }

  // ------ The flow phase and the routes ------

  // Whatever controls asked for is settled before the routes.
  lemma {:induction false} EndRun(end: seq<Rule>, f: Flow, input: Input)
    requires end == [Rule(ANY, EndFlow)] || (end == [] && f.must == MISS && !f.bump)
    ensures Exec(end, f, input) ==
      if f.must == UNKNOWN || (f.bump && AsKernel(input)) then
        Done(Evaluation(CONTROL_PLANE, 0, f.must == MATCH, f.captures, false))
      else Continue(f)
  {
    if end != [] {
      ExecOne(Rule(ANY, EndFlow), f, input);
      Ambiguity.UnconditionalMatches(Rule(ANY, EndFlow), input);
    }
  }

  lemma {:induction false} FlowRun(own: seq<SourceRule>, http: seq<seq<Clause>>, end: seq<Rule>,
                                   routes: seq<SourceRule>, captures: set<CaptureFlag>, input: Input, e: Evaluation)
    requires var controls, captured := Translated(Controls, own), Inline([], HttpCapture(http, {Http}));
      && (end == [Rule(ANY, EndFlow)] || (end == [] && controls == [] && captured == []))
      && Exec(controls + (captured + (end + RouteRules(routes, false))), Flow(MISS, false, captures), input) == Done(e)
    requires AsKernel(input) ==> Destination !in captures && HttpRequest !in captures
    ensures FlowDecided(own, http, routes, captures, input, e)
  {
    var controls, captured := Translated(Controls, own), Inline([], HttpCapture(http, {Http}));
    var f, after := Flow(MISS, false, captures), end + RouteRules(routes, false);
    ControlsRun(own, f, input);
    var g := Exec(controls, f, input).flow;
    ExecConcat(controls, captured + after, f, input);
    HttpRun(http, g, after, input);
    var h := g.(captures := captures + When(HttpAsked(http, input), {Http}));
    EndedRun(end, routes, h, input, e);
    assert FlowSettled(own, f, input, g);
  }

  // `must` and bump as the controls leave them.
  ghost predicate FlowSettled(own: seq<SourceRule>, f: Flow, input: Input, g: Flow) {
    && (g.bump <==> BumpAsked(own, input)) && (g.must == MATCH <==> Forced(own, input))
    && (g.must == MISS <==> !MayBeForced(own, input)) && g.captures == f.captures
  }

  lemma {:induction false} HttpRun(http: seq<seq<Clause>>, g: Flow, after: seq<Rule>, input: Input)
    requires AsKernel(input) ==> Destination !in g.captures && HttpRequest !in g.captures
    ensures Exec(Inline([], HttpCapture(http, {Http})) + after, g, input)
      == Exec(after, g.(captures := g.captures + When(HttpAsked(http, input), {Http})), input)
  {
    var captured := Inline([], HttpCapture(http, {Http}));
    HttpTranslated(http, {Http}, input);
    CapturesRun(captured, {Http}, g, input);
    ExecConcat(captured, after, g, input);
    assert g.captures + {} == g.captures;
  }

  lemma {:induction false} EndedRun(end: seq<Rule>, routes: seq<SourceRule>, h: Flow, input: Input, e: Evaluation)
    requires end == [Rule(ANY, EndFlow)] || (end == [] && h.must == MISS && !h.bump)
    requires Exec(end + RouteRules(routes, false), h, input) == Done(e)
    ensures if h.must == UNKNOWN || (h.bump && AsKernel(input)) then HandedOver(h.must == MATCH, h.captures, e)
      else Routed(routes, false, h.must == MATCH, h.captures, input, e)
  {
    EndRun(end, h, input);
    ExecConcat(end, RouteRules(routes, false), h, input);
    RoutesRun(routes, false, h, input);
  }

  // ------ The whole program ------

  lemma {:induction false} IngressRun(shared: SharedRules, own: seq<SourceRule>, after: seq<Rule>, input: Input,
                                      e: Evaluation)
    returns (captures: set<CaptureFlag>)
    requires !input.afterTarget
    requires Exec(Inline([], BypassLeaves(shared.bypass)) +
                  (Translated(Captures, own) + (Inline([], DestinationCaptures(shared.destinations)) +
                  (Inline([], HttpCapture(shared.request, {Http, HttpRequest})) + after))), NO_FLOW, input) == Done(e)
    ensures AsKernel(input) ==> Destination !in captures && HttpRequest !in captures
    ensures if exists r <- shared.bypass :: Stops(r, input) then Routed(shared.bypass, true, false, {}, input, e)
      else if AsKernel(input) && RewriteAsked(own, shared.destinations, input) then HandedOver(false, {Destination}, e)
      else if AsKernel(input) && HttpAsked(shared.request, input) then HandedOver(false, {Http, HttpRequest}, e)
      else
        && captures == When(RewriteAsked(own, shared.destinations, input), {Destination})
          + When(HttpAsked(shared.request, input), {Http, HttpRequest})
        && Exec(after, Flow(MISS, false, captures), input) == Done(e)
  {
    captures := {};
    var bypass, request := RouteRules(shared.bypass, true),
      Inline([], HttpCapture(shared.request, {Http, HttpRequest}));
    var mine, theirs := Translated(Captures, own), Inline([], DestinationCaptures(shared.destinations));
    RoutesRun(shared.bypass, true, NO_FLOW, input);
    ExecConcat(bypass, mine + (theirs + (request + after)), NO_FLOW, input);
    if Exec(bypass, NO_FLOW, input).Continue? {
      captures := CaptureRun(shared, own, mine, theirs, request, after, input, e);
    } else {
      var i: nat :| First(shared.bypass, input, i);
      assert shared.bypass[i] in shared.bypass;
    }
  }

  // Own and shared rewriting captures are one list of captures.
  lemma {:induction false} RewriteRun(shared: SharedRules, own: seq<SourceRule>, input: Input)
    ensures Exec(Translated(Captures, own) + Inline([], DestinationCaptures(shared.destinations)), NO_FLOW, input)
      == CapturedBy(RewriteAsked(own, shared.destinations, input), {Destination}, NO_FLOW, input)
  {
    var mine, theirs := Translated(Captures, own), Inline([], DestinationCaptures(shared.destinations));
    RewritesTranslated(own, input);
    SharedTranslated(shared.destinations, input);
    CapturesJoin(mine, theirs, {Destination}, input);
    CapturesRun(mine + theirs, {Destination}, NO_FLOW, input);
  }

  lemma {:induction false} CapturesJoin(a: seq<Rule>, b: seq<Rule>, flags: set<CaptureFlag>, input: Input)
    requires AllCapture(a, flags) && AllCapture(b, flags)
    ensures AllCapture(a + b, flags)
    ensures SomeMaybe(a + b, input) <==> SomeMaybe(a, input) || SomeMaybe(b, input)
  {
    assert forall r <- a :: r in a + b;
    assert forall r <- b :: r in a + b;
  }

  lemma {:induction false} RequestRun(filters: seq<seq<Clause>>, f: Flow, input: Input)
    ensures Exec(Inline([], HttpCapture(filters, {Http, HttpRequest})), f, input)
      == CapturedBy(HttpAsked(filters, input), {Http, HttpRequest}, f, input)
  {
    HttpTranslated(filters, {Http, HttpRequest}, input);
    CapturesRun(Inline([], HttpCapture(filters, {Http, HttpRequest})), {Http, HttpRequest}, f, input);
  }

  lemma {:induction false} CaptureRun(shared: SharedRules, own: seq<SourceRule>, mine: seq<Rule>, theirs: seq<Rule>,
                                      request: seq<Rule>, after: seq<Rule>, input: Input, e: Evaluation)
    returns (captures: set<CaptureFlag>)
    requires mine == Translated(Captures, own) && theirs == Inline([], DestinationCaptures(shared.destinations))
    requires request == Inline([], HttpCapture(shared.request, {Http, HttpRequest}))
    requires Exec(mine + (theirs + (request + after)), NO_FLOW, input) == Done(e)
    ensures AsKernel(input) ==> Destination !in captures && HttpRequest !in captures
    ensures if AsKernel(input) && RewriteAsked(own, shared.destinations, input) then HandedOver(false, {Destination}, e)
      else if AsKernel(input) && HttpAsked(shared.request, input) then HandedOver(false, {Http, HttpRequest}, e)
      else
        && captures == When(RewriteAsked(own, shared.destinations, input), {Destination})
          + When(HttpAsked(shared.request, input), {Http, HttpRequest})
        && Exec(after, Flow(MISS, false, captures), input) == Done(e)
  {
    var rewrite := RewriteAsked(own, shared.destinations, input);
    RewriteRun(shared, own, input);
    Associate3(mine, theirs, request + after);
    ExecConcat(mine + theirs, request + after, NO_FLOW, input);
    captures := AskedRun(rewrite, HttpAsked(shared.request, input), shared.request, request, after, input, e);
  }

  lemma {:induction false} Associate3(a: seq<Rule>, b: seq<Rule>, c: seq<Rule>)
    ensures a + (b + c) == (a + b) + c
  {
  }

  lemma {:induction false} AskedRun(rewrite: bool, asked: bool, filters: seq<seq<Clause>>, request: seq<Rule>,
                                    after: seq<Rule>, input: Input, e: Evaluation)
    returns (captures: set<CaptureFlag>)
    requires request == Inline([], HttpCapture(filters, {Http, HttpRequest})) && asked == HttpAsked(filters, input)
    requires match CapturedBy(rewrite, {Destination}, NO_FLOW, input)
      case Done(value) => value == e
      case Continue(f) => Exec(request + after, f, input) == Done(e)
    ensures AsKernel(input) ==> Destination !in captures && HttpRequest !in captures
    ensures if AsKernel(input) && rewrite then HandedOver(false, {Destination}, e)
      else if AsKernel(input) && asked then HandedOver(false, {Http, HttpRequest}, e)
      else
        && captures == When(rewrite, {Destination}) + When(asked, {Http, HttpRequest})
        && Exec(after, Flow(MISS, false, captures), input) == Done(e)
  {
    captures := {};
    if AsKernel(input) && rewrite {
    } else {
      var f := Flow(MISS, false, When(rewrite, {Destination}));
      assert CapturedBy(rewrite, {Destination}, NO_FLOW, input) == Continue(f);
      RequestRun(filters, f, input);
      ExecConcat(request, after, f, input);
      if AsKernel(input) && asked {
      } else {
        captures := f.captures + When(asked, {Http, HttpRequest});
        assert !asked ==> captures == f.captures;
      }
    }
  }

  lemma {:induction false} RoutesAsWritten(shared: SharedRules, sets: RuleSets, rank: Ranks, bound: nat, policy: Policy,
                                           segments: seq<Segment>, afterTarget: bool)
    requires Ranked(sets, rank) && Below(sets, rank, policy.statements, bound)
    requires segments == [Segment(RoutePhase, Leaves(Routes, shared.early))]
      + ([Segment(RoutePhase, Resolve(Routes, sets, rank, bound, policy.statements))]
         + ([Segment(RoutePhase, Leaves(Routes, shared.late))] + ([Segment(RoutePhase, [FallbackLeaf(policy.fallback)])]
                                                                  + [])))
    ensures ProgramRules(segments, afterTarget) == RouteRules(RoutesOf(shared, sets, rank, bound, policy), false)
  {
    var own, last := Written(sets, rank, bound, policy.statements), SourceRule(ANY, ToOutbound(policy.fallback));
    ResolvedAsWritten(Routes, sets, rank, bound, policy.statements, []);
    GuardedByNothing(own);
    FallbackAsWritten(policy.fallback);
    TranslatedConcat(Routes, shared.late, [last]);
    TranslatedConcat(Routes, own, shared.late + [last]);
    TranslatedConcat(Routes, shared.early, own + (shared.late + [last]));
    var s3 := [Segment(RoutePhase, [FallbackLeaf(policy.fallback)])] + [];
    ProgramHead(s3[0], [], afterTarget);
    var s2 := [Segment(RoutePhase, Leaves(Routes, shared.late))] + s3;
    ProgramHead(s2[0], s3, afterTarget);
    var s1 := [Segment(RoutePhase, Resolve(Routes, sets, rank, bound, policy.statements))] + s2;
    ProgramHead(s1[0], s2, afterTarget);
    ProgramHead(segments[0], s1, afterTarget);
  }

  lemma {:induction false} FallbackAsWritten(t: Target)
    ensures Inline([], [FallbackLeaf(t)]) + [] == Translated(Routes, [SourceRule(ANY, ToOutbound(t))])
  {
    TranslatedOne(Routes, [], SourceRule(ANY, ToOutbound(t)));
    InlineOne([], FallbackLeaf(t).rule);
    assert [] + ANY == ANY;
  }

  lemma {:induction false} ProgramHead(s: Segment, rest: seq<Segment>, afterTarget: bool)
    ensures ProgramRules([s] + rest, afterTarget) ==
      (if afterTarget && s.phase == IngressPhase then [] else Inline([], s.nodes)) + ProgramRules(rest, afterTarget)
  {
    assert ([s] + rest)[1..] == rest;
  }

  // The flow end as rules.
  lemma {:induction false} EndAsWritten(controls: seq<Node>, http: seq<Node>)
    requires NodesFormed(controls) && NodesFormed(http)
    ensures var end := Inline([], FlowEnds(controls, http));
      end == [Rule(ANY, EndFlow)] || (end == [] && Inline([], controls) == [] && Inline([], http) == [])
  {
    EmptyEmission([], controls);
    EmptyEmission([], http);
    InlineOne([], FLOW_END.rule);
    assert [] + ANY == ANY;
  }

  lemma {:induction false} FlowAsWritten(shared: SharedRules, own: seq<SourceRule>, controls: seq<Node>,
                                         rest: seq<Segment>,
                                         routes: seq<SourceRule>, captures: set<CaptureFlag>, input: Input,
                                         segments: seq<Segment>, e: Evaluation)
    requires NodesFormed(controls) && NodesFormed(HttpCapture(shared.http, {Http}))
    requires Inline([], controls) == Translated(Controls, own)
    requires ProgramRules(rest, input.afterTarget) == RouteRules(routes, false)
    requires var http := HttpCapture(shared.http, {Http});
      segments == [Segment(FlowPhase, controls)]
        + ([Segment(FlowPhase, http)] + ([Segment(FlowPhase, FlowEnds(controls, http))] + rest))
    requires Exec(ProgramRules(segments, input.afterTarget), Flow(MISS, false, captures), input) == Done(e)
    requires AsKernel(input) ==> Destination !in captures && HttpRequest !in captures
    ensures FlowDecided(own, shared.http, routes, captures, input, e)
  {
    var http := HttpCapture(shared.http, {Http});
    var end := [Segment(FlowPhase, FlowEnds(controls, http))] + rest;
    ProgramHead(end[0], rest, input.afterTarget);
    ProgramHead(Segment(FlowPhase, http), end, input.afterTarget);
    ProgramHead(Segment(FlowPhase, controls), [Segment(FlowPhase, http)] + end, input.afterTarget);
    EndAsWritten(controls, http);
    FlowRun(own, shared.http, Inline([], FlowEnds(controls, http)), routes, captures, input, e);
  }

  // First match over a policy's program decides as its rules are written.
  lemma {:induction false} ProgramAsWritten(shared: SharedRules, sets: RuleSets, rank: Ranks, bound: nat,
                                            policy: Policy, input: Input, e: Evaluation)
    requires Ranked(sets, rank) && Below(sets, rank, policy.rules, bound) && Below(sets, rank, policy.statements, bound)
    requires NodesFormed(Resolve(Controls, sets, rank, bound, policy.rules))
    requires NodesFormed(HttpCapture(shared.http, {Http}))
    requires Exec(ProgramRules(PolicySegments(shared, sets, rank, bound, policy), input.afterTarget), NO_FLOW, input)
      == Done(e)
    ensures AsWritten(shared, sets, rank, bound, policy, input, e)
  {
    var segments, own := PolicySegments(shared, sets, rank, bound, policy), Written(sets, rank, bound, policy.rules);
    var routes := RoutesOf(shared, sets, rank, bound, policy);
    GuardedByNothing(own);
    ResolvedAsWritten(Controls, sets, rank, bound, policy.rules, []);
    ResolvedAsWritten(Captures, sets, rank, bound, policy.rules, []);
    Split(segments);
    RoutesAsWritten(shared, sets, rank, bound, policy, segments[7..], input.afterTarget);
    var after := ProgramRules(segments[4..], input.afterTarget);
    IngressAsRules(segments, input.afterTarget);
    var captures := {};
    if !input.afterTarget {
      captures := IngressRun(shared, own, after, input, e);
    }
    if Exec(after, Flow(MISS, false, captures), input) == Done(e) {
      FlowAsWritten(shared, own, segments[4].nodes, segments[7..], routes, captures, input, segments[4..], e);
    }
  }

  lemma {:induction false} IngressAsRules(segments: seq<Segment>, afterTarget: bool)
    requires |segments| == 11 && forall i :: 0 <= i < 4 ==> segments[i].phase == IngressPhase
    ensures var after := ProgramRules(segments[4..], afterTarget);
      var ingress := Inline([], segments[0].nodes)
        + (Inline([], segments[1].nodes) + (Inline([], segments[2].nodes) + (Inline([], segments[3].nodes) + after)));
      ProgramRules(segments, afterTarget) == if afterTarget then after else ingress
  {
    Split(segments);
    var s3 := [segments[3]] + segments[4..];
    var s2 := [segments[2]] + s3;
    ProgramHead(segments[3], segments[4..], afterTarget);
    ProgramHead(segments[2], s3, afterTarget);
    ProgramHead(segments[1], s2, afterTarget);
    ProgramHead(segments[0], [segments[1]] + s2, afterTarget);
  }

  // Every compiled profile decides as the rules of its policy are written, and
  // nothing else would.
  lemma {:induction false} DecidesAsWritten(c: ProfileCompiler, pool: seq<Instr>, kernelEnd: nat, p: CompiledProfile,
                                            policy: Policy, input: Input)
    requires CompiledFor(c, pool, kernelEnd, p, policy) && input.valid
    ensures Evaluate(pool, p.spans, input).Decided?
    ensures forall e ::
      Evaluate(pool, p.spans, input) == Decided(e)
      <==> AsWritten(c.rules, c.compiler.sets, c.compiler.rank, c.bound, policy, input, e)
  {
    CompiledDecides(c, pool, kernelEnd, p, policy, input);
    CompilerCorrect(c, pool, kernelEnd, p, policy, input);
    var e := Evaluate(pool, p.spans, input).value;
    var sets, rank := c.compiler.sets, c.compiler.rank;
    ProgramAsWritten(c.rules, sets, rank, c.bound, policy, input, e);
    forall e' | AsWritten(c.rules, sets, rank, c.bound, policy, input, e')
      ensures e == e'
    {
      DecreedOnce(c.rules, Written(sets, rank, c.bound, policy.rules), RoutesOf(c.rules, sets, rank, c.bound, policy),
                  input, e, e');
    }
  }

  // ------ Exact destination rules ------

  // The exact rules of a policy are its dnat rules, in the order they are written.
  ghost predicate Selects(rules: seq<SourceRule>, at: seq<nat>, destinations: seq<DestinationRule>) {
    && |at| == |destinations| && (forall k :: 0 <= k < |at| ==> at[k] < |rules|)
    && (forall j, k :: 0 <= j < k < |at| ==> at[j] < at[k])
    && (forall k :: 0 <= k < |at| ==> rules[at[k]] == SourceRule(destinations[k].filter, Dnat(destinations[k].rewrite)))
    && (forall i :: 0 <= i < |rules| && rules[i].action.Dnat? ==> i in at)
  }

  lemma {:induction false} SelectsConcat(a: seq<SourceRule>, at: seq<nat>, d: seq<DestinationRule>,
                                         b: seq<SourceRule>, bt: seq<nat>, e: seq<DestinationRule>)
    returns (both: seq<nat>)
    requires Selects(a, at, d) && Selects(b, bt, e)
    ensures Selects(a + b, both, d + e)
  {
    var shifted := seq(|bt|, k requires 0 <= k < |bt| => |a| + bt[k]);
    both := at + shifted;
    forall k | 0 <= k < |both|
      ensures (a + b)[both[k]] == SourceRule((d + e)[k].filter, Dnat((d + e)[k].rewrite))
    {
      if k >= |at| {
        assert both[k] == |a| + bt[k - |at|];
      }
    }
    forall i | 0 <= i < |a + b| && (a + b)[i].action.Dnat?
      ensures i in both
    {
      if i >= |a| {
        var k :| 0 <= k < |bt| && bt[k] == i - |a|;
        assert both[|at| + k] == i;
      } else {
        assert a[i].action.Dnat? && i in at;
      }
    }
  }

  lemma {:induction false} SelectsGuarded(condition: seq<Clause>, rules: seq<SourceRule>, at: seq<nat>,
                                          d: seq<DestinationRule>)
    requires Selects(rules, at, d)
    ensures Selects(Guarded(condition, rules), at, Conditioned(condition, d))
  {
    forall i | 0 <= i < |rules| && Guarded(condition, rules)[i].action.Dnat?
      ensures i in at
    {
      assert rules[i].action.Dnat?;
    }
  }

  // They are the dnat rules of the policy, each under the conditions of its uses.
  lemma {:induction false} DestinationsAsWritten(sets: RuleSets, rank: Ranks, bound: nat, statements: seq<Statement>)
    returns (at: seq<nat>)
    requires Ranked(sets, rank) && Below(sets, rank, statements, bound)
    ensures Selects(Written(sets, rank, bound, statements), at, Destinations(sets, rank, bound, statements))
    decreases bound, |statements|
  {
    if statements == [] {
      at := [];
    } else {
      var s, rest := statements[0], statements[1..];
      var first := DestinationAsWritten(sets, rank, bound, s);
      var others := DestinationsAsWritten(sets, rank, bound, rest);
      at := SelectsConcat(WrittenOne(sets, rank, bound, s), first, DestinationsOne(sets, rank, bound, s),
                          Written(sets, rank, bound, rest), others, Destinations(sets, rank, bound, rest));
    }
  }

  lemma {:induction false} DestinationAsWritten(sets: RuleSets, rank: Ranks, bound: nat, s: Statement)
    returns (at: seq<nat>)
    requires Ranked(sets, rank) && Below(sets, rank, [s], bound)
    ensures Selects(WrittenOne(sets, rank, bound, s), at, DestinationsOne(sets, rank, bound, s))
    decreases bound, 0
  {
    match s
    case RuleStatement(rule) => at := if rule.action.Dnat? then [0] else [];
    case UseStatement(name, condition) =>
      at := [];
      if name in sets {
        assert s in [s];
        at := DestinationsAsWritten(sets, rank, rank[name], sets[name]);
        SelectsGuarded(condition, Written(sets, rank, rank[name], sets[name]), at,
                       Destinations(sets, rank, rank[name], sets[name]));
      }
  }

  // ------ Some of what that means ------

  // The rule is a route, one test of every plain clause holds, none of a negated
  // one does, and it is not to be passed over.
  predicate Taken(r: SourceRule, input: Input) {
    && r.action.ToOutbound?
    && (forall c <- r.filter :: c.negated != exists t <- c.tests :: Holds(t, input))
    && !(r.action.target.skipNoalive && r.action.target.outbound in input.down)
  }

  // Matched by one name in userspace, a flow goes where the first route that holds
  // sends it, with `must` if the route or any control that holds says so.
  lemma {:induction false} FirstRouteTaken(c: ProfileCompiler, pool: seq<Instr>, kernelEnd: nat, p: CompiledProfile,
                                           policy: Policy, input: Input)
    returns (i: nat)
    requires CompiledFor(c, pool, kernelEnd, p, policy) && input.valid && input.bump.None? && !input.kernel
    requires input.afterTarget || forall r <- c.rules.bypass :: !Taken(r, input)
    ensures var routes := RoutesOf(c.rules, c.compiler.sets, c.compiler.rank, c.bound, policy);
      && i < |routes| && Taken(routes[i], input) && forall j :: 0 <= j < i ==> !Taken(routes[j], input)
    ensures var own := Written(c.compiler.sets, c.compiler.rank, c.bound, policy.rules);
      var routes := RoutesOf(c.rules, c.compiler.sets, c.compiler.rank, c.bound, policy);
      match Evaluate(pool, p.spans, input)
      case Failed(_) => false
      case Decided(e) =>
        && e.outbound == routes[i].action.target.outbound && e.mark == routes[i].action.target.mark
        && (e.must <==> routes[i].action.target.must || Forced(own, input))
  {
    DecidesAsWritten(c, pool, kernelEnd, p, policy, input);
    var e := Evaluate(pool, p.spans, input).value;
    var own := Written(c.compiler.sets, c.compiler.rank, c.bound, policy.rules);
    var routes := RoutesOf(c.rules, c.compiler.sets, c.compiler.rank, c.bound, policy);
    assert AsWritten(c.rules, c.compiler.sets, c.compiler.rank, c.bound, policy, input, e);
    forall r <- c.rules.bypass
      ensures Stops(r, input) <==> Taken(r, input)
    {
      StopsIsTaken(r, input);
    }
    i := RouteTaken(c.rules, own, routes, input, e);
  }

  lemma {:induction false} StopsIsTaken(r: SourceRule, input: Input)
    requires input.bump.None?
    ensures Stops(r, input) <==> Taken(r, input)
    ensures Stops(r, input) ==> Surely(r.filter, input)
  {
    DefiniteMeans(r.filter, input);
  }

  lemma {:induction false} RouteTaken(shared: SharedRules, own: seq<SourceRule>, routes: seq<SourceRule>, input: Input,
                                      e: Evaluation)
    returns (i: nat)
    requires Decreed(shared, own, routes, input, e) && input.bump.None? && !input.kernel
    requires input.afterTarget || forall r <- shared.bypass :: !Stops(r, input)
    ensures i < |routes| && Taken(routes[i], input) && forall j :: 0 <= j < i ==> !Taken(routes[j], input)
    ensures e.outbound == routes[i].action.target.outbound && e.mark == routes[i].action.target.mark
    ensures e.must <==> routes[i].action.target.must || Forced(own, input)
  {
    forall r <- own
      ensures Maybe(r.filter, input) <==> Surely(r.filter, input)
    {
      DefiniteMeans(r.filter, input);
    }
    var asked := if input.afterTarget then {} else
      When(RewriteAsked(own, shared.destinations, input), {Destination})
      + When(HttpAsked(shared.request, input), {Http, HttpRequest});
    assert FlowDecided(own, shared.http, routes, asked, input, e);
    var captures := asked + When(HttpAsked(shared.http, input), {Http});
    assert Routed(routes, false, Forced(own, input), captures, input, e);
    i :| First(routes, input, i) && Gives(routes[i], false, Forced(own, input), captures, input, e);
    forall j | 0 <= j <= i
      ensures Stops(routes[j], input) <==> Taken(routes[j], input)
    {
      StopsIsTaken(routes[j], input);
    }
    StopsIsTaken(routes[i], input);
  }

  // Of any flow that a route of the policy decides, `must` is what the route or a
  // control that surely holds says, and no control that merely may hold was passed.
  lemma {:induction false} MustFollows(c: ProfileCompiler, pool: seq<Instr>, kernelEnd: nat, p: CompiledProfile,
                                       policy: Policy, input: Input, e: Evaluation)
    returns (i: nat)
    requires CompiledFor(c, pool, kernelEnd, p, policy) && input.valid
    requires input.afterTarget || forall r <- c.rules.bypass :: !Stops(r, input)
    requires Evaluate(pool, p.spans, input) == Decided(e) && e.outbound != CONTROL_PLANE
    ensures var own := Written(c.compiler.sets, c.compiler.rank, c.bound, policy.rules);
      var routes := RoutesOf(c.rules, c.compiler.sets, c.compiler.rank, c.bound, policy);
      && First(routes, input, i) && Surely(routes[i].filter, input) && e.outbound == routes[i].action.target.outbound
      && (e.must <==> routes[i].action.target.must || Forced(own, input))
      && (Forced(own, input) || !MayBeForced(own, input)) && (AsKernel(input) ==> !BumpAsked(own, input))
  {
    DecidesAsWritten(c, pool, kernelEnd, p, policy, input);
    var own := Written(c.compiler.sets, c.compiler.rank, c.bound, policy.rules);
    var routes := RoutesOf(c.rules, c.compiler.sets, c.compiler.rank, c.bound, policy);
    assert AsWritten(c.rules, c.compiler.sets, c.compiler.rank, c.bound, policy, input, e);
    i := RouteOf(c.rules, own, routes, input, e);
  }

  lemma {:induction false} RouteOf(shared: SharedRules, own: seq<SourceRule>, routes: seq<SourceRule>, input: Input,
                                   e: Evaluation)
    returns (i: nat)
    requires Decreed(shared, own, routes, input, e) && e.outbound != CONTROL_PLANE
    requires input.afterTarget || forall r <- shared.bypass :: !Stops(r, input)
    ensures First(routes, input, i) && Surely(routes[i].filter, input)
    ensures e.outbound == routes[i].action.target.outbound
    ensures e.must <==> routes[i].action.target.must || Forced(own, input)
    ensures (Forced(own, input) || !MayBeForced(own, input)) && (AsKernel(input) ==> !BumpAsked(own, input))
  {
    var asked := if input.afterTarget then {} else
      When(RewriteAsked(own, shared.destinations, input), {Destination})
      + When(HttpAsked(shared.request, input), {Http, HttpRequest});
    assert FlowDecided(own, shared.http, routes, asked, input, e);
    var captures := asked + When(HttpAsked(shared.http, input), {Http});
    i :| First(routes, input, i) && Gives(routes[i], false, Forced(own, input), captures, input, e);
  }

  // A bump control that may hold keeps a kernel from deciding by the routes.
  lemma {:induction false} BumpHandsOver(c: ProfileCompiler, pool: seq<Instr>, kernelEnd: nat, p: CompiledProfile,
                                         policy: Policy, input: Input)
    requires CompiledFor(c, pool, kernelEnd, p, policy) && input.valid && AsKernel(input)
    requires forall r <- c.rules.bypass :: !Stops(r, input)
    requires BumpAsked(Written(c.compiler.sets, c.compiler.rank, c.bound, policy.rules), input)
    ensures match Evaluate(pool, p.spans, input)
      case Failed(_) => false
      case Decided(e) => e.outbound == CONTROL_PLANE && e.mark == 0
  {
    DecidesAsWritten(c, pool, kernelEnd, p, policy, input);
    var e := Evaluate(pool, p.spans, input).value;
    assert AsWritten(c.rules, c.compiler.sets, c.compiler.rank, c.bound, policy, input, e);
  }
}
