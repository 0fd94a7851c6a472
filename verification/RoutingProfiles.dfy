/** Complete profiles: shared programs, policy blocks and the fallback, spliced
    into one execution order, then linked and validated. */
module RoutingProfiles {
  import opened Common
  import opened RoutingInstructions
  import opened RoutingSpans
  import opened RoutingJumps
  import opened RoutingRules
  import opened RoutingEmission
  import opened RoutingSimulation
  import opened RoutingPolicies
  import opened RoutingDemand
  import opened RoutingFragments
  import opened RoutingBuilder
  import opened RoutingCompiler

  // A program before its jumps are linked.
  function RawProgram(segments: seq<Segment>): seq<Op>
    requires SegmentsFormed(segments)
  {
    if segments == [] then [] else Tag(EmitNodes(segments[0].nodes), segments[0].phase) + RawProgram(segments[1..])
  }

  lemma {:induction false} RawSnoc(segments: seq<Segment>, s: Segment)
    requires SegmentsFormed(segments) && NodesFormed(s.nodes)
    ensures SegmentsFormed(segments + [s])
    ensures RawProgram(segments + [s]) == RawProgram(segments) + Tag(EmitNodes(s.nodes), s.phase)
  {
    if segments == [] {
      assert [] + [s] == [s] && [s][1..] == [];
    } else {
      assert (segments + [s])[1..] == segments[1..] + [s];
      RawSnoc(segments[1..], s);
      Associate(Tag(EmitNodes(segments[0].nodes), segments[0].phase), RawProgram(segments[1..]),
                Tag(EmitNodes(s.nodes), s.phase));
    }
  }

  // A profile under construction executes these segments.
  ghost predicate Executing(pool: seq<Instr>, spans: seq<Span>, segments: seq<Segment>) {
    SegmentsFormed(segments) && Solid(spans) && Holds(pool, spans, RawProgram(segments))
  }

  lemma {:induction false} ExecutingGrows(pool: seq<Instr>, grown: seq<Instr>, spans: seq<Span>, segments: seq<Segment>)
    requires Executing(pool, spans, segments) && pool <= grown
    ensures Executing(grown, spans, segments)
  {
    HoldsGrows(pool, grown, spans, RawProgram(segments));
  }

  // Spans, possibly empty, that lay out one segment.
  ghost predicate Lays(pool: seq<Instr>, spans: seq<Span>, s: Segment) {
    match s
    case Segment(phase, nodes) => NodesFormed(nodes) && Holds(pool, spans, Tag(EmitNodes(nodes), phase))
  }

  lemma {:induction false} LaysGrows(pool: seq<Instr>, grown: seq<Instr>, spans: seq<Span>, s: Segment)
    requires Lays(pool, spans, s) && pool <= grown
    ensures Lays(grown, spans, s)
  {
    HoldsGrows(pool, grown, spans, Tag(EmitNodes(s.nodes), s.phase));
  }

  function SegmentsLength(segments: seq<Segment>): nat {
    if segments == [] then 0 else NodesLength(segments[0].nodes) + SegmentsLength(segments[1..])
  }

  lemma {:induction false} SegmentsConcat(a: seq<Segment>, b: seq<Segment>)
    ensures SegmentsLength(a + b) == SegmentsLength(a) + SegmentsLength(b)
  {
    if a == [] {
      assert a + b == b;
    } else {
      assert (a + b)[1..] == a[1..] + b;
      SegmentsConcat(a[1..], b);
    }
  }

  lemma {:induction false} SegmentsNext(a: seq<Segment>, s: Segment)
    ensures SegmentsLength(a + [s]) == SegmentsLength(a) + NodesLength(s.nodes)
  {
    SegmentsConcat(a, [s]);
    assert [s][1..] == [];
  }

  lemma {:induction false} RawLength(segments: seq<Segment>)
    requires SegmentsFormed(segments)
    ensures |RawProgram(segments)| == SegmentsLength(segments)
  {
    if segments != [] {
      EmittedLength(segments[0].nodes);
      RawLength(segments[1..]);
    }
  }

  lemma {:induction false} ExecutedLength(pool: seq<Instr>, spans: seq<Span>, segments: seq<Segment>)
    requires Executing(pool, spans, segments)
    ensures ExecutionLength(spans) == SegmentsLength(segments)
  {
    FlattenLength(pool, spans);
    RawLength(segments);
  }

  lemma {:induction false} LaidLength(pool: seq<Instr>, spans: seq<Span>, s: Segment)
    requires Lays(pool, spans, s)
    ensures ExecutionLength(spans) == NodesLength(s.nodes)
  {
    FlattenLength(pool, spans);
    EmittedLength(s.nodes);
  }

  method AppendSegment(ghost pool: seq<Instr>, block: seq<Span>, more: seq<Span>, ghost segments: seq<Segment>,
                       ghost s: Segment)
    returns (fits: bool, result: seq<Span>)
    requires Executing(pool, block, segments) && Lays(pool, more, s)
    ensures fits ==> Executing(pool, result, segments + [s])
    ensures fits <==> SegmentsLength(segments + [s]) <= MAX_MATCH_SETS
  {
    ExecutedLength(pool, block, segments);
    LaidLength(pool, more, s);
    SegmentsNext(segments, s);
    fits, result := AppendBlock(block, more);
    if fits {
      HoldsAppendAll(pool, block, RawProgram(segments), more, Tag(EmitNodes(s.nodes), s.phase));
      RawSnoc(segments, s);
    }
  }

  method AppendEnd(ghost pool: seq<Instr>, ghost grown: seq<Instr>, block: seq<Span>, end: Span,
                   ghost segments: seq<Segment>)
    returns (fits: bool, result: seq<Span>)
    requires Executing(pool, block, segments) && pool <= grown
    requires Lays(grown, [end], Segment(FlowPhase, [FLOW_END]))
    ensures fits <==> SegmentsLength(segments + [Segment(FlowPhase, [FLOW_END])]) <= MAX_MATCH_SETS
    ensures fits ==> Executing(grown, result, segments + [Segment(FlowPhase, [FLOW_END])])
  {
    ExecutingGrows(pool, grown, block, segments);
    fits, result := AppendSegment(grown, block, [end], segments, Segment(FlowPhase, [FLOW_END]));
  }

  ghost predicate LaysAll(pool: seq<Instr>, parts: seq<seq<Span>>, segments: seq<Segment>) {
    |parts| == |segments| && forall k :: 0 <= k < |parts| ==> Lays(pool, parts[k], segments[k])
  }

  method AppendSegments(ghost pool: seq<Instr>, block: seq<Span>, parts: seq<seq<Span>>,
                        ghost before: seq<Segment>, ghost segments: seq<Segment>)
                          returns (fits: bool, result: seq<Span>)
    requires Executing(pool, block, before) && SegmentsLength(before) <= MAX_MATCH_SETS
      && LaysAll(pool, parts, segments)
    ensures fits ==> Executing(pool, result, before + segments)
    ensures fits <==> SegmentsLength(before + segments) <= MAX_MATCH_SETS
  {
    result, fits := block, true;
    var i := 0;
    assert before + segments[..0] == before;
    while i < |parts|
      invariant 0 <= i <= |parts|
      invariant Executing(pool, result, before + segments[..i])
        && SegmentsLength(before + segments[..i]) <= MAX_MATCH_SETS
    {
      NextSegment(before, segments, i);
      fits, result := AppendSegment(pool, result, parts[i], before + segments[..i], segments[i]);
      if !fits {
        return;
      }
      i := i + 1;
    }
    assert segments[..|segments|] == segments;
    fits := true;
  }

  // The first segments are no longer than all of them.
  lemma {:induction false} NextSegment(before: seq<Segment>, segments: seq<Segment>, i: nat)
    requires i < |segments|
    ensures before + segments[..i + 1] == before + segments[..i] + [segments[i]]
    ensures SegmentsLength(before + segments[..i + 1]) <= SegmentsLength(before + segments)
  {
    assert before + segments == (before + segments[..i + 1]) + segments[i + 1..];
    SegmentsConcat(before + segments[..i + 1], segments[i + 1..]);
  }

  // System bypass routes are marked after emission.
  function Marked(code: seq<Instr>): (r: seq<Instr>)
    ensures |r| == |code|
    ensures forall k :: 0 <= k < |code| ==> r[k] == MarkedInstr(code[k])
  {
    seq(|code|, k requires 0 <= k < |code| => MarkedInstr(code[k]))
  }

  function MarkedInstr(i: Instr): Instr {
    if i.action == Route then i.(bypass := true) else i
  }

  lemma {:induction false} MarkedConcat(a: seq<Instr>, b: seq<Instr>)
    ensures Marked(a + b) == Marked(a) + Marked(b)
  {
  }

  lemma {:induction false} MarkedTests(tests: seq<Predicate>, tail: Instr)
    requires tests != []
    ensures Marked(EmitTests(tests, tail)) == EmitTests(tests, MarkedInstr(tail))
  {
    if |tests| > 1 {
      MarkedTests(tests[1..], tail);
      MarkedConcat([Logical(tests[0], Or, tail.negated, 0)], EmitTests(tests[1..], tail));
    }
  }

  lemma {:induction false} MarkedClauses(clauses: seq<Clause>, tail: Instr)
    requires clauses != [] && ClausesFormed(clauses)
    ensures Marked(EmitClauses(clauses, tail)) == EmitClauses(clauses, MarkedInstr(tail))
  {
    var c := clauses[0];
    if |clauses| == 1 {
      MarkedTests(c.tests, tail.(negated := c.negated));
    } else {
      var and := Logical(Always, And, c.negated, 0);
      MarkedTests(c.tests, and);
      MarkedClauses(clauses[1..], tail);
      MarkedConcat(EmitTests(c.tests, and), EmitClauses(clauses[1..], tail));
    }
  }

  lemma {:induction false} MarkedLeaves(rules: seq<SourceRule>)
    requires NodesFormed(Leaves(Routes, rules))
    ensures NodesFormed(BypassLeaves(rules))
    ensures Marked(EmitNodes(Leaves(Routes, rules))) == EmitNodes(BypassLeaves(rules))
  {
    if rules != [] {
      var first, rest := LeafOf(Routes, rules[0]), Leaves(Routes, rules[1..]);
      assert forall n <- rest :: n in first + rest;
      assert forall n <- first :: n in first + rest;
      MarkedLeaves(rules[1..]);
      EmitConcat(first, rest);
      MarkedConcat(EmitNodes(first), EmitNodes(rest));
      match rules[0].action {
        case ToOutbound(t) =>
          var plain := Leaf(Rule(rules[0].filter, RouteTo(t.outbound, t.mark, t.must, t.skipNoalive, false)));
          var marked := Leaf(Rule(rules[0].filter, RouteTo(t.outbound, t.mark, t.must, t.skipNoalive, true)));
          assert first == [plain] && plain in first;
          EmitOne(plain);
          EmitOne(marked);
          MarkedClauses(rules[0].filter, TailOf(plain.rule.effect));
          EmitConcat([marked], BypassLeaves(rules[1..]));
        case _ =>
          assert first == [] && [] + BypassLeaves(rules[1..]) == BypassLeaves(rules[1..]);
      }
    }
  }

  datatype SharedSpans = SharedSpans(
    bypass: Span, destinations: seq<Span>, request: Span, http: Span, early: Span, late: Span)

  const NO_SPAN := Span(0, 0, RoutePhase, false)
  const NOTHING_SHARED := SharedSpans(NO_SPAN, [], NO_SPAN, NO_SPAN, NO_SPAN, NO_SPAN)

  function SharedPart(s: SharedSpans, k: nat): seq<Span> {
    match k
    case 0 => [s.bypass]
    case 1 => s.destinations
    case 2 => [s.request]
    case 3 => [s.http]
    case 4 => [s.early]
    case _ => [s.late]
  }

  function SharedSegment(rules: SharedRules, k: nat): Segment {
    match k
    case 0 => Segment(IngressPhase, BypassLeaves(rules.bypass))
    case 1 => Segment(IngressPhase, DestinationCaptures(rules.destinations))
    case 2 => Segment(IngressPhase, HttpCapture(rules.request, {Http, HttpRequest}))
    case 3 => Segment(FlowPhase, HttpCapture(rules.http, {Http}))
    case 4 => Segment(RoutePhase, Leaves(Routes, rules.early))
    case _ => Segment(RoutePhase, Leaves(Routes, rules.late))
  }

  ghost predicate LaidAt(pool: seq<Instr>, s: SharedSpans, rules: SharedRules, k: nat) {
    Lays(pool, SharedPart(s, k), SharedSegment(rules, k))
  }

  ghost predicate SharedLaid(pool: seq<Instr>, s: SharedSpans, rules: SharedRules) {
    forall k {:trigger LaidAt(pool, s, rules, k)} :: 0 <= k < 6 ==> LaidAt(pool, s, rules, k)
  }

  lemma {:induction false} SharedGrows(pool: seq<Instr>, grown: seq<Instr>, s: SharedSpans, rules: SharedRules)
    requires SharedLaid(pool, s, rules) && pool <= grown
    ensures SharedLaid(grown, s, rules)
  {
    forall k | 0 <= k < 6
      ensures LaidAt(grown, s, rules, k)
    {
      assert LaidAt(pool, s, rules, k);
      LaysGrows(pool, grown, SharedPart(s, k), SharedSegment(rules, k));
    }
  }

  lemma {:induction false} LaidCaptures(pool: seq<Instr>, s: SharedSpans, rules: SharedRules)
    requires SharedLaid(pool, s, rules)
    ensures Lays(pool, [s.bypass], Segment(IngressPhase, BypassLeaves(rules.bypass)))
    ensures Lays(pool, s.destinations, Segment(IngressPhase, DestinationCaptures(rules.destinations)))
    ensures Lays(pool, [s.request], Segment(IngressPhase, HttpCapture(rules.request, {Http, HttpRequest})))
    ensures Lays(pool, [s.http], Segment(FlowPhase, HttpCapture(rules.http, {Http})))
  {
    assert LaidAt(pool, s, rules, 0) && LaidAt(pool, s, rules, 1) && LaidAt(pool, s, rules, 2)
      && LaidAt(pool, s, rules, 3);
  }

  lemma {:induction false} LaidPart(pool: seq<Instr>, s: SharedSpans, rules: SharedRules, k: nat, spans: seq<Span>,
                                    segment: Segment)
    requires SharedLaid(pool, s, rules) && k < 6 && SharedPart(s, k) == spans && SharedSegment(rules, k) == segment
    ensures Lays(pool, spans, segment)
  {
    assert LaidAt(pool, s, rules, k);
  }

  lemma {:induction false} LaidRoutes(pool: seq<Instr>, s: SharedSpans, rules: SharedRules)
    requires SharedLaid(pool, s, rules)
    ensures Lays(pool, [s.early], Segment(RoutePhase, Leaves(Routes, rules.early)))
    ensures Lays(pool, [s.late], Segment(RoutePhase, Leaves(Routes, rules.late)))
  {
    LaidPart(pool, s, rules, 4, [s.early], Segment(RoutePhase, Leaves(Routes, rules.early)));
    LaidPart(pool, s, rules, 5, [s.late], Segment(RoutePhase, Leaves(Routes, rules.late)));
  }

  // Captures before the routes, and routes around those of a policy.

  datatype CaptureSpans = CaptureSpans(bypass: Span, destinations: seq<Span>, request: Span, http: Span) {
    function Length(): int {
      (bypass.end - bypass.start) + ExecutionLength(destinations) + (request.end - request.start)
        + (http.end - http.start)
    }
  }

  datatype RouteSpans = RouteSpans(early: Span, late: Span) {
    function Length(): int {
      (early.end - early.start) + (late.end - late.start)
    }
  }

  ghost predicate CapturesLaid(pool: seq<Instr>, s: CaptureSpans, rules: SharedRules) {
    match s
    case CaptureSpans(bypass, destinations, request, http) =>
      && Lays(pool, [bypass], Segment(IngressPhase, BypassLeaves(rules.bypass)))
      && Lays(pool, destinations, Segment(IngressPhase, DestinationCaptures(rules.destinations)))
      && Lays(pool, [request], Segment(IngressPhase, HttpCapture(rules.request, {Http, HttpRequest})))
      && Lays(pool, [http], Segment(FlowPhase, HttpCapture(rules.http, {Http})))
  }

  ghost predicate PluginsLaid(pool: seq<Instr>, s: RouteSpans, rules: SharedRules) {
    match s
    case RouteSpans(early, late) =>
      && Lays(pool, [early], Segment(RoutePhase, Leaves(Routes, rules.early)))
      && Lays(pool, [late], Segment(RoutePhase, Leaves(Routes, rules.late)))
  }

  lemma {:induction false} CapturesGrow(pool: seq<Instr>, grown: seq<Instr>, s: CaptureSpans, rules: SharedRules)
    requires CapturesLaid(pool, s, rules) && pool <= grown
    ensures CapturesLaid(grown, s, rules)
  {
    LaysGrows(pool, grown, [s.bypass], Segment(IngressPhase, BypassLeaves(rules.bypass)));
    LaysGrows(pool, grown, s.destinations, Segment(IngressPhase, DestinationCaptures(rules.destinations)));
    LaysGrows(pool, grown, [s.request], Segment(IngressPhase, HttpCapture(rules.request, {Http, HttpRequest})));
    LaysGrows(pool, grown, [s.http], Segment(FlowPhase, HttpCapture(rules.http, {Http})));
  }

  lemma {:induction false} SharedMet(before: Store, mid: seq<Instr>, captures: int, plugins: int, outbounds: set<nat>,
                                     rules: SharedRules, after: Store)
    requires after == before.(rules := after.rules) && |after.rules| <= MAX_MATCH_SETS
    requires CapturesSane(outbounds, rules) && PluginsSane(outbounds, rules)
    requires Added(before.rules, mid, CapturesWeight(outbounds, rules), captures)
    requires Added(mid, after.rules, PluginsWeight(outbounds, rules), plugins)
    ensures Met(before, SharedDemand(outbounds, rules), after)
  {
    MetRules(before, SharedDemand(outbounds, rules), after);
  }

  lemma {:induction false} SharedJoined(pool: seq<Instr>, c: CaptureSpans, r: RouteSpans, rules: SharedRules)
    requires CapturesLaid(pool, c, rules) && PluginsLaid(pool, r, rules)
    ensures SharedLaid(pool, SharedSpans(c.bypass, c.destinations, c.request, c.http, r.early, r.late), rules)
  {
    var s := SharedSpans(c.bypass, c.destinations, c.request, c.http, r.early, r.late);
    assert LaidAt(pool, s, rules, 0) && LaidAt(pool, s, rules, 1) && LaidAt(pool, s, rules, 2);
    assert LaidAt(pool, s, rules, 3) && LaidAt(pool, s, rules, 4) && LaidAt(pool, s, rules, 5);
  }

  lemma {:induction false} FreshLays(pool: seq<Instr>, grown: seq<Instr>, span: Span, phase: Phase, nodes: seq<Node>)
    requires NodesFormed(nodes) && grown == pool + EmitNodes(nodes)
    requires span.start == |pool| && span.end == |grown| && span.phase == phase
    ensures Lays(grown, [span], Segment(phase, nodes))
  {
    EncodeNodes(nodes);
    assert grown[span.start..span.end] == EmitNodes(nodes);
    HoldsOne(grown, span);
  }

  lemma {:induction false} NothingLays(pool: seq<Instr>, phase: Phase)
    ensures Lays(pool, [NO_SPAN], Segment(phase, []))
  {
    HoldsOne(pool, NO_SPAN);
    assert SpanOps(pool, NO_SPAN) == [] == Tag(EmitNodes([]), phase);
  }

  lemma {:induction false} CaptureLeavesSnoc(filters: seq<seq<Clause>>, filter: seq<Clause>, flags: set<CaptureFlag>)
    ensures CaptureLeaves(filters + [filter], flags)
      == CaptureLeaves(filters, flags) + [Leaf(Rule(filter, CaptureFor(flags)))]
  {
    if filters == [] {
      assert [] + [filter] == [filter] && [filter][1..] == [];
    } else {
      assert (filters + [filter])[1..] == filters[1..] + [filter];
      CaptureLeavesSnoc(filters[1..], filter, flags);
    }
  }

  lemma {:induction false} DestinationCapturesAre(rules: seq<DestinationRule>)
    ensures DestinationCaptures(rules) == CaptureLeaves(Filters(rules), {Destination})
  {
    if rules != [] {
      DestinationCapturesAre(rules[1..]);
      assert Filters(rules)[1..] == Filters(rules[1..]);
    }
  }

  // A program laid out behind a pool, at its cost.
  ghost predicate Provides(pool: seq<Instr>, grown: seq<Instr>, spans: seq<Span>, s: Segment, weight: nat) {
    match s
    case Segment(_, _) => Lays(grown, spans, s) && Added(pool, grown, weight, ExecutionLength(spans))
  }

  lemma {:induction false} NothingProvided(pool: seq<Instr>, phase: Phase)
    ensures Provides(pool, pool, [NO_SPAN], Segment(phase, []), 0)
  {
    NothingLays(pool, phase);
    OneSpan(NO_SPAN);
  }

  // The admission test, patched to jump over the captures behind it.
  function Admitted(pool: seq<Instr>, filters: seq<seq<Clause>>, flags: set<CaptureFlag>): (r: seq<Instr>)
    requires NodesFormed(CaptureLeaves(filters, flags))
    ensures pool <= r
  {
    var leaves := EmitNodes(CaptureLeaves(filters, flags));
    var raw := pool + [Logical(HTTP_CLIENT, Route, false, 0)] + leaves;
    raw[|pool| := raw[|pool|].(action := ConditionalJump, mark := |leaves| + 1)]
  }

  lemma {:induction false} HttpProvides(pool: seq<Instr>, filters: seq<seq<Clause>>, flags: set<CaptureFlag>,
                                        phase: Phase)
    requires filters != [] && NodesFormed(CaptureLeaves(filters, flags))
    ensures var grown := Admitted(pool, filters, flags);
      Provides(pool, grown, [Span(|pool|, |grown|, phase, true)], Segment(phase, HttpCapture(filters, flags)),
               HttpWeight(filters))
  {
    var leaves, grown := CaptureLeaves(filters, flags), Admitted(pool, filters, flags);
    var span := Span(|pool|, |grown|, phase, true);
    assert leaves[0] == Leaf(Rule(filters[0], CaptureFor(flags))) && EmitNodes(leaves) != [];
    HttpBlock(pool, leaves);
    FreshLays(pool, grown, span, phase, HttpCapture(filters, flags));
    HttpCost(filters, flags, pool);
    OneSpan(span);
  }

  lemma {:induction false} HttpCost(filters: seq<seq<Clause>>, flags: set<CaptureFlag>, pool: seq<Instr>)
    requires filters != [] && NodesFormed(CaptureLeaves(filters, flags))
      && EmitNodes(CaptureLeaves(filters, flags)) != []
    ensures Added(pool, Admitted(pool, filters, flags), HttpWeight(filters), HttpWeight(filters))
  {
    var test := [Logical(HTTP_CLIENT, Route, false, 0)];
    CaptureCost(filters, flags, pool + test);
    if Encodable(pool) && HttpWeight(filters) <= MAX_MATCH_SETS {
      EncodableConcat(pool, test);
      HttpEncodable(pool, pool + test + EmitNodes(CaptureLeaves(filters, flags)), Admitted(pool, filters, flags),
                    |pool|);
    }
  }

  lemma {:induction false} BypassProvides(pool: seq<Instr>, outbounds: set<nat>, rules: seq<SourceRule>)
    requires NodesFormed(Leaves(Routes, rules)) && RoutesSane(outbounds, rules)
    ensures var grown := pool + Marked(EmitNodes(Leaves(Routes, rules)));
      Provides(pool, grown, [Span(|pool|, |grown|, IngressPhase, true)], Segment(IngressPhase, BypassLeaves(rules)),
               RoutesWeight(outbounds, rules))
  {
    var code := EmitNodes(Leaves(Routes, rules));
    var span := Span(|pool|, |pool + Marked(code)|, IngressPhase, true);
    RoutesDemand(outbounds, rules);
    MarkedLeaves(rules);
    BatchCost(Routes, rules, pool);
    MarkedEncodable(pool, code);
    FreshLays(pool, pool + Marked(code), span, IngressPhase, BypassLeaves(rules));
    OneSpan(span);
  }

  lemma {:induction false} CapturesProvided(pool0: seq<Instr>, pool1: seq<Instr>, pool2: seq<Instr>, pool3: seq<Instr>,
                                            pool4: seq<Instr>,
                                            outbounds: set<nat>, s: CaptureSpans, rules: SharedRules)
    requires pool1 <= pool2 <= pool3 <= pool4
    requires Provides(pool0, pool1, [s.bypass], Segment(IngressPhase, BypassLeaves(rules.bypass)),
                      RoutesWeight(outbounds, rules.bypass))
    requires Provides(pool1, pool2, s.destinations, Segment(IngressPhase, DestinationCaptures(rules.destinations)),
                      FiltersWeight(Filters(rules.destinations)))
    requires Provides(pool2, pool3, [s.request],
                      Segment(IngressPhase, HttpCapture(rules.request, {Http, HttpRequest})), HttpWeight(rules.request))
    requires Provides(pool3, pool4, [s.http], Segment(FlowPhase, HttpCapture(rules.http, {Http})),
                      HttpWeight(rules.http))
    ensures CapturesLaid(pool4, s, rules) && Added(pool0, pool4, CapturesWeight(outbounds, rules), s.Length())
  {
    LaysGrows(pool1, pool4, [s.bypass], Segment(IngressPhase, BypassLeaves(rules.bypass)));
    LaysGrows(pool2, pool4, s.destinations, Segment(IngressPhase, DestinationCaptures(rules.destinations)));
    LaysGrows(pool3, pool4, [s.request], Segment(IngressPhase, HttpCapture(rules.request, {Http, HttpRequest})));
    OneSpan(s.bypass);
    OneSpan(s.request);
    OneSpan(s.http);
  }

  ghost predicate Grew(pool: seq<Instr>, grown: seq<Instr>, n: nat) {
    |grown| <= |pool| + n && (Encodable(pool) ==> Encodable(grown))
  }

  lemma {:induction false} GrewByOne(pool: seq<Instr>, instr: Instr)
    requires !Linking(instr) && instr.action != ConditionalJump
    ensures Grew(pool, pool + [instr], 1)
  {
  }

  lemma {:induction false} CaptureCost(filters: seq<seq<Clause>>, flags: set<CaptureFlag>, pool: seq<Instr>)
    requires NodesFormed(CaptureLeaves(filters, flags))
    ensures |EmitNodes(CaptureLeaves(filters, flags))| == FiltersWeight(filters)
    ensures Encodable(pool) ==> Encodable(pool + EmitNodes(CaptureLeaves(filters, flags)))
  {
    if filters == [] {
      assert pool + EmitNodes([]) == pool;
    } else {
      var front, last := filters[..|filters| - 1], filters[|filters| - 1];
      var leaf := Leaf(Rule(last, CaptureFor(flags)));
      assert filters == front + [last];
      CaptureLeavesSnoc(front, last, flags);
      assert forall n <- CaptureLeaves(front, flags) :: n in CaptureLeaves(front, flags) + [leaf];
      assert leaf in CaptureLeaves(front, flags) + [leaf];
      EmitOne(leaf);
      EmitConcat(CaptureLeaves(front, flags), [leaf]);
      CaptureCost(front, flags, pool);
      EmittedTests(last, TailOf(CaptureFor(flags)));
      ClausesEncodable(last, TailOf(CaptureFor(flags)));
      if Encodable(pool) {
        EncodableConcat(pool + EmitNodes(CaptureLeaves(front, flags)), EmitNode(leaf));
      }
      Associate(pool, EmitNodes(CaptureLeaves(front, flags)), EmitNode(leaf));
    }
  }

  lemma {:induction false} MarkedEncodable(pool: seq<Instr>, code: seq<Instr>)
    ensures Encodable(pool + Marked(code)) <==> Encodable(pool + code)
  {
    assert forall k :: 0 <= k < |code| ==> JumpInRange(Marked(code)[k]) == JumpInRange(code[k]);
    assert forall k :: 0 <= k < |code| ==> Linking(Marked(code)[k]) == Linking(code[k]);
    forall k | 0 <= k < |pool + code|
      ensures JumpInRange((pool + Marked(code))[k]) == JumpInRange((pool + code)[k])
    {
      if k >= |pool| {
        assert (pool + Marked(code))[k] == Marked(code)[k - |pool|];
      }
    }
  }

  // The patched admission test links if its captures fit.
  lemma {:induction false} HttpEncodable(pool: seq<Instr>, raw: seq<Instr>, patched: seq<Instr>, start: nat)
    requires start < |raw| - 1 && Encodable(raw) && pool == raw[..start]
    requires patched == raw[start := raw[start].(action := ConditionalJump, mark := |raw| - start)]
    requires |raw| - start <= MAX_MATCH_SETS
    ensures Encodable(patched)
  {
  }

  // The admission test, patched over its captures, is a conditional block.
  lemma {:induction false} HttpBlock(pool: seq<Instr>, leaves: seq<Node>)
    requires NodesFormed(leaves) && EmitNodes(leaves) != []
    ensures var raw := pool + [Logical(HTTP_CLIENT, Route, false, 0)] + EmitNodes(leaves);
      && NodesFormed([Scope(ADMITTED, leaves)])
      && raw[|pool| := raw[|pool|].(action := ConditionalJump, mark := |EmitNodes(leaves)| + 1)]
         == pool + EmitNodes([Scope(ADMITTED, leaves)])
  {
    var body := EmitNodes(leaves);
    EmitOne(Scope(ADMITTED, leaves));
    assert EmitClauses(ADMITTED, JumpTail(|body|)) == [JumpTail(|body|).(test := HTTP_CLIENT)];
  }

  ghost predicate FlowEndAt(pool: seq<Instr>, span: Span) {
    span.end == span.start + 1 && Lays(pool, [span], Segment(FlowPhase, [FLOW_END]))
  }

  // ------ Flow ends and fallbacks, of which equal ones are shared ------

  datatype Tail = Tail(rules: seq<Instr>, fallbacks: set<Instr>, ended: bool) {
    // What a policy adds: a flow end if it needs one, and its fallback.
    function Extra(open: bool, t: Target): nat {
      (if open && !ended then 1 else 0) + if FallbackInstr(t) in fallbacks then 0 else 1
    }

    predicate Room(open: bool, t: Target) {
      |rules| + Extra(open, t) <= MAX_MATCH_SETS
    }
  }

  ghost predicate Closed(pool: seq<Instr>, end: Option<Span>, grown: seq<Instr>, end': Option<Span>, open: bool) {
    && |grown| == |pool| + (if open && end.None? then 1 else 0)
    && (end'.Some? <==> end.Some? || open)
    && (Encodable(pool) ==> Encodable(grown))
  }

  ghost predicate Fell(pool: seq<Instr>, fallbacks: set<Instr>, grown: seq<Instr>, fallbacks': set<Instr>, t: Target) {
    && |grown| == |pool| + (if FallbackInstr(t) in fallbacks then 0 else 1)
    && fallbacks' == fallbacks + {FallbackInstr(t)}
    && (Encodable(pool) ==> Encodable(grown))
  }

  ghost predicate Finished(a: Tail, b: Tail, open: bool, t: Target) {
    match b
    case Tail(rules, fallbacks, ended) =>
      && |rules| == |a.rules| + a.Extra(open, t)
      && fallbacks == a.fallbacks + {FallbackInstr(t)} && ended == (a.ended || open)
      && (Encodable(a.rules) ==> Encodable(rules))
  }

  // What a profile took of the pool: the rules and variants of its policy, and
  // what was not there yet of its ends.
  ghost predicate Stored(before: Store, start: Tail, d: Demand, open: bool, t: Target, after: Store, end: Tail) {
    match d
    case Demand(sane, weight, variants) =>
      && sane && after.context == before.context && after.variants == before.variants + variants
      && |after.rules| == |before.rules| + weight + Cost(before.context, variants - before.variants)
        + start.Extra(open, t)
      && end == Tail(after.rules, start.fallbacks + {FallbackInstr(t)}, start.ended || open)
      && (Size(before.variants) <= MAX_MATCH_SETS ==> Size(after.variants) <= MAX_MATCH_SETS)
      && (Encodable(before.rules) ==> Encodable(after.rules))
  }

  ghost predicate Affords(before: Store, start: Tail, d: Demand, open: bool, t: Target) {
    match d
    case Demand(sane, weight, variants) =>
      && sane
      && |before.rules| + weight + Cost(before.context, variants - before.variants) + start.Extra(open, t)
        <= MAX_MATCH_SETS
      && Size(before.variants + variants) <= MAX_MATCH_SETS
  }

  lemma {:induction false} AffordsDue(before: Store, start: Tail, d: Demand, open: bool, t: Target)
    ensures Affords(before, start, d, open, t) ==> Due(before, d)
  {
  }

  lemma {:induction false} AffordsRoom(before: Store, start: Tail, d: Demand, between: Store, open: bool, t: Target)
    requires Met(before, d, between)
    ensures Affords(before, start, d, open, t) ==> start.(rules := between.rules).Room(open, t)
  {
  }

  // First the flow end, then the fallback.
  lemma {:induction false} BothEnds(a: Tail, end: Option<Span>, mid: seq<Instr>, end': Option<Span>, b: Tail,
                                    open: bool, t: Target)
    requires a.ended == end.Some? && b.ended == end'.Some? && Closed(a.rules, end, mid, end', open)
    requires Fell(mid, a.fallbacks, b.rules, b.fallbacks, t)
    ensures Finished(a, b, open, t)
  {
  }

  lemma {:induction false} RoomForBoth(a: Tail, end: Option<Span>, mid: seq<Instr>, end': Option<Span>, open: bool,
                                       t: Target)
    requires a.ended == end.Some? && Closed(a.rules, end, mid, end', open)
    ensures a.Room(open, t) ==> FallbackInstr(t) in a.fallbacks || |mid| < MAX_MATCH_SETS
  {
  }

  lemma {:induction false} Storing(before: Store, start: Tail, d: Demand, between: Store, open: bool, t: Target,
                                   after: Store, end: Tail)
    requires Met(before, d, between) && Finished(start.(rules := between.rules), end, open, t)
    requires after == between.(rules := end.rules)
    ensures Stored(before, start, d, open, t, after, end)
  {
  }

  datatype Profile = Profile(spans: seq<Span>, destinations: seq<Fragment>)

  class ProfileCompiler {
    const compiler: Compiler
    const rules: SharedRules
    ghost const bound: nat
    var shared: SharedSpans
    var flowEnd: Option<Span>
    var profiles: seq<Profile>
    ghost var policies: seq<Policy>

    // Everything but the shared programs, which are compiled first.
    ghost predicate Sound()
      reads this, compiler, compiler.builder
    {
      && compiler.Valid()
      && CanResolve()
      && Laid(compiler.builder.rules, flowEnd, profiles, policies)
    }

    ghost predicate Laid(pool: seq<Instr>, flowEnd: Option<Span>, profiles: seq<Profile>, policies: seq<Policy>) {
      match flowEnd
      case Some(span) => FlowEndAt(pool, span) && ProfilesHold(pool, profiles, policies)
      case None => ProfilesHold(pool, profiles, policies)
    }

    ghost predicate ProfilesHold(pool: seq<Instr>, profiles: seq<Profile>, policies: seq<Policy>) {
      && |policies| == |profiles|
      && forall i {:trigger ProfileHolds(pool, profiles[i], policies[i])} ::
          0 <= i < |profiles|
          ==> ProfileHolds(pool, profiles[i], policies[i])
    }

    lemma {:induction false} ProfilesSnoc(pool: seq<Instr>, flowEnd: Option<Span>, profiles: seq<Profile>,
                                          policies: seq<Policy>,
                                          profile: Profile, policy: Policy)
      requires Laid(pool, flowEnd, profiles, policies) && ProfileHolds(pool, profile, policy)
      ensures Laid(pool, flowEnd, profiles + [profile], policies + [policy])
    {
      forall i | 0 <= i < |profiles| + 1
        ensures ProfileHolds(pool, (profiles + [profile])[i], (policies + [policy])[i])
      {
        if i < |profiles| {
          assert ProfileHolds(pool, profiles[i], policies[i]);
        }
      }
    }

    ghost predicate Valid()
      reads this, compiler, compiler.builder
    {
      Sound() && SharedLaid(compiler.builder.rules, shared, rules)
    }

    ghost predicate CanResolve() {
      && Ranked(compiler.sets, compiler.rank)
      && forall name :: name in compiler.sets ==> compiler.rank[name] < bound
    }

    // The program that a policy stands for; its nodes are well-formed.
    ghost function Program(policy: Policy): seq<Segment>
      requires CanResolve()
      requires NodesFormed(Resolve(Controls, compiler.sets, compiler.rank, bound, policy.rules))
      requires NodesFormed(HttpCapture(rules.http, {Http}))
    {
      PolicySegments(rules, compiler.sets, compiler.rank, bound, policy)
    }

    ghost predicate ProfileHolds(pool: seq<Instr>, profile: Profile, policy: Policy) {
      && CanResolve()
      && NodesFormed(Resolve(Controls, compiler.sets, compiler.rank, bound, policy.rules))
      && NodesFormed(HttpCapture(rules.http, {Http}))
      && Executing(pool, profile.spans, Program(policy))
      && ExecutionLength(profile.spans) <= MAX_MATCH_SETS
      && Joined(profile.destinations) == Destinations(compiler.sets, compiler.rank, bound, policy.rules)
        + rules.destinations
      && !policy.fallback.skipNoalive
    }

    constructor (outbounds: set<nat>, sets: RuleSets, rules: SharedRules, ghost rank: Ranks, ghost bound: nat)
      requires Ranked(sets, rank) && forall name :: name in sets ==> rank[name] < bound
      ensures Sound() && fresh(compiler) && fresh(compiler.builder)
        && compiler.State() == Store([], {}, Context(outbounds, sets, rank))
      ensures compiler.builder.outbounds == outbounds && policies == []
      ensures compiler.sets == sets && compiler.rank == rank && this.rules == rules && this.bound == bound
      ensures profiles == [] && Ending() == Tail([], {}, false)
    {
      compiler := new Compiler(outbounds, sets, rank);
      this.rules, this.bound := rules, bound;
      shared, flowEnd, profiles, policies := NOTHING_SHARED, None, [], [];
    }

    // The pool grew at its end; what was laid out before stays.
    lemma {:induction false} StillSound(pool: seq<Instr>)
      requires pool <= compiler.builder.rules && compiler.Valid() && CanResolve()
      requires flowEnd.Some? ==> FlowEndAt(pool, flowEnd.value)
      requires ProfilesHold(pool, profiles, policies)
      ensures Sound()
    {
      if flowEnd.Some? {
        LaysGrows(pool, compiler.builder.rules, [flowEnd.value], Segment(FlowPhase, [FLOW_END]));
      }
      forall i | 0 <= i < |profiles|
        ensures ProfileHolds(compiler.builder.rules, profiles[i], policies[i])
      {
        assert ProfileHolds(pool, profiles[i], policies[i]);
        ExecutingGrows(pool, compiler.builder.rules, profiles[i].spans, Program(policies[i]));
      }
    }

    lemma {:induction false} StillValid(pool: seq<Instr>)
      requires pool <= compiler.builder.rules && compiler.Valid() && CanResolve()
      requires (flowEnd.Some? ==> FlowEndAt(pool, flowEnd.value)) && ProfilesHold(pool, profiles, policies)
      requires SharedLaid(pool, shared, rules)
      ensures Valid()
    {
      StillSound(pool);
      SharedGrows(pool, compiler.builder.rules, shared, rules);
    }

    // Capture rules without a guard, one after the other.
    method EmitCaptures(filters: seq<seq<Clause>>, flags: set<CaptureFlag>) returns (ok: bool)
      requires compiler.Valid()
      modifies compiler.builder`rules
      ensures compiler.Valid() && old(compiler.builder.rules) <= compiler.builder.rules
      ensures ok ==> NodesFormed(CaptureLeaves(filters, flags))
      ensures ok ==> compiler.builder.rules == old(compiler.builder.rules) + EmitNodes(CaptureLeaves(filters, flags))
      ensures ok <==> AllFiltered(filters)
    {
      var builder := compiler.builder;
      var i := 0;
      assert filters[..0] == [] && builder.rules + EmitNodes([]) == builder.rules;
      while i < |filters|
        invariant 0 <= i <= |filters|
        invariant builder.fallbacks == old(builder.fallbacks) && old(builder.rules) <= builder.rules
        invariant NodesFormed(CaptureLeaves(filters[..i], flags)) && AllFiltered(filters[..i])
        invariant builder.rules == old(builder.rules) + EmitNodes(CaptureLeaves(filters[..i], flags))
      {
        ok := builder.ApplyPredicate(filters[i], TailOf(CaptureFor(flags)));
        if !ok {
          compiler.Grown(old(builder.rules));
          return;
        }
        var leaf := Leaf(Rule(filters[i], CaptureFor(flags)));
        EmitOne(leaf);
        assert filters[..i + 1] == filters[..i] + [filters[i]];
        CaptureLeavesSnoc(filters[..i], filters[i], flags);
        EmitConcat(CaptureLeaves(filters[..i], flags), [leaf]);
        Associate(old(builder.rules), EmitNodes(CaptureLeaves(filters[..i], flags)), EmitNode(leaf));
        i := i + 1;
      }
      assert filters[..|filters|] == filters;
      compiler.Grown(old(builder.rules));
      ok := true;
    }

    // One conditional block: the admission test, patched to jump over all captures.
    method CompileHttpCapture(filters: seq<seq<Clause>>, flags: set<CaptureFlag>, phase: Phase)
      returns (r: Result<Span>)
      requires compiler.Valid()
      modifies compiler.builder`rules
      ensures compiler.Valid() && old(compiler.builder.rules) <= compiler.builder.rules
      ensures r.Ok? ==> Provides(old(compiler.builder.rules), compiler.builder.rules, [r.value],
                                 Segment(phase, HttpCapture(filters, flags)), HttpWeight(filters))
      ensures r.Ok? <==> AllFiltered(filters)
    {
      var builder := compiler.builder;
      ghost var pool := builder.rules;
      if |filters| == 0 {
        NothingProvided(pool, phase);
        return Ok(NO_SPAN);
      }
      var start := |builder.rules|;
      var ok := EmitAdmitted(filters, flags);
      if !ok {
        return Err(EmptyPredicate);
      }
      HttpProvides(pool, filters, flags, phase);
      return Ok(Span(start, |builder.rules|, phase, true));
    }

    method EmitAdmitted(filters: seq<seq<Clause>>, flags: set<CaptureFlag>) returns (ok: bool)
      requires compiler.Valid() && filters != []
      modifies compiler.builder`rules
      ensures compiler.Valid() && old(compiler.builder.rules) <= compiler.builder.rules
      ensures ok <==> AllFiltered(filters)
      ensures ok ==>
        NodesFormed(CaptureLeaves(filters, flags))
        && compiler.builder.rules == Admitted(old(compiler.builder.rules), filters, flags)
    {
      var builder := compiler.builder;
      ghost var pool := builder.rules;
      var start := |builder.rules|;
      builder.rules := builder.rules + [Logical(HTTP_CLIENT, Route, false, 0)];
      compiler.Grown(pool);
      ok := EmitCaptures(filters, flags);
      if ok {
        builder.SetConditionalJump(start, |builder.rules| - start - 1);
        compiler.Grown(pool);
      }
    }

    method CompileBypass() returns (r: Result<Span>)
      requires compiler.Valid()
      modifies compiler.builder`rules
      ensures compiler.Valid() && old(compiler.builder.rules) <= compiler.builder.rules
      ensures r.Ok? ==> Provides(old(compiler.builder.rules), compiler.builder.rules, [r.value],
                                 Segment(IngressPhase, BypassLeaves(rules.bypass)),
                                 RoutesWeight(compiler.builder.outbounds, rules.bypass))
      ensures r.Ok? <==> RoutesSane(compiler.builder.outbounds, rules.bypass)
    {
      ghost var pool := compiler.builder.rules;
      RoutesDemand(compiler.builder.outbounds, rules.bypass);
      var batch := compiler.EmitBatch(Routes, rules.bypass);
      if batch.Err? {
        return batch;
      }
      MarkRoutes(batch.value.start, pool, EmitNodes(Leaves(Routes, rules.bypass)));
      BypassProvides(pool, compiler.builder.outbounds, rules.bypass);
      return Ok(Span(batch.value.start, batch.value.end, IngressPhase, true));
    }

    // Marks every route from an index on.
    method MarkRoutes(start: nat, ghost pool: seq<Instr>, ghost code: seq<Instr>)
      requires compiler.Valid() && compiler.builder.rules == pool + code && start == |pool|
      requires CacheHolds(pool, compiler.cache, compiler.builder.outbounds, compiler.sets, compiler.rank)
        && FallbacksHold(pool, compiler.builder.fallbacks)
      modifies compiler.builder`rules
      ensures compiler.Valid() && compiler.builder.rules == pool + Marked(code)
    {
      var builder := compiler.builder;
      var i := start;
      while i < |builder.rules|
        invariant |pool| <= i <= |builder.rules| == |pool + code|
        invariant forall k :: 0 <= k < |pool + code| ==>
          builder.rules[k] == if |pool| <= k < i then MarkedInstr((pool + code)[k]) else (pool + code)[k]
      {
        if builder.rules[i].action == Route {
          builder.rules := builder.rules[i := builder.rules[i].(bypass := true)];
        }
        i := i + 1;
      }
      assert builder.rules == pool + Marked(code);
      compiler.Grown(pool);
    }

    // System and plugin programs, once for all policies.
    method CompileShared() returns (r: Result<()>)
      requires Sound()
      modifies this`shared, compiler.builder`rules
      ensures old(compiler.builder.rules) <= compiler.builder.rules
      ensures r.Ok? ==> Valid()
      ensures r.Ok? ==> Met(old(compiler.State()), SharedDemand(compiler.builder.outbounds, rules), compiler.State())
      ensures Due(old(compiler.State()), SharedDemand(compiler.builder.outbounds, rules)) ==> r.Ok?
    {
      ghost var pool0 := compiler.builder.rules;
      var captures := CompileCaptures();
      if captures.Err? {
        return Err(captures.error);
      }
      ghost var pool1 := compiler.builder.rules;
      var routes := CompilePlugins();
      if routes.Err? {
        return Err(routes.error);
      }
      Share(captures.value, routes.value, pool0, pool1);
      SharedMet(old(compiler.State()), pool1, captures.value.Length(), routes.value.Length(),
                compiler.builder.outbounds, rules, compiler.State());
      return Ok(());
    }

    method Share(c: CaptureSpans, r: RouteSpans, ghost pool: seq<Instr>, ghost mid: seq<Instr>)
      requires compiler.Valid() && CanResolve() && Laid(pool, flowEnd, profiles, policies)
      requires pool <= mid <= compiler.builder.rules
      requires CapturesLaid(mid, c, rules) && PluginsLaid(compiler.builder.rules, r, rules)
      modifies this`shared
      ensures Valid()
    {
      CapturesGrow(mid, compiler.builder.rules, c, rules);
      SharedJoined(compiler.builder.rules, c, r, rules);
      shared := SharedSpans(c.bypass, c.destinations, c.request, c.http, r.early, r.late);
      StillSound(pool);
    }

    method CompileCaptures() returns (r: Result<CaptureSpans>)
      requires compiler.Valid()
      modifies compiler.builder`rules
      ensures compiler.Valid() && old(compiler.builder.rules) <= compiler.builder.rules
      ensures r.Ok? ==> CapturesLaid(compiler.builder.rules, r.value, rules)
      ensures r.Ok? ==> Added(old(compiler.builder.rules), compiler.builder.rules,
                              CapturesWeight(compiler.builder.outbounds, rules), r.value.Length())
      ensures r.Ok? <==>
        CapturesSane(compiler.builder.outbounds, rules)
        && FiltersWeight(Filters(rules.destinations)) <= MAX_MATCH_SETS
    {
      ghost var pool0 := compiler.builder.rules;
      var bypass := CompileBypass();
      if bypass.Err? {
        return Err(bypass.error);
      }
      ghost var pool1 := compiler.builder.rules;
      var destinations := CompileSharedDestinations();
      if destinations.Err? {
        return Err(destinations.error);
      }
      ghost var pool2 := compiler.builder.rules;
      var request := CompileHttpCapture(rules.request, {Http, HttpRequest}, IngressPhase);
      if request.Err? {
        return Err(request.error);
      }
      ghost var pool3 := compiler.builder.rules;
      var http := CompileHttpCapture(rules.http, {Http}, FlowPhase);
      if http.Err? {
        return Err(http.error);
      }
      var spans := CaptureSpans(bypass.value, destinations.value, request.value, http.value);
      CapturesProvided(pool0, pool1, pool2, pool3, compiler.builder.rules, compiler.builder.outbounds, spans, rules);
      return Ok(spans);
    }

    method CompilePlugins() returns (r: Result<RouteSpans>)
      requires compiler.Valid()
      modifies compiler.builder`rules
      ensures compiler.Valid() && old(compiler.builder.rules) <= compiler.builder.rules
      ensures r.Ok? ==> PluginsLaid(compiler.builder.rules, r.value, rules)
      ensures r.Ok? ==> Added(old(compiler.builder.rules), compiler.builder.rules,
                              PluginsWeight(compiler.builder.outbounds, rules), r.value.Length())
      ensures r.Ok? <==> (PluginsSane(compiler.builder.outbounds, rules)
                          && |old(compiler.builder.rules)| + PluginsWeight(compiler.builder.outbounds, rules)
                            <= MAX_MATCH_SETS)
    {
      var early := CompileRouteBatch(rules.early);
      if early.Err? {
        return Err(early.error);
      }
      ghost var pool := compiler.builder.rules;
      var late := CompileRouteBatch(rules.late);
      if late.Err? {
        return Err(late.error);
      }
      OneSpan(early.value);
      OneSpan(late.value);
      LaysGrows(pool, compiler.builder.rules, [early.value], Segment(RoutePhase, Leaves(Routes, rules.early)));
      return Ok(RouteSpans(early.value, late.value));
    }

    method CompileSharedDestinations() returns (r: Result<seq<Span>>)
      requires compiler.Valid()
      modifies compiler.builder`rules
      ensures compiler.Valid() && old(compiler.builder.rules) <= compiler.builder.rules
      ensures r.Ok? ==> Provides(old(compiler.builder.rules), compiler.builder.rules, r.value,
                                 Segment(IngressPhase, DestinationCaptures(rules.destinations)),
                                   FiltersWeight(Filters(rules.destinations)))
      ensures r.Ok? <==>
        AllFiltered(Filters(rules.destinations))
        && FiltersWeight(Filters(rules.destinations)) <= MAX_MATCH_SETS
    {
      var builder := compiler.builder;
      ghost var pool := builder.rules;
      var start := |builder.rules|;
      var ok := EmitCaptures(Filters(rules.destinations), {Destination});
      if !ok {
        return Err(EmptyPredicate);
      }
      DestinationCapturesAre(rules.destinations);
      CaptureCost(Filters(rules.destinations), {Destination}, pool);
      var span := Span(start, |builder.rules|, IngressPhase, true);
      if span.end - span.start > MAX_MATCH_SETS {
        return Err(TooManyMatchSets);
      }
      BatchMeans(pool, builder.rules, span, IngressPhase, DestinationCaptures(rules.destinations));
      MeansLays(builder.rules, AppendSpan([], span), IngressPhase, DestinationCaptures(rules.destinations));
      return Ok(AppendSpan([], span));
    }

    method CompileRouteBatch(batch: seq<SourceRule>) returns (r: Result<Span>)
      requires compiler.Valid()
      modifies compiler.builder`rules
      ensures compiler.Valid() && old(compiler.builder.rules) <= compiler.builder.rules
      ensures r.Ok? ==> Provides(old(compiler.builder.rules), compiler.builder.rules, [r.value],
                                 Segment(RoutePhase, Leaves(Routes, batch)),
                                 RoutesWeight(compiler.builder.outbounds, batch))
      ensures r.Ok? <==> (RoutesSane(compiler.builder.outbounds, batch)
                          && |old(compiler.builder.rules)| + RoutesWeight(compiler.builder.outbounds, batch)
                            <= MAX_MATCH_SETS)
    {
      var builder := compiler.builder;
      ghost var pool := builder.rules;
      RoutesDemand(builder.outbounds, batch);
      r := compiler.EmitBatch(Routes, batch);
      if r.Err? {
        return;
      }
      BatchCost(Routes, batch, pool);
      if |builder.rules| > MAX_MATCH_SETS {
        return Err(TooManyMatchSets);
      }
      FreshLays(pool, builder.rules, r.value.(global := true), RoutePhase, Leaves(Routes, batch));
      OneSpan(r.value.(global := true));
      return Ok(r.value.(global := true));
    }

    // The flow end is emitted on first need and shared afterwards.
    method AppendFlowEnd(flow: Block, block: seq<Span>, ghost m: Meaning) returns (fits: bool, result: seq<Span>)
      requires Valid() && BlockMeans(compiler.builder.rules, flow, FlowSet, m)
      requires Executing(compiler.builder.rules, block, ControlSegments(rules, m))
        && SegmentsLength(ControlSegments(rules, m)) <= MAX_MATCH_SETS
      requires NodesFormed(m.controls) && NodesFormed(HttpCapture(rules.http, {Http}))
      modifies this`flowEnd, compiler.builder`rules
      ensures Valid() && old(compiler.builder.rules) <= compiler.builder.rules
      ensures fits ==> Executing(compiler.builder.rules, result, FlowSegments(rules, m))
      ensures fits <==> FlowLength(rules, m) <= MAX_MATCH_SETS
      ensures Closed(old(compiler.builder.rules), old(flowEnd), compiler.builder.rules, flowEnd, NeedsEnd(rules, m))
    {
      var builder := compiler.builder;
      ghost var pool := builder.rules;
      var needed := NeedsFlowEnd(flow, m);
      EndLength(rules, m);
      if !needed {
        NoFlowEnd(pool, block, ControlSegments(rules, m));
        return true, block;
      }
      EnsureFlowEnd();
      fits, result := AppendEnd(pool, builder.rules, block, flowEnd.value, ControlSegments(rules, m));
    }

    // Controls or HTTP captures leave a flow open.
    method NeedsFlowEnd(flow: Block, ghost m: Meaning) returns (needed: bool)
      requires Valid() && BlockMeans(compiler.builder.rules, flow, FlowSet, m)
      ensures NodesFormed(m.controls) && NodesFormed(HttpCapture(rules.http, {Http}))
      ensures FlowEnds(m.controls, HttpCapture(rules.http, {Http})) == if needed then [FLOW_END] else []
      ensures needed <==> NeedsEnd(rules, m)
    {
      ghost var pool := compiler.builder.rules;
      SolidEmpty(pool, flow.controls, Tag(EmitNodes(m.controls), FlowPhase));
      LaidCaptures(pool, shared, rules);
      SpanEmpty(pool, shared.http, Segment(FlowPhase, HttpCapture(rules.http, {Http})));
      EmittedLength(m.controls);
      EmittedLength(HttpCapture(rules.http, {Http}));
      needed := |flow.controls| != 0 || shared.http.start != shared.http.end;
    }

    method EnsureFlowEnd()
      requires Valid()
      modifies this`flowEnd, compiler.builder`rules
      ensures Valid() && old(compiler.builder.rules) <= compiler.builder.rules
      ensures flowEnd.Some? && flowEnd.value.end == flowEnd.value.start + 1
      ensures old(flowEnd).Some? ==> flowEnd == old(flowEnd) && compiler.builder.rules == old(compiler.builder.rules)
      ensures Closed(old(compiler.builder.rules), old(flowEnd), compiler.builder.rules, flowEnd, true)
    {
      if flowEnd.None? {
        var builder := compiler.builder;
        ghost var pool := builder.rules;
        var start := |builder.rules|;
        builder.rules := builder.rules + [TailOf(EndFlow)];
        compiler.Grown(pool);
        StillValid(pool);
        GrewByOne(pool, TailOf(EndFlow));
        FlowEndEmission();
        FreshLays(pool, builder.rules, Span(start, start + 1, FlowPhase, false), FlowPhase, [FLOW_END]);
        flowEnd := Some(Span(start, start + 1, FlowPhase, false));
      }
    }

    // Resolve a policy's flow rules and body against the shared rule sets.
    method ResolvePolicy(policy: Policy) returns (r: Result<(Block, Block)>)
      requires Valid()
      modifies compiler`cache, compiler.builder`rules
      ensures Valid() && old(compiler.builder.rules) <= compiler.builder.rules
      ensures r.Ok? ==> BlockMeans(compiler.builder.rules, r.value.0, FlowSet, OfPolicy(policy.rules))
      ensures r.Ok? ==> BlockMeans(compiler.builder.rules, r.value.1, RouteSet, OfPolicy(policy.statements))
      ensures r.Ok? ==> Met(old(compiler.State()), BodyDemand(policy), compiler.State())
      ensures r.Ok? ==> Fits(FlowSet, OfPolicy(policy.rules)) && Fits(RouteSet, OfPolicy(policy.statements))
      ensures (Due(old(compiler.State()), BodyDemand(policy))
               && Fits(FlowSet, OfPolicy(policy.rules)) && Fits(RouteSet, OfPolicy(policy.statements))) ==> r.Ok?
    {
      ghost var before := compiler.State();
      ghost var asked, more := compiler.AskedBy(FlowSet, bound, policy.rules),
        compiler.AskedBy(RouteSet, bound, policy.statements);
      if Due(before, asked.Plus(more)) {
        DueFirst(before, asked, more);
      }
      var builder := compiler.builder;
      ghost var pool := builder.rules;
      var flow := compiler.ResolveStatements(FlowSet, policy.rules, bound);
      StillValid(pool);
      if flow.Err? {
        return Err(flow.error);
      }
      ghost var pool', between := builder.rules, compiler.State();
      if Due(before, asked.Plus(more)) {
        DueNext(before, asked, between, more);
      }
      var body := compiler.ResolveStatements(RouteSet, policy.statements, bound);
      StillValid(pool');
      if body.Err? {
        return Err(body.error);
      }
      BlockGrows(pool', builder.rules, flow.value, FlowSet, OfPolicy(policy.rules));
      MetBoth(before, asked, between, more, compiler.State());
      return Ok((flow.value, body.value));
    }

    ghost function BodyDemand(policy: Policy): Demand
      requires CanResolve()
    {
      compiler.AskedBy(FlowSet, bound, policy.rules).Plus(compiler.AskedBy(RouteSet, bound, policy.statements))
    }

    ghost function OfPolicy(statements: seq<Statement>): Meaning
      requires CanResolve()
    {
      OfStatements(compiler.sets, compiler.rank, bound, statements)
    }

    method InternFallback(t: Target) returns (r: Result<Span>)
      requires Valid()
      modifies compiler.builder
      ensures old(compiler.builder.rules) <= compiler.builder.rules
      ensures r.Ok? ==>
        Valid() && !t.skipNoalive
        && Means(compiler.builder.rules, [r.value], RoutePhase, [FallbackLeaf(t)])
      ensures r.Ok? ==> CheckTarget(compiler.builder.outbounds, t, true).None?
      ensures r.Ok? ==> Fell(old(compiler.builder.rules), old(compiler.builder.fallbacks).Keys, compiler.builder.rules,
                             compiler.builder.fallbacks.Keys, t)
      ensures (CheckTarget(compiler.builder.outbounds, t, true).None?
               && (FallbackInstr(t) in old(compiler.builder.fallbacks)
                   || |old(compiler.builder.rules)| < MAX_MATCH_SETS)) ==> r.Ok?
    {
      var builder := compiler.builder;
      ghost var pool := builder.rules;
      r := builder.AddFallback(t);
      if r.Ok? {
        compiler.Interned(pool);
        StillValid(pool);
      }
    }

    // Everything before the routes.
    method SpliceControls(flow: Block, ghost m: Meaning) returns (fits: bool, block: seq<Span>)
      requires Valid() && BlockMeans(compiler.builder.rules, flow, FlowSet, m)
      modifies this`flowEnd, compiler.builder`rules
      ensures Valid() && old(compiler.builder.rules) <= compiler.builder.rules
      ensures NodesFormed(m.controls) && NodesFormed(HttpCapture(rules.http, {Http}))
      ensures fits ==> Executing(compiler.builder.rules, block, FlowSegments(rules, m))
      ensures fits <==> FlowLength(rules, m) <= MAX_MATCH_SETS
      ensures fits ==> Closed(old(compiler.builder.rules), old(flowEnd), compiler.builder.rules, flowEnd,
                              NeedsEnd(rules, m))
    {
      fits, block := JoinControls(compiler.builder.rules, shared, flow, rules, m);
      if fits {
        fits, block := AppendFlowEnd(flow, block, m);
      }
    }

    // Spans that execute a policy's whole program.
    ghost predicate Spliced(pool: seq<Instr>, spans: seq<Span>, t: Target, m: Meaning, n: Meaning) {
      match t
      case Target(_, _, _, skipNoalive) =>
        && NodesFormed(m.controls) && NodesFormed(HttpCapture(rules.http, {Http}))
        && Executing(pool, spans, FlowSegments(rules, m) + RouteSegments(rules, n, t))
        && ExecutionLength(spans) <= MAX_MATCH_SETS && !skipNoalive
    }

    lemma {:induction false} SplicedWhole(pool: seq<Instr>, spans: seq<Span>, t: Target, m: Meaning, n: Meaning)
      requires NodesFormed(m.controls) && NodesFormed(HttpCapture(rules.http, {Http})) && !t.skipNoalive
      requires Executing(pool, spans, FlowSegments(rules, m) + RouteSegments(rules, n, t))
      requires SegmentsLength(FlowSegments(rules, m) + RouteSegments(rules, n, t)) <= MAX_MATCH_SETS
      ensures Spliced(pool, spans, t, m, n) && ProgramLength(rules, m, n, t) <= MAX_MATCH_SETS
    {
      WholeLength(rules, m, n, t);
      ExecutedLength(pool, spans, FlowSegments(rules, m) + RouteSegments(rules, n, t));
    }

    // Splices one policy's profile in execution order.
    method SplicePolicy(flow: Block, body: Block, t: Target, ghost m: Meaning, ghost n: Meaning)
      returns (r: Result<seq<Span>>)
      requires Valid() && BlockMeans(compiler.builder.rules, flow, FlowSet, m)
        && BlockMeans(compiler.builder.rules, body, RouteSet, n)
      modifies this`flowEnd, compiler.builder
      ensures old(compiler.builder.rules) <= compiler.builder.rules
      ensures r.Ok? ==> Valid() && Spliced(compiler.builder.rules, r.value, t, m, n)
      ensures r.Ok? ==>
        CheckTarget(compiler.builder.outbounds, t, true).None?
        && ProgramLength(rules, m, n, t) <= MAX_MATCH_SETS
      ensures r.Ok? ==> Finished(old(Ending()), Ending(), NeedsEnd(rules, m), t)
      ensures (CheckTarget(compiler.builder.outbounds, t, true).None? && ProgramLength(rules, m, n, t) <= MAX_MATCH_SETS
               && old(Ending()).Room(NeedsEnd(rules, m), t)) ==> r.Ok?
    {
      var builder := compiler.builder;
      ghost var pool := builder.rules;
      var fits, block := SpliceControls(flow, m);
      if !fits {
        return Err(TooManyMatchSets);
      }
      BlockGrows(pool, builder.rules, body, RouteSet, n);
      r := SpliceRest(block, body, t, m, n, old(Ending()), old(flowEnd));
    }

    method SpliceRest(block: seq<Span>, body: Block, t: Target, ghost m: Meaning, ghost n: Meaning, ghost start: Tail,
                      ghost end: Option<Span>)
      returns (r: Result<seq<Span>>)
      requires Valid() && BlockMeans(compiler.builder.rules, body, RouteSet, n)
      requires NodesFormed(m.controls) && NodesFormed(HttpCapture(rules.http, {Http}))
      requires Executing(compiler.builder.rules, block, FlowSegments(rules, m))
        && FlowLength(rules, m) <= MAX_MATCH_SETS
      requires start.ended == end.Some? && start.fallbacks == compiler.builder.fallbacks.Keys
      requires Closed(start.rules, end, compiler.builder.rules, flowEnd, NeedsEnd(rules, m))
      modifies compiler.builder
      ensures old(compiler.builder.rules) <= compiler.builder.rules
      ensures r.Ok? ==> Valid() && Spliced(compiler.builder.rules, r.value, t, m, n)
      ensures r.Ok? ==>
        CheckTarget(compiler.builder.outbounds, t, true).None?
        && ProgramLength(rules, m, n, t) <= MAX_MATCH_SETS
      ensures r.Ok? ==> Finished(start, Ending(), NeedsEnd(rules, m), t)
      ensures (CheckTarget(compiler.builder.outbounds, t, true).None? && ProgramLength(rules, m, n, t) <= MAX_MATCH_SETS
               && start.Room(NeedsEnd(rules, m), t)) ==> r.Ok?
    {
      var builder := compiler.builder;
      ghost var mid := builder.rules;
      WholeLength(rules, m, n, t);
      RoomForBoth(start, end, mid, flowEnd, NeedsEnd(rules, m), t);
      r := SpliceRoutes(block, body, t, n, FlowSegments(rules, m));
      if r.Ok? {
        BothEnds(start, end, mid, flowEnd, Ending(), NeedsEnd(rules, m), t);
        SplicedWhole(builder.rules, r.value, t, m, n);
      }
    }

    ghost function Ending(): Tail
      reads this, compiler.builder
    {
      Tail(compiler.builder.rules, compiler.builder.fallbacks.Keys, flowEnd.Some?)
    }

    // The routes and the fallback.
    method SpliceRoutes(block: seq<Span>, body: Block, t: Target, ghost n: Meaning, ghost before: seq<Segment>)
      returns (r: Result<seq<Span>>)
      requires Valid() && BlockMeans(compiler.builder.rules, body, RouteSet, n)
      requires Executing(compiler.builder.rules, block, before) && SegmentsLength(before) <= MAX_MATCH_SETS
      modifies compiler.builder
      ensures old(compiler.builder.rules) <= compiler.builder.rules
      ensures r.Ok? ==> Valid() && !t.skipNoalive
      ensures r.Ok? ==> Executing(compiler.builder.rules, r.value, before + RouteSegments(rules, n, t))
      ensures r.Ok? ==>
        CheckTarget(compiler.builder.outbounds, t, true).None?
        && SegmentsLength(before + RouteSegments(rules, n, t)) <= MAX_MATCH_SETS
      ensures r.Ok? ==> Fell(old(compiler.builder.rules), old(compiler.builder.fallbacks).Keys, compiler.builder.rules,
                             compiler.builder.fallbacks.Keys, t)
      ensures (CheckTarget(compiler.builder.outbounds, t, true).None?
               && SegmentsLength(before + RouteSegments(rules, n, t)) <= MAX_MATCH_SETS
               && (FallbackInstr(t) in old(compiler.builder.fallbacks)
                   || |old(compiler.builder.rules)| < MAX_MATCH_SETS)) ==> r.Ok?
    {
      var builder := compiler.builder;
      ghost var pool := builder.rules;
      var fallback := InternFallback(t);
      if fallback.Err? {
        return Err(fallback.error);
      }
      ExecutingGrows(pool, builder.rules, block, before);
      BlockGrows(pool, builder.rules, body, RouteSet, n);
      var fits, whole := AppendRoutes(builder.rules, block, shared, body, fallback.value, rules, n, t, before);
      return if fits then Ok(whole) else Err(TooManyMatchSets);
    }

    ghost predicate LeavesOpen(policy: Policy)
      requires CanResolve()
    {
      NeedsEnd(rules, OfPolicy(policy.rules))
    }

    // A policy's own conditions: its target, and the length of its program.
    ghost predicate PolicySane(policy: Policy)
      requires CanResolve()
    {
      match CheckTarget(compiler.builder.outbounds, policy.fallback, true)
      case None => PolicyLength(policy) <= MAX_MATCH_SETS
      case Some(_) => false
    }

    ghost function PolicyLength(policy: Policy): nat
      requires CanResolve()
    {
      ProgramLength(rules, OfPolicy(policy.rules), OfPolicy(policy.statements), policy.fallback)
    }

    method AddProfile(policy: Policy) returns (r: Result<()>)
      requires Valid()
      modifies this`flowEnd, this`profiles, this`policies, compiler`cache, compiler.builder
      ensures old(compiler.builder.rules) <= compiler.builder.rules
      ensures r.Ok? ==> Valid() && policies == old(policies) + [policy]
      ensures r.Ok? ==> PolicySane(policy)
      ensures r.Ok? ==> Stored(old(compiler.State()), old(Ending()), BodyDemand(policy), LeavesOpen(policy),
                               policy.fallback, compiler.State(), Ending())
      ensures (PolicySane(policy)
               && Affords(old(compiler.State()), old(Ending()), BodyDemand(policy), LeavesOpen(policy),
                          policy.fallback)) ==> r.Ok?
    {
      ghost var before, start := compiler.State(), Ending();
      BodyDue(before, start, policy);
      var resolved := ResolvePolicy(policy);
      if resolved.Err? {
        return Err(resolved.error);
      }
      r := Complete(resolved.value.0, resolved.value.1, policy, before, start);
    }

    // The profile of a resolved policy.
    method Complete(flow: Block, body: Block, policy: Policy, ghost before: Store, ghost start: Tail)
      returns (r: Result<()>)
      requires Valid() && Met(before, BodyDemand(policy), compiler.State())
        && Ending() == start.(rules := compiler.builder.rules)
      requires BlockMeans(compiler.builder.rules, flow, FlowSet, OfPolicy(policy.rules))
      requires BlockMeans(compiler.builder.rules, body, RouteSet, OfPolicy(policy.statements))
      modifies this`flowEnd, this`profiles, this`policies, compiler.builder
      ensures old(compiler.builder.rules) <= compiler.builder.rules
      ensures r.Ok? ==> Valid() && policies == old(policies) + [policy] && PolicySane(policy)
      ensures r.Ok? ==> Stored(before, start, BodyDemand(policy), LeavesOpen(policy), policy.fallback,
                               compiler.State(), Ending())
      ensures PolicySane(policy) && Affords(before, start, BodyDemand(policy), LeavesOpen(policy), policy.fallback)
        ==> r.Ok?
    {
      ghost var between := compiler.State();
      AffordsRoom(before, start, BodyDemand(policy), between, LeavesOpen(policy), policy.fallback);
      r := AddResolved(flow, body, policy);
      if r.Ok? {
        assert compiler.State() == between.(rules := Ending().rules);
        Storing(before, start, BodyDemand(policy), between, LeavesOpen(policy), policy.fallback, compiler.State(),
                Ending());
      }
    }

    lemma {:induction false} BodyDue(before: Store, start: Tail, policy: Policy)
      requires CanResolve()
      ensures PolicySane(policy) && Affords(before, start, BodyDemand(policy), LeavesOpen(policy), policy.fallback) ==>
        Due(before, BodyDemand(policy)) && Fits(FlowSet, OfPolicy(policy.rules))
          && Fits(RouteSet, OfPolicy(policy.statements))
    {
      AffordsDue(before, start, BodyDemand(policy), LeavesOpen(policy), policy.fallback);
      ProgramFits(rules, OfPolicy(policy.rules), OfPolicy(policy.statements), policy.fallback);
    }

    method AddResolved(flow: Block, body: Block, policy: Policy) returns (r: Result<()>)
      requires Valid()
      requires BlockMeans(compiler.builder.rules, flow, FlowSet, OfPolicy(policy.rules))
      requires BlockMeans(compiler.builder.rules, body, RouteSet, OfPolicy(policy.statements))
      modifies this`flowEnd, this`profiles, this`policies, compiler.builder
      ensures old(compiler.builder.rules) <= compiler.builder.rules
      ensures r.Ok? ==> Valid() && policies == old(policies) + [policy]
      ensures r.Ok? ==> PolicySane(policy) && Finished(old(Ending()), Ending(), LeavesOpen(policy), policy.fallback)
      ensures PolicySane(policy) && old(Ending()).Room(LeavesOpen(policy), policy.fallback) ==> r.Ok?
    {
      ghost var m, n := OfPolicy(policy.rules), OfPolicy(policy.statements);
      var spliced := SplicePolicy(flow, body, policy.fallback, m, n);
      match spliced {
        case Err(error) => r := Err(error);
        case Ok(spans) =>
          RecordSpans(spans, flow.destinations, policy);
          r := Ok(());
      }
    }

    method RecordSpans(spans: seq<Span>, fragments: seq<Fragment>, policy: Policy)
      requires Valid() && Joined(fragments) == OfPolicy(policy.rules).destinations
      requires Spliced(compiler.builder.rules, spans, policy.fallback, OfPolicy(policy.rules),
                       OfPolicy(policy.statements))
      modifies this`profiles, this`policies
      ensures Valid() && policies == old(policies) + [policy] && Ending() == old(Ending())
    {
      ProfileMade(compiler.builder.rules, spans, fragments, policy);
      Record(Profile(spans, fragments + (if rules.destinations == [] then [] else [rules.destinations])), policy);
    }

    lemma {:induction false} ProfileMade(pool: seq<Instr>, spans: seq<Span>, fragments: seq<Fragment>, policy: Policy)
      requires CanResolve() && Joined(fragments) == OfPolicy(policy.rules).destinations
      requires Spliced(pool, spans, policy.fallback, OfPolicy(policy.rules), OfPolicy(policy.statements))
      ensures ProfileHolds(pool, Profile(spans, fragments + (if rules.destinations == [] then []
                                                             else [rules.destinations])), policy)
    {
      JoinedConcat(fragments, if rules.destinations == [] then [] else [rules.destinations]);
      JoinedOne(rules.destinations);
      SegmentsOf(rules, compiler.sets, compiler.rank, bound, policy);
    }

    method Record(profile: Profile, policy: Policy)
      requires Valid() && ProfileHolds(compiler.builder.rules, profile, policy)
      modifies this`profiles, this`policies
      ensures Valid() && policies == old(policies) + [policy]
    {
      ProfilesSnoc(compiler.builder.rules, flowEnd, profiles, policies, profile, policy);
      profiles, policies := profiles + [profile], policies + [policy];
    }
  }

  method AppendRoutes(ghost pool: seq<Instr>, block: seq<Span>, s: SharedSpans, body: Block, fallback: Span,
                      ghost rules: SharedRules, ghost n: Meaning, ghost t: Target, ghost before: seq<Segment>)
    returns (fits: bool, result: seq<Span>)
    requires Executing(pool, block, before) && SegmentsLength(before) <= MAX_MATCH_SETS
    requires SharedLaid(pool, s, rules) && BlockMeans(pool, body, RouteSet, n)
      && Means(pool, [fallback], RoutePhase, [FallbackLeaf(t)])
    ensures fits ==> Executing(pool, result, before + RouteSegments(rules, n, t))
    ensures fits <==> SegmentsLength(before + RouteSegments(rules, n, t)) <= MAX_MATCH_SETS
  {
    RoutesLaid(pool, s, rules, body, n, fallback, t);
    fits, result := AppendSegments(pool, block, RouteParts(s, body, fallback), before, RouteSegments(rules, n, t));
  }

  method JoinControls(ghost pool: seq<Instr>, shared: SharedSpans, flow: Block, ghost rules: SharedRules,
                      ghost m: Meaning)
    returns (fits: bool, block: seq<Span>)
    requires SharedLaid(pool, shared, rules) && BlockMeans(pool, flow, FlowSet, m)
    ensures NodesFormed(m.controls) && NodesFormed(HttpCapture(rules.http, {Http}))
    ensures fits ==> Executing(pool, block, ControlSegments(rules, m))
    ensures fits <==> SegmentsLength(ControlSegments(rules, m)) <= MAX_MATCH_SETS
  {
    ControlsLaid(pool, shared, rules, flow, m);
    NothingExecuting(pool);
    fits, block := AppendSegments(pool, [], ControlParts(shared, flow), [], ControlSegments(rules, m));
    EmptyPrefix(ControlSegments(rules, m));
  }

  lemma {:induction false} EmptyPrefix(segments: seq<Segment>)
    ensures [] + segments == segments
  {
  }

  function ControlParts(s: SharedSpans, flow: Block): seq<seq<Span>> {
    [[s.bypass], flow.captures, s.destinations, [s.request], flow.controls, [s.http]]
  }

  lemma {:induction false} OneSpan(span: Span)
    ensures ExecutionLength([span]) == span.end - span.start
  {
    assert [span][1..] == [];
  }

  function RouteParts(s: SharedSpans, body: Block, fallback: Span): seq<seq<Span>> {
    [[s.early], body.routes, [s.late], [fallback]]
  }

  lemma {:induction false} ControlsLaid(pool: seq<Instr>, s: SharedSpans, rules: SharedRules, flow: Block, m: Meaning)
    requires SharedLaid(pool, s, rules) && BlockMeans(pool, flow, FlowSet, m)
    ensures LaysAll(pool, ControlParts(s, flow), ControlSegments(rules, m))
    ensures NodesFormed(m.controls) && NodesFormed(HttpCapture(rules.http, {Http}))
  {
    var first := [Segment(IngressPhase, BypassLeaves(rules.bypass)), Segment(IngressPhase, m.captures),
                  Segment(IngressPhase, DestinationCaptures(rules.destinations))];
    var second := [Segment(IngressPhase, HttpCapture(rules.request, {Http, HttpRequest})),
                   Segment(FlowPhase, m.controls),
                   Segment(FlowPhase, HttpCapture(rules.http, {Http}))];
    FirstLaid(pool, s, rules, flow, m, first);
    SecondLaid(pool, s, rules, flow, m, second);
    ControlHalves(s, flow, rules, m, first, second);
    LaidConcat(pool, [[s.bypass], flow.captures, s.destinations], [[s.request], flow.controls, [s.http]], first,
               second);
  }

  lemma {:induction false} ControlHalves(s: SharedSpans, flow: Block, rules: SharedRules, m: Meaning,
                                         first: seq<Segment>, second: seq<Segment>)
    requires first == [Segment(IngressPhase, BypassLeaves(rules.bypass)), Segment(IngressPhase, m.captures),
                       Segment(IngressPhase, DestinationCaptures(rules.destinations))]
    requires second == [Segment(IngressPhase, HttpCapture(rules.request, {Http, HttpRequest})),
                        Segment(FlowPhase, m.controls),
                        Segment(FlowPhase, HttpCapture(rules.http, {Http}))]
    ensures ControlParts(s, flow) == [[s.bypass], flow.captures, s.destinations]
      + [[s.request], flow.controls, [s.http]]
    ensures ControlSegments(rules, m) == first + second
  {
  }

  lemma {:induction false} FirstLaid(pool: seq<Instr>, s: SharedSpans, rules: SharedRules, flow: Block, m: Meaning,
                                     segments: seq<Segment>)
    requires SharedLaid(pool, s, rules) && BlockMeans(pool, flow, FlowSet, m)
    requires segments == [Segment(IngressPhase, BypassLeaves(rules.bypass)), Segment(IngressPhase, m.captures),
                          Segment(IngressPhase, DestinationCaptures(rules.destinations))]
    ensures LaysAll(pool, [[s.bypass], flow.captures, s.destinations], segments)
  {
    LaidCaptures(pool, s, rules);
    MeansLays(pool, flow.captures, IngressPhase, m.captures);
    ThreeLaid(pool, [s.bypass], flow.captures, s.destinations, segments);
  }

  lemma {:induction false} SecondLaid(pool: seq<Instr>, s: SharedSpans, rules: SharedRules, flow: Block, m: Meaning,
                                      segments: seq<Segment>)
    requires SharedLaid(pool, s, rules) && BlockMeans(pool, flow, FlowSet, m)
    requires segments == [Segment(IngressPhase, HttpCapture(rules.request, {Http, HttpRequest})),
                          Segment(FlowPhase, m.controls),
                          Segment(FlowPhase, HttpCapture(rules.http, {Http}))]
    ensures LaysAll(pool, [[s.request], flow.controls, [s.http]], segments)
    ensures NodesFormed(m.controls) && NodesFormed(HttpCapture(rules.http, {Http}))
  {
    LaidCaptures(pool, s, rules);
    MeansLays(pool, flow.controls, FlowPhase, m.controls);
    ThreeLaid(pool, [s.request], flow.controls, [s.http], segments);
  }

  lemma {:induction false} MeansLays(pool: seq<Instr>, spans: seq<Span>, phase: Phase, nodes: seq<Node>)
    requires Means(pool, spans, phase, nodes)
    ensures Lays(pool, spans, Segment(phase, nodes))
  {
  }

  lemma {:induction false} ThreeLaid(pool: seq<Instr>, a: seq<Span>, b: seq<Span>, c: seq<Span>, segments: seq<Segment>)
    requires |segments| == 3 && Lays(pool, a, segments[0]) && Lays(pool, b, segments[1]) && Lays(pool, c, segments[2])
    ensures LaysAll(pool, [a, b, c], segments)
  {
  }

  lemma {:induction false} LaidConcat(pool: seq<Instr>, a: seq<seq<Span>>, b: seq<seq<Span>>, x: seq<Segment>,
                                      y: seq<Segment>)
    requires LaysAll(pool, a, x) && LaysAll(pool, b, y)
    ensures LaysAll(pool, a + b, x + y)
  {
    forall k | 0 <= k < |a + b|
      ensures Lays(pool, (a + b)[k], (x + y)[k])
    {
      if k >= |a| {
        assert (a + b)[k] == b[k - |a|] && (x + y)[k] == y[k - |a|];
      }
    }
  }

  lemma {:induction false} RoutesLaid(pool: seq<Instr>, s: SharedSpans, rules: SharedRules, body: Block, m: Meaning,
                                      fallback: Span, t: Target)
    requires SharedLaid(pool, s, rules) && BlockMeans(pool, body, RouteSet, m)
      && Means(pool, [fallback], RoutePhase, [FallbackLeaf(t)])
    ensures LaysAll(pool, RouteParts(s, body, fallback), RouteSegments(rules, m, t))
  {
    var parts, segments := RouteParts(s, body, fallback), RouteSegments(rules, m, t);
    forall k | 0 <= k < 4
      ensures Lays(pool, parts[k], segments[k])
    {
      RouteLaid(pool, s, rules, body, m, fallback, t, k);
    }
  }

  lemma {:induction false} RouteLaid(pool: seq<Instr>, s: SharedSpans, rules: SharedRules, body: Block, m: Meaning,
                                     fallback: Span, t: Target, k: nat)
    requires SharedLaid(pool, s, rules) && BlockMeans(pool, body, RouteSet, m)
      && Means(pool, [fallback], RoutePhase, [FallbackLeaf(t)]) && k < 4
    ensures Lays(pool, RouteParts(s, body, fallback)[k], RouteSegments(rules, m, t)[k])
  {
    match k
    case 0 => LaidRoutes(pool, s, rules);
    case 1 => MeansLays(pool, body.routes, RoutePhase, m.routes);
    case 2 => LaidRoutes(pool, s, rules);
    case _ => MeansLays(pool, [fallback], RoutePhase, [FallbackLeaf(t)]);
  }

  lemma {:induction false} NothingExecuting(pool: seq<Instr>)
    ensures Executing(pool, [], []) && ExecutionLength([]) == 0
  {
  }

  // The parts of a policy's program.

  function ControlSegments(rules: SharedRules, m: Meaning): seq<Segment> {
    [ Segment(IngressPhase, BypassLeaves(rules.bypass)),
      Segment(IngressPhase, m.captures),
      Segment(IngressPhase, DestinationCaptures(rules.destinations)),
      Segment(IngressPhase, HttpCapture(rules.request, {Http, HttpRequest})),
      Segment(FlowPhase, m.controls),
      Segment(FlowPhase, HttpCapture(rules.http, {Http})) ]
  }

  function FlowSegments(rules: SharedRules, m: Meaning): seq<Segment>
    requires NodesFormed(m.controls) && NodesFormed(HttpCapture(rules.http, {Http}))
  {
    ControlSegments(rules, m) + [Segment(FlowPhase, FlowEnds(m.controls, HttpCapture(rules.http, {Http})))]
  }

  function RouteSegments(rules: SharedRules, m: Meaning, t: Target): seq<Segment> {
    [ Segment(RoutePhase, Leaves(Routes, rules.early)),
      Segment(RoutePhase, m.routes),
      Segment(RoutePhase, Leaves(Routes, rules.late)),
      Segment(RoutePhase, [FallbackLeaf(t)]) ]
  }

  // Controls and HTTP captures are closed by a flow end.
  predicate NeedsEnd(rules: SharedRules, m: Meaning) {
    NodesLength(m.controls) + NodesLength(HttpCapture(rules.http, {Http})) > 0
  }

  function FlowLength(rules: SharedRules, m: Meaning): nat {
    SegmentsLength(ControlSegments(rules, m)) + if NeedsEnd(rules, m) then 1 else 0
  }

  // Match sets that a policy executes.
  function ProgramLength(rules: SharedRules, m: Meaning, n: Meaning, t: Target): nat {
    FlowLength(rules, m) + SegmentsLength(RouteSegments(rules, n, t))
  }

  lemma {:induction false} EndLength(rules: SharedRules, m: Meaning)
    ensures SegmentsLength(ControlSegments(rules, m) + [Segment(FlowPhase, [FLOW_END])])
      == SegmentsLength(ControlSegments(rules, m)) + 1
    ensures SegmentsLength(ControlSegments(rules, m) + [Segment(FlowPhase, [])])
      == SegmentsLength(ControlSegments(rules, m))
  {
    SegmentsNext(ControlSegments(rules, m), Segment(FlowPhase, [FLOW_END]));
    SegmentsNext(ControlSegments(rules, m), Segment(FlowPhase, []));
    LengthOne(FLOW_END);
    assert Tests(ANY) == 1 by {
      assert ANY[1..] == [];
    }
  }

  lemma {:induction false} WholeLength(rules: SharedRules, m: Meaning, n: Meaning, t: Target)
    requires NodesFormed(m.controls) && NodesFormed(HttpCapture(rules.http, {Http}))
    ensures SegmentsLength(FlowSegments(rules, m)) == FlowLength(rules, m)
    ensures SegmentsLength(FlowSegments(rules, m) + RouteSegments(rules, n, t)) == ProgramLength(rules, m, n, t)
  {
    EndLength(rules, m);
    EmittedLength(m.controls);
    EmittedLength(HttpCapture(rules.http, {Http}));
    SegmentsConcat(FlowSegments(rules, m), RouteSegments(rules, n, t));
  }

  lemma {:induction false} SegmentFits(segments: seq<Segment>, k: nat)
    requires k < |segments|
    ensures NodesLength(segments[k].nodes) <= SegmentsLength(segments)
  {
    if k > 0 {
      SegmentFits(segments[1..], k - 1);
    }
  }

  lemma {:induction false} ProgramFits(rules: SharedRules, m: Meaning, n: Meaning, t: Target)
    ensures ProgramLength(rules, m, n, t) <= MAX_MATCH_SETS ==> Fits(FlowSet, m) && Fits(RouteSet, n)
  {
    SegmentFits(ControlSegments(rules, m), 1);
    SegmentFits(ControlSegments(rules, m), 4);
    SegmentFits(RouteSegments(rules, n, t), 1);
  }

  lemma {:induction false} SegmentsOf(rules: SharedRules, sets: RuleSets, rank: Ranks, bound: nat, policy: Policy)
    requires Ranked(sets, rank) && Below(sets, rank, policy.rules, bound) && Below(sets, rank, policy.statements, bound)
    requires NodesFormed(Resolve(Controls, sets, rank, bound, policy.rules))
      && NodesFormed(HttpCapture(rules.http, {Http}))
    ensures FlowSegments(rules, OfStatements(sets, rank, bound, policy.rules))
            + RouteSegments(rules, OfStatements(sets, rank, bound, policy.statements), policy.fallback)
         == PolicySegments(rules, sets, rank, bound, policy)
  {
  }

  lemma {:induction false} NoFlowEnd(pool: seq<Instr>, block: seq<Span>, segments: seq<Segment>)
    requires Executing(pool, block, segments)
    ensures Executing(pool, block, segments + [Segment(FlowPhase, [])])
  {
    RawSnoc(segments, Segment(FlowPhase, []));
    assert Tag(EmitNodes([]), FlowPhase) == [];
  }

  lemma {:induction false} FlowEndEmission()
    ensures NodesFormed([FLOW_END]) && EmitNodes([FLOW_END]) == [TailOf(EndFlow)]
  {
    EmitOne(FLOW_END);
  }

  lemma {:induction false} SpanEmpty(pool: seq<Instr>, span: Span, s: Segment)
    requires Lays(pool, [span], s)
    ensures span.start == span.end <==> EmitNodes(s.nodes) == []
  {
    assert [span][1..] == [];
    assert Flatten(pool, [span]) == SpanOps(pool, span);
    assert |SpanOps(pool, span)| == span.end - span.start;
  }
}
