/** Fragments of the shared instruction pool: which program a list of spans
    lays out, and how appending spans concatenates programs. */
module RoutingFragments {
  import opened RoutingInstructions
  import opened RoutingSpans
  import opened RoutingJumps
  import opened RoutingRules
  import opened RoutingEmission

  // The spans execute exactly these operations and splice only between rules.
  ghost predicate Holds(pool: seq<Instr>, spans: seq<Span>, ops: seq<Op>) {
    InPool(pool, spans) && EndsRules(pool, spans) && Flatten(pool, spans) == ops
  }

  ghost predicate Solid(spans: seq<Span>) {
    forall i :: 0 <= i < |spans| ==> spans[i].start < spans[i].end
  }

  // The spans lay out the code of these nodes in one phase.
  ghost predicate Means(pool: seq<Instr>, spans: seq<Span>, phase: Phase, nodes: seq<Node>) {
    NodesFormed(nodes) && Solid(spans) && Holds(pool, spans, Tag(EmitNodes(nodes), phase))
  }

  lemma {:induction false} HoldsGrows(pool: seq<Instr>, grown: seq<Instr>, spans: seq<Span>, ops: seq<Op>)
    requires Holds(pool, spans, ops) && pool <= grown
    ensures Holds(grown, spans, ops)
  {
    FlattenStable(pool, grown, spans);
    forall i | 0 <= i < |spans|
      ensures EndsRule(grown[spans[i].start..spans[i].end])
    {
      assert grown[spans[i].start..spans[i].end] == pool[spans[i].start..spans[i].end];
    }
  }

  lemma {:induction false} MeansGrows(pool: seq<Instr>, grown: seq<Instr>, spans: seq<Span>, phase: Phase,
                                      nodes: seq<Node>)
    requires Means(pool, spans, phase, nodes) && pool <= grown
    ensures Means(grown, spans, phase, nodes)
  {
    HoldsGrows(pool, grown, spans, Tag(EmitNodes(nodes), phase));
  }

  lemma {:induction false} HoldsOne(pool: seq<Instr>, span: Span)
    requires span.start <= span.end <= |pool| && EndsRule(pool[span.start..span.end])
    ensures Holds(pool, [span], SpanOps(pool, span))
  {
    assert [span][1..] == [];
  }

  lemma {:induction false} HoldsAppend(pool: seq<Instr>, spans: seq<Span>, ops: seq<Op>, span: Span)
    requires Holds(pool, spans, ops) && span.start <= span.end <= |pool|
    requires EndsRule(pool[span.start..span.end])
    ensures Holds(pool, AppendSpan(spans, span), ops + SpanOps(pool, span))
    ensures Solid(spans) ==> Solid(AppendSpan(spans, span))
  {
    AppendSpanFlattens(pool, spans, span);
    if AppendSpan(spans, span) != spans && AppendSpan(spans, span) != spans + [span] {
      MergedEndsRules(pool, spans, span);
    }
  }

  lemma {:induction false} MergedEndsRules(pool: seq<Instr>, spans: seq<Span>, span: Span)
    requires InPool(pool, spans) && EndsRules(pool, spans) && spans != []
    requires span.start < span.end <= |pool| && EndsRule(pool[span.start..span.end])
    requires spans[|spans| - 1].end == span.start
    ensures var merged := spans[|spans| - 1 := spans[|spans| - 1].(end := span.end)];
      InPool(pool, merged) && EndsRules(pool, merged)
  {
    var last := spans[|spans| - 1].(end := span.end);
    var joined, part := pool[last.start..last.end], pool[span.start..span.end];
    assert joined[|joined| - 1] == part[|part| - 1];
  }

  function AppendSpans(spans: seq<Span>, more: seq<Span>): seq<Span>
    decreases |more|
  {
    if more == [] then spans else AppendSpans(AppendSpan(spans, more[0]), more[1..])
  }

  lemma {:induction false} HoldsAppendAll(pool: seq<Instr>, spans: seq<Span>, ops: seq<Op>, more: seq<Span>,
                                          moreOps: seq<Op>)
    requires Holds(pool, spans, ops) && Holds(pool, more, moreOps)
    ensures Holds(pool, AppendSpans(spans, more), ops + moreOps)
    ensures Solid(spans) ==> Solid(AppendSpans(spans, more))
    decreases |more|
  {
    if more == [] {
      assert ops + moreOps == ops;
    } else {
      var head := SpanOps(pool, more[0]);
      HoldsAppend(pool, spans, ops, more[0]);
      HoldsAppendAll(pool, AppendSpan(spans, more[0]), ops + head, more[1..], Flatten(pool, more[1..]));
      Associate(ops, head, Flatten(pool, more[1..]));
    }
  }

  lemma {:induction false} AppendSpansLength(pool: seq<Instr>, spans: seq<Span>, more: seq<Span>)
    requires InPool(pool, spans) && InPool(pool, more)
    ensures ExecutionLength(AppendSpans(spans, more)) == ExecutionLength(spans) + ExecutionLength(more)
    decreases |more|
  {
    if more != [] {
      AppendSpanFlattens(pool, spans, more[0]);
      AppendSpansLength(pool, AppendSpan(spans, more[0]), more[1..]);
    }
  }

  lemma {:induction false} AppendMeans(pool: seq<Instr>, a: seq<Span>, nodesA: seq<Node>, b: seq<Span>,
                                       nodesB: seq<Node>, phase: Phase)
    requires Means(pool, a, phase, nodesA) && Means(pool, b, phase, nodesB)
    ensures Means(pool, AppendSpans(a, b), phase, nodesA + nodesB)
  {
    HoldsAppendAll(pool, a, Tag(EmitNodes(nodesA), phase), b, Tag(EmitNodes(nodesB), phase));
    EmitConcat(nodesA, nodesB);
    TagConcat(EmitNodes(nodesA), EmitNodes(nodesB), phase);
  }

  lemma {:induction false} SolidEmpty(pool: seq<Instr>, spans: seq<Span>, ops: seq<Op>)
    requires Holds(pool, spans, ops) && Solid(spans)
    ensures spans == [] <==> ops == []
    ensures spans != [] ==> ops != [] && ops[0].phase == spans[0].phase
  {
    if spans != [] {
      assert SpanOps(pool, spans[0]) != [];
    }
  }

  // The source's block append: bounded by the executable length.
  method AppendBlock(spans: seq<Span>, more: seq<Span>) returns (fits: bool, result: seq<Span>)
    ensures fits <==> ExecutionLength(spans) <= MAX_MATCH_SETS - ExecutionLength(more)
    ensures fits ==> result == AppendSpans(spans, more)
  {
    if ExecutionLength(spans) > MAX_MATCH_SETS - ExecutionLength(more) {
      return false, [];
    }
    result := spans;
    var i := 0;
    while i < |more|
      invariant 0 <= i <= |more|
      invariant AppendSpans(spans, more) == AppendSpans(result, more[i..])
    {
      result := AppendSpan(result, more[i]);
      i := i + 1;
    }
    fits := true;
  }
}
