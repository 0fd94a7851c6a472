/** Profiles execute lists of spans over one physical instruction pool. */
module RoutingSpans {
  import opened RoutingInstructions

  datatype Span = Span(start: nat, end: nat, phase: Phase, global: bool)

  // One executed position: the instruction and the phase of its span.
  datatype Op = Op(instr: Instr, phase: Phase)

  ghost predicate InPool(pool: seq<Instr>, spans: seq<Span>) {
    forall i :: 0 <= i < |spans| ==> spans[i].start <= spans[i].end <= |pool|
  }

  function Tag(code: seq<Instr>, phase: Phase): (ops: seq<Op>)
    ensures |ops| == |code|
    ensures forall k :: 0 <= k < |code| ==> ops[k] == Op(code[k], phase)
  {
    seq(|code|, k requires 0 <= k < |code| => Op(code[k], phase))
  }

  function SpanOps(pool: seq<Instr>, span: Span): seq<Op>
    requires span.start <= span.end <= |pool|
  {
    Tag(pool[span.start..span.end], span.phase)
  }

  // The execution order of a profile, independent of physical placement.
  function Flatten(pool: seq<Instr>, spans: seq<Span>): seq<Op>
    requires InPool(pool, spans)
  {
    if spans == [] then [] else SpanOps(pool, spans[0]) + Flatten(pool, spans[1..])
  }

  function ExecutionLength(spans: seq<Span>): int {
    if spans == [] then 0 else spans[0].end - spans[0].start + ExecutionLength(spans[1..])
  }

  function AppendSpan(spans: seq<Span>, span: Span): seq<Span> {
    if span.start == span.end then spans
    else if |spans| > 0 then
      var last := spans[|spans| - 1];
      if last.end == span.start && last.phase == span.phase && last.global == span.global then
        spans[|spans| - 1 := last.(end := span.end)]
      else spans + [span]
    else spans + [span]
  }

  lemma {:induction false} FlattenConcat(pool: seq<Instr>, a: seq<Span>, b: seq<Span>)
    requires InPool(pool, a) && InPool(pool, b)
    ensures InPool(pool, a + b)
    ensures Flatten(pool, a + b) == Flatten(pool, a) + Flatten(pool, b)
    ensures ExecutionLength(a + b) == ExecutionLength(a) + ExecutionLength(b)
  {
    if a == [] {
      assert a + b == b;
    } else {
      assert (a + b)[1..] == a[1..] + b;
      FlattenConcat(pool, a[1..], b);
    }
  }

  lemma {:induction false} FlattenLength(pool: seq<Instr>, spans: seq<Span>)
    requires InPool(pool, spans)
    ensures |Flatten(pool, spans)| == ExecutionLength(spans)
  {
    if spans != [] {
      FlattenLength(pool, spans[1..]);
    }
  }

  lemma {:induction false} TagConcat(a: seq<Instr>, b: seq<Instr>, phase: Phase)
    ensures Tag(a + b, phase) == Tag(a, phase) + Tag(b, phase)
  {
  }

  lemma {:induction false} Associate<T>(a: seq<T>, b: seq<T>, c: seq<T>)
    ensures a + (b + c) == a + b + c
  {
  }

  lemma {:induction false} FlattenSnoc(pool: seq<Instr>, spans: seq<Span>, span: Span)
    requires InPool(pool, spans) && span.start <= span.end <= |pool|
    ensures InPool(pool, spans + [span])
    ensures Flatten(pool, spans + [span]) == Flatten(pool, spans) + SpanOps(pool, span)
    ensures ExecutionLength(spans + [span]) == ExecutionLength(spans) + span.end - span.start
  {
    FlattenConcat(pool, spans, [span]);
    assert [span][1..] == [];
    assert Flatten(pool, [span]) == SpanOps(pool, span);
  }

  lemma {:induction false} MergedSpan(pool: seq<Instr>, front: seq<Span>, last: Span, span: Span)
    requires InPool(pool, front) && last.start <= last.end == span.start <= span.end <= |pool|
    requires last.phase == span.phase
    ensures InPool(pool, front + [last]) && InPool(pool, front + [last.(end := span.end)])
    ensures Flatten(pool, front + [last.(end := span.end)]) == Flatten(pool, front + [last]) + SpanOps(pool, span)
    ensures ExecutionLength(front + [last.(end := span.end)])
         == ExecutionLength(front + [last]) + span.end - span.start
  {
    var merged := last.(end := span.end);
    FlattenSnoc(pool, front, merged);
    FlattenSnoc(pool, front, last);
    assert SpanOps(pool, merged) == SpanOps(pool, last) + SpanOps(pool, span) by {
      TagConcat(pool[last.start..last.end], pool[span.start..span.end], span.phase);
      assert pool[merged.start..merged.end] == pool[last.start..last.end] + pool[span.start..span.end];
    }
    Associate(Flatten(pool, front), SpanOps(pool, last), SpanOps(pool, span));
  }

  // Appending never reorders code: the flattened program grows by exactly the
  // appended span, whether or not it extends the last one.
  lemma {:induction false} AppendSpanFlattens(pool: seq<Instr>, spans: seq<Span>, span: Span)
    requires InPool(pool, spans) && span.start <= span.end <= |pool|
    ensures InPool(pool, AppendSpan(spans, span))
    ensures Flatten(pool, AppendSpan(spans, span)) == Flatten(pool, spans) + SpanOps(pool, span)
    ensures ExecutionLength(AppendSpan(spans, span)) == ExecutionLength(spans) + span.end - span.start
  {
    if span.start == span.end {
      assert SpanOps(pool, span) == [];
    } else if |spans| > 0 && AppendSpan(spans, span) != spans + [span] {
      var front, last := spans[..|spans| - 1], spans[|spans| - 1];
      assert AppendSpan(spans, span) == front + [last.(end := span.end)];
      assert spans == front + [last];
      MergedSpan(pool, front, last, span);
    } else {
      FlattenSnoc(pool, spans, span);
    }
  }

  // A shared fragment keeps its meaning while the pool grows behind it.
  lemma {:induction false} FlattenStable(pool: seq<Instr>, grown: seq<Instr>, spans: seq<Span>)
    requires InPool(pool, spans) && pool <= grown
    ensures InPool(grown, spans)
    ensures Flatten(grown, spans) == Flatten(pool, spans)
  {
    if spans != [] {
      assert pool[spans[0].start..spans[0].end] == grown[spans[0].start..spans[0].end];
      FlattenStable(pool, grown, spans[1..]);
    }
  }
}
