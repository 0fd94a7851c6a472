/** The builder that appends match sets to the shared pool. */
module RoutingBuilder {
  import opened Common
  import opened RoutingInstructions
  import opened RoutingSpans
  import opened RoutingJumps
  import opened RoutingRules
  import opened RoutingEmission
  import opened RoutingPolicies
  import opened RoutingDemand
  import opened RoutingFragments

  lemma {:induction false} EmitOne(node: Node)
    requires Formed(node)
    ensures NodesFormed([node]) && EmitNodes([node]) == EmitNode(node)
  {
    assert [node][1..] == [];
  }

  class Builder {
    var rules: seq<Instr>
    var fallbacks: map<Instr, Span>
    const outbounds: set<nat>

    constructor (outbounds: set<nat>)
      ensures rules == [] && fallbacks == map[] && this.outbounds == outbounds
    {
      this.outbounds := outbounds;
      rules, fallbacks := [], map[];
    }

    // One clause: all tests but the last are linked by OR.
    method AddMatches(tests: seq<Predicate>, tail: Instr)
      requires tests != []
      modifies this`rules
      ensures rules == old(rules) + EmitTests(tests, tail)
    {
      var i := 0;
      while i < |tests|
        invariant 0 <= i <= |tests|
        invariant i < |tests| ==> old(rules) + EmitTests(tests, tail) == rules + EmitTests(tests[i..], tail)
        invariant i == |tests| ==> rules == old(rules) + EmitTests(tests, tail)
      {
        var instr := if i == |tests| - 1 then tail.(test := tests[i]) else Logical(tests[i], Or, tail.negated, 0);
        EmitTestsHead(tests[i..], tail);
        Associate(rules, [instr], if i == |tests| - 1 then [] else EmitTests(tests[i..][1..], tail));
        assert tests[i..][1..] == tests[i + 1..];
        rules := rules + [instr];
        i := i + 1;
      }
    }

    // Fails exactly on an empty predicate or a clause without arguments.
    method ApplyPredicate(clauses: seq<Clause>, tail: Instr) returns (ok: bool)
      modifies this`rules
      ensures ok <==> clauses != [] && ClausesFormed(clauses)
      ensures ok ==> rules == old(rules) + EmitClauses(clauses, tail)
      ensures old(rules) <= rules
    {
      if clauses == [] {
        return false;
      }
      var i := 0;
      while i < |clauses|
        invariant 0 <= i <= |clauses|
        invariant forall k :: 0 <= k < i ==> clauses[k].tests != []
        invariant old(rules) <= rules
        invariant i < |clauses| && ClausesFormed(clauses) ==>
          old(rules) + EmitClauses(clauses, tail) == rules + EmitClauses(clauses[i..], tail)
        invariant i == |clauses| ==> rules == old(rules) + EmitClauses(clauses, tail)
      {
        var c := clauses[i];
        if c.tests == [] {
          return false;
        }
        var last := i == |clauses| - 1;
        ghost var before := rules;
        var end := if last then tail.(negated := c.negated) else Logical(Always, And, c.negated, 0);
        AddMatches(c.tests, end);
        assert clauses[i..][0] == c && clauses[i..][1..] == clauses[i + 1..];
        if !last {
          if ClausesFormed(clauses) {
            Associate(before, EmitTests(c.tests, end), EmitClauses(clauses[i + 1..], tail));
          }
        }
        i := i + 1;
      }
      ok := true;
    }

    // A block under a condition: a new entry in front of the spans it already has.
    method ConditionalBlock(body: seq<Span>, condition: seq<Clause>, ghost nodes: seq<Node>, ghost phase: Phase)
      returns (r: Result<seq<Span>>)
      requires Means(rules, body, phase, nodes)
      modifies this`rules
      ensures old(rules) <= rules
      ensures r.Ok? ==> Means(rules, r.value, phase, [Scope(condition, nodes)])
      ensures r.Ok? ==> Guarded(old(rules), rules, condition, body, r.value)
      ensures (Guards(condition)
               && EntryLength(condition, ExecutionLength(body)) + ExecutionLength(body) <= MAX_MATCH_SETS) ==> r.Ok?
    {
      SolidEmpty(rules, body, Tag(EmitNodes(nodes), phase));
      if |condition| == 0 {
        EmitEmptyScope(condition, nodes);
        return Ok(body);
      }
      if |body| == 0 {
        if !ClausesFormed(condition) {
          return Err(EmptyPredicate);
        }
        EmittedTests(condition, TailOf(RouteTo(DIRECT, 0, false, false, false)));
        if |EmitClauses(condition, TailOf(RouteTo(DIRECT, 0, false, false, false)))| > MAX_MATCH_SETS {
          return Err(TooManyMatchSets);
        }
        EmitEmptyScope(condition, nodes);
        return Ok(body);
      }
      r := EnterBlock(body, condition, nodes, phase);
    }

    // The condition's own code in front of the body it jumps over.
    method EnterBlock(body: seq<Span>, condition: seq<Clause>, ghost nodes: seq<Node>, ghost phase: Phase)
      returns (r: Result<seq<Span>>)
      requires Means(rules, body, phase, nodes) && condition != [] && body != [] && EmitNodes(nodes) != []
      modifies this`rules
      ensures old(rules) <= rules
      ensures r.Ok? ==> Means(rules, r.value, phase, [Scope(condition, nodes)])
      ensures r.Ok? ==> Guarded(old(rules), rules, condition, body, r.value)
      ensures ClausesFormed(condition) && Tests(condition) + ExecutionLength(body) <= MAX_MATCH_SETS ==> r.Ok?
    {
      BodyShape(rules, body, phase, nodes);
      var start := |rules|;
      var ok := ApplyPredicate(condition, TailOf(RouteTo(DIRECT, 0, false, false, false)));
      if !ok {
        return Err(EmptyPredicate);
      }
      var bodyLength := ExecutionLength(body);
      SetConditionalJump(|rules| - 1, bodyLength);
      PatchedTail(old(rules), condition, bodyLength);
      EmittedTests(condition, JumpTail(bodyLength));
      if |rules| - start > MAX_MATCH_SETS {
        return Err(TooManyMatchSets);
      }
      var entry := AppendSpan([], Span(start, |rules|, body[0].phase, false));
      var fits, block := AppendBlock(entry, body);
      if !fits {
        return Err(TooManyMatchSets);
      }
      ScopeMeans(old(rules), rules, body, condition, nodes, phase);
      EntryCost(old(rules), rules, condition, body, nodes, phase, entry, block);
      return Ok(block);
    }

    method SetConditionalJump(tail: nat, bodyLength: nat)
      requires tail < |rules|
      modifies this`rules
      ensures rules == old(rules)[tail := old(rules)[tail].(action := ConditionalJump, mark := bodyLength + 1)]
    {
      rules := rules[tail := rules[tail].(action := ConditionalJump, mark := bodyLength + 1)];
    }

    // Fallbacks are interned by their match set.
    method AddFallback(t: Target) returns (r: Result<Span>)
      requires FallbacksHold(rules, fallbacks)
      modifies this`rules, this`fallbacks
      ensures old(rules) <= rules
      ensures r.Ok? ==> FallbacksHold(rules, fallbacks)
      ensures r.Ok? ==> Means(rules, [r.value], RoutePhase, [FallbackLeaf(t)])
      ensures r.Ok? ==> CheckTarget(outbounds, t, true).None? && |rules| <= |old(rules)| + 1
      ensures r.Ok? && Encodable(old(rules)) ==> Encodable(rules)
      ensures r.Ok? <==> CheckTarget(outbounds, t, true).None?
                         && (FallbackInstr(t) in old(fallbacks) || |old(rules)| < MAX_MATCH_SETS)
      ensures r.Ok? ==>
        Recorded(fallbacks, t) == Some(r.value)
        && fallbacks.Keys == old(fallbacks).Keys + {FallbackInstr(t)}
      ensures r.Ok? ==> |rules| - |old(rules)| == if FallbackInstr(t) in old(fallbacks) then 0 else 1
      ensures r.Ok? && Recorded(old(fallbacks), t).Some?
        ==> r.value == Recorded(old(fallbacks), t).value && rules == old(rules) && fallbacks == old(fallbacks)
    {
      var check := CheckTarget(outbounds, t, true);
      if check.Some? {
        return Err(check.value);
      }
      var instr := FallbackInstr(t);
      FallbackEmission(t);
      if instr in fallbacks {
        FallbackMeans(rules, fallbacks[instr], t);
        return Ok(fallbacks[instr]);
      }
      if |rules| >= MAX_MATCH_SETS {
        return Err(TooManyMatchSets);
      }
      var span := Span(|rules|, |rules| + 1, RoutePhase, false);
      FallbacksGrow(rules, rules + [instr], fallbacks);
      rules := rules + [instr];
      fallbacks := fallbacks[instr := span];
      FallbackMeans(rules, span, t);
      return Ok(span);
    }
  }

  // The span of an equal fallback, if there is one.
  function Recorded(fallbacks: map<Instr, Span>, t: Target): Option<Span> {
    if FallbackInstr(t) in fallbacks then Some(fallbacks[FallbackInstr(t)]) else None
  }

  function FallbackInstr(t: Target): Instr {
    TailOf(RouteTo(t.outbound, t.mark, t.must, t.skipNoalive, false))
  }

  // A block behind its condition takes an entry, if it has rules.
  ghost predicate Guarded(pool: seq<Instr>, grown: seq<Instr>, condition: seq<Clause>, body: seq<Span>,
                          block: seq<Span>)
  {
    && Guards(condition)
    && |grown| == |pool| + EntryLength(condition, ExecutionLength(body))
    && ExecutionLength(block) == EntryLength(condition, ExecutionLength(body)) + ExecutionLength(body)
    && (condition != [] ==> ExecutionLength(block) <= MAX_MATCH_SETS)
    && (Encodable(pool) ==> Encodable(grown))
  }

  lemma {:induction false} EntryCost(pool: seq<Instr>, rules: seq<Instr>, condition: seq<Clause>, body: seq<Span>,
                                     nodes: seq<Node>, phase: Phase, entry: seq<Span>, block: seq<Span>)
    requires Means(pool, body, phase, nodes) && EmitNodes(nodes) != [] && ExecutionLength(body) == |EmitNodes(nodes)|
    requires Filtered(condition) && rules == pool + EmitClauses(condition, JumpTail(ExecutionLength(body)))
    requires entry == AppendSpan([], Span(|pool|, |rules|, phase, false)) && block == AppendSpans(entry, body)
    requires ExecutionLength(entry) + ExecutionLength(body) <= MAX_MATCH_SETS
    ensures Guarded(pool, rules, condition, body, block)
  {
    MeansGrows(pool, rules, body, phase, nodes);
    EmittedTests(condition, JumpTail(ExecutionLength(body)));
    assert entry == [Span(|pool|, |rules|, phase, false)] && entry[1..] == [];
    AppendSpansLength(rules, entry, body);
    ClausesEncodable(condition, JumpTail(ExecutionLength(body)));
    if Encodable(pool) {
      EncodableConcat(pool, EmitClauses(condition, JumpTail(ExecutionLength(body))));
    }
  }

  ghost predicate FallbacksHold(rules: seq<Instr>, fallbacks: map<Instr, Span>) {
    forall instr :: instr in fallbacks ==> FallbackAt(rules, instr, fallbacks[instr])
  }

  ghost predicate FallbackAt(rules: seq<Instr>, instr: Instr, span: Span) {
    span == Span(span.start, span.start + 1, RoutePhase, false) && span.end <= |rules| && rules[span.start] == instr
  }

  lemma {:induction false} FallbacksGrow(rules: seq<Instr>, grown: seq<Instr>, fallbacks: map<Instr, Span>)
    requires FallbacksHold(rules, fallbacks) && rules <= grown
    ensures FallbacksHold(grown, fallbacks)
  {
    forall instr | instr in fallbacks
      ensures FallbackAt(grown, instr, fallbacks[instr])
    {
      assert FallbackAt(rules, instr, fallbacks[instr]);
    }
  }

  lemma {:induction false} FallbackEmission(t: Target)
    ensures Formed(FallbackLeaf(t))
    ensures EmitNode(FallbackLeaf(t)) == [TailOf(RouteTo(t.outbound, t.mark, t.must, t.skipNoalive, false))]
  {
  }

  lemma {:induction false} FallbackMeans(rules: seq<Instr>, span: Span, t: Target)
    requires FallbackAt(rules, TailOf(RouteTo(t.outbound, t.mark, t.must, t.skipNoalive, false)), span)
    ensures Means(rules, [span], RoutePhase, [FallbackLeaf(t)])
  {
    FallbackEmission(t);
    EmitOne(FallbackLeaf(t));
    assert rules[span.start..span.end] == EmitNode(FallbackLeaf(t));
    HoldsOne(rules, span);
  }

  lemma {:induction false} EmitTestsHead(tests: seq<Predicate>, tail: Instr)
    requires tests != []
    ensures EmitTests(tests, tail) ==
      if |tests| == 1 then [tail.(test := tests[0])] + []
      else [Logical(tests[0], Or, tail.negated, 0)] + EmitTests(tests[1..], tail)
  {
  }

  lemma {:induction false} EmitEmptyScope(condition: seq<Clause>, nodes: seq<Node>)
    requires NodesFormed(nodes) && ClausesFormed(condition)
    requires condition == [] || EmitNodes(nodes) == []
    ensures NodesFormed([Scope(condition, nodes)]) && EmitNodes([Scope(condition, nodes)]) == EmitNodes(nodes)
  {
    EmitOne(Scope(condition, nodes));
  }

  // Patching the tail turns the emitted condition into a conditional jump.
  lemma {:induction false} PatchedTail(pool: seq<Instr>, condition: seq<Clause>, bodyLength: nat)
    requires condition != [] && ClausesFormed(condition)
    ensures var emitted := pool + EmitClauses(condition, TailOf(RouteTo(DIRECT, 0, false, false, false)));
      emitted[|emitted| - 1 := emitted[|emitted| - 1].(action := ConditionalJump, mark := bodyLength + 1)]
      == pool + EmitClauses(condition, JumpTail(bodyLength))
  {
    PatchedClauses(condition, TailOf(RouteTo(DIRECT, 0, false, false, false)), bodyLength);
    var code := EmitClauses(condition, TailOf(RouteTo(DIRECT, 0, false, false, false)));
    assert (pool + code)[|pool + code| - 1] == code[|code| - 1];
  }

  lemma {:induction false} PatchedTests(tests: seq<Predicate>, tail: Instr, tail': Instr)
    requires tests != [] && tail'.negated == tail.negated
    ensures EmitTests(tests, tail)[|tests| - 1 := tail'.(test := tests[|tests| - 1])] == EmitTests(tests, tail')
  {
    if |tests| > 1 {
      PatchedTests(tests[1..], tail, tail');
    }
  }

  lemma {:induction false} PatchedClauses(clauses: seq<Clause>, tail: Instr, bodyLength: nat)
    requires clauses != [] && ClausesFormed(clauses)
    requires tail.(action := ConditionalJump, mark := bodyLength + 1) == JumpTail(bodyLength)
    ensures var code := EmitClauses(clauses, tail);
      code[|code| - 1 := code[|code| - 1].(action := ConditionalJump, mark := bodyLength + 1)]
      == EmitClauses(clauses, JumpTail(bodyLength))
  {
    var c := clauses[0];
    if |clauses| == 1 {
      LastTest(c.tests, tail.(negated := c.negated));
      PatchedTests(c.tests, tail.(negated := c.negated), JumpTail(bodyLength).(negated := c.negated));
    } else {
      PatchedClauses(clauses[1..], tail, bodyLength);
      var first, rest := EmitTests(c.tests, Logical(Always, And, c.negated, 0)), EmitClauses(clauses[1..], tail);
      assert (first + rest)[|first + rest| - 1] == rest[|rest| - 1];
    }
  }

  // A body's spans share its phase and cover exactly its code.
  lemma {:induction false} BodyShape(pool: seq<Instr>, body: seq<Span>, phase: Phase, nodes: seq<Node>)
    requires Means(pool, body, phase, nodes) && body != []
    ensures body[0].phase == phase && ExecutionLength(body) == |EmitNodes(nodes)|
  {
    FlattenLength(pool, body);
    assert Flatten(pool, body) == SpanOps(pool, body[0]) + Flatten(pool, body[1..]);
    assert Flatten(pool, body)[0] == SpanOps(pool, body[0])[0];
  }

  lemma {:induction false} ScopeMeans(pool: seq<Instr>, rules: seq<Instr>, body: seq<Span>, condition: seq<Clause>,
                                      nodes: seq<Node>, phase: Phase)
    requires Means(pool, body, phase, nodes) && body != [] && body[0].phase == phase
    requires condition != [] && ClausesFormed(condition) && EmitNodes(nodes) != []
    requires rules == pool + EmitClauses(condition, JumpTail(|EmitNodes(nodes)|))
    ensures Means(rules, AppendSpans(AppendSpan([], Span(|pool|, |rules|, phase, false)), body), phase,
                  [Scope(condition, nodes)])
  {
    var entry := EmitClauses(condition, JumpTail(|EmitNodes(nodes)|));
    var span := Span(|pool|, |rules|, phase, false);
    MeansGrows(pool, rules, body, phase, nodes);
    EncodeWhole(condition, JumpTail(|EmitNodes(nodes)|));
    assert rules[span.start..span.end] == entry;
    HoldsOne(rules, span);
    assert AppendSpan([], span) == [span];
    HoldsAppendAll(rules, [span], Tag(entry, phase), body, Tag(EmitNodes(nodes), phase));
    TagConcat(entry, EmitNodes(nodes), phase);
    EmitOne(Scope(condition, nodes));
  }
}
