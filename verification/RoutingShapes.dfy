/** Emitted programs keep every jump inside its block and its phase, so each of
    them passes block validation. */
module RoutingShapes {
  import opened RoutingInstructions
  import opened RoutingSpans
  import opened RoutingJumps
  import opened RoutingRules
  import opened RoutingEmission
  import opened RoutingSimulation
  import opened RoutingBlocks
  import opened RoutingStages

  predicate Jumping(i: Instr) {
    Linking(i) || i.action == ConditionalJump
  }

  // A jump from p stays in range and in one phase, and a conditional block ends
  // with a rule.
  predicate JumpKept(code: seq<Op>, p: nat)
    requires p < |code|
  {
    var i := code[p].instr;
    Jumping(i) ==>
      && 0 < i.mark <= |code| - p
      && (forall k :: p <= k < p + i.mark ==> code[k].phase == code[p].phase)
      && (i.action == ConditionalJump ==> !Linking(code[p + i.mark - 1].instr))
  }

  predicate ScopeKept(code: seq<Op>, p: nat, q: nat)
  {
    Encloses(code, p, q) && Conditional(code[q]) ==> ScopeEnd(code, q) <= ScopeEnd(code, p)
  }

  ghost predicate Contained(code: seq<Op>) {
    && (forall p: nat {:trigger JumpKept(code, p)} :: p < |code| ==> JumpKept(code, p))
    && (forall p: nat, q: nat {:trigger ScopeKept(code, p, q)} :: ScopeKept(code, p, q))
  }

  lemma {:induction false} ContainedIsWellNested(code: seq<Op>)
    requires Contained(code)
    ensures WellNested(code, |code|) && JumpsStayInPhase(code)
  {
    forall p: nat | p < |code|
      ensures JumpFits(code, p) && JumpStays(code, p)
    {
      assert JumpKept(code, p);
    }
    forall p: nat, q: nat | q < |code| && Encloses(code, p, q)
      ensures code[q].phase == code[p].phase
      ensures Conditional(code[q]) ==> ScopeEnd(code, q) <= ScopeEnd(code, p)
    {
      assert JumpKept(code, p) && ScopeKept(code, p, q);
    }
    forall p: nat, q: nat | q < |code| && EndsAt(code, p, q)
      ensures !Linking(code[q - 1].instr)
    {
      assert JumpKept(code, p);
    }
  }

  lemma {:induction false} ContainedConcat(a: seq<Op>, b: seq<Op>)
    requires Contained(a) && Contained(b)
    ensures Contained(a + b)
  {
    var code := a + b;
    forall p: nat | p < |code|
      ensures JumpKept(code, p)
    {
      if p < |a| {
        assert JumpKept(a, p);
      } else {
        assert JumpKept(b, p - |a|);
      }
    }
    forall p: nat, q: nat
      ensures ScopeKept(code, p, q)
    {
      if Encloses(code, p, q) {
        if p < |a| {
          assert JumpKept(a, p) && ScopeKept(a, p, q);
        } else {
          assert ScopeKept(b, p - |a|, q - |a|);
        }
      }
    }
  }

  // A rule's code: links inside the rule or to what a miss continues with,
  // then the rule's own action.
  ghost predicate RuleShape(code: seq<Instr>, tail: Instr) {
    code != [] && forall k: nat {:trigger LinkShape(code, k, tail)} :: k < |code| ==> LinkShape(code, k, tail)
  }

  predicate LinkShape(code: seq<Instr>, k: nat, tail: Instr)
    requires k < |code|
  {
    if k == |code| - 1 then code[k].action == tail.action && code[k].mark == tail.mark
    else Linking(code[k]) && 0 < code[k].mark && k + code[k].mark <= |code| - 1 + After(tail)
  }

  predicate ClauseLink(code: seq<Instr>, k: nat, tail: Instr)
    requires k < |code|
  {
    if k == |code| - 1 then code[k].action == tail.action && code[k].mark == tail.mark
    else Linking(code[k]) && 0 < code[k].mark && k + code[k].mark == |code| - 1
  }

  ghost predicate ClauseShape(code: seq<Instr>, tail: Instr) {
    code != [] && forall k: nat {:trigger ClauseLink(code, k, tail)} :: k < |code| ==> ClauseLink(code, k, tail)
  }

  lemma {:induction false} TestsShape(tests: seq<Predicate>, tail: Instr)
    requires tests != []
    ensures ClauseShape(LinkedTests(tests, tail), tail)
  {
    if |tests| > 1 {
      TestsShape(tests[1..], tail);
      var code, rest := LinkedTests(tests, tail), LinkedTests(tests[1..], tail);
      forall k: nat | k < |code|
        ensures ClauseLink(code, k, tail)
      {
        if k > 0 {
          assert code[k] == rest[k - 1] && ClauseLink(rest, k - 1, tail);
        }
      }
    }
  }

  lemma {:induction false} ClausesShape(clauses: seq<Clause>, tail: Instr)
    requires clauses != [] && ClausesFormed(clauses) && 0 < After(tail)
    ensures RuleShape(LinkedClauses(clauses, tail), tail)
  {
    var c := clauses[0];
    if |clauses| == 1 {
      OnlyClauseShape(c, tail);
    } else {
      ClausesShape(clauses[1..], tail);
      FirstClauseShape(c, LinkedClauses(clauses[1..], tail), tail);
    }
  }

  lemma {:induction false} FirstClauseShape(c: Clause, rest: seq<Instr>, tail: Instr)
    requires c.tests != [] && 0 < After(tail) && RuleShape(rest, tail)
    ensures RuleShape(LinkedTests(c.tests, Logical(Always, And, c.negated, |rest| + After(tail))) + rest, tail)
  {
    var and := Logical(Always, And, c.negated, |rest| + After(tail));
    TestsShape(c.tests, and);
    var first := LinkedTests(c.tests, and);
    var code := first + rest;
    forall k: nat | k < |code|
      ensures LinkShape(code, k, tail)
    {
      if k >= |first| {
        assert LinkShape(rest, k - |first|, tail);
      } else {
        assert ClauseLink(first, k, and);
      }
    }
  }

  lemma {:induction false} OnlyClauseShape(c: Clause, tail: Instr)
    requires c.tests != []
    ensures RuleShape(LinkedTests(c.tests, tail.(negated := c.negated)), tail)
  {
    var last := tail.(negated := c.negated);
    var code := LinkedTests(c.tests, last);
    TestsShape(c.tests, last);
    forall k: nat | k < |code|
      ensures LinkShape(code, k, tail)
    {
      assert ClauseLink(code, k, last);
    }
  }

  lemma {:induction false} RuleContained(code: seq<Instr>, tail: Instr, phase: Phase)
    requires RuleShape(code, tail) && !Jumping(tail)
    ensures Contained(Tag(code, phase))
  {
    var ops := Tag(code, phase);
    forall p: nat | p < |ops|
      ensures JumpKept(ops, p)
    {
      if p < |code| {
        assert LinkShape(code, p, tail);
      }
    }
    forall p: nat, q: nat
      ensures ScopeKept(ops, p, q)
    {
      if p < |code| {
        assert LinkShape(code, p, tail);
      }
    }
  }

  // A conditional block: its entry covers exactly the body behind it.
  lemma {:induction false} ScopeContained(entry: seq<Instr>, body: seq<Instr>, phase: Phase)
    requires RuleShape(entry, JumpTail(|body|)) && body != [] && EndsRule(body)
    requires Contained(Tag(body, phase))
    ensures Contained(Tag(entry + body, phase))
  {
    var ops, inner, at := Tag(entry + body, phase), Tag(body, phase), |entry| - 1;
    forall p: nat | p < |ops|
      ensures JumpKept(ops, p)
    {
      if p <= at {
        assert LinkShape(entry, p, JumpTail(|body|));
      } else {
        assert JumpKept(inner, p - |entry|);
      }
    }
    forall p: nat, q: nat
      ensures ScopeKept(ops, p, q)
    {
      if p <= at {
        assert LinkShape(entry, p, JumpTail(|body|));
      }
      if p >= at && Encloses(ops, p, q) {
        assert JumpKept(inner, q - |entry|);
        if p > at {
          assert ScopeKept(inner, p - |entry|, q - |entry|);
        }
      }
    }
  }

  lemma {:induction false} NodeContained(node: Node, phase: Phase)
    requires Formed(node)
    ensures Contained(Tag(LinkedNode(node), phase))
    decreases node, 0
  {
    match node
    case Leaf(rule) =>
      ClausesShape(rule.clauses, TailOf(rule.effect));
      RuleContained(LinkedClauses(rule.clauses, TailOf(rule.effect)), TailOf(rule.effect), phase);
    case Scope(condition, body) =>
      NodesContained(body, phase);
      var inner := LinkedNodes(body);
      if condition != [] && inner != [] {
        ClausesShape(condition, JumpTail(|inner|));
        LinkedEnds(body);
        ScopeContained(LinkedClauses(condition, JumpTail(|inner|)), inner, phase);
      }
  }

  lemma {:induction false} LinkedEnds(nodes: seq<Node>)
    requires NodesFormed(nodes)
    ensures EndsRule(LinkedNodes(nodes))
  {
    EncodeNodes(nodes);
    var raw := EmitNodes(nodes);
    if raw != [] {
      assert Encode(raw)[|raw| - 1] == Linked(raw, |raw| - 1);
    }
  }

  lemma {:induction false} NodesContained(nodes: seq<Node>, phase: Phase)
    requires NodesFormed(nodes)
    ensures Contained(Tag(LinkedNodes(nodes), phase))
    decreases nodes
  {
    if nodes == [] {
      assert Tag(LinkedNodes(nodes), phase) == [];
    } else {
      NodeContained(nodes[0], phase);
      NodesContained(nodes[1..], phase);
      ContainedConcat(Tag(LinkedNode(nodes[0]), phase), Tag(LinkedNodes(nodes[1..]), phase));
      TagConcat(LinkedNode(nodes[0]), LinkedNodes(nodes[1..]), phase);
    }
  }

  lemma {:induction false} ProgramContained(segments: seq<Segment>)
    requires SegmentsFormed(segments)
    ensures Contained(ProgramCode(segments))
  {
    if segments != [] {
      NodesContained(segments[0].nodes, segments[0].phase);
      ProgramContained(segments[1..]);
      ContainedConcat(Tag(LinkedNodes(segments[0].nodes), segments[0].phase), ProgramCode(segments[1..]));
    }
  }

  // Validation accepts every compiled program.
  lemma {:induction false} ProgramWellNested(segments: seq<Segment>)
    requires SegmentsFormed(segments)
    ensures var code := ProgramCode(segments); WellNested(code, |code|) && JumpsStayInPhase(code)
  {
    ProgramContained(segments);
    ContainedIsWellNested(ProgramCode(segments));
  }
}
