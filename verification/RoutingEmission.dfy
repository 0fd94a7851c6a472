/** The instruction layout of rules and conditional blocks, before and after the
    backward pass that links their jumps. */
module RoutingEmission {
  import opened RoutingInstructions
  import opened RoutingSpans
  import opened RoutingJumps
  import opened RoutingRules

  predicate ClausesFormed(clauses: seq<Clause>) {
    forall i :: 0 <= i < |clauses| ==> clauses[i].tests != []
  }

  predicate Formed(node: Node) {
    match node
    case Leaf(rule) => rule.clauses != [] && ClausesFormed(rule.clauses)
    case Scope(condition, body) => ClausesFormed(condition) && forall n <- body :: Formed(n)
  }

  predicate NodesFormed(nodes: seq<Node>) {
    forall n <- nodes :: Formed(n)
  }

  function Logical(test: Predicate, action: Action, negated: bool, mark: nat): Instr {
    Instr(test, action, negated, false, false, false, {}, 0, mark)
  }

  function TailOf(effect: Effect): (tail: Instr)
    ensures !Linking(tail) && tail.action != ConditionalJump
  {
    match effect
    case RouteTo(outbound, mark, must, skipNoalive, bypass) =>
      Instr(Always, Route, false, must, skipNoalive, bypass, {}, outbound, mark)
    case ForceMust => Instr(Always, Must, false, false, false, false, {}, DIRECT, 0)
    case RequestBump => Instr(Always, Bump, false, false, false, false, {}, DIRECT, 0)
    case CaptureFor(flags) => Instr(Always, Capture, false, false, false, false, flags, DIRECT, 0)
    case EndFlow => Instr(Always, FlowEnd, false, false, false, false, {}, DIRECT, 0)
    case Accept => Instr(Always, Match, false, false, false, false, {}, DIRECT, 0)
    case Reject => Instr(Always, Miss, false, false, false, false, {}, DIRECT, 0)
  }

  // Entry of a conditional block: a miss jumps over the body behind it.
  function JumpTail(bodyLength: nat): Instr {
    Instr(Always, ConditionalJump, false, false, false, false, {}, DIRECT, bodyLength + 1)
  }

  // Layout as emitted: logical marks are still zero.

  function EmitTests(tests: seq<Predicate>, tail: Instr): (code: seq<Instr>)
    requires tests != []
    ensures |code| == |tests|
  {
    if |tests| == 1 then [tail.(test := tests[0])]
    else [Logical(tests[0], Or, tail.negated, 0)] + EmitTests(tests[1..], tail)
  }

  function EmitClauses(clauses: seq<Clause>, tail: Instr): (code: seq<Instr>)
    requires clauses != [] && ClausesFormed(clauses)
    ensures |code| >= 1
  {
    var c := clauses[0];
    if |clauses| == 1 then EmitTests(c.tests, tail.(negated := c.negated))
    else EmitTests(c.tests, Logical(Always, And, c.negated, 0)) + EmitClauses(clauses[1..], tail)
  }

  function EmitScope(condition: seq<Clause>, body: seq<Instr>): seq<Instr>
    requires ClausesFormed(condition)
  {
    if condition == [] || body == [] then body
    else EmitClauses(condition, JumpTail(|body|)) + body
  }

  function EmitNode(node: Node): seq<Instr>
    requires Formed(node)
    decreases node, 0
  {
    match node
    case Leaf(rule) => EmitClauses(rule.clauses, TailOf(rule.effect))
    case Scope(condition, body) => EmitScope(condition, EmitNodes(body))
  }

  function EmitNodes(nodes: seq<Node>): seq<Instr>
    requires NodesFormed(nodes)
    decreases nodes
  {
    if nodes == [] then [] else EmitNode(nodes[0]) + EmitNodes(nodes[1..])
  }

  // Layout after linking.

  function LinkedTests(tests: seq<Predicate>, tail: Instr): (code: seq<Instr>)
    requires tests != []
    ensures |code| == |tests|
  {
    if |tests| == 1 then [tail.(test := tests[0])]
    else [Logical(tests[0], Or, tail.negated, |tests| - 1)] + LinkedTests(tests[1..], tail)
  }

  // A missed rule continues this far behind its tail.
  function After(tail: Instr): nat {
    if tail.action == ConditionalJump then tail.mark else 1
  }

  function LinkedClauses(clauses: seq<Clause>, tail: Instr): (code: seq<Instr>)
    requires clauses != [] && ClausesFormed(clauses)
    ensures |code| == |EmitClauses(clauses, tail)|
  {
    var c := clauses[0];
    if |clauses| == 1 then LinkedTests(c.tests, tail.(negated := c.negated))
    else
      var rest := LinkedClauses(clauses[1..], tail);
      LinkedTests(c.tests, Logical(Always, And, c.negated, |rest| + After(tail))) + rest
  }

  function LinkedScope(condition: seq<Clause>, body: seq<Instr>): seq<Instr>
    requires ClausesFormed(condition)
  {
    if condition == [] || body == [] then body
    else LinkedClauses(condition, JumpTail(|body|)) + body
  }

  function LinkedNode(node: Node): seq<Instr>
    requires Formed(node)
    decreases node, 0
  {
    match node
    case Leaf(rule) => LinkedClauses(rule.clauses, TailOf(rule.effect))
    case Scope(condition, body) => LinkedScope(condition, LinkedNodes(body))
  }

  function LinkedNodes(nodes: seq<Node>): seq<Instr>
    requires NodesFormed(nodes)
    decreases nodes
  {
    if nodes == [] then [] else LinkedNode(nodes[0]) + LinkedNodes(nodes[1..])
  }

  // The backward pass turns one layout into the other.

  lemma {:induction false} SuffixTails(code: seq<Instr>, i: nat)
    requires 0 < i <= |code|
    ensures RuleTail(code, i) == 1 + RuleTail(code[1..], i - 1)
    ensures ClauseTail(code, i) == 1 + ClauseTail(code[1..], i - 1)
    decreases |code| - i
  {
    if i < |code| {
      SuffixTails(code, i + 1);
    }
  }

  lemma {:induction false} EncodeCons(head: Instr, rest: seq<Instr>)
    ensures Encode([head] + rest) == [Linked([head] + rest, 0)] + Encode(rest)
  {
    var code := [head] + rest;
    assert code[1..] == rest;
    forall i | 0 < i < |code|
      ensures Linked(code, i) == Linked(rest, i - 1)
    {
      SuffixTails(code, i);
    }
  }

  lemma {:induction false} RuleTailOfTests(tests: seq<Predicate>, tail: Instr, more: seq<Instr>)
    requires tests != [] && tail.action != Or
    ensures ClauseTail(EmitTests(tests, tail) + more, 0) == |tests| - 1
    ensures RuleTail(EmitTests(tests, tail) + more, 0)
         == if tail.action == And then |tests| + RuleTail(more, 0) else |tests| - 1
  {
    var code := EmitTests(tests, tail) + more;
    SuffixTails(code, 1);
    if |tests| == 1 {
      assert code[1..] == more;
    } else {
      assert code[1..] == EmitTests(tests[1..], tail) + more;
      RuleTailOfTests(tests[1..], tail, more);
    }
  }

  lemma {:induction false} RuleTailOfClauses(clauses: seq<Clause>, tail: Instr, more: seq<Instr>)
    requires clauses != [] && ClausesFormed(clauses) && !Linking(tail)
    ensures RuleTail(EmitClauses(clauses, tail) + more, 0) == |EmitClauses(clauses, tail)| - 1
    ensures var last := (EmitClauses(clauses, tail) + more)[|EmitClauses(clauses, tail)| - 1];
            last.action == tail.action && last.mark == tail.mark
    ensures EndsRule(EmitClauses(clauses, tail))
  {
    var c := clauses[0];
    if |clauses| == 1 {
      RuleTailOfTests(c.tests, tail.(negated := c.negated), more);
      LastTest(c.tests, tail.(negated := c.negated));
    } else {
      var and, rest := Logical(Always, And, c.negated, 0), EmitClauses(clauses[1..], tail);
      assert EmitClauses(clauses, tail) + more == EmitTests(c.tests, and) + (rest + more);
      RuleTailOfTests(c.tests, and, rest + more);
      RuleTailOfClauses(clauses[1..], tail, more);
    }
  }

  lemma {:induction false} LastTest(tests: seq<Predicate>, tail: Instr)
    requires tests != []
    ensures EmitTests(tests, tail)[|tests| - 1] == tail.(test := tests[|tests| - 1])
  {
    if |tests| > 1 {
      LastTest(tests[1..], tail);
    }
  }

  lemma {:induction false} EncodeTests(tests: seq<Predicate>, tail: Instr, linked: Instr, more: seq<Instr>)
    requires tests != [] && tail.action != Or
    requires linked == if tail.action == And then tail.(mark := 1 + RuleEnd(more, 0)) else tail
    ensures Encode(EmitTests(tests, tail) + more) == LinkedTests(tests, linked) + Encode(more)
  {
    if |tests| == 1 {
      EncodeCons(tail.(test := tests[0]), more);
      EncodedAnd(tail.(test := tests[0]), more);
    } else {
      var rest := EmitTests(tests[1..], tail) + more;
      var or := Logical(tests[0], Or, tail.negated, 0);
      assert EmitTests(tests, tail) + more == [or] + rest;
      EncodeCons(or, rest);
      EncodedOr(or, rest);
      RuleTailOfTests(tests[1..], tail, more);
      EncodeTests(tests[1..], tail, linked, more);
      Associate([or.(mark := |tests| - 1)], LinkedTests(tests[1..], linked), Encode(more));
    }
  }

  lemma {:induction false} EncodedOr(head: Instr, more: seq<Instr>)
    requires head.action == Or
    ensures Linked([head] + more, 0) == head.(mark := 1 + ClauseTail(more, 0))
  {
    SuffixTails([head] + more, 1);
    assert ([head] + more)[1..] == more;
  }

  lemma {:induction false} EncodedAnd(head: Instr, more: seq<Instr>)
    requires head.action != Or
    ensures Linked([head] + more, 0) == if head.action == And then head.(mark := 1 + RuleEnd(more, 0)) else head
  {
    SuffixTails([head] + more, 1);
    assert ([head] + more)[1..] == more;
    var tail := RuleTail(more, 0);
    assert tail < |more| ==> ([head] + more)[1 + tail] == more[tail];
  }

  lemma {:induction false} EncodeClauses(clauses: seq<Clause>, tail: Instr, more: seq<Instr>)
    requires clauses != [] && ClausesFormed(clauses) && !Linking(tail)
    ensures Encode(EmitClauses(clauses, tail) + more) == LinkedClauses(clauses, tail) + Encode(more)
  {
    var c := clauses[0];
    if |clauses| == 1 {
      EncodeTests(c.tests, tail.(negated := c.negated), tail.(negated := c.negated), more);
    } else {
      var and, rest := Logical(Always, And, c.negated, 0), EmitClauses(clauses[1..], tail);
      assert EmitClauses(clauses, tail) + more == EmitTests(c.tests, and) + (rest + more);
      RuleTailOfClauses(clauses[1..], tail, more);
      var linked := and.(mark := 1 + RuleEnd(rest + more, 0));
      EncodeTests(c.tests, and, linked, rest + more);
      EncodeClauses(clauses[1..], tail, more);
      assert LinkedClauses(clauses, tail) == LinkedTests(c.tests, linked) + LinkedClauses(clauses[1..], tail);
      Associate(LinkedTests(c.tests, linked), LinkedClauses(clauses[1..], tail), Encode(more));
    }
  }

  lemma {:induction false} EncodeNode(node: Node)
    requires Formed(node)
    ensures EndsRule(EmitNode(node))
    ensures Encode(EmitNode(node)) == LinkedNode(node)
    decreases node, 0
  {
    match node
    case Leaf(rule) =>
      EncodeWhole(rule.clauses, TailOf(rule.effect));
    case Scope(condition, body) =>
      EncodeNodes(body);
      var inner := EmitNodes(body);
      if condition != [] && inner != [] {
        EncodeWhole(condition, JumpTail(|inner|));
        EncodeConcat(EmitClauses(condition, JumpTail(|inner|)), inner);
      }
  }

  lemma {:induction false} EncodeWhole(clauses: seq<Clause>, tail: Instr)
    requires clauses != [] && ClausesFormed(clauses) && !Linking(tail)
    ensures EndsRule(EmitClauses(clauses, tail))
    ensures Encode(EmitClauses(clauses, tail)) == LinkedClauses(clauses, tail)
  {
    RuleTailOfClauses(clauses, tail, []);
    EncodeClauses(clauses, tail, []);
    assert EmitClauses(clauses, tail) + [] == EmitClauses(clauses, tail);
    assert LinkedClauses(clauses, tail) + [] == LinkedClauses(clauses, tail);
  }

  lemma {:induction false} EncodeNodes(nodes: seq<Node>)
    requires NodesFormed(nodes)
    ensures EndsRule(EmitNodes(nodes))
    ensures Encode(EmitNodes(nodes)) == LinkedNodes(nodes)
    decreases nodes
  {
    if nodes != [] {
      EncodeNode(nodes[0]);
      EncodeNodes(nodes[1..]);
      EncodeConcat(EmitNode(nodes[0]), EmitNodes(nodes[1..]));
    }
  }

  lemma {:induction false} EmitConcat(a: seq<Node>, b: seq<Node>)
    requires NodesFormed(a) && NodesFormed(b)
    ensures NodesFormed(a + b)
    ensures EmitNodes(a + b) == EmitNodes(a) + EmitNodes(b)
  {
    if a == [] {
      assert a + b == b;
    } else {
      assert (a + b)[1..] == a[1..] + b;
      EmitConcat(a[1..], b);
    }
  }

  // Nothing is emitted exactly when no rule is reached.
  lemma {:induction false} EmptyEmission(guard: seq<Clause>, nodes: seq<Node>)
    requires NodesFormed(nodes)
    ensures EmitNodes(nodes) == [] <==> Inline(guard, nodes) == []
    decreases nodes
  {
    if nodes != [] {
      EmptyEmission(guard, nodes[1..]);
      assert Formed(nodes[0]);
      match nodes[0]
      case Leaf(_) =>
      case Scope(condition, body) => EmptyEmission(guard + condition, body);
    }
  }
}
