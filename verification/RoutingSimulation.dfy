/** Running linked code equals first-match evaluation of the inlined rules. */
module RoutingSimulation {
  import opened RoutingInstructions
  import opened RoutingSpans
  import opened RoutingRules
  import opened RoutingEmission
  import opened RoutingMachine

  // How a run from this position ends.
  ghost function Ends(code: seq<Op>, position: nat, m: Machine, input: Input): Outcome
    requires position <= |code|
  {
    Run(code, position, m, input)
  }

  ghost predicate At(code: seq<Op>, o: nat, part: seq<Instr>, phase: Phase) {
    && o + |part| <= |code|
    && forall k :: 0 <= k < |part| ==> code[o + k] == Op(part[k], phase)
  }

  predicate Executes(phase: Phase, input: Input) {
    !(input.afterTarget && phase == IngressPhase)
  }

  lemma {:induction false} AtParts(code: seq<Op>, o: nat, a: seq<Instr>, b: seq<Instr>, phase: Phase)
    requires At(code, o, a + b, phase)
    ensures At(code, o, a, phase) && At(code, o + |a|, b, phase)
  {
    forall k | 0 <= k < |a|
      ensures code[o + k] == Op(a[k], phase)
    {
      assert (a + b)[k] == a[k];
    }
    forall k | 0 <= k < |b|
      ensures code[o + |a| + k] == Op(b[k], phase)
    {
      assert (a + b)[|a| + k] == b[k];
    }
  }

  function Load(f: Flow, until: nat): Machine {
    Machine(MISS, false, until, f)
  }

  // A clause reaches its tail with the OR of its tests, whichever way an early
  // hit jumped.
  lemma {:induction false} RunTests(code: seq<Op>, o: nat, tests: seq<Predicate>, tail: Instr, phase: Phase,
                                    m: Machine, input: Input)
    requires tests != [] && tail.action != Or && Executes(phase, input)
    requires At(code, o, LinkedTests(tests, tail), phase)
    ensures Ends(code, o, m, input) == AtTail(code, o + |tests| - 1, tail, AnyOf(tests, input), m, input)
    decreases |tests|
  {
    if |tests| == 1 {
      RunOneTest(code, o, tests[0], tail, phase, m, input);
      assert tests[1..] == [];
    } else {
      AtParts(code, o, [LinkedTests(tests, tail)[0]], LinkedTests(tests[1..], tail), phase);
      var next := m.(subrule := Larger(m.subrule, input.Test(tests[0])));
      RunTests(code, o + 1, tests[1..], tail, phase, next, input);
      RunOr(code, o, tests, tail, phase, m, input);
    }
  }

  // Conclusion at a tail whose clause has accumulated value on top of m.
  ghost function AtTail(code: seq<Op>, at: nat, tail: Instr, value: Truth, m: Machine, input: Input): Outcome
    requires at < |code| && tail.action != Or
  {
    Resume(code, at, Conclude(tail, Larger(m.subrule, value), at, |code|, m, input), input)
  }

  lemma {:induction false} RunOneTest(code: seq<Op>, o: nat, test: Predicate, tail: Instr, phase: Phase, m: Machine,
                                      input: Input)
    requires o < |code| && code[o] == Op(tail.(test := test), phase)
    requires tail.action != Or && Executes(phase, input)
    ensures Ends(code, o, m, input) == AtTail(code, o, tail, input.Test(test), m, input)
  {
    ConcludeIgnoresTest(tail, test, Larger(m.subrule, input.Test(test)), o, |code|, m, input);
  }

  lemma {:induction false} OrStep(code: seq<Op>, o: nat, m: Machine, input: Input)
    requires o < |code| && code[o].instr.action == Or && Executes(code[o].phase, input)
    ensures var value := Larger(m.subrule, input.Test(code[o].instr.test));
      Ends(code, o, m, input) == Resume(code, o,
                                        Goto(if value == MATCH then code[o].instr.mark else 1, m.(subrule := value)),
                                        input)
  {
  }

  // An OR hit jumps straight to the tail; testing on would not change it.
  lemma {:induction false} RunOr(code: seq<Op>, o: nat, tests: seq<Predicate>, tail: Instr, phase: Phase, m: Machine,
                                 input: Input)
    requires |tests| > 1 && tail.action != Or && Executes(phase, input)
    requires At(code, o, LinkedTests(tests, tail), phase)
    ensures Ends(code, o, m, input) == Ends(code, o + 1, m.(subrule := Larger(m.subrule, input.Test(tests[0]))), input)
  {
    var next := m.(subrule := Larger(m.subrule, input.Test(tests[0])));
    var part := LinkedTests(tests, tail);
    assert code[o] == Op(part[0], phase);
    OrStep(code, o, m, input);
    if next.subrule == MATCH && |tests| > 2 {
      assert part[1] == LinkedTests(tests[1..], tail)[0];
      assert code[o + 1] == Op(part[1], phase);
      OrStep(code, o + 1, next, input);
    }
  }

  lemma {:induction false} ConcludeIgnoresTest(tail: Instr, test: Predicate, value: Truth, at: nat, length: nat,
                                               m: Machine, input: Input)
    requires tail.action != Or
    ensures Conclude(tail.(test := test), value, at, length, m, input) == Conclude(tail, value, at, length, m, input)
  {
  }

  lemma {:induction false} TerminalIgnoresSign(tail: Instr, negated: bool, at: nat, length: nat, m: Machine,
                                               input: Input)
    requires !Linking(tail)
    ensures Terminal(tail.(negated := negated), at, length, m, input) == Terminal(tail, at, length, m, input)
  {
  }

  // Outcome of a rule whose tail lies at `at`: its action, or behind the rule,
  // or behind the body that a conditional rule guards.
  ghost function AfterClauses(code: seq<Op>, at: nat, tail: Instr, value: Truth, m: Machine, input: Input): Outcome
    requires !Linking(tail) && at < |code| && 0 < After(tail) <= |code| - at
  {
    if value == MISS then Ends(code, at + After(tail), m.(ruleUnknown := false), input)
    else Resume(code, at, Terminal(tail, at, |code|, m.(ruleUnknown := m.ruleUnknown || value == UNKNOWN), input),
                input)
  }

  ghost predicate Concludes(code: seq<Op>, o: nat, at: nat, tail: Instr, value: Truth, m: Machine, input: Input)
    requires o <= at < |code| && !Linking(tail) && 0 < After(tail) <= |code| - at
  {
    Ends(code, o, m, input) == AfterClauses(code, at, tail, value, m, input)
  }

  lemma {:induction false} LastClause(code: seq<Op>, at: nat, tail: Instr, c: Clause, m: Machine, input: Input)
    requires !Linking(tail) && m.subrule == MISS
    requires at < |code| && 0 < After(tail) <= |code| - at
    ensures AtTail(code, at, tail.(negated := c.negated), AnyOf(c.tests, input), m, input)
         == AfterClauses(code, at, tail, ClauseValue(c, input), m, input)
  {
    var value := ClauseValue(c, input);
    TerminalIgnoresSign(tail, c.negated, at, |code|, m.(ruleUnknown := m.ruleUnknown || value == UNKNOWN), input);
  }

  lemma {:induction false} AndClause(code: seq<Op>, at: nat, c: Clause, distance: nat, m: Machine, input: Input)
    requires m.subrule == MISS && at + 1 < |code| && 0 < distance <= |code| - at
    ensures AtTail(code, at, Logical(Always, And, c.negated, distance), AnyOf(c.tests, input), m, input)
         == if ClauseValue(c, input) == MISS then Ends(code, at + distance, m.(ruleUnknown := false), input)
            else Ends(code, at + 1, m.(ruleUnknown := m.ruleUnknown || ClauseValue(c, input) == UNKNOWN), input)
  {
  }

  lemma {:induction false} AfterMore(code: seq<Op>, at: nat, tail: Instr, value: Truth, rest: Truth, m: Machine,
                                     input: Input)
    requires !Linking(tail) && at < |code| && 0 < After(tail) <= |code| - at && value != MISS
    ensures AfterClauses(code, at, tail, rest, m.(ruleUnknown := m.ruleUnknown || value == UNKNOWN), input)
         == AfterClauses(code, at, tail, Smaller(value, rest), m, input)
  {
    var unknown := m.ruleUnknown || value == UNKNOWN || rest == UNKNOWN;
    assert m.(ruleUnknown := m.ruleUnknown || value == UNKNOWN).(ruleUnknown := unknown) == m.(ruleUnknown := unknown);
  }

  // A rule's code lies at o, and what a miss continues with is still in range.
  ghost predicate Placed(code: seq<Op>, o: nat, clauses: seq<Clause>, tail: Instr, phase: Phase, input: Input) {
    && clauses != [] && ClausesFormed(clauses) && !Linking(tail) && Executes(phase, input)
    && At(code, o, LinkedClauses(clauses, tail), phase)
    && 0 < After(tail) && o + |LinkedClauses(clauses, tail)| - 1 + After(tail) <= |code|
  }

  lemma {:induction false} RestIsPlaced(code: seq<Op>, o: nat, clauses: seq<Clause>, tail: Instr, phase: Phase,
                                        input: Input)
    requires |clauses| > 1 && Placed(code, o, clauses, tail, phase, input)
    ensures var rest := LinkedClauses(clauses[1..], tail);
      At(code, o, LinkedTests(clauses[0].tests, Logical(Always, And, clauses[0].negated, |rest| + After(tail))), phase)
    ensures Placed(code, o + |clauses[0].tests|, clauses[1..], tail, phase, input)
    ensures |LinkedClauses(clauses, tail)| == |clauses[0].tests| + |LinkedClauses(clauses[1..], tail)|
  {
    var c, rest := clauses[0], LinkedClauses(clauses[1..], tail);
    AtParts(code, o, LinkedTests(c.tests, Logical(Always, And, c.negated, |rest| + After(tail))), rest, phase);
  }

  // The first of several clauses: a miss leaves the rule, otherwise the rest runs.
  ghost predicate FirstRuns(code: seq<Op>, o: nat, at: nat, next: nat, tail: Instr, value: Truth, m: Machine,
                            input: Input)
    requires o <= next <= at && at + After(tail) <= |code|
  {
    Ends(code, o, m, input) ==
      if value == MISS then Ends(code, at + After(tail), m.(ruleUnknown := false), input)
      else Ends(code, next, m.(ruleUnknown := m.ruleUnknown || value == UNKNOWN), input)
  }

  lemma {:induction false} RunFirstClause(code: seq<Op>, o: nat, clauses: seq<Clause>, tail: Instr, phase: Phase,
                                          m: Machine, input: Input)
    requires |clauses| > 1 && Placed(code, o, clauses, tail, phase, input) && m.subrule == MISS
    ensures Placed(code, o + |clauses[0].tests|, clauses[1..], tail, phase, input)
    ensures |LinkedClauses(clauses, tail)| == |clauses[0].tests| + |LinkedClauses(clauses[1..], tail)|
    ensures FirstRuns(code, o, o + |LinkedClauses(clauses, tail)| - 1, o + |clauses[0].tests|, tail,
                      ClauseValue(clauses[0], input), m, input)
  {
    var c, distance := clauses[0], |LinkedClauses(clauses[1..], tail)| + After(tail);
    RestIsPlaced(code, o, clauses, tail, phase, input);
    RunTests(code, o, c.tests, Logical(Always, And, c.negated, distance), phase, m, input);
    AndClause(code, o + |c.tests| - 1, c, distance, m, input);
  }

  lemma {:induction false} RunMoreClauses(code: seq<Op>, o: nat, at: nat, next: nat, tail: Instr, value: Truth,
                                          rest: Truth,
                                          m: Machine, input: Input)
    requires o <= next <= at && 0 < After(tail) && at + After(tail) <= |code| && !Linking(tail)
    requires FirstRuns(code, o, at, next, tail, value, m, input)
    requires Concludes(code, next, at, tail, rest, m.(ruleUnknown := m.ruleUnknown || value == UNKNOWN), input)
    ensures Concludes(code, o, at, tail, Smaller(value, rest), m, input)
  {
    if value != MISS {
      AfterMore(code, at, tail, value, rest, m, input);
    }
  }

  lemma {:induction false} RunOnlyClause(code: seq<Op>, o: nat, clauses: seq<Clause>, tail: Instr, phase: Phase,
                                         m: Machine, input: Input)
    requires |clauses| == 1 && Placed(code, o, clauses, tail, phase, input) && m.subrule == MISS
    ensures Concludes(code, o, o + |LinkedClauses(clauses, tail)| - 1, tail, AllOf(clauses, input), m, input)
  {
    var c := clauses[0];
    assert clauses[1..] == [];
    RunTests(code, o, c.tests, tail.(negated := c.negated), phase, m, input);
    LastClause(code, o + |c.tests| - 1, tail, c, m, input);
  }

  // A rule reaches its tail with the AND of its clauses.
  lemma {:induction false} RunClauses(code: seq<Op>, o: nat, clauses: seq<Clause>, tail: Instr, phase: Phase,
                                      m: Machine, input: Input)
    requires Placed(code, o, clauses, tail, phase, input) && m.subrule == MISS
    ensures Concludes(code, o, o + |LinkedClauses(clauses, tail)| - 1, tail, AllOf(clauses, input), m, input)
    decreases |clauses|
  {
    var c := clauses[0];
    if |clauses| == 1 {
      RunOnlyClause(code, o, clauses, tail, phase, m, input);
    } else {
      RunFirstClause(code, o, clauses, tail, phase, m, input);
      RunClauses(code, o + |c.tests|, clauses[1..], tail, phase,
                 m.(ruleUnknown := m.ruleUnknown || ClauseValue(c, input) == UNKNOWN), input);
      RunMoreClauses(code, o, o + |LinkedClauses(clauses, tail)| - 1, o + |c.tests|, tail,
                     ClauseValue(c, input), AllOf(clauses[1..], input), m, input);
    }
  }

  // The machine's actions are the reference effects.
  lemma {:induction false} PerformIsApply(effect: Effect, unknown: bool, f: Flow, input: Input)
    ensures Perform(TailOf(effect), unknown, f, input)
         == Apply(effect, if unknown then UNKNOWN else MATCH, f, input)
  {
    match effect {
      case CaptureFor(flags) =>
        var all := f.captures + flags;
        if Destination in all {
          assert Destination in {Destination, HttpRequest} * all;
        } else if HttpRequest in all {
          assert HttpRequest in {Destination, HttpRequest} * all;
        } else {
          assert {Destination, HttpRequest} * all == {};
        }
      case RouteTo(_, _, _, _, _) =>
        assert f.captures + {} == f.captures;
      case _ =>
    }
  }

  // Under a missed condition no reached rule can act.
  lemma {:induction false} ExecMissed(guard: seq<Clause>, nodes: seq<Node>, f: Flow, input: Input)
    requires AllOf(guard, input) == MISS
    ensures Exec(Inline(guard, nodes), f, input) == Continue(f)
    decreases nodes
  {
    if nodes != [] {
      match nodes[0] {
        case Leaf(rule) =>
          AllOfConcat(guard, rule.clauses, input);
          var head := Rule(guard + rule.clauses, rule.effect);
          assert ([head] + Inline(guard, nodes[1..]))[1..] == Inline(guard, nodes[1..]);
        case Scope(condition, body) =>
          AllOfConcat(guard, condition, input);
          ExecMissed(guard + condition, body, f, input);
          ExecConcat(Inline(guard + condition, body), Inline(guard, nodes[1..]), f, input);
      }
      ExecMissed(guard, nodes[1..], f, input);
    }
  }

  function ExecNode(guard: seq<Clause>, node: Node, f: Flow, input: Input): Progress {
    match node
    case Leaf(rule) => ExecRule(Rule(guard + rule.clauses, rule.effect), f, input)
    case Scope(condition, body) => Exec(Inline(guard + condition, body), f, input)
  }

  lemma {:induction false} ExecNodes(guard: seq<Clause>, nodes: seq<Node>, f: Flow, input: Input)
    requires nodes != []
    ensures Exec(Inline(guard, nodes), f, input) ==
      match ExecNode(guard, nodes[0], f, input)
      case Done(value) => Done(value)
      case Continue(next) => Exec(Inline(guard, nodes[1..]), next, input)
  {
    match nodes[0]
    case Leaf(rule) =>
      var head := Rule(guard + rule.clauses, rule.effect);
      ExecConcat([head], Inline(guard, nodes[1..]), f, input);
      ExecOne(head, f, input);
    case Scope(condition, body) =>
      ExecConcat(Inline(guard + condition, body), Inline(guard, nodes[1..]), f, input);
  }

  lemma {:induction false} ExecOne(rule: Rule, f: Flow, input: Input)
    ensures Exec([rule], f, input) == ExecRule(rule, f, input)
  {
    assert [rule][1..] == [];
  }

  // Everything in [o, end) is uncertain, or nothing is.
  ghost predicate Covers(until: nat, guard: Truth, o: nat, end: nat) {
    if guard == UNKNOWN then end <= until else until <= o
  }

  // How a block may move the boundary: not at all inside an uncertain scope,
  // and never past its own end otherwise.
  ghost predicate Settles(before: nat, after: nat, guard: Truth, end: nat) {
    if guard == UNKNOWN then after == before else before <= after <= end
  }

  ghost predicate Simulates(code: seq<Op>, o: nat, end: nat, f: Flow, until: nat, until': nat, p: Progress,
                            input: Input)
    requires o <= end <= |code|
  {
    match p
    case Done(value) => Ends(code, o, Load(f, until), input) == Decided(value)
    case Continue(next) => Ends(code, o, Load(f, until), input) == Ends(code, end, Load(next, until'), input)
  }

  ghost predicate Moves(code: seq<Op>, o: nat, end: nat, guard: Truth, f: Flow, until: nat, until': nat, p: Progress,
                        input: Input)
    requires o <= end <= |code|
  {
    Settles(until, until', guard, end) && Simulates(code, o, end, f, until, until', p, input)
  }

  lemma {:induction false} LeafAction(code: seq<Op>, at: nat, effect: Effect, value: Truth, guard: Truth, f: Flow,
                                      until: nat, input: Input)
    requires at < |code| && value != MISS && guard != MISS && Covers(until, guard, at, at + 1)
    ensures AfterClauses(code, at, TailOf(effect), value, Load(f, until), input) ==
      match Apply(effect, Smaller(guard, value), f, input)
      case Done(result) => Decided(result)
      case Continue(next) => Ends(code, at + 1, Load(next, until), input)
  {
    var m := Load(f, until).(ruleUnknown := value == UNKNOWN);
    PerformIsApply(effect, m.ruleUnknown || at < until, f, input);
  }

  lemma {:induction false} RunLeaf(code: seq<Op>, o: nat, rule: Rule, phase: Phase, guard: seq<Clause>, f: Flow,
                                   until: nat, input: Input)
    requires Formed(Leaf(rule)) && Executes(phase, input)
    requires At(code, o, LinkedNode(Leaf(rule)), phase)
    requires AllOf(guard, input) != MISS
    requires Covers(until, AllOf(guard, input), o, o + |LinkedNode(Leaf(rule))|)
    ensures Simulates(code, o, o + |LinkedNode(Leaf(rule))|, f, until, until,
                      ExecRule(Rule(guard + rule.clauses, rule.effect), f, input), input)
  {
    var tail, at := TailOf(rule.effect), o + |LinkedNode(Leaf(rule))| - 1;
    AllOfConcat(guard, rule.clauses, input);
    RunClauses(code, o, rule.clauses, tail, phase, Load(f, until), input);
    if AllOf(rule.clauses, input) != MISS {
      LeafAction(code, at, rule.effect, AllOf(rule.clauses, input), AllOf(guard, input), f, until, input);
    }
  }

  // The boundary after a condition held or may hold.
  function Entered(until: nat, guard: Truth, value: Truth, end: nat): nat {
    if value == UNKNOWN && guard == MATCH then end else until
  }

  lemma {:induction false} EnterScope(code: seq<Op>, o: nat, condition: seq<Clause>, bodyLength: nat, phase: Phase,
                   guard: Truth, f: Flow, until: nat, input: Input)
    requires condition != [] && ClausesFormed(condition) && Executes(phase, input) && guard != MISS && bodyLength > 0
    requires At(code, o, LinkedClauses(condition, JumpTail(bodyLength)), phase)
    requires o + |LinkedClauses(condition, JumpTail(bodyLength))| + bodyLength <= |code|
    requires Covers(until, guard, o, o + |LinkedClauses(condition, JumpTail(bodyLength))| + bodyLength)
    ensures Ends(code, o, Load(f, until), input) == EnteredRun(code, o, condition, bodyLength, guard, f, until, input)
  {
    var tail := JumpTail(bodyLength);
    var m, at := Load(f, until), o + |LinkedClauses(condition, tail)| - 1;
    RunClauses(code, o, condition, tail, phase, m, input);
    var value := AllOf(condition, input);
    if value != MISS {
      assert Terminal(tail, at, |code|, m.(ruleUnknown := value == UNKNOWN), input)
          == Goto(1, Load(f, Entered(until, guard, value, at + tail.mark)));
    }
  }

  ghost function EnteredRun(code: seq<Op>, o: nat, condition: seq<Clause>, bodyLength: nat,
                            guard: Truth, f: Flow, until: nat, input: Input): Outcome
    requires condition != [] && ClausesFormed(condition)
    requires o + |LinkedClauses(condition, JumpTail(bodyLength))| + bodyLength <= |code|
  {
    var body := o + |LinkedClauses(condition, JumpTail(bodyLength))|;
    var value := AllOf(condition, input);
    if value == MISS then Ends(code, body + bodyLength, Load(f, until), input)
    else Ends(code, body, Load(f, Entered(until, guard, value, body + bodyLength)), input)
  }

  lemma {:induction false} ScopeMoves(code: seq<Op>, o: nat, start: nat, end: nat, outer: Truth, value: Truth,
                                      f: Flow, until: nat, until': nat, p: Progress, input: Input)
    requires o <= start <= end <= |code| && outer != MISS && value != MISS && Covers(until, outer, o, end)
    requires Ends(code, o, Load(f, until), input)
      == Ends(code, start, Load(f, Entered(until, outer, value, end)), input)
    requires Moves(code, start, end, Smaller(outer, value), f, Entered(until, outer, value, end), until', p, input)
    ensures Moves(code, o, end, outer, f, until, until', p, input)
  {
  }

  lemma {:induction false} ScopeMissed(code: seq<Op>, o: nat, end: nat, outer: Truth, guard: seq<Clause>,
                                       body: seq<Node>,
                                       f: Flow, until: nat, input: Input)
    requires o <= end <= |code| && AllOf(guard, input) == MISS && Covers(until, outer, o, end)
    requires Ends(code, o, Load(f, until), input) == Ends(code, end, Load(f, until), input)
    ensures Moves(code, o, end, outer, f, until, until, Exec(Inline(guard, body), f, input), input)
  {
    ExecMissed(guard, body, f, input);
  }

  lemma {:induction false} RunScope(code: seq<Op>, o: nat, condition: seq<Clause>, body: seq<Node>, phase: Phase,
                                    start: nat, end: nat, guard: seq<Clause>, f: Flow, until: nat, input: Input)
    returns (until': nat)
    requires condition != [] && ClausesFormed(condition) && NodesFormed(body) && Executes(phase, input)
    requires start < end && end == start + |LinkedNodes(body)| && At(code, start, LinkedNodes(body), phase)
    requires AllOf(guard, input) != MISS && AllOf(condition, input) != MISS
    requires o <= start && Covers(until, AllOf(guard, input), o, end)
    requires Ends(code, o, Load(f, until), input)
          == Ends(code, start, Load(f, Entered(until, AllOf(guard, input), AllOf(condition, input), end)), input)
    ensures Moves(code, o, end, AllOf(guard, input), f, until, until',
                  Exec(Inline(guard + condition, body), f, input), input)
    decreases body, 2
  {
    var outer, value := AllOf(guard, input), AllOf(condition, input);
    AllOfConcat(guard, condition, input);
    until' := RunNodes(code, start, body, phase, guard + condition, f, Entered(until, outer, value, end), input);
    ScopeMoves(code, o, start, end, outer, value, f, until, until', Exec(Inline(guard + condition, body), f, input),
               input);
  }

  lemma {:induction false} ScopeSplit(code: seq<Op>, o: nat, condition: seq<Clause>, body: seq<Node>, phase: Phase)
    requires condition != [] && Formed(Scope(condition, body)) && LinkedNodes(body) != []
    requires At(code, o, LinkedNode(Scope(condition, body)), phase)
    ensures var entry := LinkedClauses(condition, JumpTail(|LinkedNodes(body)|));
      && At(code, o, entry, phase) && At(code, o + |entry|, LinkedNodes(body), phase)
      && |LinkedNode(Scope(condition, body))| == |entry| + |LinkedNodes(body)|
  {
    AtParts(code, o, LinkedClauses(condition, JumpTail(|LinkedNodes(body)|)), LinkedNodes(body), phase);
  }

  lemma {:induction false} RunConditional(code: seq<Op>, o: nat, end: nat, condition: seq<Clause>, body: seq<Node>,
                                          phase: Phase,
                                          guard: seq<Clause>, f: Flow, until: nat, input: Input) returns (until': nat)
    requires condition != [] && Formed(Scope(condition, body)) && LinkedNodes(body) != []
    requires Executes(phase, input) && At(code, o, LinkedNode(Scope(condition, body)), phase)
    requires AllOf(guard, input) != MISS && end == o + |LinkedNode(Scope(condition, body))|
    requires Covers(until, AllOf(guard, input), o, end)
    ensures Moves(code, o, end, AllOf(guard, input), f, until, until', Exec(Inline(guard + condition, body), f, input),
                  input)
    decreases body, 3
  {
    var part, outer := LinkedNodes(body), AllOf(guard, input);
    var start := o + |LinkedClauses(condition, JumpTail(|part|))|;
    ScopeSplit(code, o, condition, body, phase);
    EnterScope(code, o, condition, |part|, phase, outer, f, until, input);
    if AllOf(condition, input) == MISS {
      until' := until;
      AllOfConcat(guard, condition, input);
      ScopeMissed(code, o, end, outer, guard + condition, body, f, until, input);
    } else {
      until' := RunScope(code, o, condition, body, phase, start, end, guard, f, until, input);
    }
  }

  // One node, from its first instruction to behind its last.
  ghost predicate NodeMoves(code: seq<Op>, o: nat, node: Node, guard: seq<Clause>, f: Flow, until: nat, until': nat,
                            input: Input)
    requires Formed(node) && o + |LinkedNode(node)| <= |code|
  {
    Moves(code, o, o + |LinkedNode(node)|, AllOf(guard, input), f, until, until', ExecNode(guard, node, f, input),
          input)
  }

  // The node's code lies at o under a guard that holds or may hold.
  ghost predicate NodePlaced(code: seq<Op>, o: nat, node: Node, phase: Phase, guard: seq<Clause>, until: nat,
                             input: Input)
  {
    && Formed(node) && Executes(phase, input) && At(code, o, LinkedNode(node), phase)
    && AllOf(guard, input) != MISS && Covers(until, AllOf(guard, input), o, o + |LinkedNode(node)|)
  }

  lemma {:induction false} LeafMoves(code: seq<Op>, o: nat, rule: Rule, phase: Phase, guard: seq<Clause>, f: Flow,
                                     until: nat, input: Input)
    requires NodePlaced(code, o, Leaf(rule), phase, guard, until, input)
    ensures NodeMoves(code, o, Leaf(rule), guard, f, until, until, input)
  {
    RunLeaf(code, o, rule, phase, guard, f, until, input);
  }

  lemma {:induction false} EmptyMoves(code: seq<Op>, o: nat, condition: seq<Clause>, body: seq<Node>, phase: Phase,
                                      guard: seq<Clause>, f: Flow, until: nat, input: Input)
    requires NodePlaced(code, o, Scope(condition, body), phase, guard, until, input) && LinkedNodes(body) == []
    ensures NodeMoves(code, o, Scope(condition, body), guard, f, until, until, input)
  {
    EncodeNodes(body);
    EmptyEmission(guard + condition, body);
  }

  lemma {:induction false} PlainMoves(code: seq<Op>, o: nat, body: seq<Node>, guard: seq<Clause>, f: Flow, until: nat,
                                      until': nat, input: Input)
    requires Formed(Scope([], body)) && o + |LinkedNodes(body)| <= |code|
    requires NodesMove(code, o, body, guard, f, until, until', input)
    ensures NodeMoves(code, o, Scope([], body), guard, f, until, until', input)
  {
    assert guard + [] == guard;
  }

  lemma {:induction false} ConditionalMoves(code: seq<Op>, o: nat, condition: seq<Clause>, body: seq<Node>,
                                            guard: seq<Clause>, f: Flow, until: nat, until': nat, input: Input)
    requires Formed(Scope(condition, body)) && o + |LinkedNode(Scope(condition, body))| <= |code|
    requires Moves(code, o, o + |LinkedNode(Scope(condition, body))|, AllOf(guard, input), f, until, until',
                   Exec(Inline(guard + condition, body), f, input), input)
    ensures NodeMoves(code, o, Scope(condition, body), guard, f, until, until', input)
  {
  }

  lemma {:induction false} RunNode(code: seq<Op>, o: nat, node: Node, phase: Phase, guard: seq<Clause>,
                                   f: Flow, until: nat, input: Input) returns (until': nat)
    requires NodePlaced(code, o, node, phase, guard, until, input)
    ensures NodeMoves(code, o, node, guard, f, until, until', input)
    decreases node, 0
  {
    match node
    case Leaf(rule) =>
      until' := until;
      LeafMoves(code, o, rule, phase, guard, f, until, input);
    case Scope(condition, body) =>
      if LinkedNodes(body) == [] {
        until' := until;
        EmptyMoves(code, o, condition, body, phase, guard, f, until, input);
      } else if condition == [] {
        until' := RunNodes(code, o, body, phase, guard, f, until, input);
        PlainMoves(code, o, body, guard, f, until, until', input);
      } else {
        until' := RunConditional(code, o, o + |LinkedNode(node)|, condition, body, phase, guard, f, until, input);
        ConditionalMoves(code, o, condition, body, guard, f, until, until', input);
      }
  }

  ghost predicate NodesMove(code: seq<Op>, o: nat, nodes: seq<Node>, guard: seq<Clause>, f: Flow, until: nat,
                            until': nat, input: Input)
    requires NodesFormed(nodes) && o + |LinkedNodes(nodes)| <= |code|
  {
    Moves(code, o, o + |LinkedNodes(nodes)|, AllOf(guard, input), f, until, until',
          Exec(Inline(guard, nodes), f, input), input)
  }

  ghost predicate NodesPlaced(code: seq<Op>, o: nat, nodes: seq<Node>, phase: Phase, guard: seq<Clause>, until: nat,
                              input: Input)
  {
    && NodesFormed(nodes) && Executes(phase, input) && At(code, o, LinkedNodes(nodes), phase)
    && AllOf(guard, input) != MISS && Covers(until, AllOf(guard, input), o, o + |LinkedNodes(nodes)|)
  }

  lemma {:induction false} FirstPlaced(code: seq<Op>, o: nat, nodes: seq<Node>, phase: Phase, guard: seq<Clause>,
                                       until: nat, input: Input)
    requires nodes != [] && NodesPlaced(code, o, nodes, phase, guard, until, input)
    ensures NodePlaced(code, o, nodes[0], phase, guard, until, input)
    ensures o + |LinkedNode(nodes[0])| + |LinkedNodes(nodes[1..])| == o + |LinkedNodes(nodes)| <= |code|
  {
    NodesSplit(code, o, nodes, phase);
  }

  lemma {:induction false} RestPlaced(code: seq<Op>, o: nat, nodes: seq<Node>, phase: Phase, guard: seq<Clause>,
                                      f: Flow, until: nat, settled: nat, input: Input)
    requires nodes != [] && NodesPlaced(code, o, nodes, phase, guard, until, input)
      && o + |LinkedNode(nodes[0])| <= |code|
    requires NodeMoves(code, o, nodes[0], guard, f, until, settled, input)
    ensures NodesPlaced(code, o + |LinkedNode(nodes[0])|, nodes[1..], phase, guard, settled, input)
  {
    NodesSplit(code, o, nodes, phase);
  }

  lemma {:induction false} StoppedMoves(code: seq<Op>, o: nat, nodes: seq<Node>, phase: Phase, guard: seq<Clause>,
                                        f: Flow, until: nat, settled: nat, input: Input)
    requires nodes != [] && NodesPlaced(code, o, nodes, phase, guard, until, input)
      && o + |LinkedNode(nodes[0])| <= |code|
    requires NodeMoves(code, o, nodes[0], guard, f, until, settled, input) && ExecNode(guard, nodes[0], f, input).Done?
    ensures NodesMove(code, o, nodes, guard, f, until, until, input)
  {
    NodesSplit(code, o, nodes, phase);
    ExecNodes(guard, nodes, f, input);
    DoneMoves(code, o, o + |LinkedNode(nodes[0])|, o + |LinkedNodes(nodes)|, AllOf(guard, input), f, until, settled,
              ExecNode(guard, nodes[0], f, input).value, input);
  }

  lemma {:induction false} ContinuedMoves(code: seq<Op>, o: nat, nodes: seq<Node>, phase: Phase, guard: seq<Clause>,
                                          f: Flow, until: nat, settled: nat, until': nat, input: Input)
    requires nodes != [] && NodesPlaced(code, o, nodes, phase, guard, until, input)
    requires o + |LinkedNode(nodes[0])| + |LinkedNodes(nodes[1..])| <= |code|
    requires NodeMoves(code, o, nodes[0], guard, f, until, settled, input)
      && ExecNode(guard, nodes[0], f, input).Continue?
    requires NodesMove(code, o + |LinkedNode(nodes[0])|, nodes[1..], guard, ExecNode(guard, nodes[0], f, input).flow,
                       settled, until', input)
    ensures NodesMove(code, o, nodes, guard, f, until, until', input)
  {
    var next := ExecNode(guard, nodes[0], f, input).flow;
    NodesSplit(code, o, nodes, phase);
    ExecNodes(guard, nodes, f, input);
    ChainMoves(code, o, o + |LinkedNode(nodes[0])|, o + |LinkedNodes(nodes)|, AllOf(guard, input), f, until, next,
               settled, until',
               Exec(Inline(guard, nodes[1..]), next, input), input);
  }

  lemma {:induction false} NoNodesMove(code: seq<Op>, o: nat, phase: Phase, guard: seq<Clause>, f: Flow, until: nat,
                                       input: Input)
    requires NodesPlaced(code, o, [], phase, guard, until, input)
    ensures NodesMove(code, o, [], guard, f, until, until, input)
  {
  }

  lemma {:induction false} RunNodes(code: seq<Op>, o: nat, nodes: seq<Node>, phase: Phase, guard: seq<Clause>,
                                    f: Flow, until: nat, input: Input) returns (until': nat)
    requires NodesPlaced(code, o, nodes, phase, guard, until, input)
    ensures NodesMove(code, o, nodes, guard, f, until, until', input)
    decreases nodes, 1
  {
    if nodes == [] {
      until' := until;
      NoNodesMove(code, o, phase, guard, f, until, input);
    } else {
      FirstPlaced(code, o, nodes, phase, guard, until, input);
      var settled := RunNode(code, o, nodes[0], phase, guard, f, until, input);
      match ExecNode(guard, nodes[0], f, input)
      case Done(_) =>
        until' := until;
        StoppedMoves(code, o, nodes, phase, guard, f, until, settled, input);
      case Continue(next) =>
        RestPlaced(code, o, nodes, phase, guard, f, until, settled, input);
        until' := RunNodes(code, o + |LinkedNode(nodes[0])|, nodes[1..], phase, guard, next, settled, input);
        ContinuedMoves(code, o, nodes, phase, guard, f, until, settled, until', input);
    }
  }

  lemma {:induction false} NodesSplit(code: seq<Op>, o: nat, nodes: seq<Node>, phase: Phase)
    requires nodes != [] && NodesFormed(nodes) && At(code, o, LinkedNodes(nodes), phase)
    ensures At(code, o, LinkedNode(nodes[0]), phase)
    ensures At(code, o + |LinkedNode(nodes[0])|, LinkedNodes(nodes[1..]), phase)
    ensures |LinkedNodes(nodes)| == |LinkedNode(nodes[0])| + |LinkedNodes(nodes[1..])|
  {
    AtParts(code, o, LinkedNode(nodes[0]), LinkedNodes(nodes[1..]), phase);
  }

  lemma {:induction false} DoneMoves(code: seq<Op>, o: nat, mid: nat, end: nat, guard: Truth, f: Flow, until: nat,
                                     settled: nat,
                                     value: Evaluation, input: Input)
    requires o <= mid <= end <= |code| && Moves(code, o, mid, guard, f, until, settled, Done(value), input)
      && Covers(until, guard, o, end)
    ensures Moves(code, o, end, guard, f, until, until, Done(value), input)
  {
  }

  // A block that goes on, followed by another.
  lemma {:induction false} ChainMoves(code: seq<Op>, o: nat, mid: nat, end: nat, guard: Truth, f: Flow, until: nat,
                                      next: Flow, settled: nat, until': nat, p: Progress, input: Input)
    requires o <= mid <= end <= |code|
    requires Moves(code, o, mid, guard, f, until, settled, Continue(next), input)
    requires Moves(code, mid, end, guard, next, settled, until', p, input)
    ensures Moves(code, o, end, guard, f, until, until', p, input)
  {
  }

  // A program is a sequence of blocks, each in one phase and outside any scope.
  datatype Segment = Segment(phase: Phase, nodes: seq<Node>)

  ghost predicate SegmentsFormed(segments: seq<Segment>) {
    forall i :: 0 <= i < |segments| ==> NodesFormed(segments[i].nodes)
  }

  function ProgramCode(segments: seq<Segment>): seq<Op>
    requires SegmentsFormed(segments)
  {
    if segments == [] then [] else Tag(LinkedNodes(segments[0].nodes), segments[0].phase) + ProgramCode(segments[1..])
  }

  // The rules that take part: after target selection the ingress phase is over.
  function ProgramRules(segments: seq<Segment>, afterTarget: bool): seq<Rule> {
    if segments == [] then []
    else if afterTarget && segments[0].phase == IngressPhase then ProgramRules(segments[1..], afterTarget)
    else Inline([], segments[0].nodes) + ProgramRules(segments[1..], afterTarget)
  }

  function Settled(p: Progress): Outcome {
    match p
    case Done(value) => Decided(value)
    case Continue(_) => Failed(NoMatchSetHit)
  }

  lemma {:induction false} RunSegment(before: seq<Op>, segment: Segment, after: seq<Op>, f: Flow, until: nat,
                                      input: Input)
    returns (until': nat)
    requires NodesFormed(segment.nodes) && until <= |before|
    ensures var ops := Tag(LinkedNodes(segment.nodes), segment.phase);
            var code, end := before + ops + after, |before| + |ops|;
            && until' <= end
            && Ends(code, |before|, Load(f, until), input) ==
                 if !Executes(segment.phase, input) then Ends(code, end, Load(f, until'), input)
                 else match Exec(Inline([], segment.nodes), f, input)
                   case Done(value) => Decided(value)
                   case Continue(next) => Ends(code, end, Load(next, until'), input)
  {
    var ops := Tag(LinkedNodes(segment.nodes), segment.phase);
    var code := before + ops + after;
    assert forall k :: 0 <= k < |ops| ==> code[|before| + k] == ops[k];
    if !Executes(segment.phase, input) {
      RunSkipsIngress(code, |before|, |before| + |ops|, Load(f, until), input);
      until' := until;
    } else {
      until' := RunNodes(code, |before|, segment.nodes, segment.phase, [], f, until, input);
    }
  }

  // What the rest of a program decides, from its rules and from its code.
  ghost function Decision(segments: seq<Segment>, f: Flow, input: Input): Outcome {
    Settled(Exec(ProgramRules(segments, input.afterTarget), f, input))
  }

  ghost function Runs(before: seq<Op>, segments: seq<Segment>, f: Flow, until: nat, input: Input): Outcome
    requires SegmentsFormed(segments)
  {
    Ends(before + ProgramCode(segments), |before|, Load(f, until), input)
  }

  lemma {:induction false} DecisionStep(segments: seq<Segment>, f: Flow, input: Input)
    requires segments != []
    ensures Decision(segments, f, input) ==
      if !Executes(segments[0].phase, input) then Decision(segments[1..], f, input)
      else match Exec(Inline([], segments[0].nodes), f, input)
        case Done(value) => Decided(value)
        case Continue(next) => Decision(segments[1..], next, input)
  {
    ExecConcat(Inline([], segments[0].nodes), ProgramRules(segments[1..], input.afterTarget), f, input);
  }

  lemma {:induction false} RunsStep(before: seq<Op>, segments: seq<Segment>, f: Flow, until: nat, input: Input)
    returns (until': nat)
    requires SegmentsFormed(segments) && segments != [] && until <= |before|
    ensures var after := before + Tag(LinkedNodes(segments[0].nodes), segments[0].phase);
      && until' <= |after|
      && Runs(before, segments, f, until, input) ==
           if !Executes(segments[0].phase, input) then Runs(after, segments[1..], f, until', input)
           else match Exec(Inline([], segments[0].nodes), f, input)
             case Done(value) => Decided(value)
             case Continue(next) => Runs(after, segments[1..], next, until', input)
  {
    var ops := Tag(LinkedNodes(segments[0].nodes), segments[0].phase);
    assert before + ProgramCode(segments) == before + ops + ProgramCode(segments[1..]);
    until' := RunSegment(before, segments[0], ProgramCode(segments[1..]), f, until, input);
  }

  lemma {:induction false} RunSegments(before: seq<Op>, segments: seq<Segment>, f: Flow, until: nat, input: Input)
    requires SegmentsFormed(segments) && until <= |before|
    ensures Runs(before, segments, f, until, input) == Decision(segments, f, input)
    decreases |segments|
  {
    if segments != [] {
      var after := before + Tag(LinkedNodes(segments[0].nodes), segments[0].phase);
      DecisionStep(segments, f, input);
      var until' := RunsStep(before, segments, f, until, input);
      if !Executes(segments[0].phase, input) {
        RunSegments(after, segments[1..], f, until', input);
      } else {
        match Exec(Inline([], segments[0].nodes), f, input)
        case Done(_) =>
        case Continue(next) => RunSegments(after, segments[1..], next, until', input);
      }
    }
  }

  // Running a program decides what first-match evaluation of its rules decides.
  lemma {:induction false} RunProgram(segments: seq<Segment>, input: Input)
    requires SegmentsFormed(segments)
    ensures Run(ProgramCode(segments), 0, START, input)
         == Settled(Exec(ProgramRules(segments, input.afterTarget), NO_FLOW, input))
  {
    RunSegments([], segments, NO_FLOW, 0, input);
    assert [] + ProgramCode(segments) == ProgramCode(segments);
  }
}
