/** Reference meaning of a policy: first match over a list of rules, where every
    `use` has been replaced by the rules it reaches and its condition has been
    ANDed, three-valued, into each of them. No jumps, spans or positions. */
module RoutingRules {
  import opened RoutingInstructions

  // A clause ORs its tests; a rule ANDs its clauses.
  datatype Clause = Clause(negated: bool, tests: seq<Predicate>)

  datatype Effect =
    | RouteTo(outbound: nat, mark: nat, must: bool, skipNoalive: bool, bypass: bool)
    | ForceMust
    | RequestBump
    | CaptureFor(flags: set<CaptureFlag>)
    | EndFlow
    | Accept
    | Reject

  datatype Rule = Rule(clauses: seq<Clause>, effect: Effect)

  // Rules and conditional uses as written, with references resolved.
  datatype Node = Leaf(rule: Rule) | Scope(condition: seq<Clause>, body: seq<Node>)

  function AnyOf(tests: seq<Predicate>, input: Input): Truth {
    if tests == [] then MISS else Larger(input.Test(tests[0]), AnyOf(tests[1..], input))
  }

  function ClauseValue(c: Clause, input: Input): Truth {
    if c.negated then Negate(AnyOf(c.tests, input)) else AnyOf(c.tests, input)
  }

  function AllOf(clauses: seq<Clause>, input: Input): Truth {
    if clauses == [] then MATCH else Smaller(ClauseValue(clauses[0], input), AllOf(clauses[1..], input))
  }

  // The rules reached under a guard, each with the guard ANDed in.
  function Inline(guard: seq<Clause>, nodes: seq<Node>): seq<Rule>
    decreases nodes
  {
    if nodes == [] then []
    else
      var first := match nodes[0]
        case Leaf(rule) => [Rule(guard + rule.clauses, rule.effect)]
        case Scope(condition, body) => Inline(guard + condition, body);
      first + Inline(guard, nodes[1..])
  }

  // value is at least UNKNOWN: the rule may hold.
  function Apply(effect: Effect, value: Truth, f: Flow, input: Input): Progress {
    match effect
    case ForceMust => Continue(f.(must := Larger(f.must, value)))
    case RequestBump => Continue(f.(bump := true))
    case CaptureFor(flags) =>
      if input.SimulatesKernel() && {Destination, HttpRequest} * (f.captures + flags) != {} then
        Done(ToControlPlane(false, f.captures + flags))
      else Continue(f.(captures := f.captures + flags))
    case EndFlow =>
      if f.must == UNKNOWN || (f.bump && input.SimulatesKernel()) then
        Done(ToControlPlane(f.must == MATCH, f.captures))
      else Continue(f)
    case Accept => Done(Evaluation(0, 0, false, {}, true))
    case Reject => Done(Evaluation(0, 0, false, {}, false))
    case RouteTo(outbound, mark, must, skipNoalive, bypass) =>
      if skipNoalive && outbound in input.down then Continue(f)
      else if value == UNKNOWN then Done(ToControlPlane(f.must == MATCH, f.captures))
      else Done(Evaluation(outbound, mark, must || f.must == MATCH,
                           f.captures + DnsCapture(must || f.must == MATCH || bypass, input), false))
  }

  function DnsCapture(exempt: bool, input: Input): set<CaptureFlag> {
    if input.dnsPort && !exempt && input.SimulatesKernel() then {Dns} else {}
  }

  function ExecRule(rule: Rule, f: Flow, input: Input): Progress {
    var value := AllOf(rule.clauses, input);
    if value == MISS then Continue(f) else Apply(rule.effect, value, f, input)
  }

  function Exec(rules: seq<Rule>, f: Flow, input: Input): Progress {
    if rules == [] then Continue(f)
    else
      match ExecRule(rules[0], f, input)
      case Done(value) => Done(value)
      case Continue(next) => Exec(rules[1..], next, input)
  }

  lemma {:induction false} ExecConcat(a: seq<Rule>, b: seq<Rule>, f: Flow, input: Input)
    ensures Exec(a + b, f, input) ==
      match Exec(a, f, input)
      case Done(value) => Done(value)
      case Continue(next) => Exec(b, next, input)
  {
    if a == [] {
      assert a + b == b;
    } else {
      assert (a + b)[1..] == a[1..] + b;
      match ExecRule(a[0], f, input)
      case Done(_) =>
      case Continue(next) => ExecConcat(a[1..], b, next, input);
    }
  }

  lemma {:induction false} AllOfConcat(a: seq<Clause>, b: seq<Clause>, input: Input)
    ensures AllOf(a + b, input) == Smaller(AllOf(a, input), AllOf(b, input))
  {
    if a == [] {
      assert a + b == b;
    } else {
      assert (a + b)[1..] == a[1..] + b;
      AllOfConcat(a[1..], b, input);
    }
  }

  lemma {:induction false} InlineConcat(guard: seq<Clause>, a: seq<Node>, b: seq<Node>)
    ensures Inline(guard, a + b) == Inline(guard, a) + Inline(guard, b)
  {
    if a == [] {
      assert a + b == b;
    } else {
      assert (a + b)[1..] == a[1..] + b;
      InlineConcat(guard, a[1..], b);
    }
  }
}
