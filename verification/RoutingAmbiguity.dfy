/** Definite answers under the folded bitmaps of an address hold for every name
    folded into it. */
module RoutingAmbiguity {
  import opened RoutingInstructions
  import opened RoutingRules

  // name is an exact input for one of the names behind folded's bitmaps:
  // routing (AND) <= the name's bitmap <= bump (OR), other inputs equal. The
  // exact evaluation may run in userspace.
  predicate NameOf(name: Input, folded: Input) {
    && name.bump.None?
    && folded.routing <= name.routing
    && name.routing <= folded.routing + (if folded.bump.Some? then folded.bump.value else {})
    && name.facts == folded.facts
    && name.dnsPort == folded.dnsPort
    && name.down == folded.down
    && name.valid == folded.valid
    && name.afterTarget == folded.afterTarget
    && (name.kernel ==> folded.kernel || folded.bump.Some?)
  }

  // A definite folded answer is the exact one.
  predicate Approximates(folded: Truth, exact: Truth) {
    exact != UNKNOWN && (folded == UNKNOWN || folded == exact)
  }

  lemma {:induction false} AnyOfApproximates(tests: seq<Predicate>, folded: Input, name: Input)
    requires NameOf(name, folded)
    ensures Approximates(AnyOf(tests, folded), AnyOf(tests, name))
  {
    if tests != [] {
      AnyOfApproximates(tests[1..], folded, name);
    }
  }

  lemma {:induction false} AllOfApproximates(clauses: seq<Clause>, folded: Input, name: Input)
    requires NameOf(name, folded)
    ensures Approximates(AllOf(clauses, folded), AllOf(clauses, name))
  {
    if clauses != [] {
      AnyOfApproximates(clauses[0].tests, folded, name);
      AllOfApproximates(clauses[1..], folded, name);
    }
  }

  // What the folded run accumulated covers what the exact run accumulated.
  predicate Covers(folded: Flow, exact: Flow) {
    && Approximates(folded.must, exact.must)
    && (exact.bump ==> folded.bump)
    && exact.captures <= folded.captures
  }

  predicate Unconditional(rule: Rule) {
    rule.clauses == [Clause(false, [Always])]
  }

  lemma {:induction false} UnconditionalMatches(rule: Rule, input: Input)
    requires Unconditional(rule)
    ensures AllOf(rule.clauses, input) == MATCH
  {
    assert rule.clauses[1..] == [];
    assert rule.clauses[0].tests[1..] == [];
    assert AnyOf(rule.clauses[0].tests, input) == MATCH;
  }

  // Every control that can force `must` is closed by a flow end before the next
  // route; only such programs decide with a settled `must`.
  predicate Closed(rules: seq<Rule>, open: bool) {
    rules == [] ||
    match rules[0].effect
    case ForceMust => Closed(rules[1..], true)
    case EndFlow => Unconditional(rules[0]) && Closed(rules[1..], false)
    case RouteTo(_, _, _, _, _) => !open && Closed(rules[1..], false)
    case Accept => false
    case Reject => false
    case _ => Closed(rules[1..], open)
  }

  predicate SameDecision(folded: Evaluation, exact: Evaluation) {
    && exact.outbound == folded.outbound
    && exact.mark == folded.mark
    && exact.must == folded.must
    && exact.matched == folded.matched
    && exact.captures <= folded.captures
  }

  // One rule: either both runs go on, covered, or both decide alike.
  lemma {:induction false} RuleApproximates(rule: Rule, open: bool, a: Flow, c: Flow, folded: Input, name: Input)
    requires NameOf(name, folded) && Covers(a, c) && (a.must == UNKNOWN ==> open)
    requires Closed([rule], open)
    ensures match ExecRule(rule, a, folded)
      case Done(e) => e.outbound != CONTROL_PLANE ==>
        ExecRule(rule, c, name).Done? && SameDecision(e, ExecRule(rule, c, name).value)
      case Continue(a') =>
        && ExecRule(rule, c, name).Continue? && Covers(a', ExecRule(rule, c, name).flow)
        && (a'.must == UNKNOWN ==> if rule.effect.ForceMust? then true else open && !rule.effect.EndFlow?)
  {
    AllOfApproximates(rule.clauses, folded, name);
    assert [rule][1..] == [];
    if Unconditional(rule) {
      UnconditionalMatches(rule, folded);
    }
  }

  lemma {:induction false} ExecApproximates(rules: seq<Rule>, open: bool, a: Flow, c: Flow, folded: Input, name: Input)
    requires NameOf(name, folded) && Covers(a, c) && (a.must == UNKNOWN ==> open)
    requires Closed(rules, open)
    requires Exec(rules, a, folded).Done? && Exec(rules, a, folded).value.outbound != CONTROL_PLANE
    ensures Exec(rules, c, name).Done? && SameDecision(Exec(rules, a, folded).value, Exec(rules, c, name).value)
  {
    var rule := rules[0];
    HeadClosed(rules, open);
    RuleApproximates(rule, open, a, c, folded, name);
    match ExecRule(rule, a, folded)
    case Done(_) =>
    case Continue(a') =>
      var open' := if rule.effect.ForceMust? then true else if rule.effect.EndFlow? || rule.effect.RouteTo? then false
        else open;
      ExecApproximates(rules[1..], open', a', ExecRule(rule, c, name).flow, folded, name);
  }

  lemma {:induction false} HeadClosed(rules: seq<Rule>, open: bool)
    requires rules != [] && Closed(rules, open)
    ensures Closed([rules[0]], open)
    ensures Closed(rules[1..], if rules[0].effect.ForceMust? then true
                               else if rules[0].effect.EndFlow? || rules[0].effect.RouteTo? then false else open)
  {
    assert [rules[0]][1..] == [];
  }
}
