/** What tests, clauses and rules say about a flow, in terms of the flow alone:
    when a condition certainly holds, and when it may hold for some of the names
    folded into the flow's destination. */
module RoutingMeaning {
  import opened Common
  import opened RoutingInstructions
  import opened RoutingRules

  // A fact of the flow, or of every name behind its address.
  predicate Holds(p: Predicate, input: Input) {
    match p
    case Always => true
    case Fact(id) => id in input.facts
    case Domain(id) => id in input.routing
  }

  // Of some name at least.
  predicate MayHold(p: Predicate, input: Input) {
    Holds(p, input) || (p.Domain? && input.bump.Some? && p.id in input.bump.value)
  }

  // One of the tests holds, or, negated, none can.
  predicate Certain(c: Clause, input: Input) {
    if c.negated then forall t <- c.tests :: !MayHold(t, input) else exists t <- c.tests :: Holds(t, input)
  }

  // One of the tests can hold, or, negated, none is sure to.
  predicate Possible(c: Clause, input: Input) {
    if c.negated then forall t <- c.tests :: !Holds(t, input) else exists t <- c.tests :: MayHold(t, input)
  }

  predicate Surely(filter: seq<Clause>, input: Input) {
    forall c <- filter :: Certain(c, input)
  }

  predicate Maybe(filter: seq<Clause>, input: Input) {
    forall c <- filter :: Possible(c, input)
  }

  lemma {:induction false} TestMeans(p: Predicate, input: Input)
    ensures input.Test(p) == MATCH <==> Holds(p, input)
    ensures input.Test(p) == MISS <==> !MayHold(p, input)
  {
  }

  lemma {:induction false} AnyOfMeans(tests: seq<Predicate>, input: Input)
    ensures AnyOf(tests, input) == MATCH <==> exists t <- tests :: Holds(t, input)
    ensures AnyOf(tests, input) == MISS <==> forall t <- tests :: !MayHold(t, input)
  {
    if tests != [] {
      assert tests == [tests[0]] + tests[1..];
      TestMeans(tests[0], input);
      AnyOfMeans(tests[1..], input);
    }
  }

  // The value of a clause, test by test.
  lemma {:induction false} ClauseMeans(c: Clause, input: Input)
    ensures ClauseValue(c, input) == MATCH <==> Certain(c, input)
    ensures ClauseValue(c, input) == MISS <==> !Possible(c, input)
  {
    AnyOfMeans(c.tests, input);
    assert forall t <- c.tests :: Holds(t, input) ==> MayHold(t, input);
  }

  // The value of a rule, clause by clause.
  lemma {:induction false} RuleMeans(filter: seq<Clause>, input: Input)
    ensures AllOf(filter, input) == MATCH <==> Surely(filter, input)
    ensures AllOf(filter, input) == MISS <==> !Maybe(filter, input)
  {
    if filter != [] {
      assert filter == [filter[0]] + filter[1..];
      ClauseMeans(filter[0], input);
      RuleMeans(filter[1..], input);
    }
  }

  // Without folded names there is no doubt, and negation is negation.
  lemma {:induction false} DefiniteMeans(filter: seq<Clause>, input: Input)
    requires input.bump.None?
    ensures Surely(filter, input) <==> forall c <- filter :: c.negated != exists t <- c.tests :: Holds(t, input)
    ensures Maybe(filter, input) <==> Surely(filter, input)
    ensures AllOf(filter, input) == if Surely(filter, input) then MATCH else MISS
  {
    assert forall c <- filter :: Certain(c, input) <==> c.negated != exists t <- c.tests :: Holds(t, input);
    assert forall c <- filter :: Possible(c, input) <==> Certain(c, input);
    RuleMeans(filter, input);
  }
}
