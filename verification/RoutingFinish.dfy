/** Destination programs behind the kernel pool, one linking pass, validation. */
module RoutingFinish {
  import opened RoutingInstructions
  import opened RoutingSpans
  import opened RoutingJumps
  import opened RoutingRules
  import opened RoutingEmission
  import opened RoutingSimulation
  import opened RoutingPolicies
  import opened RoutingDemand
  import opened RoutingBuilder
  import opened RoutingCompiler
  import opened RoutingProfiles
  import opened RoutingBlocks
  import opened RoutingShapes
  import opened RoutingStages

  // domain records that the filter tests the flow's name.
  datatype DestinationPredicate = DestinationPredicate(span: Span, rewrite: Rewrite, domain: bool)

  predicate UsesDomain(filter: seq<Clause>) {
    exists c <- filter :: exists t <- c.tests :: t.Domain?
  }

  datatype CompiledProfile = CompiledProfile(spans: seq<Span>, destinations: seq<DestinationPredicate>)

  // kernelEnd bounds the instructions uploaded to the kernel.
  datatype Matcher = Matcher(pool: seq<Instr>, kernelEnd: nat, profiles: seq<CompiledProfile>)

  // The exact predicate of one destination rule.
  function ExactProgram(filter: seq<Clause>): seq<Segment> {
    [Segment(RoutePhase, [Leaf(Rule(filter, Accept)), Leaf(Rule(ANY, Reject))])]
  }

  ghost predicate PredicateHolds(pool: seq<Instr>, p: DestinationPredicate, rule: DestinationRule) {
    p.rewrite == rule.rewrite && p.domain == UsesDomain(rule.filter)
      && Executing(pool, [p.span], ExactProgram(rule.filter))
  }

  ghost predicate PredicatesHold(pool: seq<Instr>, ps: seq<DestinationPredicate>, rules: seq<DestinationRule>) {
    |ps| == |rules| && forall k {:trigger PredicateHolds(pool, ps[k], rules[k])} ::
      0 <= k < |ps|
      ==> PredicateHolds(pool, ps[k], rules[k])
  }

  lemma {:induction false} PredicatesGrow(pool: seq<Instr>, grown: seq<Instr>, ps: seq<DestinationPredicate>,
                                          rules: seq<DestinationRule>)
    requires PredicatesHold(pool, ps, rules) && pool <= grown
    ensures PredicatesHold(grown, ps, rules)
  {
    forall k | 0 <= k < |ps|
      ensures PredicateHolds(grown, ps[k], rules[k])
    {
      assert PredicateHolds(pool, ps[k], rules[k]);
      ExecutingGrows(pool, grown, [ps[k].span], ExactProgram(rules[k].filter));
    }
  }

  lemma {:induction false} PredicatesConcat(pool: seq<Instr>, a: seq<DestinationPredicate>, x: seq<DestinationRule>,
                                            b: seq<DestinationPredicate>, y: seq<DestinationRule>)
    requires PredicatesHold(pool, a, x) && PredicatesHold(pool, b, y)
    ensures PredicatesHold(pool, a + b, x + y)
  {
    forall k | 0 <= k < |a + b|
      ensures PredicateHolds(pool, (a + b)[k], (x + y)[k])
    {
      if k < |a| {
        assert PredicateHolds(pool, a[k], x[k]);
      } else {
        assert PredicateHolds(pool, b[k - |a|], y[k - |a|]);
      }
    }
  }

  // Emitted code of one exact predicate: the filter, then an unconditional miss.
  lemma {:induction false} ExactEmission(pool: seq<Instr>, filter: seq<Clause>)
    requires filter != [] && ClausesFormed(filter)
    ensures var grown := pool + EmitClauses(filter, TailOf(Accept)) + [TailOf(Reject)];
      Executing(grown, [Span(|pool|, |grown|, RoutePhase, false)], ExactProgram(filter))
  {
    var grown := pool + EmitClauses(filter, TailOf(Accept)) + [TailOf(Reject)];
    var span := Span(|pool|, |grown|, RoutePhase, false);
    var accept, reject := Leaf(Rule(filter, Accept)), Leaf(Rule(ANY, Reject));
    EmitOne(accept);
    EmitOne(reject);
    EmitConcat([accept], [reject]);
    assert [accept] + [reject] == [accept, reject];
    assert EmitNode(reject) == [TailOf(Reject)];
    Associate(pool, EmitClauses(filter, TailOf(Accept)), [TailOf(Reject)]);
    FreshLays(pool, grown, span, RoutePhase, [accept, reject]);
    assert ExactProgram(filter)[1..] == [];
    assert RawProgram(ExactProgram(filter)) == Tag(EmitNodes([accept, reject]), RoutePhase);
  }

  lemma {:induction false} ExactCost(pool: seq<Instr>, filter: seq<Clause>)
    requires Filtered(filter)
    ensures Grew(pool, pool + EmitClauses(filter, TailOf(Accept)) + [TailOf(Reject)], Tests(filter) + 1)
  {
    EmittedTests(filter, TailOf(Accept));
    ClausesEncodable(filter, TailOf(Accept));
    if Encodable(pool) {
      EncodableConcat(pool, EmitClauses(filter, TailOf(Accept)));
      EncodableConcat(pool + EmitClauses(filter, TailOf(Accept)), [TailOf(Reject)]);
    }
  }

  method AddDestinationPredicate(builder: Builder, rule: DestinationRule) returns (ok: bool, p: DestinationPredicate)
    modifies builder`rules
    ensures old(builder.rules) <= builder.rules && (ok <==> Filtered(rule.filter))
    ensures ok ==> PredicateHolds(builder.rules, p, rule)
    ensures ok ==> Grew(old(builder.rules), builder.rules, Tests(rule.filter) + 1)
  {
    ghost var pool := builder.rules;
    var start := |builder.rules|;
    ok := builder.ApplyPredicate(rule.filter, TailOf(Accept));
    p := DestinationPredicate(Span(start, |builder.rules| + 1, RoutePhase, false), rule.rewrite,
                              UsesDomain(rule.filter));
    if ok {
      builder.rules := builder.rules + [TailOf(Reject)];
      ExactEmission(pool, rule.filter);
      ExactCost(pool, rule.filter);
    }
  }

  method AddDestinationPredicates(builder: Builder, rules: Fragment) returns (ok: bool, ps: seq<DestinationPredicate>)
    modifies builder`rules
    ensures old(builder.rules) <= builder.rules
    ensures ok ==> PredicatesHold(builder.rules, ps, rules)
    ensures ok <==> AllFiltered(Filters(rules))
    ensures ok ==> Grew(old(builder.rules), builder.rules, ExactWeight(rules))
  {
    ps := [];
    var i := 0;
    while i < |rules|
      invariant 0 <= i <= |rules|
      invariant old(builder.rules) <= builder.rules
      invariant PredicatesHold(builder.rules, ps, rules[..i])
      invariant forall k :: 0 <= k < i ==> Filtered(rules[k].filter)
      invariant Grew(old(builder.rules), builder.rules, ExactWeight(rules[..i]))
    {
      ghost var pool := builder.rules;
      var p;
      ok, p := AddDestinationPredicate(builder, rules[i]);
      if !ok {
        assert !Filtered(Filters(rules)[i]);
        return;
      }
      PredicatesGrow(pool, builder.rules, ps, rules[..i]);
      assert [rules[i]][0] == rules[i] && PredicateHolds(builder.rules, [p][0], [rules[i]][0]);
      PredicatesConcat(builder.rules, ps, rules[..i], [p], [rules[i]]);
      assert rules[..i + 1] == rules[..i] + [rules[i]];
      ps := ps + [p];
      i := i + 1;
    }
    assert rules[..|rules|] == rules;
    ok := true;
  }

  ghost predicate FragmentsHold(pool: seq<Instr>, compiled: Memo) {
    forall f :: f in compiled ==> PredicatesHold(pool, compiled[f], f)
  }

  lemma {:induction false} FragmentsGrow(pool: seq<Instr>, grown: seq<Instr>, compiled: Memo)
    requires FragmentsHold(pool, compiled) && pool <= grown
    ensures FragmentsHold(grown, compiled)
  {
    forall f | f in compiled
      ensures PredicatesHold(grown, compiled[f], f)
    {
      PredicatesGrow(pool, grown, compiled[f], f);
    }
  }

  lemma {:induction false} JoinedSnoc(fragments: seq<Fragment>, f: Fragment)
    ensures Joined(fragments + [f]) == Joined(fragments) + f
  {
    JoinedConcat(fragments, [f]);
    assert [f][1..] == [] && Joined([f]) == f + [];
  }

  lemma {:induction false} FilteredPart(fragments: seq<Fragment>, i: nat)
    requires i < |fragments|
    ensures AllFiltered(Filters(Joined(fragments))) ==> AllFiltered(Filters(fragments[i]))
  {
    assert fragments == fragments[..i] + fragments[i..] && fragments[i..][0] == fragments[i];
    JoinedConcat(fragments[..i], fragments[i..]);
    var before, all := |Joined(fragments[..i])|, Joined(fragments);
    if AllFiltered(Filters(all)) {
      forall k | 0 <= k < |fragments[i]|
        ensures Filtered(Filters(fragments[i])[k])
      {
        assert Filters(all)[before + k] == fragments[i][k].filter;
      }
    }
  }

  type Memo = map<Fragment, seq<DestinationPredicate>>

  // What was compiled before is kept.
  predicate Extends(memo: Memo, memo': Memo) {
    forall f :: f in memo ==> f in memo' && memo'[f] == memo[f]
  }

  // The first fragments compiled: each is known, and known ones alone append nothing.
  ghost predicate Collected(start: seq<Instr>, pool: seq<Instr>, fragments: seq<Fragment>, done: seq<Fragment>,
                            ps: seq<DestinationPredicate>, memo: Memo, memo': Memo)
  {
    && PredicatesHold(pool, ps, Joined(done)) && FragmentsHold(pool, memo')
    && Grew(start, pool, ExactWeight(Joined(done)))
    && Extends(memo, memo') && (forall f <- done :: f in memo')
    && ((forall f <- fragments :: f in memo) ==> pool == start && memo' == memo)
  }

  lemma {:induction false} CollectedNext(start: seq<Instr>, pool: seq<Instr>, fragments: seq<Fragment>,
                                         done: seq<Fragment>, ps: seq<DestinationPredicate>, memo: Memo, memo': Memo,
                                         f: Fragment, pool': seq<Instr>, memo'': Memo)
    requires Collected(start, pool, fragments, done, ps, memo, memo') && f in fragments
    requires PredicatesHold(pool', ps, Joined(done)) && FragmentsHold(pool', memo'') && Extends(memo', memo'')
      && f in memo''
    requires if f in memo' then pool' == pool && memo'' == memo' else Grew(pool, pool', ExactWeight(f))
    ensures Collected(start, pool', fragments, done + [f], ps + memo''[f], memo, memo'')
  {
    JoinedSnoc(done, f);
    ExactWeightConcat(Joined(done), f);
    PredicatesConcat(pool', ps, Joined(done), memo''[f], f);
  }

  // One fragment, unless it is known, behind predicates already compiled.
  method CompileFragment(builder: Builder, f: Fragment, memo: Memo, ghost ps: seq<DestinationPredicate>,
                         ghost done: seq<DestinationRule>)
    returns (ok: bool, memo': Memo)
    requires FragmentsHold(builder.rules, memo) && PredicatesHold(builder.rules, ps, done)
    modifies builder`rules
    ensures old(builder.rules) <= builder.rules
    ensures ok ==> FragmentsHold(builder.rules, memo') && PredicatesHold(builder.rules, ps, done)
    ensures ok ==> Extends(memo, memo') && f in memo'
    ensures ok && f !in memo ==> Grew(old(builder.rules), builder.rules, ExactWeight(f))
    ensures f in memo ==> ok && builder.rules == old(builder.rules) && memo' == memo
    ensures AllFiltered(Filters(f)) ==> ok
  {
    ok, memo' := true, memo;
    if f !in memo {
      ghost var pool := builder.rules;
      var added;
      ok, added := AddDestinationPredicates(builder, f);
      if ok {
        PredicatesGrow(pool, builder.rules, ps, done);
        FragmentsGrow(pool, builder.rules, memo);
        memo' := memo[f := added];
      }
    }
  }

  // The exact predicates of one profile, in rule order. A fragment in the memo is
  // not compiled a second time.
  method CompileDestinations(builder: Builder, fragments: seq<Fragment>, memo: Memo)
    returns (ok: bool, ps: seq<DestinationPredicate>, memo': Memo)
    requires FragmentsHold(builder.rules, memo)
    modifies builder`rules
    ensures old(builder.rules) <= builder.rules
    ensures ok ==> PredicatesHold(builder.rules, ps, Joined(fragments)) && FragmentsHold(builder.rules, memo')
    ensures ok ==> Grew(old(builder.rules), builder.rules, ExactWeight(Joined(fragments)))
    ensures AllFiltered(Filters(Joined(fragments))) ==> ok
    ensures ok ==> Extends(memo, memo') && forall f <- fragments :: f in memo'
    ensures (forall f <- fragments :: f in memo) ==> ok && builder.rules == old(builder.rules) && memo' == memo
  {
    ps, memo' := [], memo;
    var i := 0;
    assert fragments[..0] == [];
    while i < |fragments|
      invariant 0 <= i <= |fragments|
      invariant old(builder.rules) <= builder.rules
      invariant Collected(old(builder.rules), builder.rules, fragments, fragments[..i], ps, memo, memo')
    {
      var f := fragments[i];
      FilteredPart(fragments, i);
      ghost var pool, known := builder.rules, memo';
      ok, memo' := CompileFragment(builder, f, memo', ps, Joined(fragments[..i]));
      if !ok {
        return;
      }
      CollectedNext(old(builder.rules), pool, fragments, fragments[..i], ps, memo, known, f, builder.rules, memo');
      assert fragments[..i + 1] == fragments[..i] + [f];
      ps := ps + memo'[f];
      i := i + 1;
    }
    assert fragments[..|fragments|] == fragments;
    ok := true;
  }

  // Splicing and linking give a profile exactly the linked program.
  lemma {:induction false} LinkedProfile(pool: seq<Instr>, spans: seq<Span>, segments: seq<Segment>)
    requires Executing(pool, spans, segments)
    ensures InPool(Encode(pool), spans)
    ensures Flatten(Encode(pool), spans) == ProgramCode(segments)
  {
    EncodeFlatten(pool, spans);
    FlattenPhases(pool, Encode(pool), spans);
    LinkedProgram(segments);
    var linked, raw, code := Flatten(Encode(pool), spans), RawProgram(segments), ProgramCode(segments);
    forall k | 0 <= k < |linked|
      ensures linked[k] == code[k]
    {
      assert linked[k] == Op(Instrs(linked)[k], raw[k].phase);
      assert code[k] == Op(Instrs(code)[k], raw[k].phase);
    }
  }

  lemma {:induction false} LinkedProgram(segments: seq<Segment>)
    requires SegmentsFormed(segments)
    ensures EndsRule(Instrs(RawProgram(segments)))
    ensures |ProgramCode(segments)| == |RawProgram(segments)|
    ensures Instrs(ProgramCode(segments)) == Encode(Instrs(RawProgram(segments)))
    ensures forall k ::
      0 <= k < |RawProgram(segments)|
      ==> ProgramCode(segments)[k].phase == RawProgram(segments)[k].phase
  {
    if segments != [] {
      var nodes, phase := segments[0].nodes, segments[0].phase;
      LinkedProgram(segments[1..]);
      EncodeNodes(nodes);
      InstrsOfTag(EmitNodes(nodes), phase);
      InstrsOfTag(LinkedNodes(nodes), phase);
      InstrsConcat(Tag(EmitNodes(nodes), phase), RawProgram(segments[1..]));
      InstrsConcat(Tag(LinkedNodes(nodes), phase), ProgramCode(segments[1..]));
      EncodeConcat(EmitNodes(nodes), Instrs(RawProgram(segments[1..])));
    }
  }

  ghost predicate ExactFor(pool: seq<Instr>, p: DestinationPredicate, rule: DestinationRule) {
    && p.rewrite == rule.rewrite && p.domain == UsesDomain(rule.filter)
    && SegmentsFormed(ExactProgram(rule.filter))
    && InPool(pool, [p.span]) && Flatten(pool, [p.span]) == ProgramCode(ExactProgram(rule.filter))
  }

  ghost predicate AllExact(pool: seq<Instr>, ps: seq<DestinationPredicate>, rules: seq<DestinationRule>) {
    |ps| == |rules| && forall k {:trigger ExactFor(pool, ps[k], rules[k])} ::
      0 <= k < |ps|
      ==> ExactFor(pool, ps[k], rules[k])
  }

  // A compiled profile runs its policy's program, and its exact predicates test
  // the policy's destination rules in order, shared ones last.
  ghost predicate CompiledFor(c: ProfileCompiler, pool: seq<Instr>, kernelEnd: nat, p: CompiledProfile,
                              policy: Policy)
  {
    match p
    case CompiledProfile(spans, destinations) =>
      && c.CanResolve()
      && NodesFormed(Resolve(Controls, c.compiler.sets, c.compiler.rank, c.bound, policy.rules))
      && NodesFormed(HttpCapture(c.rules.http, {Http}))
      && SegmentsFormed(c.Program(policy))
      && kernelEnd <= |pool| && InPool(pool[..kernelEnd], spans) && InPool(pool, spans)
      && Flatten(pool, spans) == ProgramCode(c.Program(policy))
      && ExecutionLength(spans) <= MAX_MATCH_SETS
      && AllExact(pool, destinations, Destinations(c.compiler.sets, c.compiler.rank, c.bound, policy.rules)
                  + c.rules.destinations)
      && !policy.fallback.skipNoalive
  }

  ghost predicate MatcherFor(c: ProfileCompiler, m: Matcher, policies: seq<Policy>) {
    && |m.profiles| == |policies|
    && m.kernelEnd <= MAX_MATCH_SETS
    && forall i {:trigger CompiledFor(c, m.pool, m.kernelEnd, m.profiles[i], policies[i])} ::
         0 <= i < |policies| ==> CompiledFor(c, m.pool, m.kernelEnd, m.profiles[i], policies[i])
  }

  lemma {:induction false} LinkedPredicates(pool: seq<Instr>, ps: seq<DestinationPredicate>,
                                            rules: seq<DestinationRule>)
    requires PredicatesHold(pool, ps, rules)
    ensures AllExact(Encode(pool), ps, rules)
  {
    forall k | 0 <= k < |ps|
      ensures ExactFor(Encode(pool), ps[k], rules[k])
    {
      assert PredicateHolds(pool, ps[k], rules[k]);
      LinkedProfile(pool, [ps[k].span], ExactProgram(rules[k].filter));
    }
  }

  lemma {:induction false} LinkedFor(c: ProfileCompiler, kernel: seq<Instr>, pool: seq<Instr>, profile: Profile,
                                     ps: seq<DestinationPredicate>, policy: Policy)
    requires kernel <= pool && c.ProfileHolds(kernel, profile, policy)
    requires PredicatesHold(pool, ps, Joined(profile.destinations))
    ensures CompiledFor(c, Encode(pool), |kernel|, CompiledProfile(profile.spans, ps), policy)
  {
    ExecutingGrows(kernel, pool, profile.spans, c.Program(policy));
    LinkedProfile(pool, profile.spans, c.Program(policy));
    LinkedPredicates(pool, ps, Joined(profile.destinations));
  }

  ghost predicate Pending(pool: seq<Instr>, compiled: seq<seq<DestinationPredicate>>, profiles: seq<Profile>, n: nat) {
    && |compiled| == n <= |profiles|
    && forall i {:trigger compiled[i]} ::
        0 <= i < n
        ==> PredicatesHold(pool, compiled[i], Joined(profiles[i].destinations))
  }

  lemma {:induction false} PendingGrows(pool: seq<Instr>, grown: seq<Instr>, compiled: seq<seq<DestinationPredicate>>,
                                        profiles: seq<Profile>, n: nat)
    requires Pending(pool, compiled, profiles, n) && pool <= grown
    ensures Pending(grown, compiled, profiles, n)
  {
    forall i | 0 <= i < n
      ensures PredicatesHold(grown, compiled[i], Joined(profiles[i].destinations))
    {
      PredicatesGrow(pool, grown, compiled[i], Joined(profiles[i].destinations));
    }
  }

  // The exact predicates of every profile; all their code lands behind what the
  // pool held before.
  method CompileAllDestinations(builder: Builder, profiles: seq<Profile>)
    returns (ok: bool, compiled: seq<seq<DestinationPredicate>>)
    modifies builder`rules
    ensures old(builder.rules) <= builder.rules
    ensures ok ==> Pending(builder.rules, compiled, profiles, |profiles|)
    ensures ok ==> Grew(old(builder.rules), builder.rules, ExactTotal(profiles))
    ensures (forall p <- profiles :: AllFiltered(Filters(Joined(p.destinations)))) ==> ok
  {
    compiled := [];
    var memo: Memo := map[];
    var i := 0;
    while i < |profiles|
      invariant 0 <= i <= |profiles|
      invariant old(builder.rules) <= builder.rules
      invariant Pending(builder.rules, compiled, profiles, i) && FragmentsHold(builder.rules, memo)
      invariant Grew(old(builder.rules), builder.rules, ExactTotal(profiles[..i]))
    {
      ghost var pool := builder.rules;
      var ps;
      ok, ps, memo := CompileDestinations(builder, profiles[i].destinations, memo);
      if !ok {
        return;
      }
      PendingGrows(pool, builder.rules, compiled, profiles, i);
      assert profiles[..i + 1][..i] == profiles[..i];
      compiled := compiled + [ps];
      i := i + 1;
    }
    assert profiles[..|profiles|] == profiles;
    ok := true;
  }

  function ExactTotal(profiles: seq<Profile>): nat {
    if profiles == [] then 0
    else ExactTotal(profiles[..|profiles| - 1]) + ExactWeight(Joined(profiles[|profiles| - 1].destinations))
  }

  method EncodePool(rules: seq<Instr>) returns (ok: bool, pool: seq<Instr>)
    ensures ok == Encodable(rules)
    ensures ok ==> pool == Encode(rules)
  {
    var a := new Instr[|rules|](k requires 0 <= k < |rules| => rules[k]);
    assert a[..] == rules;
    ok := EncodeRoutingJumps(a);
    pool := a[..];
  }

  method Finish(c: ProfileCompiler) returns (r: Result<Matcher>)
    requires c.Valid()
    modifies c.compiler.builder`rules
    ensures r.Ok? ==> MatcherFor(c, r.value, c.policies) && |old(c.compiler.builder.rules)| <= MAX_MATCH_SETS
    ensures r.Ok? ==> r.value.kernelEnd == |old(c.compiler.builder.rules)|
    ensures r.Ok? ==> r.value.kernelEnd <= |r.value.pool| <= r.value.kernelEnd + 2 * MAX_MATCH_SETS
    ensures (&& Encodable(old(c.compiler.builder.rules)) && |old(c.compiler.builder.rules)| <= MAX_MATCH_SETS
             && (forall p <- c.profiles :: AllFiltered(Filters(Joined(p.destinations))))
               && ExactTotal(c.profiles) <= 2 * MAX_MATCH_SETS) ==> r.Ok?
  {
    var builder := c.compiler.builder;
    var kernelEnd := |builder.rules|;
    ghost var kernel := builder.rules;
    var ok, compiled := CompileAllDestinations(builder, c.profiles);
    if !ok {
      return Err(EmptyPredicate);
    }
    if kernelEnd > MAX_MATCH_SETS || |builder.rules| - kernelEnd > 2 * MAX_MATCH_SETS {
      return Err(TooManyMatchSets);
    }
    var pool;
    ok, pool := EncodePool(builder.rules);
    if !ok {
      return Err(InvalidJumps);
    }
    var profiles := seq(|c.profiles|, i requires 0 <= i < |c.profiles| && |compiled| == |c.profiles| reads c =>
      CompiledProfile(c.profiles[i].spans, compiled[i]));
    forall i | 0 <= i < |c.profiles|
      ensures CompiledFor(c, pool, kernelEnd, profiles[i], c.policies[i])
    {
      assert c.ProfileHolds(kernel, c.profiles[i], c.policies[i]);
      LinkedFor(c, kernel, builder.rules, c.profiles[i], compiled[i], c.policies[i]);
    }
    ok := ValidateProfiles(c, pool, kernelEnd, profiles, c.policies);
    if !ok {
      return Err(InvalidBlocks);
    }
    return Ok(Matcher(pool, kernelEnd, profiles));
  }

  lemma {:induction false} CompiledNests(c: ProfileCompiler, pool: seq<Instr>, kernelEnd: nat, p: CompiledProfile,
                                         policy: Policy)
    requires CompiledFor(c, pool, kernelEnd, p, policy)
    ensures var code := Flatten(pool, p.spans); WellNested(code, |code|) && JumpsStayInPhase(code)
  {
    ProgramWellNested(c.Program(policy));
  }

  // The last check before a matcher exists; it never rejects compiled code.
  method ValidateProfiles(ghost c: ProfileCompiler, pool: seq<Instr>, kernelEnd: nat, profiles: seq<CompiledProfile>,
                          ghost policies: seq<Policy>)
    returns (ok: bool)
    requires |profiles| == |policies|
    requires forall i {:trigger CompiledFor(c, pool, kernelEnd, profiles[i], policies[i])} ::
               0 <= i < |policies| ==> CompiledFor(c, pool, kernelEnd, profiles[i], policies[i])
    ensures ok
  {
    var i := 0;
    while i < |profiles|
    {
      assert CompiledFor(c, pool, kernelEnd, profiles[i], policies[i]);
      ok := ValidateRoutingBlocks(pool, profiles[i].spans);
      CompiledNests(c, pool, kernelEnd, profiles[i], policies[i]);
      if !ok {
        return;
      }
      i := i + 1;
    }
    ok := true;
  }
}
