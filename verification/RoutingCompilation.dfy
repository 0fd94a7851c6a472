/** The whole pipeline: reference validation, shared programs, one profile per
    selected policy, linking. */
module RoutingCompilation {
  import opened Common
  import opened RoutingInstructions
  import opened RoutingSpans
  import opened RoutingJumps
  import opened RoutingRules
  import opened RoutingSimulation
  import opened RoutingMatcher
  import opened RoutingPolicies
  import opened RoutingDemand
  import opened RoutingCompiler
  import opened RoutingProfiles
  import opened RoutingAcceptance
  import opened RoutingWellFormed
  import opened RoutingFinish
  import opened RoutingTheorems
  import opened RoutingDecisions
  import opened RoutingWritten
  import Graph = RoutingGraph

  // Profile i decides every valid flow as the first match of its policy, which is
  // what the policy's rules say as they are written, and reports nothing but a
  // decision.
  ghost predicate Decides(c: ProfileCompiler, m: Matcher, i: nat, policy: Policy)
    requires i < |m.profiles| && CompiledFor(c, m.pool, m.kernelEnd, m.profiles[i], policy)
  {
    forall input: Input | input.valid ::
      && Evaluate(m.pool, m.profiles[i].spans, input).Decided?
      && Evaluate(m.pool, m.profiles[i].spans, input)
        == Settled(Exec(PolicyRules(c, policy, input.afterTarget), NO_FLOW, input))
      && forall e ::
           Evaluate(m.pool, m.profiles[i].spans, input) == Decided(e)
           <==> AsWritten(c.rules, c.compiler.sets, c.compiler.rank, c.bound, policy, input, e)
  }

  lemma {:induction false} CompiledProfileDecides(c: ProfileCompiler, m: Matcher, i: nat, policy: Policy)
    requires i < |m.profiles| && CompiledFor(c, m.pool, m.kernelEnd, m.profiles[i], policy)
    ensures Decides(c, m, i, policy)
  {
    forall input: Input | input.valid
      ensures Evaluate(m.pool, m.profiles[i].spans, input).Decided?
      ensures Evaluate(m.pool, m.profiles[i].spans, input)
        == Settled(Exec(PolicyRules(c, policy, input.afterTarget), NO_FLOW, input))
      ensures forall e ::
        Evaluate(m.pool, m.profiles[i].spans, input) == Decided(e)
        <==> AsWritten(c.rules, c.compiler.sets, c.compiler.rank, c.bound, policy, input, e)
    {
      CompilerCorrect(c, m.pool, m.kernelEnd, m.profiles[i], policy, input);
      DecidesAsWritten(c, m.pool, m.kernelEnd, m.profiles[i], policy, input);
    }
  }

  ghost predicate AllDecide(c: ProfileCompiler, m: Matcher, policies: seq<Policy>) {
    && MatcherFor(c, m, policies)
    && forall i {:trigger policies[i]} :: 0 <= i < |policies| ==>
         CompiledFor(c, m.pool, m.kernelEnd, m.profiles[i], policies[i]) && Decides(c, m, i, policies[i])
  }

  lemma {:induction false} MatcherDecides(c: ProfileCompiler, m: Matcher, policies: seq<Policy>)
    requires MatcherFor(c, m, policies)
    ensures AllDecide(c, m, policies)
  {
    forall i | 0 <= i < |policies|
      ensures CompiledFor(c, m.pool, m.kernelEnd, m.profiles[i], policies[i]) && Decides(c, m, i, policies[i])
    {
      assert CompiledFor(c, m.pool, m.kernelEnd, m.profiles[i], policies[i]);
      CompiledProfileDecides(c, m, i, policies[i]);
    }
  }

  ghost predicate AlwaysDecides(pool: seq<Instr>, spans: seq<Span>) {
    InPool(pool, spans) && forall input: Input | input.valid :: Evaluate(pool, spans, input).Decided?
  }

  lemma {:induction false} NeverUndecided(c: ProfileCompiler, m: Matcher, policies: seq<Policy>)
    requires AllDecide(c, m, policies)
    ensures forall p <- m.profiles :: AlwaysDecides(m.pool, p.spans)
  {
    forall i | 0 <= i < |m.profiles|
      ensures AlwaysDecides(m.pool, m.profiles[i].spans)
    {
      assert Decides(c, m, i, policies[i]);
    }
  }

  // What a compiler works against.
  ghost function Given(c: ProfileCompiler): Setting {
    Setting(Context(c.compiler.builder.outbounds, c.compiler.sets, c.compiler.rank), c.bound, c.rules)
  }

  // Destination filters of a well-formed configuration are well-formed.
  lemma {:induction false} SaneDestinations(outbounds: set<nat>, sets: RuleSets, rank: Ranks, bound: nat,
                                            statements: seq<Statement>)
    requires Ranked(sets, rank) && Below(sets, rank, statements, bound)
    requires StatementsDemand(FlowSet, outbounds, sets, rank, bound, statements).sane
    ensures forall d <- Destinations(sets, rank, bound, statements) :: Filtered(d.filter)
    decreases bound, |statements|
  {
    if statements != [] {
      var n := |statements| - 1;
      var front, last := statements[..n], statements[n];
      assert statements == front + [last];
      StatementsDemandSnoc(FlowSet, outbounds, sets, rank, bound, front, last);
      DestinationsSnoc(sets, rank, bound, front, last);
      SaneDestinations(outbounds, sets, rank, bound, front);
      SaneDestination(outbounds, sets, rank, bound, last);
    }
  }

  lemma {:induction false} SaneDestination(outbounds: set<nat>, sets: RuleSets, rank: Ranks, bound: nat, s: Statement)
    requires Ranked(sets, rank) && Below(sets, rank, [s], bound)
    requires StatementDemand(FlowSet, outbounds, sets, rank, bound, s).sane
    ensures forall d <- DestinationsOne(sets, rank, bound, s) :: Filtered(d.filter)
    decreases bound, 0
  {
    if s.UseStatement? {
      assert s in [s];
      var inner := Destinations(sets, rank, rank[s.name], sets[s.name]);
      SaneDestinations(outbounds, sets, rank, rank[s.name], sets[s.name]);
      forall d <- Conditioned(s.condition, inner)
        ensures Filtered(d.filter)
      {
        var k :| 0 <= k < |inner| && d == Conditioned(s.condition, inner)[k];
        assert Filtered(inner[k].filter);
      }
    }
  }

  lemma {:induction false} SanePolicy(s: Setting, policy: Policy)
    requires s.Resolvable() && s.Body(policy).sane && CapturesSane(s.context.outbounds, s.shared)
    ensures AllFiltered(Filters(s.Exact(policy)))
  {
    var own := Destinations(s.context.sets, s.context.rank, s.bound, policy.rules);
    SaneDestinations(s.context.outbounds, s.context.sets, s.context.rank, s.bound, policy.rules);
    FilteredBoth(own, s.shared.destinations);
  }

  lemma {:induction false} FilteredBoth(own: seq<DestinationRule>, shared: seq<DestinationRule>)
    requires (forall d <- own :: Filtered(d.filter)) && AllFiltered(Filters(shared))
    ensures AllFiltered(Filters(own + shared))
  {
    var all := own + shared;
    forall k | 0 <= k < |all|
      ensures Filtered(Filters(all)[k])
    {
      if k < |own| {
        assert all[k] in own;
      } else {
        assert Filtered(Filters(shared)[k - |own|]);
      }
    }
  }

  ghost predicate Lists(s: Setting, profile: Profile, policy: Policy)
    requires s.Resolvable()
  {
    Joined(profile.destinations) == s.Exact(policy)
  }

  ghost predicate AllList(s: Setting, profiles: seq<Profile>, policies: seq<Policy>)
    requires s.Resolvable()
  {
    |profiles| == |policies| && forall i {:trigger Lists(s, profiles[i], policies[i])} ::
      0 <= i < |policies|
      ==> Lists(s, profiles[i], policies[i])
  }

  lemma {:induction false} RecordedList(c: ProfileCompiler, pool: seq<Instr>, profiles: seq<Profile>,
                                        policies: seq<Policy>)
    requires Given(c).Resolvable() && c.ProfilesHold(pool, profiles, policies)
    ensures AllList(Given(c), profiles, policies)
  {
    forall i | 0 <= i < |policies|
      ensures Lists(Given(c), profiles[i], policies[i])
    {
      assert c.ProfileHolds(pool, profiles[i], policies[i]);
    }
  }

  lemma {:induction false} FirstList(s: Setting, profiles: seq<Profile>, policies: seq<Policy>, n: nat)
    requires s.Resolvable() && AllList(s, profiles, policies) && n <= |policies|
    ensures AllList(s, profiles[..n], policies[..n])
  {
    forall i | 0 <= i < n
      ensures Lists(s, profiles[..n][i], policies[..n][i])
    {
      assert Lists(s, profiles[i], policies[i]);
    }
  }

  // What was recorded for the policies is well-formed and takes what they ask.
  lemma {:induction false} SaneProfiles(s: Setting, profiles: seq<Profile>, policies: seq<Policy>)
    requires s.Resolvable() && AllList(s, profiles, policies) && Asked(s, policies).sane
    ensures CapturesSane(s.context.outbounds, s.shared)
    ensures forall p <- profiles :: AllFiltered(Filters(Joined(p.destinations)))
    ensures ExactTotal(profiles) == ExactAsked(s, policies)
    decreases |policies|
  {
    if policies != [] {
      var n := |policies| - 1;
      FirstList(s, profiles, policies, n);
      SaneProfiles(s, profiles[..n], policies[..n]);
      SanePolicy(s, policies[n]);
      assert Lists(s, profiles[n], policies[n]);
      assert profiles == profiles[..n] + [profiles[n]];
    }
  }

  // The first policies have their profiles, at exactly what they ask for.
  ghost predicate Reached(c: ProfileCompiler, first: seq<Policy>)
    reads c, c.compiler, c.compiler.builder
  {
    c.Valid() && c.policies == first && Tallied(Given(c), first, c.compiler.State(), c.Ending())
  }

  method AddOne(c: ProfileCompiler, policy: Policy, ghost s: Setting) returns (r: Result<()>)
    requires c.Valid() && s == Given(c)
    modifies c`flowEnd, c`profiles, c`policies, c.compiler`cache, c.compiler.builder
    ensures s.Resolvable()
    ensures r.Ok? ==> c.Valid() && c.policies == old(c.policies) + [policy] && s.Sane(policy)
    ensures r.Ok? ==> Stored(old(c.compiler.State()), old(c.Ending()), s.Body(policy), s.LeavesOpen(policy),
                             policy.fallback, c.compiler.State(), c.Ending())
    ensures (s.Sane(policy) && Affords(old(c.compiler.State()), old(c.Ending()), s.Body(policy), s.LeavesOpen(policy),
             policy.fallback)) ==> r.Ok?
  {
    r := c.AddProfile(policy);
  }

  method AddNext(c: ProfileCompiler, policy: Policy, ghost policies: seq<Policy>, ghost i: nat) returns (r: Result<()>)
    requires i < |policies| && policy == policies[i] && Reached(c, policies[..i])
    modifies c`flowEnd, c`profiles, c`policies, c.compiler`cache, c.compiler.builder
    ensures r.Ok? ==> Reached(c, policies[..i + 1])
    ensures Given(c).Resolvable() && Acceptable(Given(c), policies) ==> r.Ok?
  {
    ghost var s, before, start := Given(c), c.compiler.State(), c.Ending();
    if Acceptable(s, policies) {
      DueAt(s, policies, i, before, start);
    }
    r := AddOne(c, policy, s);
    if r.Ok? {
      TalliedAt(s, policies, i, before, start, c.compiler.State(), c.Ending());
      FirstNext(policies, i);
    }
  }

  method AddProfiles(c: ProfileCompiler, policies: seq<Policy>) returns (r: Result<()>)
    requires Reached(c, [])
    modifies c`flowEnd, c`profiles, c`policies, c.compiler`cache, c.compiler.builder
    ensures r.Ok? ==> Reached(c, policies)
    ensures Given(c).Resolvable() && Acceptable(Given(c), policies) ==> r.Ok?
  {
    var i := 0;
    assert policies[..0] == [];
    while i < |policies|
      invariant 0 <= i <= |policies|
      invariant Reached(c, policies[..i])
    {
      r := AddNext(c, policies[i], policies, i);
      if r.Err? {
        return;
      }
      i := i + 1;
    }
    assert policies[..|policies|] == policies;
    r := Ok(());
  }

  // A compiler before its first step.
  ghost predicate Fresh(c: ProfileCompiler)
    reads c, c.compiler, c.compiler.builder
  {
    c.Sound() && c.policies == [] && c.compiler.State() == Store([], {}, Given(c).context)
      && c.Ending() == Tail([], {}, false)
  }

  // The shared programs and one profile per policy, unlinked.
  method Build(c: ProfileCompiler, policies: seq<Policy>) returns (r: Result<()>)
    requires Fresh(c)
    modifies c`shared, c`flowEnd, c`profiles, c`policies, c.compiler`cache, c.compiler.builder
    ensures r.Ok? ==> Reached(c, policies)
    ensures Given(c).Resolvable() && Acceptable(Given(c), policies) ==> r.Ok?
  {
    ghost var s := Given(c);
    if Acceptable(s, policies) {
      AcceptableFirst(s, policies, 0);
      assert policies[..0] == [];
      SharedDue(s);
    }
    r := c.CompileShared();
    if r.Ok? {
      TalliedNone(s, c.compiler.State(), c.Ending());
      r := AddProfiles(c, policies);
    }
  }

  lemma {:induction false} SharedDue(s: Setting)
    requires s.Resolvable() && Acceptable(s, [])
    ensures Due(Store([], {}, s.context), SharedDemand(s.context.outbounds, s.shared))
  {
    var d := SharedDemand(s.context.outbounds, s.shared);
    assert {} + d.variants == d.variants && d.variants - {} == d.variants;
    SizeIs(d.variants);
  }

  // The kernel gets exactly the match sets that are counted, and the exact
  // predicates behind them fit.
  ghost predicate Sized(c: ProfileCompiler, m: Matcher, policies: seq<Policy>) {
    && Given(c).Resolvable() && m.kernelEnd == PoolSize(Given(c), policies)
    && m.kernelEnd <= |m.pool| <= m.kernelEnd + 2 * MAX_MATCH_SETS
  }

  method Conclude(c: ProfileCompiler, ghost policies: seq<Policy>) returns (r: Result<Matcher>)
    requires Reached(c, policies)
    modifies c.compiler.builder`rules
    ensures r.Ok? ==> MatcherFor(c, r.value, policies) && Acceptable(Given(c), policies)
    ensures r.Ok? ==> Sized(c, r.value, policies)
    ensures Acceptable(Given(c), policies) && ExactAsked(Given(c), policies) <= 2 * MAX_MATCH_SETS ==> r.Ok?
  {
    ghost var s := Given(c);
    TalliedIff(s, policies, c.compiler.State(), c.Ending());
    RecordedList(c, c.compiler.builder.rules, c.profiles, policies);
    SaneProfiles(s, c.profiles, policies);
    r := Finish(c);
  }

  // ------ What is compiled only to find its errors ------

  const NO_RULES := SharedRules([], [], [], [], [], [])

  // The setting of what nothing selects: no shared programs, and outbounds of its own.
  ghost function Alone(s: Setting, checked: set<nat>): Setting {
    Setting(Context(checked, s.context.sets, s.context.rank), s.bound, NO_RULES)
  }

  // A policy that nothing selects is compiled alone.
  method CheckPolicy(checked: set<nat>, sets: RuleSets, ghost s: Setting, p: Policy) returns (r: Result<()>)
    requires s.Resolvable() && s.context.sets == sets
    ensures r.Ok? ==> Acceptable(Alone(s, checked), [p])
    ensures Acceptable(Alone(s, checked), [p]) && ExactAsked(Alone(s, checked), [p]) <= 2 * MAX_MATCH_SETS ==> r.Ok?
  {
    var v := new ProfileCompiler(checked, sets, NO_RULES, s.context.rank, s.bound);
    assert Given(v) == Alone(s, checked);
    r := Build(v, [p]);
    if r.Ok? {
      var m := Conclude(v, [p]);
      r := if m.Ok? then Ok(()) else Err(m.error);
    }
  }

  // What one rule set takes, under no condition.
  ghost predicate SetAcceptable(c: Context, kind: Kind, name: string)
    requires Ranked(c.sets, c.rank) && name in c.sets
  {
    var d := UseDemand(kind, c.outbounds, c.sets, c.rank, name, []);
    d.sane && Fits(kind, OfUse(c.sets, c.rank, name, [])) && Cost(c, d.variants) <= MAX_MATCH_SETS
      && |d.variants| <= MAX_MATCH_SETS
  }

  lemma {:induction false} NothingShared(outbounds: set<nat>)
    ensures SharedDemand(outbounds, NO_RULES) == Asks(true, 0)
  {
    assert Filters([]) == [];
  }

  lemma {:induction false} SetDue(store: Store, c: Context, kind: Kind, name: string)
    requires Ranked(c.sets, c.rank) && name in c.sets
      && Met(Store([], {}, c), SharedDemand(c.outbounds, NO_RULES), store)
    ensures store.rules == [] && store.variants == {} && Encodable(store.rules)
      && Size(store.variants) <= MAX_MATCH_SETS
    ensures Due(store, UseDemand(kind, c.outbounds, c.sets, c.rank, name, []))
      && Fits(kind, OfUse(c.sets, c.rank, name, []))
      <==> SetAcceptable(c, kind, name)
  {
    NothingShared(c.outbounds);
    var d := UseDemand(kind, c.outbounds, c.sets, c.rank, name, []);
    var none: set<Key> := {};
    assert none + d.variants == d.variants && d.variants - none == d.variants && none - none == none;
    SizeIs(d.variants);
  }

  method CheckSet(checked: set<nat>, sets: RuleSets, ghost s: Setting, kind: Kind, name: string) returns (r: Result<()>)
    requires s.Resolvable() && s.context.sets == sets && name in sets
    ensures r.Ok? <==> SetAcceptable(Alone(s, checked).context, kind, name)
  {
    ghost var context := Alone(s, checked).context;
    var v := new ProfileCompiler(checked, sets, NO_RULES, s.context.rank, s.bound);
    SharedDueNothing(context);
    r := v.CompileShared();
    SetDue(v.compiler.State(), context, kind, name);
    var m := ResolveAlone(v, kind, name);
    r := if m.Ok? then Ok(()) else Err(m.error);
  }

  lemma {:induction false} SharedDueNothing(c: Context)
    ensures Due(Store([], {}, c), SharedDemand(c.outbounds, NO_RULES))
  {
    NothingShared(c.outbounds);
    var none: set<Key> := {};
    SizeIs(none);
    assert none + none == none && none - none == none;
  }

  method ResolveAlone(v: ProfileCompiler, kind: Kind, name: string) returns (r: Result<Matcher>)
    requires v.Valid() && v.profiles == [] && name in v.compiler.sets
    requires Encodable(v.compiler.builder.rules) && Size(v.compiler.cache.Keys) <= MAX_MATCH_SETS
    modifies v.compiler`cache, v.compiler.builder`rules
    ensures r.Ok? <==>
      Due(old(v.compiler.State()), v.compiler.AskedByUse(kind, name, []))
      && Fits(kind, OfUse(v.compiler.sets, v.compiler.rank, name, []))
  {
    ghost var pool := v.compiler.builder.rules;
    var block := v.compiler.ResolveRuleSet(kind, name, []);
    v.StillValid(pool);
    if block.Err? {
      return Err(block.error);
    }
    if |v.compiler.builder.rules| <= MAX_MATCH_SETS {
      MetIsDue(old(v.compiler.State()), v.compiler.AskedByUse(kind, name, []), v.compiler.State());
    }
    r := FinishEmpty(v);
  }

  // Without profiles only the size of the pool matters.
  method FinishEmpty(v: ProfileCompiler) returns (r: Result<Matcher>)
    requires v.Valid() && v.profiles == [] && Encodable(v.compiler.builder.rules)
    modifies v.compiler.builder`rules
    ensures r.Ok? <==> |old(v.compiler.builder.rules)| <= MAX_MATCH_SETS
  {
    assert ExactTotal([]) == 0;
    r := Finish(v);
  }

  // A rule set is known to be well-formed: as used by a selected policy, or alone.
  ghost predicate SetChecked(outbounds: set<nat>, checked: set<nat>, sets: RuleSets, kind: Kind, name: string)
    requires name in sets
  {
    || BlockOk(kind, checked, sets, sets[name])
    || BlockOk(RouteSet, outbounds, sets, sets[name])
    || BlockOk(FlowSet, outbounds, sets, sets[name])
  }

  method CheckPolicies(checked: set<nat>, sets: RuleSets, ghost s: Setting, unselected: seq<Policy>)
    returns (r: Result<()>)
    requires s.Resolvable() && s.context.sets == sets
    ensures r.Ok? ==> forall p <- unselected :: Acceptable(Alone(s, checked), [p])
    ensures (forall p <- unselected ::
             Acceptable(Alone(s, checked), [p]) && ExactAsked(Alone(s, checked), [p]) <= 2 * MAX_MATCH_SETS) ==> r.Ok?
  {
    r := Ok(());
    for i := 0 to |unselected|
      invariant r.Ok?
      invariant forall k :: 0 <= k < i ==> Acceptable(Alone(s, checked), [unselected[k]])
    {
      r := CheckPolicy(checked, sets, s, unselected[i]);
      if r.Err? {
        assert unselected[i] in unselected;
        return;
      }
    }
  }

  // Rule sets that no selected policy reached.
  method CheckSets(checked: set<nat>, sets: RuleSets, ghost s: Setting, resolved: set<Key>, names: seq<string>,
                   kinds: map<string, Kind>)
    returns (r: Result<()>)
    requires s.Resolvable() && s.context.sets == sets
    requires forall name <- names :: name in sets && name in kinds
    ensures r.Ok? <==> forall name <- names ::
      name in Names(resolved) || SetAcceptable(Alone(s, checked).context, kinds[name], name)
  {
    var reachable := Names(resolved);
    r := Ok(());
    for i := 0 to |names|
      invariant r.Ok?
      invariant forall k ::
        0 <= k < i
        ==> names[k] in reachable || SetAcceptable(Alone(s, checked).context, kinds[names[k]], names[k])
    {
      var name := names[i];
      if name !in reachable {
        r := CheckSet(checked, sets, s, kinds[name], name);
        if r.Err? {
          assert name in names;
          return;
        }
      }
    }
  }

  function Names(keys: set<Key>): set<string> {
    set key <- keys :: key.name
  }

  // What was resolved for a selected policy is well-formed, also without its condition.
  lemma {:induction false} ReachedSets(pool: seq<Instr>, cache: map<Key, Block>, c: Context, checked: set<nat>,
                                       names: seq<string>, kinds: map<string, Kind>)
    requires CacheHolds(pool, cache, c.outbounds, c.sets, c.rank)
    requires forall name <- names :: name in c.sets && name in kinds
    requires forall name <- names ::
      name in Names(cache.Keys) || SetAcceptable(Context(checked, c.sets, c.rank), kinds[name], name)
    ensures forall name <- names :: SetChecked(c.outbounds, checked, c.sets, kinds[name], name)
  {
    forall name <- names
      ensures SetChecked(c.outbounds, checked, c.sets, kinds[name], name)
    {
      if name in Names(cache.Keys) {
        var key :| key in cache && key.name == name;
        ReachedSet(pool, cache, c, checked, kinds[name], key);
      } else {
        SetIff(kinds[name], checked, c.sets, c.rank, name);
      }
    }
  }

  lemma {:induction false} ReachedSet(pool: seq<Instr>, cache: map<Key, Block>, c: Context, checked: set<nat>,
                                      kind: Kind, key: Key)
    requires CacheHolds(pool, cache, c.outbounds, c.sets, c.rank) && key in cache
    ensures key.name in c.sets && SetChecked(c.outbounds, checked, c.sets, kind, key.name)
  {
    assert Cached(pool, cache[key], key, c.outbounds, c.sets, c.rank, cache.Keys);
    WarrantedPlain(c, key, cache.Keys);
    SetIff(key.kind, c.outbounds, c.sets, c.rank, key.name);
    match key.kind
    case RouteSet =>
    case FlowSet =>
  }

  lemma {:induction false} WarrantedPlain(c: Context, key: Key, keys: set<Key>)
    requires Ranked(c.sets, c.rank) && key.name in c.sets
    requires Warranted(UseDemand(key.kind, c.outbounds, c.sets, c.rank, key.name, key.condition), keys)
    ensures UseDemand(key.kind, c.outbounds, c.sets, c.rank, key.name, []).sane
  {
  }

  // ------ The whole configuration ------

  // Everything that the selected policies do not reach is acceptable by itself.
  ghost predicate RestAcceptable(s: Setting, checked: set<nat>, names: seq<string>, kinds: map<string, Kind>,
                                 policies: seq<Policy>, unselected: seq<Policy>)
    requires s.Resolvable() && forall name <- names :: name in s.context.sets && name in kinds
  {
    && (forall p <- unselected :: Acceptable(Alone(s, checked), [p]))
    && (forall name <- names ::
          name in Names(Asked(s, policies).variants) || SetAcceptable(Alone(s, checked).context, kinds[name], name))
  }

  // The exact predicates fit even if no two policies share any.
  ghost predicate ExactFit(s: Setting, checked: set<nat>, policies: seq<Policy>, unselected: seq<Policy>)
    requires s.Resolvable()
  {
    && ExactAsked(s, policies) <= 2 * MAX_MATCH_SETS
    && (forall p <- unselected :: ExactAsked(Alone(s, checked), [p]) <= 2 * MAX_MATCH_SETS)
  }

  method CheckRest(c: ProfileCompiler, checked: set<nat>, names: seq<string>, kinds: map<string, Kind>,
                   ghost policies: seq<Policy>, unselected: seq<Policy>)
    returns (r: Result<()>)
    requires Reached(c, policies) && forall name <- names :: name in c.compiler.sets && name in kinds
    ensures r.Ok? ==> RestAcceptable(Given(c), checked, names, kinds, policies, unselected)
    ensures r.Ok? ==> forall name <- names :: SetChecked(c.compiler.builder.outbounds, checked, c.compiler.sets,
                                                         kinds[name], name)
    ensures (RestAcceptable(Given(c), checked, names, kinds, policies, unselected)
             && ExactFit(Given(c), checked, policies, unselected)) ==> r.Ok?
  {
    ghost var s := Given(c);
    var compiler := c.compiler;
    r := CheckPolicies(checked, compiler.sets, s, unselected);
    if r.Ok? {
      r := CheckSets(checked, compiler.sets, s, compiler.cache.Keys, names, kinds);
      if r.Ok? {
        ReachedSets(compiler.builder.rules, compiler.cache, s.context, checked, names, kinds);
      }
    }
  }

  // Compilation gives correct profiles. It accepts a configuration if and only if
  // the configuration is well-formed and within every limit, where exact
  // predicates are known to fit.
  method CompileRouting(outbounds: set<nat>, checked: set<nat>, names: seq<string>, sets: RuleSets,
                        kinds: map<string, Kind>, shared: SharedRules,
                        policies: seq<Policy>, unselected: seq<Policy>)
    returns (r: Result<Matcher>, ghost c: ProfileCompiler?)
    requires kinds.Keys == sets.Keys && forall name :: name in sets <==> name in names
    ensures c != null <==>
      && (forall name <- names :: Graph.Sound(sets, sets[name]))
      && (forall p <- policies + unselected :: Graph.Sound(sets, p.statements) && Graph.Sound(sets, p.rules))
    ensures c != null ==>
      c.compiler.sets == sets && c.rules == shared && c.compiler.builder.outbounds == outbounds
      && Given(c).Resolvable()
    ensures r.Ok? ==> c != null && AllDecide(c, r.value, policies) && Sized(c, r.value, policies)
    ensures r.Ok? ==>
      Acceptable(Given(c), policies)
      && RestAcceptable(Given(c), checked, names, kinds, policies, unselected)
    ensures r.Ok? ==> WellFormed(outbounds, sets, shared, policies)
    ensures r.Ok? ==> forall name <- names :: SetChecked(outbounds, checked, sets, kinds[name], name)
    ensures c != null && ExactFit(Given(c), checked, policies, unselected) ==>
      (r.Ok? <==>
        Acceptable(Given(c), policies)
        && RestAcceptable(Given(c), checked, names, kinds, policies, unselected))
    ensures r.Ok? ==> |r.value.profiles| == |policies| && forall p <- r.value.profiles ::
      AlwaysDecides(r.value.pool, p.spans)
    ensures (exists name <- names :: !Graph.Sound(sets, sets[name])) ==> r == Err(InvalidGraph)
  {
    c := null;
    var ok, rank := Graph.Validate(names, sets, policies + unselected);
    if !ok {
      return Err(InvalidGraph), null;
    }
    var profiles := new ProfileCompiler(outbounds, sets, shared, rank, Graph.MAX_REFERENCE_DEPTH + 1);
    c := profiles;
    r := CompileAll(profiles, checked, names, kinds, policies, unselected);
    if r.Ok? {
      MatcherDecides(c, r.value, policies);
      NeverUndecided(c, r.value, policies);
      AcceptableIff(Given(c), policies);
    }
  }

  method CompileAll(c: ProfileCompiler, checked: set<nat>, names: seq<string>, kinds: map<string, Kind>,
                    policies: seq<Policy>, unselected: seq<Policy>)
    returns (r: Result<Matcher>)
    requires Fresh(c) && forall name <- names :: name in c.compiler.sets && name in kinds
    modifies c`shared, c`flowEnd, c`profiles, c`policies, c.compiler`cache, c.compiler.builder
    ensures r.Ok? ==> MatcherFor(c, r.value, policies) && Acceptable(Given(c), policies) && Sized(c, r.value, policies)
    ensures r.Ok? ==> RestAcceptable(Given(c), checked, names, kinds, policies, unselected)
    ensures r.Ok? ==> forall name <- names :: SetChecked(c.compiler.builder.outbounds, checked, c.compiler.sets,
                                                         kinds[name], name)
    ensures (Acceptable(Given(c), policies) && RestAcceptable(Given(c), checked, names, kinds, policies, unselected)
             && ExactFit(Given(c), checked, policies, unselected)) ==> r.Ok?
  {
    var done := Build(c, policies);
    if done.Ok? {
      done := CheckRest(c, checked, names, kinds, policies, unselected);
    }
    if done.Err? {
      return Err(done.error);
    }
    r := Conclude(c, policies);
  }
}
