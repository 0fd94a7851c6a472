/** Which configurations fit: the match sets and variants that a list of policies
    takes, with everything equal shared. */
module RoutingAcceptance {
  import opened Common
  import opened RoutingInstructions
  import opened RoutingSpans
  import opened RoutingJumps
  import opened RoutingPolicies
  import opened RoutingDemand
  import opened RoutingBuilder
  import opened RoutingCompiler
  import opened RoutingProfiles

  // What policies are compiled against.
  datatype Setting = Setting(context: Context, bound: nat, shared: SharedRules) {
    ghost predicate Resolvable() {
      && Ranked(context.sets, context.rank)
      && forall name :: name in context.sets ==> context.rank[name] < bound
    }

    ghost function Meant(statements: seq<Statement>): Meaning
      requires Resolvable()
    {
      OfStatements(context.sets, context.rank, bound, statements)
    }

    // The rules and variants of a policy.
    ghost function Body(p: Policy): Demand
      requires Resolvable()
    {
      StatementsDemand(FlowSet, context.outbounds, context.sets, context.rank, bound, p.rules).Plus(
        StatementsDemand(RouteSet, context.outbounds, context.sets, context.rank, bound, p.statements))
    }

    ghost predicate LeavesOpen(p: Policy)
      requires Resolvable()
    {
      NeedsEnd(shared, Meant(p.rules))
    }

    // Match sets that the policy's program executes.
    ghost function Length(p: Policy): nat
      requires Resolvable()
    {
      ProgramLength(shared, Meant(p.rules), Meant(p.statements), p.fallback)
    }

    // A fallback that may be one, and a program that is short enough.
    ghost predicate Sane(p: Policy)
      requires Resolvable()
    {
      CheckTarget(context.outbounds, p.fallback, true).None? && Length(p) <= MAX_MATCH_SETS
    }

    ghost function Exact(p: Policy): seq<DestinationRule>
      requires Resolvable()
    {
      Destinations(context.sets, context.rank, bound, p.rules) + shared.destinations
    }
  }

  // ------ What policies ask for together ------

  ghost function Asked(s: Setting, policies: seq<Policy>): Demand
    requires s.Resolvable()
  {
    if policies == [] then SharedDemand(s.context.outbounds, s.shared)
    else Asked(s, policies[..|policies| - 1]).Plus(s.Body(policies[|policies| - 1]))
  }

  function Fallbacks(policies: seq<Policy>): set<Instr> {
    set p <- policies :: FallbackInstr(p.fallback)
  }

  ghost predicate Ended(s: Setting, policies: seq<Policy>)
    requires s.Resolvable()
  {
    exists p <- policies :: s.LeavesOpen(p)
  }

  // Match sets in the pool: the shared programs, the rules of the policies, every
  // variant once, every fallback once, and a flow end if one is needed.
  ghost function PoolSize(s: Setting, policies: seq<Policy>): nat
    requires s.Resolvable()
  {
    var asked := Asked(s, policies);
    asked.weight + Cost(s.context, asked.variants) + |Fallbacks(policies)| + if Ended(s, policies) then 1 else 0
  }

  // Well-formed, and within every limit of the pool, the cache and the programs.
  ghost predicate Acceptable(s: Setting, policies: seq<Policy>)
    requires s.Resolvable()
  {
    && Asked(s, policies).sane && (forall p <- policies :: s.Sane(p))
    && PoolSize(s, policies) <= MAX_MATCH_SETS && |Asked(s, policies).variants| <= MAX_MATCH_SETS
  }

  // Exact destination predicates, outside the pool; counted for every policy.
  ghost function ExactAsked(s: Setting, policies: seq<Policy>): nat
    requires s.Resolvable()
  {
    if policies == [] then 0
    else ExactAsked(s, policies[..|policies| - 1]) + ExactWeight(s.Exact(policies[|policies| - 1]))
  }

  lemma {:induction false} AskedNext(s: Setting, policies: seq<Policy>, p: Policy)
    requires s.Resolvable()
    ensures Asked(s, policies + [p]) == Asked(s, policies).Plus(s.Body(p))
    ensures ExactAsked(s, policies + [p]) == ExactAsked(s, policies) + ExactWeight(s.Exact(p))
  {
    assert (policies + [p])[..|policies|] == policies;
  }

  lemma {:induction false} FallbacksNext(policies: seq<Policy>, p: Policy)
    ensures Fallbacks(policies + [p]) == Fallbacks(policies) + {FallbackInstr(p.fallback)}
    ensures |Fallbacks(policies + [p])| == |Fallbacks(policies)| + if FallbackInstr(p.fallback) in Fallbacks(policies)
      then 0 else 1
  {
    assert forall q <- policies + [p] :: q in policies || q == p;
    assert forall q <- policies :: q in policies + [p];
    assert p in policies + [p];
    if FallbackInstr(p.fallback) in Fallbacks(policies) {
      assert Fallbacks(policies + [p]) == Fallbacks(policies);
    }
  }

  lemma {:induction false} EndedNext(s: Setting, policies: seq<Policy>, p: Policy)
    requires s.Resolvable()
    ensures Ended(s, policies + [p]) <==> Ended(s, policies) || s.LeavesOpen(p)
  {
    assert forall q <- policies + [p] :: q in policies || q == p;
    assert forall q <- policies :: q in policies + [p];
    assert p in policies + [p];
  }

  // The same, policy by policy: own rules, new variants and new ends.
  ghost function Taken(s: Setting, policies: seq<Policy>): nat
    requires s.Resolvable()
  {
    if policies == [] then SharedDemand(s.context.outbounds, s.shared).weight
    else
      var front, last := policies[..|policies| - 1], policies[|policies| - 1];
      Taken(s, front) + s.Body(last).weight + Cost(s.context, s.Body(last).variants - Asked(s, front).variants)
      + Tail([], Fallbacks(front), Ended(s, front)).Extra(s.LeavesOpen(last), last.fallback)
  }

  lemma {:induction false} TakenNext(s: Setting, policies: seq<Policy>, p: Policy)
    requires s.Resolvable()
    ensures Taken(s, policies + [p]) == Taken(s, policies) + s.Body(p).weight
      + Cost(s.context, s.Body(p).variants - Asked(s, policies).variants)
      + Tail([], Fallbacks(policies), Ended(s, policies)).Extra(s.LeavesOpen(p), p.fallback)
  {
    assert (policies + [p])[..|policies|] == policies;
  }

  // Counting policy by policy counts everything once.
  lemma {:induction false} TakenIsPool(s: Setting, policies: seq<Policy>)
    requires s.Resolvable()
    ensures Taken(s, policies) == PoolSize(s, policies)
  {
    if policies == [] {
      assert Fallbacks(policies) == {};
    } else {
      var front, last := policies[..|policies| - 1], policies[|policies| - 1];
      assert policies == front + [last];
      TakenIsPool(s, front);
      TakenNext(s, front, last);
      AskedNext(s, front, last);
      CostMore(s.context, Asked(s, front).variants, s.Body(last).variants);
      FallbacksNext(front, last);
      EndedNext(s, front, last);
    }
  }

  lemma {:induction false} FirstNext(policies: seq<Policy>, i: nat)
    requires i < |policies|
    ensures policies[..i + 1] == policies[..i] + [policies[i]]
  {
  }

  // The first policies fit if all do.
  lemma {:induction false} AcceptableFirst(s: Setting, policies: seq<Policy>, n: nat)
    requires s.Resolvable() && n <= |policies| && Acceptable(s, policies)
    ensures Acceptable(s, policies[..n])
    decreases |policies| - n
  {
    if n == |policies| {
      assert policies[..n] == policies;
    } else {
      AcceptableFirst(s, policies, n + 1);
      FirstNext(policies, n);
      AcceptableBut(s, policies[..n], policies[n]);
    }
  }

  lemma {:induction false} AcceptableBut(s: Setting, policies: seq<Policy>, p: Policy)
    requires s.Resolvable()
    ensures Acceptable(s, policies + [p]) ==> Acceptable(s, policies)
  {
    AskedNext(s, policies, p);
    TakenIsPool(s, policies);
    TakenIsPool(s, policies + [p]);
    TakenNext(s, policies, p);
    SubsetSize(Asked(s, policies).variants, Asked(s, policies).Plus(s.Body(p)).variants);
    assert forall q <- policies :: q in policies + [p];
  }

  // ------ A compiler that holds the profiles of some policies ------

  ghost predicate Tallied(s: Setting, policies: seq<Policy>, store: Store, tail: Tail)
    requires s.Resolvable()
  {
    match store
    case Store(rules, variants, context) =>
      && context == s.context && variants == Asked(s, policies).variants && Asked(s, policies).sane
      && (forall p <- policies :: s.Sane(p))
      && |rules| == Taken(s, policies) && tail == Tail(rules, Fallbacks(policies), Ended(s, policies))
      && Size(variants) <= MAX_MATCH_SETS && Encodable(rules)
  }

  lemma {:induction false} TalliedNone(s: Setting, store: Store, tail: Tail)
    requires s.Resolvable() && Met(Store([], {}, s.context), SharedDemand(s.context.outbounds, s.shared), store)
    requires tail == Tail(store.rules, {}, false)
    ensures Tallied(s, [], store, tail)
  {
    assert Fallbacks([]) == {};
    assert {} - {} == SharedDemand(s.context.outbounds, s.shared).variants;
  }

  lemma {:induction false} TalliedNext(s: Setting, policies: seq<Policy>, p: Policy, more: seq<Policy>, before: Store,
                                       start: Tail, after: Store, end: Tail)
    requires s.Resolvable() && more == policies + [p] && Tallied(s, policies, before, start) && s.Sane(p)
    requires Stored(before, start, s.Body(p), s.LeavesOpen(p), p.fallback, after, end)
    ensures Tallied(s, more, after, end)
  {
    AskedNext(s, policies, p);
    TakenBy(s, policies, p, more, before, start, after, end);
    EndsNext(s, policies, p);
    SaneNext(s, policies, p, more);
  }

  lemma {:induction false} TakenBy(s: Setting, policies: seq<Policy>, p: Policy, more: seq<Policy>, before: Store,
                                   start: Tail, after: Store, end: Tail)
    requires s.Resolvable() && more == policies + [p] && Tallied(s, policies, before, start)
    requires Stored(before, start, s.Body(p), s.LeavesOpen(p), p.fallback, after, end)
    ensures |after.rules| == Taken(s, more)
  {
    TakenNext(s, policies, p);
  }

  lemma {:induction false} SaneNext(s: Setting, policies: seq<Policy>, p: Policy, more: seq<Policy>)
    requires s.Resolvable() && more == policies + [p]
    ensures (forall q <- more :: s.Sane(q)) <==> (forall q <- policies :: s.Sane(q)) && s.Sane(p)
  {
    assert forall q <- more :: q in policies || q == p;
    assert (forall q <- policies :: q in more) && p in more;
  }

  lemma {:induction false} EndsNext(s: Setting, policies: seq<Policy>, p: Policy)
    requires s.Resolvable()
    ensures Fallbacks(policies + [p]) == Fallbacks(policies) + {FallbackInstr(p.fallback)}
    ensures Ended(s, policies + [p]) == (Ended(s, policies) || s.LeavesOpen(p))
  {
    FallbacksNext(policies, p);
    EndedNext(s, policies, p);
  }

  // If the next policy still fits, its demand can be met.
  lemma {:induction false} AffordsNext(s: Setting, policies: seq<Policy>, p: Policy, more: seq<Policy>, before: Store,
                                       start: Tail)
    requires s.Resolvable() && more == policies + [p] && Tallied(s, policies, before, start) && Acceptable(s, more)
    ensures s.Sane(p) && Affords(before, start, s.Body(p), s.LeavesOpen(p), p.fallback)
  {
    AskedNext(s, policies, p);
    TakenIsPool(s, more);
    TakenNext(s, policies, p);
    assert p in more;
    SizeIs(Asked(s, more).variants);
  }

  // All that was taken fits exactly if the pool does.
  lemma {:induction false} TalliedIff(s: Setting, policies: seq<Policy>, store: Store, tail: Tail)
    requires s.Resolvable() && Tallied(s, policies, store, tail)
    ensures |store.rules| == PoolSize(s, policies)
    ensures |store.rules| <= MAX_MATCH_SETS <==> Acceptable(s, policies)
    ensures Asked(s, policies).sane && Encodable(store.rules)
  {
    SizeIs(store.variants);
    TakenIsPool(s, policies);
  }

  // ------ One policy after another ------

  lemma {:induction false} DueAt(s: Setting, policies: seq<Policy>, i: nat, before: Store, start: Tail)
    requires s.Resolvable() && i < |policies| && Tallied(s, policies[..i], before, start) && Acceptable(s, policies)
    ensures s.Sane(policies[i]) && Affords(before, start, s.Body(policies[i]), s.LeavesOpen(policies[i]),
                                           policies[i].fallback)
  {
    AcceptableFirst(s, policies, i + 1);
    FirstNext(policies, i);
    AffordsNext(s, policies[..i], policies[i], policies[..i + 1], before, start);
  }

  lemma {:induction false} TalliedAt(s: Setting, policies: seq<Policy>, i: nat, before: Store, start: Tail,
                                     after: Store, end: Tail)
    requires s.Resolvable() && i < |policies| && Tallied(s, policies[..i], before, start) && s.Sane(policies[i])
    requires Stored(before, start, s.Body(policies[i]), s.LeavesOpen(policies[i]), policies[i].fallback, after, end)
    ensures Tallied(s, policies[..i + 1], after, end)
  {
    FirstNext(policies, i);
    TalliedNext(s, policies[..i], policies[i], policies[..i + 1], before, start, after, end);
  }
}
