/** Whether a kernel decision is kept or the flow is matched again in userspace,
    and why keeping it is safe when the registry says the kernel was covered. */
module RoutePlan {
  import opened Common
  import opened RoutingInstructions
  import opened RoutingMatcher
  import opened RoutingPolicies
  import opened RoutingProfiles
  import opened RoutingFinish
  import opened RoutingTheorems
  import Ambiguity = RoutingAmbiguity
  import D = DomainView
  import R = DomainRegistry

  datatype RerouteMode = NoReroute | WhileNeeded | Force
  datatype VerifyMode = AnyName | Loose | Strict

  datatype RouteAction = Keep | Rematch | RouteTarget | Untrusted | Undetermined

  datatype RouteFacts = RouteFacts(
    outbound: nat,
    captures: set<CaptureFlag>,
    destination: bool,
    mode: RerouteMode,
    verified: Truth,
    shouldReroute: Truth,
    dialOverride: bool)

  // preserve is the shortcut for captured terminal decisions.
  datatype Plan = Plan(action: RouteAction, target: bool, preserve: bool, override: bool)

  function AsTruth(b: bool): Truth {
    if b then MATCH else MISS
  }

  // The outbound numbers below the markers, which name somewhere to send a flow.
  predicate Usable(outbound: nat) {
    outbound < MUST_RULES
  }

  function PlanRoute(f: RouteFacts): Plan {
    var target := f.destination || Destination in f.captures || HttpRequest in f.captures;
    if !target && f.captures != {} && Usable(f.outbound) && (f.outbound == DIRECT || f.outbound == BLOCK) then
      Plan(Keep, target, true, false)
    else
      var reroute: Truth :=
        if target || !Usable(f.outbound) || f.mode == Force then MATCH
        else if f.mode == WhileNeeded then f.shouldReroute
        else MISS;
      if reroute == UNKNOWN || (f.verified == UNKNOWN && (reroute == MATCH || f.dialOverride)) then
        Plan(Undetermined, target, false, false)
      else
        var override := f.dialOverride && f.verified == MATCH;
        if reroute != MATCH then Plan(Keep, target, false, override)
        else if target then Plan(RouteTarget, target, false, override)
        else if f.captures != {} && f.verified != MATCH then Plan(Untrusted, target, false, override)
        else Plan(Rematch, target, false, override)
  }

  datatype Sniff = Sniff(verified: bool, shouldReroute: bool)

  // Without a name nothing is verified. known is whether the name is known to
  // exist, asked only in loose mode.
  function VerifySniff(mode: VerifyMode, name: string, v: R.Verification, known: bool): Sniff {
    if name == "" then Sniff(false, false)
    else if v.registered then
      Sniff(mode != Strict || v.paired, !v.kernelCovered)
    else
      Sniff(match mode case AnyName => true case Strict => false case Loose => known, true)
  }

  // ------ What a plan says, over the facts ------

  // The flow goes to a selected target.
  predicate Targeted(f: RouteFacts) {
    f.destination || Destination in f.captures || HttpRequest in f.captures
  }

  // A captured flow that goes nowhere but out or away stays as it was decided.
  predicate Terminal(f: RouteFacts) {
    !Targeted(f) && f.captures != {} && f.outbound in {DIRECT, BLOCK}
  }

  // Something asks for another match: a target, an outbound that is none, the
  // configuration, or a kernel that decided without the name.
  predicate Again(f: RouteFacts) {
    || Targeted(f) || f.outbound >= MUST_RULES || f.mode == Force
    || (f.mode == WhileNeeded && f.shouldReroute == MATCH)
  }

  // It is open whether something does.
  predicate MaybeAgain(f: RouteFacts) {
    !Again(f) && f.mode == WhileNeeded && f.shouldReroute == UNKNOWN
  }

  // Every plan, case by case. In particular a captured flow is never matched again
  // by an untrusted name, a selected target is never ignored, and only a usable
  // decision without a target that nothing asks to repeat is kept.
  lemma {:induction false} PlanIsSafe(f: RouteFacts)
    ensures var p := PlanRoute(f);
      && (p.target <==> Targeted(f)) && (p.preserve <==> Terminal(f))
      && (p.override <==> f.dialOverride && f.verified == MATCH && !Terminal(f) && !MaybeAgain(f))
    ensures PlanRoute(f).action == Keep <==>
      Terminal(f) || (!Again(f) && !MaybeAgain(f) && !(f.dialOverride && f.verified == UNKNOWN))
    ensures PlanRoute(f).action == RouteTarget <==> Targeted(f) && f.verified != UNKNOWN
    ensures PlanRoute(f).action == Untrusted <==>
      Again(f) && !Targeted(f) && !Terminal(f) && f.captures != {} && f.verified == MISS
    ensures PlanRoute(f).action == Rematch <==>
      && Again(f) && !Targeted(f) && !Terminal(f)
      && (f.verified == MATCH || (f.verified == MISS && f.captures == {}))
    ensures PlanRoute(f).action == Undetermined <==>
      !Terminal(f) && (MaybeAgain(f) || (f.verified == UNKNOWN && (Again(f) || f.dialOverride)))
  {
    var p := PlanRoute(f);
    assert p.target <==> Targeted(f);
  }

  // A name is trusted, and a kernel decision has to be repeated.
  lemma {:induction false} SniffMeans(mode: VerifyMode, name: string, v: R.Verification, known: bool)
    ensures var s := VerifySniff(mode, name, v, known);
      && (s.shouldReroute <==> name != "" && !(v.registered && v.kernelCovered))
      && (mode == AnyName ==> (s.verified <==> name != ""))
      && (mode == Loose ==> (s.verified <==> name != "" && (v.registered || known)))
      && (mode == Strict ==> (s.verified <==> name != "" && v.registered && v.paired))
  {
    match mode
    case AnyName =>
    case Loose =>
    case Strict =>
  }

  ghost predicate Settled(was: Truth, now: Truth) {
    now != UNKNOWN && (was != UNKNOWN ==> now == was)
  }

  // Facts that may turn out once everything unknown is known.
  ghost predicate Resolves(f: RouteFacts, g: RouteFacts) {
    && g == f.(verified := g.verified, shouldReroute := g.shouldReroute)
    && Settled(f.verified, g.verified)
    && Settled(f.shouldReroute, g.shouldReroute)
  }

  // What becomes of the flow: the plan, and whether it is matched by its name.
  function Outcome(f: RouteFacts): (Plan, bool) {
    var p := PlanRoute(f);
    (p, (p.action == Rematch || p.action == RouteTarget) && f.verified == MATCH)
  }

  // A plan is left open exactly when the unknown facts can still change what
  // becomes of the flow; a plan that is made early is final.
  lemma {:induction false} OpenIffUndecided(f: RouteFacts)
    ensures PlanRoute(f).action == Undetermined <==>
      exists g, h :: Resolves(f, g) && Resolves(f, h) && Outcome(g) != Outcome(h)
    ensures PlanRoute(f).action != Undetermined ==> forall g :: Resolves(f, g) ==> Outcome(g) == Outcome(f)
  {
    if PlanRoute(f).action == Undetermined {
      var yes := if f.verified == UNKNOWN then MATCH else f.verified;
      var no := if f.verified == UNKNOWN then MISS else f.verified;
      var again := if f.shouldReroute == UNKNOWN then MATCH else f.shouldReroute;
      var kept := if f.shouldReroute == UNKNOWN then MISS else f.shouldReroute;
      var g, h := f.(verified := yes, shouldReroute := again), f.(verified := no, shouldReroute := kept);
      assert Resolves(f, g) && Resolves(f, h);
      assert Outcome(g) != Outcome(h);
    }
  }

  // The bitmaps the kernel reads for an address: what is installed, or nothing.
  ghost predicate ReadsInstalled(input: Input, resident: map<D.Addr, D.Bitmaps>, ip: D.Addr) {
    && input.kernel && !input.afterTarget
    && (if ip in resident then input.routing == resident[ip].routing && input.bump == Some(resident[ip].bump)
        else input.routing == {} && input.bump == None)
  }

  // The same flow matched in userspace by one name.
  function ByName(input: Input, bitmap: set<nat>): Input {
    input.(kernel := false, routing := bitmap, bump := None)
  }

  lemma {:induction false} FoldBrackets(v: D.View, name: string, ip: D.Addr)
    requires D.Key(name, ip) in v.deadlines
    ensures D.Routing(v, ip) <= D.BitmapOf(v, name) <= D.Bump(v, ip)
  {
    var k := D.Key(name, ip);
    forall x <- D.Routing(v, ip)
      ensures x in D.BitmapOf(v, name)
    {
      assert D.InAll(v, ip, x) && k.ip == ip;
    }
    forall x <- D.BitmapOf(v, name)
      ensures x in D.Bump(v, ip)
    {
      assert k in v.deadlines && x in D.BitmapOf(v, k.name);
    }
  }

  // Coverage means the name is one of those the kernel's bitmaps stand for.
  lemma {:induction false} CoveredIsNameOf(v: D.View, resident: map<D.Addr, D.Bitmaps>, name: string, ip: D.Addr,
                                           input: Input)
    requires R.Verified(v, resident, name, ip).kernelCovered && ReadsInstalled(input, resident, ip)
    ensures Ambiguity.NameOf(ByName(input, D.BitmapOf(v, name)), input)
  {
    FoldBrackets(v, name, ip);
  }

  // A definite uncaptured decision that is kept because there is no name or the
  // kernel was covered; then it is exactly what matching by the name gives.
  lemma {:induction false} KeptDecisionIsExact(c: ProfileCompiler, pool: seq<Instr>, kernelEnd: nat,
                                               p: CompiledProfile, policy: Policy,
                                               v: D.View, resident: map<D.Addr, D.Bitmaps>, name: string, ip: D.Addr,
                                               input: Input, verify: VerifyMode, known: bool, dialOverride: bool)
    requires CompiledFor(c, pool, kernelEnd, p, policy) && input.valid && ReadsInstalled(input, resident, ip)
    requires Evaluate(pool, p.spans, input).Decided?
    requires var e := Evaluate(pool, p.spans, input).value; e.captures == {} && Usable(e.outbound)
    requires !VerifySniff(verify, name, R.Verified(v, resident, name, ip), known).shouldReroute
    ensures var e := Evaluate(pool, p.spans, input).value;
      var sniff := VerifySniff(verify, name, R.Verified(v, resident, name, ip), known);
      var facts := RouteFacts(e.outbound, e.captures, false, WhileNeeded, AsTruth(sniff.verified),
                              AsTruth(sniff.shouldReroute), dialOverride);
      PlanRoute(facts).action == Keep && !PlanRoute(facts).target
    ensures name != ""
      ==> Evaluate(pool, p.spans, ByName(input, D.BitmapOf(v, name))) == Evaluate(pool, p.spans, input)
  {
    if name != "" {
      CoveredIsNameOf(v, resident, name, ip, input);
      CompiledApproximates(c, pool, kernelEnd, p, policy, input, ByName(input, D.BitmapOf(v, name)));
    }
  }
}
