/** The step table uploaded for each profile: the profile's execution order as
    indices into the kernel pool. */
module RoutingKernelTable {
  import opened RoutingInstructions
  import opened RoutingSpans
  import opened RoutingCursor
  import opened RoutingPolicies
  import opened RoutingProfiles
  import opened RoutingFinish

  newtype uint16 = x: int | 0 <= x < 0x1_0000

  datatype KernelProfile = KernelProfile(steps: array<uint16>, length: nat)

  // Step k runs the instruction at execution position k, inside the kernel pool.
  ghost predicate Step(pool: seq<Instr>, kernelEnd: nat, spans: seq<Span>, step: int, k: nat)
    requires InPool(pool, spans)
  {
    && k < |Flatten(pool, spans)|
    && 0 <= step < kernelEnd <= |pool|
    && pool[step] == Flatten(pool, spans)[k].instr
  }

  ghost predicate Table(pool: seq<Instr>, kernelEnd: nat, spans: seq<Span>, value: KernelProfile, length: nat)
    requires InPool(pool, spans)
    reads value.steps
  {
    && length <= value.steps.Length
    && forall k: nat {:trigger Step(pool, kernelEnd, spans, value.steps[k] as int, k)} ::
         k < length ==> Step(pool, kernelEnd, spans, value.steps[k] as int, k)
  }

  lemma {:induction false} OffsetWithin(spans: seq<Span>, span: nat)
    requires span <= |spans| && forall i :: 0 <= i < |spans| ==> spans[i].start <= spans[i].end
    ensures 0 <= Offset(spans, span) <= ExecutionLength(spans)
  {
    LengthNonNegative(spans[..span]);
    LengthNonNegative(spans[span..]);
    ExecutionLengthConcat(spans[..span], spans[span..]);
    assert spans == spans[..span] + spans[span..];
  }

  lemma {:induction false} ExecutionLengthConcat(a: seq<Span>, b: seq<Span>)
    ensures ExecutionLength(a + b) == ExecutionLength(a) + ExecutionLength(b)
  {
    if a == [] {
      assert a + b == b;
    } else {
      assert (a + b)[1..] == a[1..] + b;
      ExecutionLengthConcat(a[1..], b);
    }
  }

  method EncodeProfile(ghost pool: seq<Instr>, ghost kernelEnd: nat, spans: seq<Span>) returns (value: KernelProfile)
    requires kernelEnd <= |pool| && kernelEnd <= MAX_MATCH_SETS
    requires InPool(pool, spans) && InPool(pool[..kernelEnd], spans)
    requires ExecutionLength(spans) <= MAX_MATCH_SETS
    ensures fresh(value.steps) && value.steps.Length == MAX_MATCH_SETS
    ensures value.length == |Flatten(pool, spans)|
    ensures Table(pool, kernelEnd, spans, value, value.length)
  {
    var steps := new uint16[MAX_MATCH_SETS];
    value := KernelProfile(steps, 0);
    FlattenLength(pool, spans);
    var i := 0;
    while i < |spans|
      invariant 0 <= i <= |spans| && value.steps == steps
      invariant value.length == Offset(spans, i)
      invariant Table(pool, kernelEnd, spans, value, value.length)
    {
      var at := spans[i].start;
      OffsetStep(spans, i);
      OffsetWithin(spans, i + 1);
      while at < spans[i].end
        invariant spans[i].start <= at <= spans[i].end && value.steps == steps
        invariant value.length == Offset(spans, i) + at - spans[i].start
        invariant Table(pool, kernelEnd, spans, value, value.length)
      {
        FlattenAt(pool, spans, i, at);
        assert Step(pool, kernelEnd, spans, at, value.length);
        steps[value.length] := at as uint16;
        value := value.(length := value.length + 1);
        at := at + 1;
      }
      i := i + 1;
    }
    assert spans[..|spans|] == spans;
  }

  method EncodeRoutingProfiles(ghost c: ProfileCompiler, m: Matcher, ghost policies: seq<Policy>)
    returns (values: seq<KernelProfile>)
    requires MatcherFor(c, m, policies)
    ensures |values| == |m.profiles|
    ensures forall i :: 0 <= i < |values| ==>
      && values[i].length == ExecutionLength(m.profiles[i].spans) <= values[i].steps.Length
      && InPool(m.pool, m.profiles[i].spans)
      && Table(m.pool, m.kernelEnd, m.profiles[i].spans, values[i], values[i].length)
  {
    values := [];
    var i := 0;
    while i < |m.profiles|
      invariant 0 <= i <= |m.profiles| && |values| == i
      invariant forall j :: 0 <= j < i ==>
        && fresh(values[j].steps)
        && values[j].length == ExecutionLength(m.profiles[j].spans) <= values[j].steps.Length
        && InPool(m.pool, m.profiles[j].spans)
        && Table(m.pool, m.kernelEnd, m.profiles[j].spans, values[j], values[j].length)
    {
      assert CompiledFor(c, m.pool, m.kernelEnd, m.profiles[i], policies[i]);
      var value := EncodeProfile(m.pool, m.kernelEnd, m.profiles[i].spans);
      FlattenLength(m.pool, m.profiles[i].spans);
      values := values + [value];
      i := i + 1;
    }
  }
}
