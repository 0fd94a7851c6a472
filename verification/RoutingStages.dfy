/** Skipping the ingress phase in place against deleting its spans. */
module RoutingStages {
  import opened RoutingInstructions
  import opened RoutingSpans
  import opened RoutingMachine
  import opened RoutingBlocks

  predicate Ingress(op: Op) {
    op.phase == IngressPhase
  }

  // The profile with every ingress span deleted.
  function WithoutIngress(spans: seq<Span>): seq<Span> {
    if spans == [] then []
    else if spans[0].phase == IngressPhase then WithoutIngress(spans[1..])
    else [spans[0]] + WithoutIngress(spans[1..])
  }

  function Kept(code: seq<Op>): seq<Op> {
    if code == [] then []
    else if Ingress(code[0]) then Kept(code[1..])
    else [code[0]] + Kept(code[1..])
  }

  lemma {:induction false} KeptConcat(a: seq<Op>, b: seq<Op>)
    ensures Kept(a + b) == Kept(a) + Kept(b)
  {
    if a == [] {
      assert a + b == b;
    } else {
      assert (a + b)[1..] == a[1..] + b;
      KeptConcat(a[1..], b);
    }
  }

  lemma {:induction false} KeptUniform(code: seq<Op>)
    requires forall k :: 0 <= k < |code| ==> code[k].phase == code[0].phase
    ensures Kept(code) == if code != [] && Ingress(code[0]) then [] else code
  {
    if |code| > 1 {
      assert code[1..][0] == code[1];
      KeptUniform(code[1..]);
    }
  }

  lemma {:induction false} FlattenWithoutIngress(pool: seq<Instr>, spans: seq<Span>)
    requires InPool(pool, spans)
    ensures InPool(pool, WithoutIngress(spans))
    ensures Flatten(pool, WithoutIngress(spans)) == Kept(Flatten(pool, spans))
  {
    if spans != [] {
      var first := SpanOps(pool, spans[0]);
      FlattenWithoutIngress(pool, spans[1..]);
      KeptConcat(first, Flatten(pool, spans[1..]));
      KeptUniform(first);
      if spans[0].phase != IngressPhase {
        FlattenConcat(pool, [spans[0]], WithoutIngress(spans[1..]));
        assert [spans[0]][1..] == [];
        assert Flatten(pool, [spans[0]]) == first;
      }
    }
  }

  // Position in the filtered program: instructions kept before p.
  function Place(code: seq<Op>, p: nat): nat
    requires p <= |code|
  {
    |Kept(code[..p])|
  }

  // No executed jump leaves the program or crosses into the ingress phase.
  ghost predicate JumpsStayInPhase(code: seq<Op>) {
    forall p: nat {:trigger JumpStays(code, p)} :: p < |code| ==> JumpStays(code, p)
  }

  ghost predicate JumpStays(code: seq<Op>, p: nat)
    requires p < |code|
  {
    (Linking(code[p].instr) || Conditional(code[p])) && !Ingress(code[p]) ==>
      && 0 < code[p].instr.mark <= |code| - p
      && forall k :: p <= k < p + code[p].instr.mark ==> !Ingress(code[k])
  }

  lemma {:induction false} PlaceStep(code: seq<Op>, p: nat)
    requires p < |code|
    ensures Place(code, p + 1) == Place(code, p) + (if Ingress(code[p]) then 0 else 1) <= |Kept(code)|
    ensures !Ingress(code[p]) ==> Kept(code)[Place(code, p)] == code[p]
  {
    var before, here, after := code[..p], [code[p]], code[p + 1..];
    assert code[..p + 1] == before + here && code == before + here + after;
    assert here[1..] == [];
    KeptConcat(before, here);
    KeptConcat(before + here, after);
  }

  lemma {:induction false} PlaceMonotone(code: seq<Op>, p: nat, q: nat)
    requires p <= q <= |code|
    ensures Place(code, p) <= Place(code, q)
    ensures (forall k :: p <= k < q ==> !Ingress(code[k])) ==> Place(code, q) == Place(code, p) + q - p
    decreases q - p
  {
    if p < q {
      PlaceMonotone(code, p, q - 1);
      PlaceStep(code, q - 1);
    }
  }

  lemma {:induction false} PlaceEnd(code: seq<Op>)
    ensures Place(code, 0) == 0 && Place(code, |code|) == |Kept(code)|
  {
    assert code[..|code|] == code;
  }

  // Boundaries compare the same in both coordinate systems.
  lemma {:induction false} PlaceOrder(code: seq<Op>, p: nat, until: nat)
    requires p < |code| && until <= |code| && !Ingress(code[p])
    ensures p < until <==> Place(code, p) < Place(code, until)
  {
    PlaceStep(code, p);
    if p < until {
      PlaceMonotone(code, p + 1, until);
    } else {
      PlaceMonotone(code, until, p);
    }
  }

  function Replace(code: seq<Op>, m: Machine): Machine
    requires m.uncertainUntil <= |code|
  {
    m.(uncertainUntil := Place(code, m.uncertainUntil))
  }

  // Two coordinate systems in which an instruction behaves alike.
  ghost predicate Alike(i: Instr, p: nat, length: nat, until: nat, p': nat, length': nat, until': nat) {
    && (p < until <==> p' < until')
    && (Linking(i) || i.action == ConditionalJump ==>
          && 0 < i.mark && p + i.mark <= length && p' + i.mark <= length'
          && (until < p + i.mark <==> until' < p' + i.mark))
  }

  lemma {:induction false} TransitAlike(i: Instr, p: nat, length: nat, m: Machine, p': nat, length': nat, until': nat,
                                        input: Input)
    requires Alike(i, p, length, m.uncertainUntil, p', length', until')
    ensures var t := Transit(i, p', length', m.(uncertainUntil := until'), input);
      match Transit(i, p, length, m, input)
      case Halt(outcome) => t == Halt(outcome)
      case Goto(distance, next) =>
        && (distance == 1 || ((Linking(i) || i.action == ConditionalJump) && distance == i.mark))
        && (if next.uncertainUntil == m.uncertainUntil
            then t == Goto(distance, next.(uncertainUntil := until'))
            else i.action == ConditionalJump && next.uncertainUntil == p + i.mark
                 && t == Goto(distance, next.(uncertainUntil := p' + i.mark)))
  {
  }

  lemma {:induction false} PlacesAlike(code: seq<Op>, p: nat, until: nat)
    requires p < |code| && !Ingress(code[p]) && JumpStays(code, p) && until <= |code|
    ensures Alike(code[p].instr, p, |code|, until, Place(code, p), |Kept(code)|, Place(code, until))
    ensures Place(code, p + 1) == Place(code, p) + 1
    ensures Linking(code[p].instr) || Conditional(code[p]) ==>
      Place(code, p + code[p].instr.mark) == Place(code, p) + code[p].instr.mark
  {
    PlaceStep(code, p);
    PlaceOrder(code, p, until);
    PlaceEnd(code);
    if Linking(code[p].instr) || Conditional(code[p]) {
      var end := p + code[p].instr.mark;
      PlaceMonotone(code, p, end);
      PlaceMonotone(code, end, |code|);
      PlaceStep(code, end - 1);
      if until < end {
        PlaceMonotone(code, until, end - 1);
      } else {
        PlaceMonotone(code, end, until);
      }
    }
  }

  // An executed instruction moves both programs alike.
  lemma {:induction false} TransitKept(code: seq<Op>, p: nat, m: Machine, input: Input)
    requires p < |code| && !Ingress(code[p]) && JumpStays(code, p) && m.uncertainUntil <= |code|
    ensures var i := code[p].instr;
      var t := Transit(i, Place(code, p), |Kept(code)|, Replace(code, m), input);
      match Transit(i, p, |code|, m, input)
      case Halt(outcome) => t == Halt(outcome)
      case Goto(distance, next) =>
        && 0 < distance <= |code| - p && next.uncertainUntil <= |code|
        && Place(code, p + distance) == Place(code, p) + distance
        && t == Goto(distance, Replace(code, next))
  {
    PlacesAlike(code, p, m.uncertainUntil);
    TransitAlike(code[p].instr, p, |code|, m, Place(code, p), |Kept(code)|, Place(code, m.uncertainUntil), input);
  }

  ghost predicate SameStage(code: seq<Op>, p: nat, m: Machine, input: Input)
    requires p <= |code| && m.uncertainUntil <= |code|
  {
    && Place(code, p) <= |Kept(code)|
    && Run(code, p, m, input) == Run(Kept(code), Place(code, p), Replace(code, m), input)
  }

  lemma {:induction false} SkipsAsFilters(code: seq<Op>, p: nat, m: Machine, input: Input)
    requires p <= |code| && JumpsStayInPhase(code) && m.uncertainUntil <= |code| && input.afterTarget
    ensures SameStage(code, p, m, input)
    decreases |code| - p
  {
    PlaceEnd(code);
    PlaceMonotone(code, p, |code|);
    if p < |code| {
      PlaceStep(code, p);
      if Ingress(code[p]) {
        SkipsAsFilters(code, p + 1, m, input);
      } else {
        assert JumpStays(code, p);
        TransitKept(code, p, m, input);
        match Transit(code[p].instr, p, |code|, m, input)
        case Halt(_) =>
        case Goto(distance, next) => SkipsAsFilters(code, p + distance, next, input);
        KeptStep(code, p, m, input);
      }
    }
  }

  lemma {:induction false} KeptStep(code: seq<Op>, p: nat, m: Machine, input: Input)
    requires p < |code| && !Ingress(code[p]) && JumpStays(code, p) && m.uncertainUntil <= |code|
    requires match Transit(code[p].instr, p, |code|, m, input)
      case Halt(_) => true
      case Goto(distance, next) =>
        0 < distance <= |code| - p && next.uncertainUntil <= |code| && SameStage(code, p + distance, next, input)
    ensures SameStage(code, p, m, input)
  {
    TransitKept(code, p, m, input);
    PlaceStep(code, p);
    Steps(code, p, m, input);
    Steps(Kept(code), Place(code, p), Replace(code, m), input);
  }

  lemma {:induction false} Steps(code: seq<Op>, p: nat, m: Machine, input: Input)
    requires p < |code| && !Ingress(code[p])
    ensures match Transit(code[p].instr, p, |code|, m, input)
      case Halt(outcome) => Run(code, p, m, input) == outcome
      case Goto(distance, next) =>
        0 < distance <= |code| - p ==> Run(code, p, m, input) == Run(code, p + distance, next, input)
  {
  }

  // After target selection, evaluating a profile equals evaluating it with its
  // ingress spans deleted.
  lemma {:induction false} StageSkipIsSpanFilter(pool: seq<Instr>, spans: seq<Span>, input: Input)
    requires InPool(pool, spans) && JumpsStayInPhase(Flatten(pool, spans)) && input.afterTarget
    ensures InPool(pool, WithoutIngress(spans))
    ensures Run(Flatten(pool, spans), 0, START, input) == Run(Flatten(pool, WithoutIngress(spans)), 0, START, input)
  {
    var code := Flatten(pool, spans);
    FlattenWithoutIngress(pool, spans);
    PlaceEnd(code);
    SkipsAsFilters(code, 0, START, input);
    assert Replace(code, START) == START;
  }
}
