/** Relative jump distances of logical instructions. AND misses leave the rule,
    OR hits go to the tail of their clause. */
module RoutingJumps {
  import opened RoutingInstructions
  import opened RoutingSpans

  // First index from i on that ends a clause, and that ends a rule.
  function ClauseTail(code: seq<Instr>, i: nat): (tail: nat)
    requires i <= |code|
    ensures i <= tail <= |code|
    ensures tail < |code| ==> code[tail].action != Or
    decreases |code| - i
  {
    if i == |code| || code[i].action != Or then i else ClauseTail(code, i + 1)
  }

  function RuleTail(code: seq<Instr>, i: nat): (tail: nat)
    requires i <= |code|
    ensures i <= tail <= |code|
    ensures tail < |code| ==> !Linking(code[tail])
    decreases |code| - i
  {
    if i == |code| || !Linking(code[i]) then i else RuleTail(code, i + 1)
  }

  // Where an AND miss continues: behind the rule, or behind the whole body that
  // a conditional rule guards.
  function RuleEnd(code: seq<Instr>, i: nat): nat
    requires i <= |code|
  {
    var tail := RuleTail(code, i);
    if tail < |code| && code[tail].action == ConditionalJump then tail + code[tail].mark else tail + 1
  }

  predicate EndsRule(code: seq<Instr>) {
    code == [] || !Linking(code[|code| - 1])
  }

  predicate JumpInRange(i: Instr) {
    i.action == ConditionalJump ==> 1 < i.mark <= MAX_MATCH_SETS
  }

  predicate Encodable(code: seq<Instr>) {
    EndsRule(code) && forall k :: 0 <= k < |code| ==> JumpInRange(code[k])
  }

  function Linked(code: seq<Instr>, i: nat): Instr
    requires i < |code|
  {
    match code[i].action
    case And => code[i].(mark := RuleEnd(code, i) - i)
    case Or => code[i].(mark := ClauseTail(code, i) - i)
    case _ => code[i]
  }

  function Encode(code: seq<Instr>): (r: seq<Instr>)
    ensures |r| == |code|
    ensures forall k :: 0 <= k < |code| ==> r[k] == Linked(code, k)
  {
    seq(|code|, k requires 0 <= k < |code| => Linked(code, k))
  }

  // One step of the backward pass, at match set i.
  method LinkOne(ghost code: seq<Instr>, i: nat, rule: Instr, ruleEnd: int, clauseTail: int)
    returns (ok: bool, linked: Instr, end: int, tail: int)
    requires i < |code| && rule == code[i]
    requires i + 1 == |code| ==> ruleEnd == clauseTail == -1
    requires i + 1 < |code| ==> Scanned(code, i + 1, ruleEnd, clauseTail)
    ensures ok == ((i + 1 < |code| || EndsRule(code)) && JumpInRange(rule))
    ensures ok ==> linked == Linked(code, i) && Scanned(code, i, end, tail)
  {
    ok, linked, end, tail := true, rule, ruleEnd, clauseTail;
    Ends(code, i);
    match rule.action {
      case And =>
        if ruleEnd <= i {
          ok := false;
          return;
        }
        linked := rule.(mark := ruleEnd - i);
        tail := i;
      case Or =>
        if clauseTail <= i {
          ok := false;
          return;
        }
        linked := rule.(mark := clauseTail - i);
      case _ =>
        end, tail := i + 1, i;
        if rule.action == ConditionalJump {
          if rule.mark <= 1 || rule.mark > MAX_MATCH_SETS {
            ok := false;
            return;
          }
          end := i + rule.mark;
        }
    }
  }

  // How the ends seen from one match set follow from those seen from the next.
  lemma {:induction false} Ends(code: seq<Instr>, i: nat)
    requires i < |code|
    ensures Linking(code[i]) ==> RuleTail(code, i) == RuleTail(code, i + 1) && RuleEnd(code, i) == RuleEnd(code, i + 1)
    ensures !Linking(code[i]) ==> RuleTail(code, i) == i
    ensures ClauseTail(code, i) == if code[i].action == Or then ClauseTail(code, i + 1) else i
    ensures i + 1 == |code| ==> RuleTail(code, i + 1) == ClauseTail(code, i + 1) == |code|
  {
  }

  // Absolute ends carried by the backward pass once the pool ends a rule.
  ghost predicate Scanned(code: seq<Instr>, i: nat, ruleEnd: int, clauseTail: int)
    requires i < |code|
  {
    && EndsRule(code)
    && RuleTail(code, i) < |code|
    && ruleEnd == RuleEnd(code, i)
    && clauseTail == ClauseTail(code, i)
  }

  // Backward pass in place. It rejects exactly the pools with a dangling clause
  // or an out-of-range conditional jump.
  method EncodeRoutingJumps(rules: array<Instr>) returns (ok: bool)
    modifies rules
    ensures ok == Encodable(old(rules[..]))
    ensures ok ==> rules[..] == Encode(old(rules[..]))
  {
    ghost var code := rules[..];
    var ruleEnd, clauseTail := -1, -1;
    var i := rules.Length;
    while i > 0
      invariant 0 <= i <= rules.Length == |code|
      invariant i == |code| ==> ruleEnd == clauseTail == -1
      invariant i < |code| ==> Scanned(code, i, ruleEnd, clauseTail)
      invariant forall k :: i <= k < |code| ==> JumpInRange(code[k])
      invariant forall k :: i <= k < |code| ==> rules[k] == Linked(code, k)
      invariant forall k :: 0 <= k < i ==> rules[k] == code[k]
    {
      i := i - 1;
      var linked;
      ok, linked, ruleEnd, clauseTail := LinkOne(code, i, rules[i], ruleEnd, clauseTail);
      if !ok {
        return;
      }
      rules[i] := linked;
    }
    return true;
  }

  // Distances are relative and never look past the end of their rule, so a
  // fragment that ends a rule encodes the same wherever it lies in the pool.
  lemma {:induction false} LinkedInFragment(code: seq<Instr>, start: nat, end: nat, i: nat)
    requires start <= i < end <= |code| && EndsRule(code[start..end])
    ensures Linked(code, i) == Linked(code[start..end], i - start)
  {
    var part := code[start..end];
    TailInFragment(code, start, end, i);
  }

  lemma {:induction false} TailInFragment(code: seq<Instr>, start: nat, end: nat, i: nat)
    requires start <= i < end <= |code| && EndsRule(code[start..end])
    ensures RuleTail(code, i) == start + RuleTail(code[start..end], i - start) < end
    ensures ClauseTail(code, i) == start + ClauseTail(code[start..end], i - start) < end
    decreases end - i
  {
    if i + 1 < end {
      TailInFragment(code, start, end, i + 1);
    } else {
      assert code[start..end][i - start] == code[i];
    }
  }

  lemma {:induction false} EncodeFragment(code: seq<Instr>, start: nat, end: nat)
    requires start <= end <= |code| && EndsRule(code[start..end])
    ensures Encode(code)[start..end] == Encode(code[start..end])
  {
    forall i | start <= i < end
      ensures Encode(code)[i] == Encode(code[start..end])[i - start]
    {
      LinkedInFragment(code, start, end, i);
    }
  }

  lemma {:induction false} EncodeConcat(a: seq<Instr>, b: seq<Instr>)
    requires EndsRule(a) && EndsRule(b)
    ensures EndsRule(a + b)
    ensures Encode(a + b) == Encode(a) + Encode(b)
  {
    var c := a + b;
    assert c[0..|a|] == a && c[|a|..|c|] == b;
    EncodeFragment(c, 0, |a|);
    EncodeFragment(c, |a|, |c|);
  }

  ghost predicate EndsRules(pool: seq<Instr>, spans: seq<Span>)
    requires InPool(pool, spans)
  {
    forall i :: 0 <= i < |spans| ==> EndsRule(pool[spans[i].start..spans[i].end])
  }

  function Instrs(ops: seq<Op>): (code: seq<Instr>)
    ensures |code| == |ops|
    ensures forall k :: 0 <= k < |ops| ==> code[k] == ops[k].instr
  {
    seq(|ops|, k requires 0 <= k < |ops| => ops[k].instr)
  }

  lemma {:induction false} FlattenPhases(pool: seq<Instr>, other: seq<Instr>, spans: seq<Span>)
    requires InPool(pool, spans) && |other| == |pool|
    ensures InPool(other, spans) && |Flatten(other, spans)| == |Flatten(pool, spans)|
    ensures forall k :: 0 <= k < |Flatten(pool, spans)| ==>
              Flatten(other, spans)[k].phase == Flatten(pool, spans)[k].phase
  {
    if spans != [] {
      FlattenPhases(pool, other, spans[1..]);
    }
  }

  lemma {:induction false} InstrsConcat(a: seq<Op>, b: seq<Op>)
    ensures Instrs(a + b) == Instrs(a) + Instrs(b)
  {
  }

  lemma {:induction false} InstrsOfTag(code: seq<Instr>, phase: Phase)
    ensures Instrs(Tag(code, phase)) == code
  {
  }

  // Splicing and encoding commute: running one backward pass over the shared
  // pool gives every profile the jumps of its own execution order.
  lemma {:induction false} EncodeFlatten(pool: seq<Instr>, spans: seq<Span>)
    requires InPool(pool, spans) && EndsRules(pool, spans)
    ensures InPool(Encode(pool), spans)
    ensures EndsRule(Instrs(Flatten(pool, spans)))
    ensures Instrs(Flatten(Encode(pool), spans)) == Encode(Instrs(Flatten(pool, spans)))
  {
    if spans != [] {
      var part := pool[spans[0].start..spans[0].end];
      EncodeFlatten(pool, spans[1..]);
      EncodeFragment(pool, spans[0].start, spans[0].end);
      InstrsOfTag(part, spans[0].phase);
      InstrsOfTag(Encode(part), spans[0].phase);
      InstrsConcat(SpanOps(pool, spans[0]), Flatten(pool, spans[1..]));
      InstrsConcat(SpanOps(Encode(pool), spans[0]), Flatten(Encode(pool), spans[1..]));
      EncodeConcat(part, Instrs(Flatten(pool, spans[1..])));
    }
  }
}
