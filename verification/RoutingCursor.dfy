/** A cursor over span lists: a position in the flattened program together with
    the span, and the pool index, that it falls on. */
module RoutingCursor {
  import opened RoutingInstructions
  import opened RoutingSpans

  // Execution position of the first instruction of a span.
  function Offset(spans: seq<Span>, span: nat): int
    requires span <= |spans|
  {
    ExecutionLength(spans[..span])
  }

  lemma {:induction false} OffsetStep(spans: seq<Span>, span: nat)
    requires span < |spans|
    ensures Offset(spans, span + 1) == Offset(spans, span) + spans[span].end - spans[span].start
    ensures Offset(spans, |spans|) == ExecutionLength(spans)
  {
    assert spans[..|spans|] == spans;
    ExecutionLengthSnoc(spans[..span], spans[span]);
    assert spans[..span + 1] == spans[..span] + [spans[span]];
  }

  lemma {:induction false} ExecutionLengthSnoc(spans: seq<Span>, last: Span)
    ensures ExecutionLength(spans + [last]) == ExecutionLength(spans) + last.end - last.start
  {
    if spans == [] {
      assert [last][1..] == [];
    } else {
      assert (spans + [last])[1..] == spans[1..] + [last];
      ExecutionLengthSnoc(spans[1..], last);
    }
  }

  // The position-to-instruction map: position Offset(span) + k executes
  // instruction start + k of that span.
  lemma {:induction false} FlattenAt(pool: seq<Instr>, spans: seq<Span>, span: nat, instruction: nat)
    requires InPool(pool, spans) && span < |spans|
    requires spans[span].start <= instruction < spans[span].end
    ensures 0 <= Offset(spans, span) + instruction - spans[span].start < |Flatten(pool, spans)|
    ensures Flatten(pool, spans)[Offset(spans, span) + instruction - spans[span].start]
         == Op(pool[instruction], spans[span].phase)
    ensures Offset(spans, span) + spans[span].end - spans[span].start <= |Flatten(pool, spans)|
  {
    FlattenLength(pool, spans[..span]);
    FlattenLength(pool, spans[span + 1..]);
    FlattenConcat(pool, spans[..span], spans[span..]);
    assert spans == spans[..span] + spans[span..];
    assert spans[span..][0] == spans[span] && spans[span..][1..] == spans[span + 1..];
  }

  class Cursor {
    const spans: seq<Span>
    const length: nat
    var span: nat
    var instruction: nat
    var position: nat

    ghost predicate WellFormed() {
      && length == ExecutionLength(spans)
      && forall i :: 0 <= i < |spans| ==> spans[i].start <= spans[i].end
    }

    // At an executable instruction, or at the end of the program.
    ghost predicate Valid()
      reads this
    {
      && WellFormed()
      && span <= |spans|
      && position <= length
      && (span == |spans| ==> position == length)
      && (span < |spans| ==>
            && spans[span].start <= instruction < spans[span].end
            && position == Offset(spans, span) + instruction - spans[span].start)
    }

    constructor (spans: seq<Span>)
      requires forall i :: 0 <= i < |spans| ==> spans[i].start <= spans[i].end
      ensures Valid() && this.spans == spans && position == 0
    {
      LengthNonNegative(spans);
      this.spans := spans;
      length := ExecutionLength(spans);
      span, instruction, position := 0, 0, 0;
      new;
      Seek(0);
    }

    // Position of the cursor's instruction, which a new span has not set yet.
    ghost function Settled(): int
      requires span < |spans|
      reads this
    {
      Offset(spans, span) + (if instruction < spans[span].start then 0 else instruction - spans[span].start)
    }

    // The scan shared by construction and every advance: settle the current
    // span, then walk whole spans until the remaining distance fits.
    method Seek(distance: nat)
      requires WellFormed() && span <= |spans|
      requires span < |spans| && instruction > spans[span].start ==> instruction <= spans[span].end
      requires span == |spans| ==> distance == 0 && position == length
      requires span < |spans| ==> position == distance + Settled()
      requires position <= length
      modifies this`span, this`instruction
      ensures Valid()
    {
      var rest: nat := distance;
      while span < |spans|
        invariant span <= |spans|
        invariant span < |spans| && instruction > spans[span].start ==> instruction <= spans[span].end
        invariant span == |spans| ==> rest == 0 && position == length
        invariant span < |spans| ==> position == rest + Settled()
        decreases |spans| - span
      {
        OffsetStep(spans, span);
        if instruction < spans[span].start {
          instruction := spans[span].start;
        }
        var remaining := spans[span].end - instruction;
        if rest < remaining {
          instruction := instruction + rest;
          return;
        }
        rest := rest - remaining;
        span := span + 1;
        instruction := 0;
      }
    }

    method Advance(distance: nat) returns (ok: bool)
      requires Valid()
      modifies this`span, this`instruction, this`position
      ensures Valid()
      ensures ok <==> distance <= length - old(position)
      ensures position == if ok then old(position) + distance else old(position)
      ensures !ok ==> span == old(span) && instruction == old(instruction)
    {
      if distance > length - position {
        return false;
      }
      position := position + distance;
      Seek(distance);
      return true;
    }
  }

  lemma {:induction false} LengthNonNegative(spans: seq<Span>)
    requires forall i :: 0 <= i < |spans| ==> spans[i].start <= spans[i].end
    ensures ExecutionLength(spans) >= 0
  {
    if spans != [] {
      LengthNonNegative(spans[1..]);
    }
  }
}
