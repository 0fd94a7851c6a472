/** One "uncertain until" position against an explicit stack of entered scopes. */
module RoutingScopes {
  import opened RoutingInstructions
  import opened RoutingSpans
  import opened RoutingMachine
  import opened RoutingBlocks

  // A scope that was entered, innermost last, and whether its condition was
  // only possibly true.
  datatype Frame = Frame(end: nat, unknown: bool)

  function Leave(frames: seq<Frame>, position: nat): (open: seq<Frame>)
    ensures open <= frames
  {
    if frames == [] || position < frames[|frames| - 1].end then frames
    else Leave(frames[..|frames| - 1], position)
  }

  predicate Doubtful(frames: seq<Frame>) {
    exists f <- frames :: f.unknown
  }

  // The value of the clause that ends at this instruction.
  function ClauseAt(i: Instr, m: Machine, input: Input): Truth {
    var value := if m.subrule == MATCH then MATCH else Larger(m.subrule, input.Test(i.test));
    if i.negated then Negate(value) else value
  }

  function Enter(open: seq<Frame>, i: Instr, position: nat, m: Machine, input: Input): seq<Frame> {
    if i.action == ConditionalJump && ClauseAt(i, m, input) != MISS then
      open + [Frame(position + i.mark, m.ruleUnknown || ClauseAt(i, m, input) == UNKNOWN)]
    else open
  }

  // What the stack machine's instruction sees of the boundary.
  function Seen(m: Machine, open: seq<Frame>, position: nat): Machine {
    m.(uncertainUntil := if Doubtful(open) then position + 1 else 0)
  }

  // The machine that remembers every entered scope instead of one position: a
  // rule is uncertain when some scope open around it was entered in doubt.
  function RunScoped(code: seq<Op>, position: nat, m: Machine, frames: seq<Frame>, input: Input): Outcome
    requires position <= |code|
    decreases |code| - position
  {
    if position == |code| then Failed(NoMatchSetHit)
    else if input.afterTarget && code[position].phase == IngressPhase then
      RunScoped(code, position + 1, m, frames, input)
    else
      var i, open := code[position].instr, Leave(frames, position);
      match Transit(i, position, |code|, Seen(m, open, position), input)
      case Halt(outcome) => outcome
      case Goto(distance, next) =>
        if distance == 0 || position + distance > |code| then Failed(InvalidJump)
        else RunScoped(code, position + distance, next, Enter(open, i, position, m, input), input)
  }

  // Frames belong to conditional blocks of the program, each inside the one
  // below it, and the boundary is the end of the outermost doubtful one.
  ghost predicate Agree(code: seq<Op>, position: nat, until: nat, frames: seq<Frame>)
    requires position <= |code|
  {
    && (forall k :: 0 <= k < |frames| ==> Entered(code, position, frames[k]))
    && (forall j, k :: 0 <= j < k < |frames| ==> frames[k].end <= frames[j].end)
    && (forall k :: 0 <= k < |frames| && frames[k].unknown ==> frames[k].end <= until)
    && (position < until ==> exists k :: 0 <= k < |frames| && frames[k] == Frame(until, true))
  }

  ghost predicate Entered(code: seq<Op>, position: nat, frame: Frame)
    requires position <= |code|
  {
    exists p: nat :: p < position && Conditional(code[p]) && frame.end == ScopeEnd(code, p)
  }

  lemma {:induction false} LeaveAll(frames: seq<Frame>, position: nat)
    requires forall j, k :: 0 <= j < k < |frames| ==> frames[k].end <= frames[j].end
    ensures forall k :: 0 <= k < |Leave(frames, position)| ==> position < frames[k].end
    ensures forall k :: |Leave(frames, position)| <= k < |frames| ==> frames[k].end <= position
    decreases |frames|
  {
    if frames != [] && frames[|frames| - 1].end <= position {
      LeaveAll(frames[..|frames| - 1], position);
    }
  }

  // The single position marks a rule uncertain exactly when a scope that is
  // still open around it was entered with an unknown condition.
  lemma {:induction false} BoundaryIsStack(code: seq<Op>, position: nat, until: nat, frames: seq<Frame>)
    requires position <= |code| && Agree(code, position, until, frames)
    ensures position < until <==> Doubtful(Leave(frames, position))
    ensures Agree(code, position, until, Leave(frames, position))
  {
    var open := Leave(frames, position);
    LeaveAll(frames, position);
    if position < until {
      var k :| 0 <= k < |frames| && frames[k] == Frame(until, true);
      assert open[k] == Frame(until, true);
    }
    if Doubtful(open) {
      var f :| f in open && f.unknown;
      var k :| 0 <= k < |open| && open[k] == f;
      assert frames[k] == f;
    }
  }

  // A transition depends on the boundary only through "is this position inside".
  ghost predicate Alike(a: Transition, b: Transition, until: nat) {
    match a
    case Halt(_) => b == a
    case Goto(distance, next) =>
      && b.Goto? && b.distance == distance && b.machine == next.(uncertainUntil := b.machine.uncertainUntil)
      && next.uncertainUntil == until
  }

  lemma {:induction false} TerminalBoundary(i: Instr, position: nat, length: nat, m: Machine, other: nat, input: Input)
    requires !Linking(i) && (position < other <==> position < m.uncertainUntil)
    ensures Alike(Terminal(i, position, length, m, input),
                  Terminal(i, position, length, m.(uncertainUntil := other), input),
                  if i.action == ConditionalJump && m.ruleUnknown && m.uncertainUntil < position + i.mark
                  then position + i.mark else m.uncertainUntil)
  {
  }

  lemma {:induction false} ConcludeBoundary(i: Instr, value: Truth, position: nat, length: nat, m: Machine, other: nat,
                                            input: Input)
    requires i.action != Or && (position < other <==> position < m.uncertainUntil)
    ensures var clause := if i.negated then Negate(value) else value;
      Alike(Conclude(i, value, position, length, m, input),
            Conclude(i, value, position, length, m.(uncertainUntil := other), input),
            if i.action == ConditionalJump && clause != MISS && (m.ruleUnknown || clause == UNKNOWN)
               && m.uncertainUntil < position + i.mark
            then position + i.mark else m.uncertainUntil)
  {
    var clause := if i.negated then Negate(value) else value;
    if clause != MISS && i.action != And {
      var next := m.(subrule := MISS, ruleUnknown := m.ruleUnknown || clause == UNKNOWN);
      TerminalBoundary(i, position, length, next, other, input);
    }
  }

  lemma {:induction false} TransitBoundary(i: Instr, position: nat, length: nat, m: Machine, other: nat, input: Input)
    requires position < other <==> position < m.uncertainUntil
    ensures Alike(Transit(i, position, length, m, input),
                  Transit(i, position, length, m.(uncertainUntil := other), input), Raised(i, position, m, input))
  {
    if i.action != Or {
      var value := if m.subrule == MATCH then MATCH else Larger(m.subrule, input.Test(i.test));
      ConcludeBoundary(i, value, position, length, m, other, input);
    }
  }

  // The boundary after an instruction.
  function Raised(i: Instr, position: nat, m: Machine, input: Input): nat {
    if i.action == ConditionalJump && ClauseAt(i, m, input) != MISS
       && (m.ruleUnknown || ClauseAt(i, m, input) == UNKNOWN) && m.uncertainUntil < position + i.mark
    then position + i.mark else m.uncertainUntil
  }

  lemma {:induction false} AgreeOn(code: seq<Op>, position: nat, m: Machine, open: seq<Frame>, distance: nat,
                                   input: Input)
    requires position < |code| && 0 < distance <= |code| - position && WellNested(code, |code|)
    requires Agree(code, position, m.uncertainUntil, open)
    requires forall k :: 0 <= k < |open| ==> position < open[k].end
    ensures var i := code[position].instr;
      Agree(code, position + distance, Raised(i, position, m, input), Enter(open, i, position, m, input))
  {
    var i := code[position].instr;
    var frames, until := Enter(open, i, position, m, input), Raised(i, position, m, input);
    forall k | 0 <= k < |frames|
      ensures Entered(code, position + distance, frames[k])
    {
      if k < |open| {
        assert frames[k] == open[k] && Entered(code, position, open[k]);
      } else {
        assert Conditional(code[position]) && frames[k].end == ScopeEnd(code, position);
      }
    }
    if frames != open {
      forall k | 0 <= k < |open|
        ensures frames[|open|].end <= open[k].end
      {
        assert Entered(code, position, open[k]);
        var p: nat :| p < position && Conditional(code[p]) && open[k].end == ScopeEnd(code, p);
        InnerEndsFirst(code, p, position);
      }
    }
    if position + distance < until {
      if until == m.uncertainUntil {
        var k :| 0 <= k < |open| && open[k] == Frame(until, true);
        assert frames[k] == Frame(until, true);
      } else {
        assert frames[|open|] == Frame(until, true);
      }
    }
  }

  lemma {:induction false} InnerEndsFirst(code: seq<Op>, p: nat, q: nat)
    requires WellNested(code, |code|)
    requires p < q < |code| && Conditional(code[p]) && Conditional(code[q]) && q < ScopeEnd(code, p)
    ensures ScopeEnd(code, q) <= ScopeEnd(code, p)
  {
    assert Encloses(code, p, q);
  }

  ghost predicate SameOutcome(code: seq<Op>, position: nat, m: Machine, m': Machine, frames: seq<Frame>, input: Input)
    requires position <= |code|
  {
    Run(code, position, m, input) == RunScoped(code, position, m', frames, input)
  }

  lemma {:induction false} ScopedFrom(code: seq<Op>, position: nat, m: Machine, m': Machine, frames: seq<Frame>,
                                      input: Input)
    requires position <= |code| && WellNested(code, |code|)
    requires m' == m.(uncertainUntil := m'.uncertainUntil)
    requires Agree(code, position, m.uncertainUntil, frames)
    ensures SameOutcome(code, position, m, m', frames, input)
    decreases |code| - position
  {
    if position == |code| {
      ScopedEnd(code, m, m', frames, input);
    } else {
      var runs, distance, next, next', open := StepTaken(code, position, m, m', frames, input);
      if runs {
        ScopedFrom(code, position + distance, next, next', open, input);
      }
    }
  }

  // Where both machines go, if they go on; then they end alike if they do from there.
  lemma {:induction false} StepTaken(code: seq<Op>, position: nat, m: Machine, m': Machine, frames: seq<Frame>,
                                     input: Input)
    returns (runs: bool, distance: nat, next: Machine, next': Machine, open: seq<Frame>)
    requires position < |code| && WellNested(code, |code|)
    requires m' == m.(uncertainUntil := m'.uncertainUntil)
    requires Agree(code, position, m.uncertainUntil, frames)
    ensures runs ==>
      && 0 < distance <= |code| - position && next' == next.(uncertainUntil := next'.uncertainUntil)
      && Agree(code, position + distance, next.uncertainUntil, open)
    ensures !runs ==> SameOutcome(code, position, m, m', frames, input)
    ensures runs && SameOutcome(code, position + distance, next, next', open, input)
      ==> SameOutcome(code, position, m, m', frames, input)
  {
    if input.afterTarget && code[position].phase == IngressPhase {
      AgreeLater(code, position, m.uncertainUntil, frames);
      runs, distance, next, next', open := true, 1, m, m', frames;
      if SameOutcome(code, position + 1, m, m', frames, input) {
        ScopedSkip(code, position, m, m', frames, input);
      }
      return;
    }
    var i, around := code[position].instr, Leave(frames, position);
    BoundaryIsStack(code, position, m.uncertainUntil, frames);
    LeaveAll(frames, position);
    open := Enter(around, i, position, m, input);
    runs, distance, next, next' := BothStep(code, position, m, m', frames, input);
    if runs {
      AgreeOn(code, position, m, around, distance, input);
    }
  }

  // A transition of both machines, whatever the program.
  lemma {:induction false} BothStep(code: seq<Op>, position: nat, m: Machine, m': Machine, frames: seq<Frame>,
                                    input: Input)
    returns (runs: bool, distance: nat, next: Machine, next': Machine)
    requires position < |code| && !(input.afterTarget && code[position].phase == IngressPhase)
    requires m' == m.(uncertainUntil := m'.uncertainUntil)
    requires position < m.uncertainUntil <==> Doubtful(Leave(frames, position))
    ensures runs ==>
      && 0 < distance <= |code| - position && next' == next.(uncertainUntil := next'.uncertainUntil)
      && next.uncertainUntil == Raised(code[position].instr, position, m, input)
    ensures var open := Enter(Leave(frames, position), code[position].instr, position, m, input);
      (runs ==> SameOutcome(code, position + distance, next, next', open, input))
      ==> SameOutcome(code, position, m, m', frames, input)
  {
    var t, t' := Transits(code, position, m, m', frames, input);
    runs := t.Goto? && 0 < t.distance <= |code| - position;
    if runs {
      distance, next, next' := t.distance, t.machine, t'.machine;
    } else {
      distance, next, next' := 0, m, m';
    }
  }

  // If both end alike behind their transitions, they do.
  ghost predicate EndAlike(code: seq<Op>, position: nat, m: Machine, m': Machine, frames: seq<Frame>, t: Transition,
                           t': Transition, open: seq<Frame>, input: Input)
    requires position < |code|
  {
    (t.Goto? && t'.Goto? && 0 < t.distance <= |code| - position ==>
       SameOutcome(code, position + t.distance, t.machine, t'.machine, open, input))
    ==> SameOutcome(code, position, m, m', frames, input)
  }

  lemma {:induction false} Transits(code: seq<Op>, position: nat, m: Machine, m': Machine, frames: seq<Frame>,
                                    input: Input)
    returns (t: Transition, t': Transition)
    requires position < |code| && !(input.afterTarget && code[position].phase == IngressPhase)
    requires m' == m.(uncertainUntil := m'.uncertainUntil)
    requires position < m.uncertainUntil <==> Doubtful(Leave(frames, position))
    ensures Alike(t, t', Raised(code[position].instr, position, m, input))
    ensures EndAlike(code, position, m, m', frames, t, t',
                     Enter(Leave(frames, position), code[position].instr, position, m, input), input)
  {
    var i, around := code[position].instr, Leave(frames, position);
    t, t' := Transit(i, position, |code|, m, input), Transit(i, position, |code|, Seen(m, around, position), input);
    TransitBoundary(i, position, |code|, m, if Doubtful(around) then position + 1 else 0, input);
    if t.Goto? && 0 < t.distance <= |code| - position
      ==> SameOutcome(code, position + t.distance, t.machine, t'.machine, Enter(around, i, position, m, input), input) {
      ScopedStep(code, position, m, m', frames, t, t', input);
    }
  }

  lemma {:induction false} ScopedEnd(code: seq<Op>, m: Machine, m': Machine, frames: seq<Frame>, input: Input)
    ensures SameOutcome(code, |code|, m, m', frames, input)
  {
  }

  lemma {:induction false} ScopedSkip(code: seq<Op>, position: nat, m: Machine, m': Machine, frames: seq<Frame>,
                                      input: Input)
    requires position < |code| && input.afterTarget && code[position].phase == IngressPhase
    requires SameOutcome(code, position + 1, m, m', frames, input)
    ensures SameOutcome(code, position, m, m', frames, input)
  {
  }

  lemma {:induction false} ScopedStep(code: seq<Op>, position: nat, m: Machine, m': Machine, frames: seq<Frame>,
                                      t: Transition, t': Transition, input: Input)
    requires position < |code| && !(input.afterTarget && code[position].phase == IngressPhase)
    requires m' == m.(uncertainUntil := m'.uncertainUntil)
    requires t == Transit(code[position].instr, position, |code|, m, input)
    requires t' == Transit(code[position].instr, position, |code|, Seen(m, Leave(frames, position), position), input)
    requires if t.Halt? then t' == t else t'.Goto? && t'.distance == t.distance
    requires t.Goto? && 0 < t.distance <= |code| - position ==>
      SameOutcome(code, position + t.distance, t.machine, t'.machine,
                  Enter(Leave(frames, position), code[position].instr, position, m, input), input)
    ensures SameOutcome(code, position, m, m', frames, input)
  {
    SameView(m, m', Leave(frames, position), code[position].instr, position, input);
    RunsBy(code, position, m, t, input);
    ScopedRunsBy(code, position, m', frames, t', input);
  }

  lemma {:induction false} SameView(m: Machine, m': Machine, open: seq<Frame>, i: Instr, position: nat, input: Input)
    requires m' == m.(uncertainUntil := m'.uncertainUntil)
    ensures Seen(m', open, position) == Seen(m, open, position)
    ensures Enter(open, i, position, m', input) == Enter(open, i, position, m, input)
  {
  }

  lemma {:induction false} RunsBy(code: seq<Op>, position: nat, m: Machine, t: Transition, input: Input)
    requires position < |code| && !(input.afterTarget && code[position].phase == IngressPhase)
    requires t == Transit(code[position].instr, position, |code|, m, input)
    ensures Run(code, position, m, input) ==
      match t
      case Halt(outcome) => outcome
      case Goto(distance, next) =>
        if distance == 0 || position + distance > |code| then Failed(InvalidJump)
        else Run(code, position + distance, next, input)
  {
  }

  lemma {:induction false} ScopedRunsBy(code: seq<Op>, position: nat, m: Machine, frames: seq<Frame>, t: Transition,
                                        input: Input)
    requires position < |code| && !(input.afterTarget && code[position].phase == IngressPhase)
    requires t == Transit(code[position].instr, position, |code|, Seen(m, Leave(frames, position), position), input)
    ensures RunScoped(code, position, m, frames, input) ==
      match t
      case Halt(outcome) => outcome
      case Goto(distance, next) =>
        if distance == 0 || position + distance > |code| then Failed(InvalidJump)
        else RunScoped(code, position + distance, next,
                       Enter(Leave(frames, position), code[position].instr, position, m, input), input)
  {
  }

  lemma {:induction false} AgreeLater(code: seq<Op>, position: nat, until: nat, frames: seq<Frame>)
    requires position < |code| && Agree(code, position, until, frames)
    ensures Agree(code, position + 1, until, frames)
  {
    forall k | 0 <= k < |frames|
      ensures Entered(code, position + 1, frames[k])
    {
      assert Entered(code, position, frames[k]);
    }
  }

  // For every accepted program the single position decides as the stack does.
  lemma {:induction false} OnePositionSuffices(code: seq<Op>, input: Input)
    requires WellNested(code, |code|)
    ensures Run(code, 0, START, input) == RunScoped(code, 0, START, [], input)
  {
    ScopedFrom(code, 0, START, START, [], input);
  }
}
