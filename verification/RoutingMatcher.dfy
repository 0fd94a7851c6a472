/** The interpreter shared by userspace routing and destination programs. */
module RoutingMatcher {
  import opened Common
  import opened RoutingInstructions
  import opened RoutingSpans
  import opened RoutingMachine
  import opened RoutingCursor

  // What one evaluation of a profile's spans means.
  function Evaluate(pool: seq<Instr>, spans: seq<Span>, input: Input): Outcome
    requires InPool(pool, spans)
  {
    if !input.valid then Failed(InvalidAddress)
    else Run(Flatten(pool, spans), 0, START, input)
  }

  // The tail's action, once every clause holds or may hold.
  method Act(instr: Instr, unknown: bool, f: Flow, input: Input) returns (next: Flow, done: Option<Evaluation>)
    requires !Linking(instr) && instr.action != ConditionalJump
    ensures Perform(instr, unknown, f, input) == if done.Some? then Done(done.value) else Continue(next)
  {
    var simulateKernel := (input.kernel || input.bump.Some?) && !input.afterTarget;
    next, done := f, None;
    match instr.action {
      case Must =>
        if !unknown {
          next := f.(must := MATCH);
        } else {
          next := f.(must := Larger(f.must, UNKNOWN));
        }
      case Bump =>
        next := f.(bump := true);
      case Capture =>
        var captures := f.captures + instr.capture;
        next := f.(captures := captures);
        if simulateKernel && (Destination in captures || HttpRequest in captures) {
          done := Some(ToControlPlane(false, captures));
        }
      case FlowEnd =>
        if (simulateKernel && f.bump) || f.must == UNKNOWN {
          done := Some(ToControlPlane(f.must == MATCH, f.captures));
        }
      case Match =>
        done := Some(Evaluation(0, 0, false, {}, true));
      case Miss =>
        done := Some(Evaluation(0, 0, false, {}, false));
      case Route =>
        if instr.skipNoalive && instr.outbound in input.down {
          return;
        }
        if unknown {
          done := Some(ToControlPlane(f.must == MATCH, f.captures));
          return;
        }
        var forced, captures := f.must == MATCH || instr.must, f.captures;
        if simulateKernel && !forced && input.dnsPort && !instr.bypass {
          captures := captures + {Dns};
        }
        done := Some(Evaluation(instr.outbound, instr.mark, forced, captures, false));
    }
  }

  method Execute(instr: Instr, position: nat, length: nat, m: Machine, input: Input)
    returns (distance: nat, next: Machine, done: Option<Outcome>)
    requires position < length
    ensures Transit(instr, position, length, m, input)
         == if done.Some? then Halt(done.value) else Goto(distance, next)
  {
    distance, next, done := 1, m, None;
    if m.subrule != MATCH {
      next := m.(subrule := Larger(m.subrule, input.Test(instr.test)));
    }
    if instr.action == Or {
      if next.subrule == MATCH {
        distance := instr.mark;
      }
      return;
    }
    var clause := next.subrule;
    next := next.(subrule := MISS);
    if instr.negated {
      clause := MATCH - clause;
    }
    if clause == MISS {
      if instr.action == And || instr.action == ConditionalJump {
        distance := instr.mark;
      }
      next := next.(ruleUnknown := false);
      return;
    }
    next := next.(ruleUnknown := next.ruleUnknown || clause == UNKNOWN);
    if instr.action == And {
      return;
    }
    if instr.action == ConditionalJump {
      if instr.mark == 0 || instr.mark > length - position {
        done := Some(Failed(InvalidConditionalJump));
        return;
      }
      if next.ruleUnknown && next.uncertainUntil < position + instr.mark {
        next := next.(uncertainUntil := position + instr.mark);
      }
    } else {
      var flow, decision := Act(instr, next.ruleUnknown || position < next.uncertainUntil, next.flow, input);
      if decision.Some? {
        done := Some(Decided(decision.value));
        return;
      }
      next := next.(flow := flow);
    }
    next := next.(ruleUnknown := false);
  }

  // The program, continued from here, is going to decide goal.
  ghost predicate Remains(code: seq<Op>, position: nat, m: Machine, input: Input, goal: Outcome)
    requires position <= |code|
  {
    Run(code, position, m, input) == goal
  }

  // One turn of the loop: execute the current instruction and follow its jump.
  method Turn(pool: seq<Instr>, cursor: Cursor, ghost code: seq<Op>, m: Machine, input: Input, ghost goal: Outcome)
    returns (next: Machine, done: Option<Outcome>)
    requires cursor.Valid() && cursor.span < |cursor.spans| && cursor.length == |code|
    requires InPool(pool, cursor.spans) && code == Flatten(pool, cursor.spans)
    requires !(input.afterTarget && cursor.spans[cursor.span].phase == IngressPhase)
    requires Remains(code, cursor.position, m, input, goal)
    modifies cursor`span, cursor`instruction, cursor`position
    ensures cursor.Valid()
    ensures done.None? ==> old(cursor.position) < cursor.position
    ensures if done.Some? then done.value == goal else Remains(code, cursor.position, next, input, goal)
  {
    var i, position := cursor.instruction, cursor.position;
    FlattenAt(pool, cursor.spans, cursor.span, i);
    var distance;
    distance, next, done := Execute(pool[i], position, cursor.length, m, input);
    Stopped(code, position, m, input);
    if done.Some? {
      return;
    }
    var ok := false;
    if distance != 0 {
      ok := cursor.Advance(distance);
    }
    if !ok {
      done := Some(Failed(InvalidJump));
      return;
    }
    Stepped(code, position, m, distance, next, input);
  }

  // After target selection the rest of an ingress span is passed over.
  method Skip(ghost pool: seq<Instr>, cursor: Cursor, ghost code: seq<Op>, ghost m: Machine, ghost input: Input,
              ghost goal: Outcome)
    requires cursor.Valid() && cursor.span < |cursor.spans| && cursor.length == |code|
    requires InPool(pool, cursor.spans) && code == Flatten(pool, cursor.spans)
    requires input.afterTarget && cursor.spans[cursor.span].phase == IngressPhase
    requires Remains(code, cursor.position, m, input, goal)
    modifies cursor`span, cursor`instruction, cursor`position
    ensures cursor.Valid() && old(cursor.position) < cursor.position
    ensures Remains(code, cursor.position, m, input, goal)
  {
    SpanSkips(pool, cursor.spans, cursor.span, cursor.instruction, m, input);
    var _ := cursor.Advance(cursor.spans[cursor.span].end - cursor.instruction);
  }

  // The cursor walks spans and the state changes step by step; the outcome is
  // that of the flattened program.
  method EvaluateSpans(pool: seq<Instr>, spans: seq<Span>, input: Input) returns (result: Outcome)
    requires InPool(pool, spans)
    ensures result == Evaluate(pool, spans, input)
  {
    if !input.valid {
      return Failed(InvalidAddress);
    }
    ghost var code := Flatten(pool, spans);
    FlattenLength(pool, spans);
    ghost var goal := Run(code, 0, START, input);
    var m := START;
    var cursor := new Cursor(spans);
    while cursor.span < |spans|
      invariant fresh(cursor) && cursor.Valid() && cursor.spans == spans && cursor.length == |code|
      invariant Remains(code, cursor.position, m, input, goal)
      decreases |code| - cursor.position
    {
      if input.afterTarget && spans[cursor.span].phase == IngressPhase {
        Skip(pool, cursor, code, m, input, goal);
        continue;
      }
      var next, done := Turn(pool, cursor, code, m, input, goal);
      if done.Some? {
        return done.value;
      }
      m := next;
    }
    return Failed(NoMatchSetHit);
  }

  lemma {:induction false} Stopped(code: seq<Op>, position: nat, m: Machine, input: Input)
    requires position < |code| && !(input.afterTarget && code[position].phase == IngressPhase)
    ensures match Transit(code[position].instr, position, |code|, m, input)
      case Halt(outcome) => Run(code, position, m, input) == outcome
      case Goto(distance, _) => distance == 0 || position + distance > |code|
                                ==> Run(code, position, m, input) == Failed(InvalidJump)
  {
  }

  lemma {:induction false} Stepped(code: seq<Op>, position: nat, m: Machine, distance: nat, next: Machine, input: Input)
    requires position < |code| && 0 < distance <= |code| - position
    requires !(input.afterTarget && code[position].phase == IngressPhase)
    requires Transit(code[position].instr, position, |code|, m, input) == Goto(distance, next)
    ensures Run(code, position, m, input) == Run(code, position + distance, next, input)
  {
  }

  lemma {:induction false} SpanSkips(pool: seq<Instr>, spans: seq<Span>, span: nat, i: nat, m: Machine, input: Input)
    requires InPool(pool, spans) && span < |spans| && input.afterTarget
    requires spans[span].start <= i < spans[span].end && spans[span].phase == IngressPhase
    ensures var at := Offset(spans, span) + i - spans[span].start;
            && 0 <= at && at + spans[span].end - i <= |Flatten(pool, spans)|
            && Run(Flatten(pool, spans), at, m, input) == Run(Flatten(pool, spans), at + spans[span].end - i, m, input)
  {
    var code := Flatten(pool, spans);
    FlattenAt(pool, spans, span, i);
    var at := Offset(spans, span) + i - spans[span].start;
    forall k | at <= k < at + spans[span].end - i
      ensures code[k].phase == IngressPhase
    {
      FlattenAt(pool, spans, span, i + k - at);
    }
    RunSkipsIngress(code, at, at + spans[span].end - i, m, input);
  }
}
