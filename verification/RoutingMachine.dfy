/** Meaning of a flattened program: one instruction at a time, with jumps in
    execution-order coordinates. */
module RoutingMachine {
  import opened RoutingInstructions
  import opened RoutingSpans

  datatype Machine = Machine(subrule: Truth, ruleUnknown: bool, uncertainUntil: nat, flow: Flow)

  const START := Machine(MISS, false, 0, NO_FLOW)

  datatype Transition = Goto(distance: nat, machine: Machine) | Halt(outcome: Outcome)

  function NextRule(distance: nat, m: Machine): Transition {
    Goto(distance, m.(ruleUnknown := false))
  }

  // The clause value at a tail is known; apply negation and the tail's action.
  function Conclude(i: Instr, value: Truth, position: nat, length: nat, m: Machine, input: Input): Transition
    requires i.action != Or
  {
    var clause := if i.negated then Negate(value) else value;
    var next := m.(subrule := MISS);
    if clause == MISS then
      NextRule(if i.action == And || i.action == ConditionalJump then i.mark else 1, next)
    else
      var unknown := m.ruleUnknown || clause == UNKNOWN;
      if i.action == And then Goto(1, next.(ruleUnknown := unknown))
      else Terminal(i, position, length, next.(ruleUnknown := unknown), input)
  }

  // All clauses of the rule hold or may hold.
  function Terminal(i: Instr, position: nat, length: nat, m: Machine, input: Input): Transition
    requires !Linking(i)
  {
    if i.action == ConditionalJump then
      if i.mark == 0 || i.mark + position > length then Halt(Failed(InvalidConditionalJump))
      else if m.ruleUnknown && m.uncertainUntil < position + i.mark then
        NextRule(1, m.(uncertainUntil := position + i.mark))
      else NextRule(1, m)
    else
      match Perform(i, m.ruleUnknown || position < m.uncertainUntil, m.flow, input)
      case Done(value) => Halt(Decided(value))
      case Continue(flow) => NextRule(1, m.(flow := flow))
  }

  function Perform(i: Instr, unknown: bool, f: Flow, input: Input): Progress
    requires !Linking(i) && i.action != ConditionalJump
  {
    match i.action
    case Must => Continue(f.(must := if unknown then Larger(f.must, UNKNOWN) else MATCH))
    case Bump => Continue(f.(bump := true))
    case Capture =>
      var flags := f.captures + i.capture;
      if input.SimulatesKernel() && (Destination in flags || HttpRequest in flags) then
        Done(ToControlPlane(false, flags))
      else Continue(f.(captures := flags))
    case FlowEnd =>
      if (input.SimulatesKernel() && f.bump) || f.must == UNKNOWN then
        Done(ToControlPlane(f.must == MATCH, f.captures))
      else Continue(f)
    case Match => Done(Evaluation(0, 0, false, {}, true))
    case Miss => Done(Evaluation(0, 0, false, {}, false))
    case Route =>
      if i.skipNoalive && i.outbound in input.down then Continue(f)
      else if unknown then Done(ToControlPlane(f.must == MATCH, f.captures))
      else
        var forced := f.must == MATCH || i.must;
        var dns := input.SimulatesKernel() && !forced && input.dnsPort && !i.bypass;
        Done(Evaluation(i.outbound, i.mark, forced, if dns then f.captures + {Dns} else f.captures, false))
  }

  function Transit(i: Instr, position: nat, length: nat, m: Machine, input: Input): Transition {
    var value := if m.subrule == MATCH then MATCH else Larger(m.subrule, input.Test(i.test));
    if i.action == Or then Goto(if value == MATCH then i.mark else 1, m.(subrule := value))
    else Conclude(i, value, position, length, m, input)
  }

  function Run(code: seq<Op>, position: nat, m: Machine, input: Input): Outcome
    requires position <= |code|
    decreases |code| - position, 1
  {
    if position == |code| then Failed(NoMatchSetHit)
    else if input.afterTarget && code[position].phase == IngressPhase then
      Run(code, position + 1, m, input)
    else Resume(code, position, Transit(code[position].instr, position, |code|, m, input), input)
  }

  function Resume(code: seq<Op>, position: nat, t: Transition, input: Input): Outcome
    requires position < |code|
    decreases |code| - position, 0
  {
    match t
    case Halt(outcome) => outcome
    case Goto(distance, m) =>
      if distance == 0 || position + distance > |code| then Failed(InvalidJump)
      else Run(code, position + distance, m, input)
  }

  // Skipping the ingress phase after target selection changes no state.
  lemma {:induction false} RunSkipsIngress(code: seq<Op>, from: nat, to: nat, m: Machine, input: Input)
    requires from <= to <= |code| && input.afterTarget
    requires forall k :: from <= k < to ==> code[k].phase == IngressPhase
    ensures Run(code, from, m, input) == Run(code, to, m, input)
    decreases |code| - from
  {
    if from < to {
      RunSkipsIngress(code, from + 1, to, m, input);
    }
  }
}
