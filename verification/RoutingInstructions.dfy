/** Match instructions of the routing bytecode and the three-valued predicates
    they test. An instruction's mark is a packet mark on a Route tail and a
    relative jump distance on Or, And and ConditionalJump. */
module RoutingInstructions {
  import opened Common

  // Predicate results are ordered miss < unknown < match: OR takes the maximum
  // and negation mirrors the order, leaving an ambiguous result unchanged.
  type Truth = t: nat | t <= 2
  const MISS: Truth := 0
  const UNKNOWN: Truth := 1
  const MATCH: Truth := 2

  const DIRECT: nat := 0
  const BLOCK: nat := 1
  const MUST_RULES: nat := 0xFC
  const CONTROL_PLANE: nat := 0xFD
  const MAX_MATCH_SETS: nat := 1024

  function Larger(a: Truth, b: Truth): Truth {
    if a < b then b else a
  }

  function Smaller(a: Truth, b: Truth): Truth {
    if a < b then a else b
  }

  function Negate(t: Truth): Truth {
    MATCH - t
  }

  // Domain predicates read the two bitmaps of the destination; every other
  // predicate (address sets, ports, protocol, client admission, ...) is a fact
  // about the flow that holds or does not.
  datatype Predicate = Always | Fact(id: nat) | Domain(id: nat)

  datatype Action = Route | Or | And | Must | Bump | Capture | FlowEnd | ConditionalJump | Match | Miss

  datatype CaptureFlag = Http | Destination | HttpRequest | Dns

  datatype Instr = Instr(
    test: Predicate,
    action: Action,
    negated: bool,
    must: bool,
    skipNoalive: bool,
    bypass: bool,
    capture: set<CaptureFlag>,
    outbound: nat,
    mark: nat)

  predicate Linking(i: Instr) {
    i.action == Or || i.action == And
  }

  datatype Phase = RoutePhase | IngressPhase | FlowPhase

  // One flow as the matcher sees it. routing is the AND over the names folded
  // into the destination (or the bitmap of one exact name), bump the OR; down
  // holds the outbounds that cannot currently serve the flow's network type.
  datatype Input = Input(
    valid: bool,
    facts: set<nat>,
    routing: set<nat>,
    bump: Option<set<nat>>,
    kernel: bool,
    afterTarget: bool,
    dnsPort: bool,
    down: set<nat>)
  {
    predicate SimulatesKernel() {
      (kernel || bump.Some?) && !afterTarget
    }

    function Test(p: Predicate): Truth {
      match p
      case Always => MATCH
      case Fact(id) => if id in facts then MATCH else MISS
      case Domain(id) =>
        if id in routing then MATCH
        else if bump.Some? && id in bump.value then UNKNOWN
        else MISS
    }
  }

  datatype Evaluation = Evaluation(
    outbound: nat,
    mark: nat,
    must: bool,
    captures: set<CaptureFlag>,
    matched: bool)

  datatype MatchError = InvalidAddress | InvalidConditionalJump | InvalidJump | NoMatchSetHit

  datatype Outcome = Decided(value: Evaluation) | Failed(error: MatchError)

  function ToControlPlane(must: bool, captures: set<CaptureFlag>): Evaluation {
    Evaluation(CONTROL_PLANE, 0, must, captures, false)
  }

  // What earlier rules left behind for later ones, and what a rule does with it.
  datatype Flow = Flow(must: Truth, bump: bool, captures: set<CaptureFlag>)

  const NO_FLOW := Flow(MISS, false, {})

  datatype Progress = Done(value: Evaluation) | Continue(flow: Flow)
}
