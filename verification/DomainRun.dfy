/** Whole runs of registries and their reloads: what the kernel entries are, and
    whose evidence the queue's owner holds. */
module DomainRun {
  import opened DomainView
  import opened DomainEvidence
  import E = DomainEvidence
  import opened DomainSync
  import opened DomainRegistry
  import P = DomainProjection
  import R = DomainReload

  // One operation and the kernel writes that fail during it. A reload also names
  // the writes of the registry that is reloaded, and the size of the new one.
  datatype Step =
    | Enqueuing(event: R.Event)
    | Delivery(observations: seq<Observation>, at: Time, writes: P.Writes)
    | Flushing(writes: P.Writes)
    | Sweeping(now: Time, writes: P.Writes)
    | Retrying(now: Time, writes: P.Writes)
    | Reloading(matcher: Matcher, meanwhile: seq<R.Event>, now: Time, max: nat, batching: bool, oldWrites: P.Writes,
                writes: P.Writes)

  // What a step did to the kernel: nothing, a publication by the same registry,
  // or a reload that replaced it.
  datatype Effect =
    | Unpublished
    | Publication(desired: P.Table, pending: P.Queue, now: Time, failed: set<Addr>)
    | Replaced

  // A run keeps track if it starts so, or a reload replaces the registry, and no
  // removal fails or is put off from then on.
  ghost predicate KeepsTrack(tracked: bool, effects: seq<Effect>) {
    if effects == [] then tracked
    else
      var before := KeepsTrack(tracked, effects[..|effects| - 1]);
      match effects[|effects| - 1]
      case Unpublished => before
      case Publication(desired, pending, now, failed) => before && Clean(desired, pending, now, failed)
      case Replaced => true
  }

  // No kernel write fails.
  predicate Obeyed(step: Step) {
    match step
    case Enqueuing(_) => true
    case Reloading(_, _, _, _, _, oldWrites, writes) => oldWrites.refused == {} && writes.refused == {}
    case _ => step.writes.refused == {}
  }

  // The step as it concerns the evidence; retries do not.
  function Told(step: Step, accepted: bool): seq<R.Step> {
    match step
    case Enqueuing(event) => [R.Activity(event)]
    case Delivery(observations, at, _) => [R.Delivered(observations, observations, at)]
    case Flushing(_) => [R.FlushStep]
    case Sweeping(now, _) => [R.SweepStep(now)]
    case Retrying(_, _) => []
    case Reloading(matcher, meanwhile, now, _, _, _, _) => [R.Reload(matcher, meanwhile, now, accepted)]
  }

  function Story(steps: seq<Step>, accepted: seq<bool>): seq<R.Step>
    requires |accepted| == |steps|
  {
    if steps == [] then []
    else
      var n := |steps| - 1;
      Story(steps[..n], accepted[..n]) + Told(steps[n], accepted[n])
  }

  ghost function Footprint(o: DomainRegistry): set<object>
    reads o, o.index
  {
    {o, o.activity, o.index, o.kernel} + o.index.pairs
  }

  // A serving registry that owns its queue.
  ghost predicate Serving(o: DomainRegistry)
    reads o, o.activity, o.index, o.index.pairs, o.kernel
  {
    o.Valid() && !o.closed && o.activity.registry == o
  }

  ghost function OwnerOf(o: DomainRegistry): R.Owner
    reads o, o.activity, o.index
  {
    R.Owner(o.State(), o.activity.pending)
  }

  // The entries are chosen as if anew, and nothing else of weight is installed.
  ghost predicate Tracks(o: DomainRegistry)
    reads o, o.index, o.kernel
  {
    o.IsExact() && o.IsSettled()
  }

  ghost predicate Idle(o: DomainRegistry)
    reads o, o.kernel
  {
    o.kernel.pending == map[] && o.kernel.resident == o.kernel.desired
  }

  // The kernel between two steps.
  datatype Picture = Picture(tracked: bool, exact: bool, idle: bool, desired: P.Table, resident: P.Table,
                             pending: P.Queue)

  ghost function Look(o: DomainRegistry): Picture
    reads o, o.index, o.kernel
  {
    Picture(Tracks(o), o.IsExact(), Idle(o), o.kernel.desired, o.kernel.resident, o.kernel.pending)
  }

  // The writes of the registry that serves before the step.
  function WritesOf(step: Step): P.Writes
    requires !step.Enqueuing?
  {
    if step.Reloading? then step.oldWrites else step.writes
  }

  // What became of the queue and of the entries, address by address.
  ghost predicate Brought(b: Picture, a: Picture, now: Time, failed: set<Addr>, refused: set<Addr>) {
    && P.Outcome(a.desired, b.resident, b.pending, a.resident, a.pending, now, failed)
    && failed <= refused && P.Spared(b.resident, a.resident, refused)
    && (P.NothingDeferred(b.pending, now) && failed == {} ==> a.idle)
  }

  // One step: what it leaves behind, from what was there before.
  ghost predicate Stepped(b: Picture, step: Step, effect: Effect, a: Picture) {
    && (match effect
        case Unpublished => step.Enqueuing? && a == b
        case Publication(desired, pending, now, failed) =>
          && !step.Enqueuing? && desired == a.desired && pending == b.pending
          && Brought(b, a, now, failed, WritesOf(step).refused)
          && (b.tracked ==> a.exact && (Clean(desired, pending, now, failed) ==> a.tracked))
        case Replaced => step.Reloading? && a.tracked && a.idle)
    && (b.idle && Obeyed(step) ==> a.idle && (b.tracked ==> a.tracked))
  }

  // A publication, by the contract of the operation that made it.
  lemma {:induction false} PublicationSteps(o: DomainRegistry, b: Picture, now: Time, failed: set<Addr>, step: Step)
    requires !step.Enqueuing? && !o.kernel.force
    requires Published(o.kernel, b.resident, b.pending, now, failed, WritesOf(step))
    requires b.tracked ==> o.IsExact()
    requires b.idle ==> b.pending == map[]
    ensures Stepped(b, step, Publication(o.kernel.desired, b.pending, now, failed), Look(o))
  {
    if Clean(o.kernel.desired, b.pending, now, failed) {
      CleanSettles(o.index.view, o.kernel.desired, b.resident, b.pending, o.kernel.resident, o.kernel.pending, now,
                   failed);
    }
    if b.idle && Obeyed(step) {
      assert failed == {} && P.NothingDeferred(b.pending, now);
    }
  }

  method Enqueue(o: DomainRegistry, step: Step)
    requires Serving(o) && step.Enqueuing?
    modifies o.activity`pending
    ensures Serving(o) && OwnerOf(o) == R.Reloading(old(OwnerOf(o)), Told(step, false)[0], o.window, o.lag)
    ensures Stepped(old(Look(o)), step, Unpublished, Look(o))
  {
    var _ := o.activity.Enqueue(step.event.key, step.event.at);
  }

  method Deliver(o: DomainRegistry, step: Step) returns (effect: Effect)
    requires Serving(o) && step.Delivery?
    modifies Footprint(o)
    ensures o.activity == old(o.activity) && fresh(o.index.pairs - old(o.index.pairs))
    ensures Serving(o) && fresh(Footprint(o) - old(Footprint(o)))
    ensures OwnerOf(o) == R.Reloading(old(OwnerOf(o)), Told(step, false)[0], o.window, o.lag)
    ensures old(o.Quiet(step.observations, step.at)) ==> o.kernel.desired == old(o.kernel.desired)
    ensures effect.Publication? && effect.now == o.evaluatedAt
    ensures Stepped(old(Look(o)), step, effect, Look(o))
  {
    var pending := o.kernel.pending;
    var failed := o.ObserveDNS(step.observations, step.at, step.writes);
    effect := Publication(o.kernel.desired, pending, o.evaluatedAt, failed);
    PublicationSteps(o, old(Look(o)), o.evaluatedAt, failed, step);
  }

  method Flush(o: DomainRegistry, step: Step) returns (effect: Effect)
    requires Serving(o) && step.Flushing?
    modifies Footprint(o)
    ensures Serving(o) && Footprint(o) == old(Footprint(o))
    ensures OwnerOf(o) == R.Reloading(old(OwnerOf(o)), Told(step, false)[0], o.window, o.lag)
    ensures Stepped(old(Look(o)), step, effect, Look(o))
  {
    var pending := o.kernel.pending;
    var failed := o.FlushActivity(step.writes);
    effect := Publication(o.kernel.desired, pending, o.evaluatedAt, failed);
    PublicationSteps(o, old(Look(o)), o.evaluatedAt, failed, step);
  }

  method Sweep(o: DomainRegistry, step: Step) returns (effect: Effect)
    requires Serving(o) && step.Sweeping?
    modifies Footprint(o)
    ensures Serving(o) && Footprint(o) == old(Footprint(o))
    ensures OwnerOf(o) == R.Reloading(old(OwnerOf(o)), Told(step, false)[0], o.window, o.lag)
    ensures Stepped(old(Look(o)), step, effect, Look(o))
  {
    var pending := o.kernel.pending;
    var failed := o.Sweep(step.now, step.writes);
    effect := Publication(o.kernel.desired, pending, o.evaluatedAt, failed);
    PublicationSteps(o, old(Look(o)), o.evaluatedAt, failed, step);
  }

  method Retry(o: DomainRegistry, step: Step) returns (effect: Effect)
    requires Serving(o) && step.Retrying?
    modifies o.kernel
    ensures Serving(o) && OwnerOf(o) == old(OwnerOf(o))
    ensures Stepped(old(Look(o)), step, effect, Look(o))
  {
    var pending := o.kernel.pending;
    var failed := o.RetryProjection(step.now, step.writes);
    effect := Publication(o.kernel.desired, pending, step.now, failed);
    PublicationSteps(o, old(Look(o)), step.now, failed, step);
  }

  lemma {:induction false} ReloadTold(o: R.Owner, step: Step, accepted: bool, queued: Batch, window: nat, lag: nat)
    requires step.Reloading? && queued == R.Arriving(map[], step.meanwhile)
    ensures var flushed := E.Flush(o.evidence, o.pending, window, lag);
      R.Reloading(o, Told(step, accepted)[0], window, lag)
      == R.Owner(if accepted then Fork(flushed, step.matcher, queued, step.now, window, lag) else flushed, queued)
  {
  }

  // A candidate that either takes over or leaves everything to its predecessor.
  method ForkNext(o: DomainRegistry, step: Step, queued: Batch)
    returns (next: DomainRegistry, ok: bool, failed: set<Addr>)
    requires Serving(o) && step.Reloading?
    modifies Footprint(o)
    ensures next.window == o.window && next.lag == o.lag && (step.writes.refused == {} ==> ok)
    ensures ok ==> Serving(next) && Tracks(next) && Idle(next) && next.activity == old(o.activity)
    ensures ok ==> fresh(next) && fresh(next.index) && fresh(next.kernel) && fresh(next.index.pairs)
    ensures ok ==> next.State() == Fork(E.Flush(old(o.State()), old(o.activity.pending), o.window, o.lag),
                                        step.matcher, queued, step.now, o.window, o.lag)
    ensures ok ==> next.activity.pending == queued
    ensures !ok ==> Serving(o) && Footprint(o) == old(Footprint(o)) && (old(Tracks(o)) ==> o.IsExact())
    ensures !ok ==>
      o.State() == E.Flush(old(o.State()), old(o.activity.pending), o.window, o.lag)
      && o.activity.pending == queued
    ensures !ok ==> Published(o.kernel, old(o.kernel.resident), old(o.kernel.pending), o.evaluatedAt, failed,
                              step.oldWrites)
  {
    next := new DomainRegistry(step.max, step.batching, o.window, o.lag);
    ok, failed := next.ForkFrom(o, step.matcher, step.now, queued, step.oldWrites, step.writes);
  }

  method Reload(o: DomainRegistry, step: Step) returns (owner: DomainRegistry, effect: Effect)
    requires Serving(o) && step.Reloading?
    modifies Footprint(o)
    ensures Serving(owner) && fresh(Footprint(owner) - old(Footprint(o))) && owner.window == o.window
      && owner.lag == o.lag
    ensures OwnerOf(owner) == R.Reloading(old(OwnerOf(o)), Told(step, effect.Replaced?)[0], o.window, o.lag)
    ensures Stepped(old(Look(o)), step, effect, Look(owner))
  {
    var pending := o.kernel.pending;
    var queued := R.Arriving(map[], step.meanwhile);
    var next, ok, failed := ForkNext(o, step, queued);
    ReloadTold(old(OwnerOf(o)), step, ok, queued, o.window, o.lag);
    if ok {
      assert Footprint(next) - old(Footprint(o)) <= {next, next.index, next.kernel} + next.index.pairs;
      return next, Replaced;
    }
    effect := Publication(o.kernel.desired, pending, o.evaluatedAt, failed);
    PublicationSteps(o, old(Look(o)), o.evaluatedAt, failed, step);
    return o, effect;
  }

  method Advance(o: DomainRegistry, step: Step) returns (owner: DomainRegistry, effect: Effect)
    requires Serving(o)
    modifies Footprint(o)
    ensures Serving(owner) && fresh(Footprint(owner) - old(Footprint(o))) && owner.window == o.window
      && owner.lag == o.lag
    ensures Moved(old(Look(o)), old(OwnerOf(o)), step, effect, Look(owner), OwnerOf(owner), o.window, o.lag)
  {
    owner := o;
    match step {
      case Enqueuing(_) =>
        Enqueue(o, step);
        effect := Unpublished;
      case Delivery(_, _, _) => effect := Deliver(o, step);
      case Flushing(_) => effect := Flush(o, step);
      case Sweeping(_, _) => effect := Sweep(o, step);
      case Retrying(_, _) => effect := Retry(o, step);
      case Reloading(_, _, _, _, _, _, _) => owner, effect := Reload(o, step);
    }
    OneStep(old(OwnerOf(o)), Told(step, effect.Replaced?), o.window, o.lag);
  }

  lemma {:induction false} OneStep(o: R.Owner, told: seq<R.Step>, window: nat, lag: nat)
    requires |told| <= 1
    ensures R.ReloadingRun(o, told, window, lag) == if told == [] then o else R.Reloading(o, told[0], window, lag)
  {
    if told != [] {
      assert told[..0] == [];
    }
  }

  lemma {:induction false} RunConcat(o: R.Owner, a: seq<R.Step>, b: seq<R.Step>, window: nat, lag: nat)
    ensures R.ReloadingRun(o, a + b, window, lag) == R.ReloadingRun(R.ReloadingRun(o, a, window, lag), b, window, lag)
    decreases |b|
  {
    if b == [] {
      assert a + b == a;
    } else {
      var n := |b| - 1;
      assert (a + b)[..|a + b| - 1] == a + b[..n];
      RunConcat(o, a, b[..n], window, lag);
    }
  }

  // Which reloads were accepted.
  function Replacements(effects: seq<Effect>): (r: seq<bool>)
    ensures |r| == |effects|
  {
    seq(|effects|, i requires 0 <= i < |effects| => effects[i].Replaced?)
  }

  lemma {:induction false} StoryStep(steps: seq<Step>, effects: seq<Effect>, step: Step, effect: Effect)
    requires |effects| == |steps|
    ensures Story(steps + [step], Replacements(effects + [effect]))
         == Story(steps, Replacements(effects)) + Told(step, effect.Replaced?)
  {
    assert (steps + [step])[..|steps|] == steps;
    assert Replacements(effects + [effect])[..|steps|] == Replacements(effects);
  }

  // The pictures between the steps of a run.
  ghost predicate Traced(steps: seq<Step>, effects: seq<Effect>, pictures: seq<Picture>) {
    && |effects| == |steps| && |pictures| == |steps| + 1
    && forall i {:trigger Stepped(pictures[i], steps[i], effects[i], pictures[i + 1])} ::
         0 <= i < |steps| ==> Stepped(pictures[i], steps[i], effects[i], pictures[i + 1])
  }

  lemma {:induction false} TracedNext(steps: seq<Step>, effects: seq<Effect>, pictures: seq<Picture>, step: Step,
                                      effect: Effect, a: Picture)
    requires Traced(steps, effects, pictures) && Stepped(pictures[|steps|], step, effect, a)
    ensures Traced(steps + [step], effects + [effect], pictures + [a])
  {
    var s, e, p := steps + [step], effects + [effect], pictures + [a];
    forall i | 0 <= i < |s|
      ensures Stepped(p[i], s[i], e[i], p[i + 1])
    {
      if i < |steps| {
        assert Stepped(pictures[i], steps[i], effects[i], pictures[i + 1]);
      }
    }
  }

  lemma {:induction false} TracedFirst(steps: seq<Step>, effects: seq<Effect>, pictures: seq<Picture>, n: nat)
    requires Traced(steps, effects, pictures) && n <= |steps|
    ensures Traced(steps[..n], effects[..n], pictures[..n + 1])
  {
    forall i | 0 <= i < n
      ensures Stepped(pictures[..n + 1][i], steps[..n][i], effects[..n][i], pictures[..n + 1][i + 1])
    {
      assert Stepped(pictures[i], steps[i], effects[i], pictures[i + 1]);
    }
  }

  // The entries stay the best choice as long as no removal fails or is put off.
  lemma {:induction false} TrackKept(steps: seq<Step>, effects: seq<Effect>, pictures: seq<Picture>)
    requires Traced(steps, effects, pictures)
    ensures KeepsTrack(pictures[0].tracked, effects) ==> pictures[|steps|].tracked
    decreases |steps|
  {
    if steps != [] {
      var n := |steps| - 1;
      TracedFirst(steps, effects, pictures, n);
      TrackKept(steps[..n], effects[..n], pictures[..n + 1]);
      assert Stepped(pictures[n], steps[n], effects[n], pictures[n + 1]);
    }
  }

  // Without failing writes they are also installed.
  lemma {:induction false} ObeyedKept(steps: seq<Step>, effects: seq<Effect>, pictures: seq<Picture>)
    requires Traced(steps, effects, pictures) && pictures[0].tracked && pictures[0].idle && forall s <- steps ::
      Obeyed(s)
    ensures pictures[|steps|].tracked && pictures[|steps|].idle
    decreases |steps|
  {
    if steps != [] {
      var n := |steps| - 1;
      TracedFirst(steps, effects, pictures, n);
      assert steps[n] in steps && forall s <- steps[..n] :: s in steps;
      ObeyedKept(steps[..n], effects[..n], pictures[..n + 1]);
      assert Stepped(pictures[n], steps[n], effects[n], pictures[n + 1]);
    }
  }

  // A run from one owner of the queue to another, with all that lies between.
  ghost predicate Ran(steps: seq<Step>, effects: seq<Effect>, pictures: seq<Picture>, start: R.Owner, end: R.Owner,
                      window: nat, lag: nat)
  {
    match end
    case Owner(evidence, pending) =>
      && Traced(steps, effects, pictures)
      && R.ReloadingRun(start, Story(steps, Replacements(effects)), window, lag) == R.Owner(evidence, pending)
  }

  // One step, on the evidence and on the kernel.
  ghost predicate Moved(b: Picture, before: R.Owner, step: Step, effect: Effect, a: Picture, after: R.Owner,
                        window: nat, lag: nat)
  {
    && Stepped(b, step, effect, a)
    && after == R.ReloadingRun(before, Told(step, effect.Replaced?), window, lag)
  }

  lemma {:induction false} RanNothing(o: R.Owner, p: Picture, window: nat, lag: nat)
    ensures Ran([], [], [p], o, o, window, lag)
  {
  }

  lemma {:induction false} RanNext(steps: seq<Step>, effects: seq<Effect>, pictures: seq<Picture>, start: R.Owner,
                                   before: R.Owner,
                                   step: Step, effect: Effect, a: Picture, after: R.Owner, window: nat, lag: nat)
    requires Ran(steps, effects, pictures, start, before, window, lag)
    requires Moved(pictures[|steps|], before, step, effect, a, after, window, lag)
    ensures Ran(steps + [step], effects + [effect], pictures + [a], start, after, window, lag)
  {
    TracedNext(steps, effects, pictures, step, effect, a);
    StoryStep(steps, effects, step, effect);
    RunConcat(start, Story(steps, Replacements(effects)), Told(step, effect.Replaced?), window, lag);
  }

  // Steps in a row, with the owners between them.
  ghost predicate Linked(steps: seq<Step>, effects: seq<Effect>, pictures: seq<Picture>, owners: seq<R.Owner>,
                         window: nat, lag: nat, i: nat)
    requires i < |steps| == |effects| && |pictures| == |owners| == |steps| + 1
  {
    Moved(pictures[i], owners[i], steps[i], effects[i], pictures[i + 1], owners[i + 1], window, lag)
  }

  lemma {:induction false} LinkedRun(steps: seq<Step>, effects: seq<Effect>, pictures: seq<Picture>,
                                     owners: seq<R.Owner>, window: nat, lag: nat, n: nat)
    requires n <= |steps| == |effects| && |pictures| == |owners| == |steps| + 1
    requires forall i {:trigger Linked(steps, effects, pictures, owners, window, lag, i)} :: 0 <= i < n ==>
               Linked(steps, effects, pictures, owners, window, lag, i)
    ensures Ran(steps[..n], effects[..n], pictures[..n + 1], owners[0], owners[n], window, lag)
  {
    if n == 0 {
      RanNothing(owners[0], pictures[0], window, lag);
      assert steps[..0] == [] && effects[..0] == [] && pictures[..1] == [pictures[0]];
    } else {
      var m := n - 1;
      LinkedRun(steps, effects, pictures, owners, window, lag, m);
      assert Linked(steps, effects, pictures, owners, window, lag, m);
      RanNext(steps[..m], effects[..m], pictures[..n], owners[0], owners[m], steps[m], effects[m], pictures[n],
              owners[n], window, lag);
      assert steps[..n] == steps[..m] + [steps[m]] && effects[..n] == effects[..m] + [effects[m]];
      assert pictures[..n + 1] == pictures[..n] + [pictures[n]];
    }
  }

  // The run led to the registry that serves now.
  ghost predicate LedTo(owner: DomainRegistry, steps: seq<Step>, effects: seq<Effect>, pictures: seq<Picture>,
                        start: R.Owner, first: Picture)
    reads owner, owner.activity, owner.index, owner.index.pairs, owner.kernel
  {
    match OwnerOf(owner)
    case Owner(evidence, pending) =>
      && Serving(owner) && Ran(steps, effects, pictures, start, R.Owner(evidence, pending), owner.window, owner.lag)
      && pictures[0] == first && pictures[|steps|] == Look(owner)
  }

  method Continue(o: DomainRegistry, steps: seq<Step>, effects: seq<Effect>, step: Step, ghost pictures: seq<Picture>,
                  ghost start: R.Owner)
    returns (owner: DomainRegistry, effects': seq<Effect>, ghost pictures': seq<Picture>)
    requires Traced(steps, effects, pictures) && LedTo(o, steps, effects, pictures, start, pictures[0])
    modifies Footprint(o)
    ensures LedTo(owner, steps + [step], effects', pictures', start, pictures[0])
    ensures fresh(Footprint(owner) - old(Footprint(o))) && owner.window == o.window && owner.lag == o.lag
  {
    var effect;
    owner, effect := Advance(o, step);
    effects', pictures' := effects + [effect], pictures + [Look(owner)];
    RanNext(steps, effects, pictures, start, old(OwnerOf(o)), step, effect, Look(owner), OwnerOf(owner), o.window,
            o.lag);
  }

  // Any run of a serving registry, with any failing writes, step by step.
  method Run(o: DomainRegistry, steps: seq<Step>)
    returns (owner: DomainRegistry, effects: seq<Effect>, ghost pictures: seq<Picture>)
    requires Serving(o)
    modifies Footprint(o)
    ensures LedTo(owner, steps, effects, pictures, old(OwnerOf(o)), old(Look(o)))
    ensures fresh(Footprint(owner) - old(Footprint(o))) && owner.window == o.window && owner.lag == o.lag
  {
    var n := |steps|;
    if n == 0 {
      RanNothing(OwnerOf(o), Look(o), o.window, o.lag);
      return o, [], [Look(o)];
    }
    owner, effects, pictures := Run(o, steps[..n - 1]);
    FirstSteps(steps, n - 1);
    owner, effects, pictures := Continue(owner, steps[..n - 1], effects, steps[n - 1], pictures, old(OwnerOf(o)));
  }

  lemma {:induction false} FirstSteps(steps: seq<Step>, i: nat)
    requires i <= |steps|
    ensures i + 1 == |steps| ==> steps == steps[..i] + [steps[i]]
  {
  }

  const EMPTY := R.Owner(Evidence(View(map[], map[]), 0), map[])
  const BLANK := Picture(true, true, true, map[], map[], map[])

  // From the start: whoever owns the queue holds the evidence of one registry
  // that is never reloaded and sweeps instead.
  method Serve(max: nat, batching: bool, window: nat, lag: nat, steps: seq<Step>)
    returns (owner: DomainRegistry, effects: seq<Effect>)
    ensures |effects| == |steps| && Serving(owner)
    ensures KeepsTrack(true, effects) ==> owner.IsExact() && owner.IsSettled()
    ensures (forall s <- steps :: Obeyed(s)) ==> owner.IsExact() && owner.kernel.resident == owner.kernel.desired
    ensures R.Matches(OwnerOf(owner), R.SteadyRun(EMPTY, Story(steps, Replacements(effects)), window, lag), window)
  {
    var o := new DomainRegistry(max, batching, window, lag);
    ghost var pictures;
    owner, effects, pictures := Run(o, steps);
    Kept(steps, effects, pictures);
    Steadily(EMPTY, steps, effects, window, lag);
  }

  lemma {:induction false} Kept(steps: seq<Step>, effects: seq<Effect>, pictures: seq<Picture>)
    requires Traced(steps, effects, pictures) && pictures[0].tracked && pictures[0].idle
    ensures KeepsTrack(true, effects) ==> pictures[|steps|].tracked
    ensures (forall s <- steps :: Obeyed(s)) ==> pictures[|steps|].tracked && pictures[|steps|].idle
  {
    TrackKept(steps, effects, pictures);
    if forall s <- steps :: Obeyed(s) {
      ObeyedKept(steps, effects, pictures);
    }
  }

  lemma {:induction false} Steadily(start: R.Owner, steps: seq<Step>, effects: seq<Effect>, window: nat, lag: nat)
    requires |effects| == |steps| && start.pending == map[]
    ensures var story := Story(steps, Replacements(effects));
      R.Matches(R.ReloadingRun(start, story, window, lag), R.SteadyRun(start, story, window, lag), window)
  {
    StoryDeliverable(steps, Replacements(effects));
    R.EmptyQueues(start.evidence, window);
    R.ReloadsAreTransparent(start, start, Story(steps, Replacements(effects)), window, lag);
  }

  lemma {:induction false} StoryDeliverable(steps: seq<Step>, accepted: seq<bool>)
    requires |accepted| == |steps|
    ensures forall i :: 0 <= i < |Story(steps, accepted)| ==> R.Deliverable(Story(steps, accepted)[i])
  {
    if steps != [] {
      StoryDeliverable(steps[..|steps| - 1], accepted[..|steps| - 1]);
    }
  }
}
