/** Four deliveries after which the kernel entries are no longer the best choice,
    although no removal ever failed. */
module DomainScenario {
  import opened Common
  import opened DomainView
  import opened DomainEvidence
  import opened DomainSync
  import opened DomainRegistry
  import opened DomainRun
  import P = DomainProjection
  import R = DomainReload

  const FIRST := Addr(false, 1)
  const OTHER := Addr(false, 2)
  const WINDOW: nat := 100

  const AT_FIRST := Key("a", FIRST)
  const ALSO_FIRST := Key("c", FIRST)
  const AT_OTHER := Key("b", OTHER)

  function One(name: string, ip: Addr, bitmap: Bitmap, at: Time, refused: set<Addr>): Step {
    Delivery([Observation(name, [ip], bitmap, 0)], at, P.Writes(refused, {}))
  }

  // ------ The evidence after each delivery ------

  function View1(): View {
    View(map[AT_FIRST := 110], map["a" := {0}])
  }

  function View2(): View {
    View(map[AT_FIRST := 110, ALSO_FIRST := 111], map["a" := {0}, "c" := {1}])
  }

  function View3(): View {
    View(map[AT_FIRST := 110, ALSO_FIRST := 111, AT_OTHER := 112], map["a" := {0}, "c" := {1}, "b" := {0}])
  }

  function View4(): View {
    View(map[AT_FIRST := 113, ALSO_FIRST := 111, AT_OTHER := 112], map["a" := {0}, "c" := {1}, "b" := {0}])
  }

  // One pair is delivered before anything comes due.
  lemma {:induction false} Delivers(s: Evidence, name: string, ip: Addr, bitmap: Bitmap, at: Time)
    requires Lean(s.view) && 0 <= s.evaluatedAt <= at && forall k :: k in s.view.deadlines ==> s.view.deadlines[k] > at
    ensures Observe(s, map[], One(name, ip, bitmap, at, {}).observations, at, WINDOW, 0)
         == Evidence(Paired(s.view, name, bitmap, ip, at + WINDOW), at)
    ensures Expired(s.view.deadlines, Later(s.evaluatedAt, at) - 0) == {}
  {
    ObserveOne(s, name, ip, bitmap, at, WINDOW);
  }

  lemma {:induction false} Views()
    ensures Paired(View(map[], map[]), "a", {0}, FIRST, 110) == View1()
    ensures Paired(View1(), "c", {1}, FIRST, 111) == View2()
    ensures Paired(View2(), "b", {0}, OTHER, 112) == View3()
    ensures Paired(View3(), "a", {0}, FIRST, 113) == View4()
  {
    assert "a" != "b" && "a" != "c" && "b" != "c";
  }

  lemma {:induction false} Leans()
    ensures Lean(View1()) && Lean(View2()) && Lean(View3())
  {
    assert AT_FIRST in View1().deadlines && AT_FIRST in View2().deadlines && AT_FIRST in View3().deadlines;
    assert ALSO_FIRST in View2().deadlines && ALSO_FIRST in View3().deadlines && AT_OTHER in View3().deadlines;
  }

  // ------ What should be chosen ------

  lemma {:induction false} OnlyFirst(v: View, desired: P.Table)
    requires v == View1() || v == View2()
    requires Exact(v, 1, desired)
    ensures desired.Keys == {FIRST} && desired[FIRST] == Fold(v, FIRST)
  {
    assert AT_FIRST in v.deadlines && 0 in BitmapOf(v, "a");
    assert Candidates(v) == {FIRST};
    SubsetSize(desired.Keys, {FIRST});
    assert FIRST in desired.Keys;
  }

  lemma {:induction false} FoldsDiffer()
    ensures Fold(View1(), FIRST) != Fold(View2(), FIRST)
  {
    assert ALSO_FIRST in View2().deadlines && 1 in BitmapOf(View2(), "c");
    assert 1 in Bump(View2(), FIRST);
    forall k | k in View1().deadlines && 1 in BitmapOf(View1(), k.name)
      ensures false
    {
    }
    assert 1 !in Bump(View1(), FIRST);
  }

  lemma {:induction false} Ranks(v: View)
    requires v == View3() || v == View4()
    ensures Candidates(v) == {FIRST, OTHER} && Coherent(v)
    ensures Priority(v, OTHER) == 112 && Priority(v, FIRST) == if v == View3() then 111 else 113
  {
    assert "a" != "b" && "a" != "c" && "b" != "c";
    assert AT_FIRST in v.deadlines && ALSO_FIRST in v.deadlines && AT_OTHER in v.deadlines;
    assert 0 in BitmapOf(v, "a") && 1 in BitmapOf(v, "c") && 0 in BitmapOf(v, "b");
    assert AT_FIRST.ip in Candidates(v) && AT_OTHER.ip in Candidates(v);
    Deadlines(v);
    PriorityIsHighest(v, OTHER, 112);
    PriorityIsHighest(v, FIRST, if v == View3() then 111 else 113);
  }

  lemma {:induction false} Deadlines(v: View)
    requires v == View3() || v == View4()
    ensures Relevant(v, FIRST) == {v.deadlines[AT_FIRST], 111} && Relevant(v, OTHER) == {112}
  {
    assert "a" != "b" && "a" != "c" && "b" != "c";
    assert 0 in BitmapOf(v, "a") && 1 in BitmapOf(v, "c") && 0 in BitmapOf(v, "b");
    assert v.deadlines[AT_FIRST] in Relevant(v, FIRST) && v.deadlines[ALSO_FIRST] in Relevant(v, FIRST);
    assert v.deadlines[AT_OTHER] in Relevant(v, OTHER);
  }

  lemma {:induction false} OtherIsTop(desired: P.Table)
    requires Exact(View3(), 1, desired)
    ensures desired.Keys == {OTHER}
  {
    Ranks(View3());
    assert IsTop(View3(), 1, {OTHER});
    TopIsUnique(View3(), 1, desired.Keys, {OTHER});
  }

  lemma {:induction false} OtherIsOvertaken(desired: P.Table)
    requires desired.Keys == {OTHER}
    ensures !Exact(View4(), 1, desired)
  {
    Ranks(View4());
    assert FIRST in Candidates(View4()) - desired.Keys && OTHER in desired.Keys;
    assert !Above(View4(), OTHER, FIRST);
  }

  // ------ The deliveries ------

  // What failed, if anything, was the write of a chosen entry.
  ghost predicate NoRemovalFailed(e: Effect) {
    e.Publication? && forall ip <- e.failed :: ip in e.desired
  }

  // One delivery, as a step of a run in which no removal fails.
  ghost predicate Delivered(b: Picture, before: R.Owner, step: Step, effect: Effect, a: Picture, after: R.Owner) {
    match effect
    case Publication(_, _, _, _) =>
      step.Delivery? && Moved(b, before, step, effect, a, after, WINDOW, 0) && NoRemovalFailed(effect)
    case _ => false
  }

  // A registry with one slot holds this evidence and an empty queue.
  ghost predicate Stage(o: DomainRegistry, v: View, at: Time)
    reads o, o.activity, o.index, o.index.pairs, o.kernel
  {
    match OwnerOf(o)
    case Owner(evidence, pending) =>
      evidence == Evidence(v, at) && pending == map[] && Serving(o) && o.kernel.max == 1 && o.window == WINDOW
        && o.lag == 0
  }

  // One pair, to a registry with one slot and an empty queue.
  method Single(o: DomainRegistry, name: string, ip: Addr, bitmap: Bitmap, at: Time, refused: set<Addr>,
                ghost s: Evidence) returns (effect: Effect)
    requires Stage(o, s.view, s.evaluatedAt)
    requires Lean(s.view) && 0 <= s.evaluatedAt <= at && forall k :: k in s.view.deadlines ==> s.view.deadlines[k] > at
    modifies Footprint(o)
    ensures Stage(o, Paired(s.view, name, bitmap, ip, at + WINDOW), at) && o.activity == old(o.activity)
      && fresh(o.index.pairs - old(o.index.pairs))
    ensures effect.Publication? && effect.now == at
      && Stepped(old(Look(o)), One(name, ip, bitmap, at, refused), effect, Look(o))
    ensures OwnerOf(o) == R.ReloadingRun(old(OwnerOf(o)), Told(One(name, ip, bitmap, at, refused), false), WINDOW, 0)
    ensures Key(name, ip) in s.view.deadlines && ip in old(o.kernel.resident)
      ==> o.kernel.desired == old(o.kernel.desired)
  {
    Delivers(s, name, ip, bitmap, at);
    effect := Deliver(o, One(name, ip, bitmap, at, refused));
    OneStep(old(OwnerOf(o)), Told(One(name, ip, bitmap, at, refused), false), WINDOW, 0);
  }

  // A refused update keeps its old value and waits.
  lemma {:induction false} UpdateRefused(desired: P.Table, resident: P.Table, resident': P.Table, pending': P.Queue,
                                         failed: set<Addr>)
    requires desired.Keys == {FIRST} && desired[FIRST] == Fold(View2(), FIRST)
    requires FIRST in resident && resident[FIRST] == Fold(View1(), FIRST)
    requires P.Outcome(desired, resident, map[], resident', pending', 11, failed) && failed <= {FIRST}
    requires P.Spared(resident, resident', {FIRST}) && P.Queued(desired, resident', pending')
    ensures FIRST in resident' && P.PutOff(pending', FIRST, 11) && Clean(desired, map[], 11, failed)
  {
    FoldsDiffer();
    assert FIRST in desired.Keys;
    assert P.Same(resident', resident, FIRST);
    assert P.QueuedAt(desired, resident', pending', FIRST)
      && P.OutcomeAt(desired, resident, map[], resident', pending', 11, failed, FIRST);
  }

  // A removal that is not due leaves its entry installed.
  lemma {:induction false} RemovalPutOff(desired: P.Table, resident: P.Table, pending: P.Queue, resident': P.Table,
                                         pending': P.Queue, failed: set<Addr>)
    requires desired.Keys == {OTHER} && FIRST in resident && P.PutOff(pending, FIRST, 11)
    requires P.Outcome(desired, resident, pending, resident', pending', 12, failed)
    ensures FIRST in resident'
  {
    assert FIRST !in desired.Keys;
    assert P.OutcomeAt(desired, resident, pending, resident', pending', 12, failed, FIRST);
  }

  method InstallFirst(o: DomainRegistry) returns (step: Step, effect: Effect)
    requires Stage(o, View(map[], map[]), 0) && Tracks(o) && Idle(o)
    modifies Footprint(o)
    ensures Stage(o, View1(), 10) && o.activity == old(o.activity) && fresh(o.index.pairs - old(o.index.pairs))
    ensures Tracks(o) && Idle(o) && FIRST in o.kernel.resident && o.kernel.resident[FIRST] == Fold(View1(), FIRST)
    ensures Delivered(old(Look(o)), old(OwnerOf(o)), step, effect, Look(o), OwnerOf(o))
  {
    step := One("a", FIRST, {0}, 10, {});
    effect := Single(o, "a", FIRST, {0}, 10, {}, Evidence(View(map[], map[]), 0));
    Views();
    OnlyFirst(View1(), o.kernel.desired);
    assert FIRST in o.kernel.desired.Keys;
  }

  method FailUpdate(o: DomainRegistry) returns (step: Step, effect: Effect)
    requires Stage(o, View1(), 10)
    requires Tracks(o) && Idle(o) && FIRST in o.kernel.resident && o.kernel.resident[FIRST] == Fold(View1(), FIRST)
    modifies Footprint(o)
    ensures Stage(o, View2(), 11) && o.activity == old(o.activity) && fresh(o.index.pairs - old(o.index.pairs))
    ensures Tracks(o) && FIRST in o.kernel.resident && P.PutOff(o.kernel.pending, FIRST, 11)
    ensures Delivered(old(Look(o)), old(OwnerOf(o)), step, effect, Look(o), OwnerOf(o))
  {
    ghost var resident := o.kernel.resident;
    Leans();
    step := One("c", FIRST, {1}, 11, {FIRST});
    effect := Single(o, "c", FIRST, {1}, 11, {FIRST}, Evidence(View1(), 10));
    Views();
    OnlyFirst(View2(), o.kernel.desired);
    UpdateRefused(o.kernel.desired, resident, o.kernel.resident, o.kernel.pending, effect.failed);
    assert FIRST in o.kernel.desired.Keys;
  }

  method ChooseOther(o: DomainRegistry) returns (step: Step, effect: Effect)
    requires Stage(o, View2(), 11)
    requires Tracks(o) && FIRST in o.kernel.resident && P.PutOff(o.kernel.pending, FIRST, 11)
    modifies Footprint(o)
    ensures Stage(o, View3(), 12) && o.activity == old(o.activity) && fresh(o.index.pairs - old(o.index.pairs))
    ensures o.IsExact() && o.kernel.desired.Keys == {OTHER} && FIRST in o.kernel.resident
    ensures Delivered(old(Look(o)), old(OwnerOf(o)), step, effect, Look(o), OwnerOf(o))
  {
    ghost var resident, pending := o.kernel.resident, o.kernel.pending;
    Leans();
    step := One("b", OTHER, {0}, 12, {});
    effect := Single(o, "b", OTHER, {0}, 12, {}, Evidence(View2(), 11));
    Views();
    OtherIsTop(o.kernel.desired);
    RemovalPutOff(o.kernel.desired, resident, pending, o.kernel.resident, o.kernel.pending, effect.failed);
  }

  method Renew(o: DomainRegistry) returns (step: Step, effect: Effect)
    requires Stage(o, View3(), 12)
    requires o.kernel.desired.Keys == {OTHER} && FIRST in o.kernel.resident
    modifies Footprint(o)
    ensures Serving(o) && !o.IsExact()
    ensures Delivered(old(Look(o)), old(OwnerOf(o)), step, effect, Look(o), OwnerOf(o))
  {
    Leans();
    step := One("a", FIRST, {0}, 13, {});
    effect := Single(o, "a", FIRST, {0}, 13, {}, Evidence(View3(), 12));
    Views();
    OtherIsOvertaken(o.kernel.desired);
  }

  // The first address installed but not chosen, and then renewed.
  method Overtake(o: DomainRegistry) returns (s3: Step, e3: Effect, s4: Step, e4: Effect, ghost p3: Picture,
                                              ghost r3: R.Owner)
    requires Stage(o, View2(), 11)
    requires Tracks(o) && FIRST in o.kernel.resident && P.PutOff(o.kernel.pending, FIRST, 11)
    modifies Footprint(o)
    ensures Serving(o) && !o.IsExact() && o.window == WINDOW && o.lag == 0
    ensures Delivered(old(Look(o)), old(OwnerOf(o)), s3, e3, p3, r3) && Delivered(p3, r3, s4, e4, Look(o), OwnerOf(o))
  {
    s3, e3 := ChooseOther(o);
    p3, r3 := Look(o), OwnerOf(o);
    s4, e4 := Renew(o);
  }

  // An update put off, and what follows.
  method Unsettle(o: DomainRegistry)
    returns (s2: Step, e2: Effect, s3: Step, e3: Effect, s4: Step, e4: Effect, ghost p2: Picture, ghost p3: Picture,
             ghost r2: R.Owner, ghost r3: R.Owner)
    requires Stage(o, View1(), 10)
    requires Tracks(o) && Idle(o) && FIRST in o.kernel.resident && o.kernel.resident[FIRST] == Fold(View1(), FIRST)
    modifies Footprint(o)
    ensures Serving(o) && !o.IsExact() && o.window == WINDOW && o.lag == 0
    ensures Delivered(old(Look(o)), old(OwnerOf(o)), s2, e2, p2, r2)
    ensures Delivered(p2, r2, s3, e3, p3, r3) && Delivered(p3, r3, s4, e4, Look(o), OwnerOf(o))
  {
    s2, e2 := FailUpdate(o);
    p2, r2 := Look(o), OwnerOf(o);
    s3, e3, s4, e4, p3, r3 := Overtake(o);
  }

  // Deliveries in a row, in which no removal fails.
  ghost predicate Narrated(steps: seq<Step>, effects: seq<Effect>, pictures: seq<Picture>, start: R.Owner,
                           owner: R.Owner)
  {
    match owner
    case Owner(_, _) =>
      && Ran(steps, effects, pictures, start, owner, WINDOW, 0)
      && (forall s <- steps :: s.Delivery?) && forall e <- effects :: NoRemovalFailed(e)
  }

  ghost predicate DeliveredAt(steps: seq<Step>, e: seq<Effect>, p: seq<Picture>, r: seq<R.Owner>, i: nat)
    requires i < |steps| == |e| && |p| == |r| == |steps| + 1
  {
    Delivered(p[i], r[i], steps[i], e[i], p[i + 1], r[i + 1])
  }

  lemma {:induction false} AllDelivered(steps: seq<Step>, e: seq<Effect>, p: seq<Picture>, r: seq<R.Owner>)
    requires |steps| == |e| && |p| == |r| == |steps| + 1
    requires forall i {:trigger DeliveredAt(steps, e, p, r, i)} :: 0 <= i < |steps| ==> DeliveredAt(steps, e, p, r, i)
    ensures Narrated(steps, e, p, r[0], r[|steps|])
  {
    forall i | 0 <= i < |steps|
      ensures Linked(steps, e, p, r, WINDOW, 0, i) && NoRemovalFailed(e[i]) && steps[i].Delivery?
    {
      assert DeliveredAt(steps, e, p, r, i);
    }
    LinkedRun(steps, e, p, r, WINDOW, 0, |steps|);
    assert steps[..|steps|] == steps && e[..|steps|] == e && p[..|steps| + 1] == p;
  }

  lemma {:induction false} FourDeliveries(p: seq<Picture>, r: seq<R.Owner>, e: seq<Effect>, steps: seq<Step>)
    requires |steps| == |e| == 4 && |p| == |r| == 5
    requires DeliveredAt(steps, e, p, r, 0) && DeliveredAt(steps, e, p, r, 1) && DeliveredAt(steps, e, p, r, 2)
      && DeliveredAt(steps, e, p, r, 3)
    ensures Narrated(steps, e, p, r[0], r[4])
  {
    AllDelivered(steps, e, p, r);
  }

  lemma {:induction false} InARow(p0: Picture, p1: Picture, p2: Picture, p3: Picture, p4: Picture,
                                  r0: R.Owner, r1: R.Owner, r2: R.Owner, r3: R.Owner, r4: R.Owner,
                                  s1: Step, e1: Effect, s2: Step, e2: Effect, s3: Step, e3: Effect, s4: Step,
                                    e4: Effect)
    requires Delivered(p0, r0, s1, e1, p1, r1) && Delivered(p1, r1, s2, e2, p2, r2)
    requires Delivered(p2, r2, s3, e3, p3, r3) && Delivered(p3, r3, s4, e4, p4, r4)
    ensures Narrated([s1, s2, s3, s4], [e1, e2, e3, e4], [p0, p1, p2, p3, p4], r0, r4)
  {
    FourDeliveries([p0, p1, p2, p3, p4], [r0, r1, r2, r3, r4], [e1, e2, e3, e4], [s1, s2, s3, s4]);
  }

  // One slot. A failed update puts the first address off; the second one takes its
  // place, and the removal of the first inherits the delay. Renewing the first
  // then gives no notice, and the second keeps a slot it should have lost.
  method UnnoticedRenewal() returns (o: DomainRegistry, steps: seq<Step>, effects: seq<Effect>,
                                     ghost pictures: seq<Picture>)
    ensures LedTo(o, steps, effects, pictures, EMPTY, BLANK) && |steps| == 4 && forall s <- steps :: s.Delivery?
    ensures !o.IsExact() && forall e <- effects :: NoRemovalFailed(e)
  {
    o := new DomainRegistry(1, false, WINDOW, 0);
    assert Footprint(o) == {o, o.activity, o.index, o.kernel};
    steps, effects, pictures := Drive(o);
  }

  method Drive(o: DomainRegistry) returns (steps: seq<Step>, effects: seq<Effect>, ghost pictures: seq<Picture>)
    requires Stage(o, View(map[], map[]), 0) && Tracks(o) && Idle(o)
    modifies Footprint(o)
    ensures Serving(o) && !o.IsExact() && o.window == WINDOW && o.lag == 0
    ensures |steps| == 4 && |pictures| == 5 && pictures[0] == old(Look(o)) && pictures[4] == Look(o)
    ensures Narrated(steps, effects, pictures, old(OwnerOf(o)), OwnerOf(o))
  {
    var s1, e1, s2, e2, s3, e3, s4, e4;
    ghost var p2, p3, r2, r3;
    s1, e1 := InstallFirst(o);
    ghost var p1, r1 := Look(o), OwnerOf(o);
    s2, e2, s3, e3, s4, e4, p2, p3, r2, r3 := Unsettle(o);
    steps, effects, pictures := [s1, s2, s3, s4], [e1, e2, e3, e4], [old(Look(o)), p1, p2, p3, Look(o)];
    InARow(old(Look(o)), p1, p2, p3, Look(o), old(OwnerOf(o)), r1, r2, r3, OwnerOf(o), s1, e1, s2, e2, s3, e3, s4, e4);
  }
}
