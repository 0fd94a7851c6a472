/** Reloads over whole runs: the registry that owns the activity queue holds the
    evidence of one registry that is never reloaded and sweeps instead. */
module DomainReload {
  import opened Common
  import opened DomainView
  import opened DomainEvidence

  // The queue's owner and the queue.
  datatype Owner = Owner(evidence: Evidence, pending: Batch)

  datatype Event = Event(key: ActivityKey, at: Time)

  // Observations reach every serving generation, each with its own bitmaps, so a
  // step names both forms. A reload may be rejected; meanwhile activity arrives.
  datatype Step =
    | Activity(event: Event)
    | FlushStep
    | SweepStep(now: Time)
    | Delivered(observations: seq<Observation>, plain: seq<Observation>, at: Time)
    | Reload(matcher: Matcher, meanwhile: seq<Event>, now: Time, accepted: bool)

  function Arriving(batch: Batch, events: seq<Event>): Batch {
    if events == [] then batch
    else
      var last := events[|events| - 1];
      Enqueued(Arriving(batch, events[..|events| - 1]), last.key, last.at)
  }

  // With reloads: the owner flushes, its successor copies and takes over the
  // queue with what arrived meanwhile still in it.
  ghost function Reloading(o: Owner, step: Step, window: nat, lag: nat): Owner {
    match step
    case Activity(event) => o.(pending := Enqueued(o.pending, event.key, event.at))
    case FlushStep => Owner(Flush(o.evidence, o.pending, window, lag), map[])
    case SweepStep(now) => Owner(Sweep(o.evidence, o.pending, now, window, lag), map[])
    case Delivered(observations, _, at) => Owner(Observe(o.evidence, o.pending, observations, at, window, lag), map[])
    case Reload(matcher, meanwhile, now, accepted) =>
      var flushed, queued := Flush(o.evidence, o.pending, window, lag), Arriving(map[], meanwhile);
      Owner(if accepted then Fork(flushed, matcher, queued, now, window, lag) else flushed, queued)
  }

  // Without reloads: where one is accepted, the same registry sweeps.
  ghost function Steady(o: Owner, step: Step, window: nat, lag: nat): Owner {
    match step
    case Activity(event) => o.(pending := Enqueued(o.pending, event.key, event.at))
    case FlushStep => Owner(Flush(o.evidence, o.pending, window, lag), map[])
    case SweepStep(now) => Owner(Sweep(o.evidence, o.pending, now, window, lag), map[])
    case Delivered(_, plain, at) => Owner(Observe(o.evidence, o.pending, plain, at, window, lag), map[])
    case Reload(_, meanwhile, now, accepted) =>
      var flushed, queued := Flush(o.evidence, o.pending, window, lag), Arriving(map[], meanwhile);
      if accepted then Owner(Sweep(flushed, queued, now, window, lag), map[]) else Owner(flushed, queued)
  }

  ghost function ReloadingRun(o: Owner, steps: seq<Step>, window: nat, lag: nat): Owner {
    if steps == [] then o else Reloading(ReloadingRun(o, steps[..|steps| - 1], window, lag), steps[|steps| - 1],
                                         window, lag)
  }

  ghost function SteadyRun(o: Owner, steps: seq<Step>, window: nat, lag: nat): Owner {
    if steps == [] then o else Steady(SteadyRun(o, steps[..|steps| - 1], window, lag), steps[|steps| - 1], window, lag)
  }

  // The two forms of one delivery differ in bitmaps only.
  predicate SameDelivery(a: seq<Observation>, b: seq<Observation>) {
    |a| == |b| && forall i :: 0 <= i < |a| ==> a[i].name == b[i].name && a[i].ips == b[i].ips && a[i].ttl == b[i].ttl
  }

  predicate Deliverable(step: Step) {
    step.Delivered? ==> SameDelivery(step.observations, step.plain)
  }

  // Same pairs with the same deadlines, at the same clock.
  predicate Alike(a: Evidence, b: Evidence) {
    a.view.deadlines == b.view.deadlines && a.evaluatedAt == b.evaluatedAt
  }

  // ------ Every operation works on deadlines alone ------

  lemma {:induction false} PairedAllAlike(v: View, w: View, name: string, x: Bitmap, y: Bitmap, ips: seq<Addr>, t: Time)
    requires v.deadlines == w.deadlines
    ensures PairedAll(v, name, x, ips, t).deadlines == PairedAll(w, name, y, ips, t).deadlines
  {
    if ips != [] {
      PairedAllAlike(v, w, name, x, y, ips[..|ips| - 1], t);
    }
  }

  lemma {:induction false} ObservedAlike(v: View, w: View, a: seq<Observation>, b: seq<Observation>, at: Time,
                                         now: Time, window: nat)
    requires v.deadlines == w.deadlines && SameDelivery(a, b)
    ensures ObservedAll(v, a, at, now, window).deadlines == ObservedAll(w, b, at, now, window).deadlines
  {
    if a != [] {
      var n := |a| - 1;
      ObservedAlike(v, w, a[..n], b[..n], at, now, window);
      var v', w' := ObservedAll(v, a[..n], at, now, window), ObservedAll(w, b[..n], at, now, window);
      assert Deadline(a[n], at, window) == Deadline(b[n], at, window);
      PairedAllAlike(v', w', a[n].name, a[n].bitmap, b[n].bitmap, a[n].ips, Deadline(a[n], at, window));
    }
  }

  lemma {:induction false} GcAlike(a: Evidence, b: Evidence, lag: nat)
    requires Alike(a, b)
    ensures Alike(Gc(a, lag), Gc(b, lag))
  {
    var x, y := Gc(a, lag), Gc(b, lag);
    assert forall k :: k in x.view.deadlines <==> k in y.view.deadlines;
  }

  // ------ Queued activity that has been applied already ------

  // Applying the event again would change nothing.
  ghost predicate Absorbed(s: Evidence, window: nat, e: ActivityKey, at: Time) {
    && 0 < at <= s.evaluatedAt
    && forall k :: k in s.view.deadlines && Concerns(e, k) ==> at + window <= s.view.deadlines[k]
  }

  // Both queues hold the same event, or the longer one's is absorbed.
  ghost predicate QueuedAlike(s: Evidence, window: nat, p: Batch, q: Batch, e: ActivityKey) {
    || (e in p && e in q && p[e] == q[e] && 0 < p[e])
    || (e !in p && e !in q)
    || (e in p && Absorbed(s, window, e, p[e]) && (e in q ==> q[e] <= p[e]))
  }

  ghost predicate QueuesAlike(s: Evidence, window: nat, p: Batch, q: Batch) {
    forall e {:trigger QueuedAlike(s, window, p, q, e)} :: QueuedAlike(s, window, p, q, e)
  }

  ghost predicate Matches(o: Owner, r: Owner, window: nat) {
    Alike(o.evidence, r.evidence) && QueuesAlike(r.evidence, window, o.pending, r.pending)
  }

  lemma {:induction false} EmptyQueues(s: Evidence, window: nat)
    ensures QueuesAlike(s, window, map[], map[])
  {
  }

  lemma {:induction false} DrainAlike(o: Owner, r: Owner, window: nat)
    requires Matches(o, r, window)
    ensures Alike(Drain(o.evidence, o.pending, window), Drain(r.evidence, r.pending, window))
  {
    var d, s := r.evidence.view.deadlines, r.evidence;
    forall k | k in d
      ensures Extended(o.pending, window, k, d[k]) == Extended(r.pending, window, k, d[k])
    {
      assert QueuedAlike(s, window, o.pending, r.pending, ActivityKey(k.ip, None));
      assert QueuedAlike(s, window, o.pending, r.pending, ActivityKey(k.ip, Some(k.name)));
    }
    assert Drained(d, o.pending, window) == Drained(d, r.pending, window);
    ClockAlike(s, window, o.pending, r.pending);
  }

  lemma {:induction false} ClockAlike(s: Evidence, window: nat, p: Batch, q: Batch)
    requires QueuesAlike(s, window, p, q)
    ensures Clocked(s.evaluatedAt, p) == Clocked(s.evaluatedAt, q)
  {
    var m := Clocked(s.evaluatedAt, q);
    forall e | e in p
      ensures p[e] <= m
    {
      assert QueuedAlike(s, window, p, q, e);
    }
    if m != s.evaluatedAt {
      var e :| e in q && q[e] == m;
      assert QueuedAlike(s, window, p, q, e);
      assert e in p && p[e] == m;
    }
    ClockIs(s.evaluatedAt, p, m);
  }

  lemma {:induction false} EnqueueAlike(s: Evidence, window: nat, p: Batch, q: Batch, event: Event)
    requires QueuesAlike(s, window, p, q)
    ensures QueuesAlike(s, window, Enqueued(p, event.key, event.at), Enqueued(q, event.key, event.at))
  {
    var p', q' := Enqueued(p, event.key, event.at), Enqueued(q, event.key, event.at);
    forall e
      ensures QueuedAlike(s, window, p', q', e)
    {
      assert QueuedAlike(s, window, p, q, e);
    }
  }

  lemma {:induction false} ArrivingAlike(s: Evidence, window: nat, events: seq<Event>)
    ensures QueuesAlike(s, window, Arriving(map[], events), Arriving(map[], events))
  {
    if events == [] {
      EmptyQueues(s, window);
    } else {
      ArrivingAlike(s, window, events[..|events| - 1]);
      EnqueueAlike(s, window, Arriving(map[], events[..|events| - 1]), Arriving(map[], events[..|events| - 1]),
                   events[|events| - 1]);
    }
  }

  // What a sweep has applied is absorbed, so a successor may see it again.
  lemma {:induction false} SweptIsAbsorbed(s: Evidence, queued: Batch, now: Time, window: nat, lag: nat)
    requires forall e :: e in queued ==> 0 < queued[e]
    ensures QueuesAlike(Sweep(s, queued, now, window, lag), window, queued, map[])
  {
    var t := Sweep(s, queued, now, window, lag);
    var none: Batch := map[];
    forall e
      ensures QueuedAlike(t, window, queued, none, e)
    {
      if e in queued {
        forall k | k in t.view.deadlines && Concerns(e, k)
          ensures queued[e] + window <= t.view.deadlines[k]
        {
          assert e == ActivityKey(k.ip, None) || e == ActivityKey(k.ip, Some(k.name));
          assert t.view.deadlines[k] == Extended(queued, window, k, s.view.deadlines[k]);
        }
      }
    }
  }

  lemma {:induction false} ArrivingIsPositive(events: seq<Event>)
    ensures forall e :: e in Arriving(map[], events) ==> 0 < Arriving(map[], events)[e]
  {
    if events != [] {
      ArrivingIsPositive(events[..|events| - 1]);
    }
  }

  // ------ Runs ------

  lemma {:induction false} StepMatches(o: Owner, r: Owner, step: Step, window: nat, lag: nat)
    requires Matches(o, r, window) && Deliverable(step)
    ensures Matches(Reloading(o, step, window, lag), Steady(r, step, window, lag), window)
  {
    DrainAlike(o, r, window);
    match step
    case Activity(event) => EnqueueAlike(r.evidence, window, o.pending, r.pending, event);
    case FlushStep =>
      GcAlike(Drain(o.evidence, o.pending, window), Drain(r.evidence, r.pending, window), lag);
      EmptyQueues(Steady(r, step, window, lag).evidence, window);
    case SweepStep(now) =>
      SweepAlike(o, r, now, window, lag);
      EmptyQueues(Steady(r, step, window, lag).evidence, window);
    case Delivered(observations, plain, at) =>
      SweepAlike(o, r, at, window, lag);
      DeliveredAlike(Sweep(o.evidence, o.pending, at, window, lag), Sweep(r.evidence, r.pending, at, window, lag),
                     observations, plain, at, window);
      EmptyQueues(Steady(r, step, window, lag).evidence, window);
    case Reload(_, _, _, _) =>
      GcAlike(Drain(o.evidence, o.pending, window), Drain(r.evidence, r.pending, window), lag);
      ReloadMatches(o, r, step, window, lag);
  }

  lemma {:induction false} SweepAlike(o: Owner, r: Owner, now: Time, window: nat, lag: nat)
    requires Alike(Drain(o.evidence, o.pending, window), Drain(r.evidence, r.pending, window))
    ensures Alike(Sweep(o.evidence, o.pending, now, window, lag), Sweep(r.evidence, r.pending, now, window, lag))
  {
    GcAlike(Tick(Drain(o.evidence, o.pending, window), now), Tick(Drain(r.evidence, r.pending, window), now), lag);
  }

  lemma {:induction false} DeliveredAlike(a: Evidence, b: Evidence, x: seq<Observation>, y: seq<Observation>, at: Time,
                                          window: nat)
    requires Alike(a, b) && SameDelivery(x, y)
    ensures Alike(a.(view := ObservedAll(a.view, x, at, a.evaluatedAt, window)),
                  b.(view := ObservedAll(b.view, y, at, b.evaluatedAt, window)))
  {
    ObservedAlike(a.view, b.view, x, y, at, a.evaluatedAt, window);
  }

  lemma {:induction false} ReloadMatches(o: Owner, r: Owner, step: Step, window: nat, lag: nat)
    requires step.Reload? && Alike(Flush(o.evidence, o.pending, window, lag), Flush(r.evidence, r.pending, window, lag))
    ensures Matches(Reloading(o, step, window, lag), Steady(r, step, window, lag), window)
  {
    var queued := Arriving(map[], step.meanwhile);
    var a, b := Flush(o.evidence, o.pending, window, lag), Flush(r.evidence, r.pending, window, lag);
    ArrivingIsPositive(step.meanwhile);
    ArrivingAlike(a, window, step.meanwhile);
    ArrivingAlike(b, window, step.meanwhile);
    if step.accepted {
      var copy := Evidence(Rebased(a.view, step.matcher), a.evaluatedAt);
      DrainAlike(Owner(copy, queued), Owner(b, queued), window);
      SweepAlike(Owner(copy, queued), Owner(b, queued), step.now, window, lag);
      SweptIsAbsorbed(b, queued, step.now, window, lag);
    }
  }

  // Over any run, the owner's evidence is that of the never-reloaded registry.
  lemma {:induction false} ReloadsAreTransparent(o: Owner, r: Owner, steps: seq<Step>, window: nat, lag: nat)
    requires Matches(o, r, window) && forall i :: 0 <= i < |steps| ==> Deliverable(steps[i])
    ensures Matches(ReloadingRun(o, steps, window, lag), SteadyRun(r, steps, window, lag), window)
    decreases |steps|
  {
    if steps != [] {
      var n := |steps| - 1;
      ReloadsAreTransparent(o, r, steps[..n], window, lag);
      StepMatches(ReloadingRun(o, steps[..n], window, lag), SteadyRun(r, steps[..n], window, lag), steps[n], window,
                  lag);
    }
  }

  // ------ Why the steady registry has to sweep ------

  // An accepted reload keeps all evidence exactly when nothing has come due
  // by its own time.
  lemma {:induction false} ReloadKeepsEvidenceIff(s: Evidence, matcher: Matcher, queued: Batch, now: Time, window: nat,
                                                  lag: nat)
    ensures var kept := Drained(s.view.deadlines, queued, window);
      Fork(s, matcher, queued, now, window, lag).view.deadlines == kept <==>
      forall k :: k in kept ==> kept[k] > Later(Clocked(s.evaluatedAt, queued), now) - lag
  {
    var kept, cutoff := Drained(s.view.deadlines, queued, window), Later(Clocked(s.evaluatedAt, queued), now) - lag;
    var forked := Fork(s, matcher, queued, now, window, lag).view.deadlines;
    assert forall k :: k in forked <==> k in kept && kept[k] > cutoff;
    assert forall k :: k in forked ==> forked[k] == kept[k];
  }

  // One delivery to an empty registry at time 5, a flush, and a reload at time 10.
  function ShortLife(matcher: Matcher, accepted: bool): seq<Step> {
    var response := [Observation("a", [Addr(false, 1)], {0}, 0)];
    [Delivered(response, response, 5), FlushStep, Reload(matcher, [], 10, accepted)]
  }

  // The pair lives until 10. A rejected reload leaves it, an accepted one drops it.
  lemma {:induction false} ReloadCollects(matcher: Matcher, accepted: bool)
    ensures var nothing := Owner(Evidence(View(map[], map[]), 0), map[]);
      var reached := ReloadingRun(nothing, ShortLife(matcher, accepted), 5, 0).evidence.view.deadlines;
      reached == if accepted then map[] else map[Key("a", Addr(false, 1)) := 10]
  {
    var nothing, steps := Owner(Evidence(View(map[], map[]), 0), map[]), ShortLife(matcher, accepted);
    var delivered := Evidence(View(map[Key("a", Addr(false, 1)) := 10], map["a" := {0}]), 5);
    assert steps[..2][..1] == steps[..1] && steps[..1][..0] == [];
    ObserveOne(nothing.evidence, "a", Addr(false, 1), {0}, 5, 5);
    assert ReloadingRun(nothing, steps[..1], 5, 0) == Owner(delivered, map[]);
    DrainNothing(delivered, 5);
    CollectedNothing(delivered.view, 5);
    assert ReloadingRun(nothing, steps[..2], 5, 0) == Owner(delivered, map[]);
    if accepted {
      DrainNothing(Evidence(Rebased(delivered.view, matcher), 5), 5);
    }
  }
}
