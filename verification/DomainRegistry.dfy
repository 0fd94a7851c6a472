/** The registry: evidence, its kernel projection and the activity queue that
    reloads hand from one registry to the next. */
module DomainRegistry {
  import opened DomainView
  import opened DomainEvidence
  import E = DomainEvidence
  import opened DomainAccount
  import opened DomainIndex
  import opened DomainDrift
  import opened DomainSync
  import P = DomainProjection

  // Coalesced connection activity and the registry that will apply it; nobody
  // after terminal closure.
  class Activity {
    var registry: DomainRegistry?
    var pending: Batch

    constructor ()
      ensures registry == null && pending == map[]
    {
      registry, pending := null, map[];
    }

    // The latest time per key.
    method Enqueue(e: ActivityKey, at: Time) returns (owner: DomainRegistry?)
      modifies this`pending
      ensures owner == registry
      ensures pending == if registry == null then old(pending) else Enqueued(old(pending), e, at)
      ensures registry != null && at > 0 ==> e in pending && at <= pending[e]
      ensures e in pending && (e !in old(pending) || pending[e] != old(pending)[e])
        ==> pending[e] == at && (e in old(pending) ==> old(pending)[e] < at)
    {
      if registry == null {
        return null;
      }
      if at > (if e in pending then pending[e] else 0) {
        pending := pending[e := at];
      }
      return registry;
    }
  }

  datatype Verification = Verification(registered: bool, paired: bool, kernelCovered: bool)

  ghost predicate Registered(v: View, name: string, ip: Addr) {
    exists k :: k in v.deadlines && k.name == name && k.ip.v6 == ip.v6
  }

  // Registered in the address family; paired with the address; and the kernel
  // saw either the current fold or, if not resident, a name no rule mentions.
  ghost function Verified(v: View, resident: map<Addr, Bitmaps>, name: string, ip: Addr): Verification {
    var paired := Key(name, ip) in v.deadlines;
    Verification(
      Registered(v, name, ip),
      paired,
      paired && if ip in resident then resident[ip] == Fold(v, ip) else BitmapOf(v, name) == {})
  }

  lemma {:induction false} NotRegistered(byName: Names, byIP: Addresses, pairs: set<DomainPair>, v: View, name: string,
                                         ip: Addr)
    requires KeysOk(byName, byIP, pairs, v) && name !in byName
    ensures !Registered(v, name, ip) && Key(name, ip) !in v.deadlines
  {
    forall k: Key | k in v.deadlines
      ensures k.name != name
    {
      assert KeyOk(byName, byIP, pairs, v, k);
    }
  }

  lemma {:induction false} SameFamily(v: View, ips: set<Addr>, name: string, ip: Addr)
    requires forall a <- ips :: Key(name, a) in v.deadlines
    requires forall k: Key :: k in v.deadlines && k.name == name ==> k.ip in ips
    ensures (exists a <- ips :: a.v6 == ip.v6) <==> Registered(v, name, ip)
  {
    if a :| a in ips && a.v6 == ip.v6 {
      assert Key(name, a) in v.deadlines;
    }
  }

  // Known pairs of installed addresses.
  ghost predicate Familiar(v: View, resident: set<Addr>, o: Observation) {
    forall ip <- o.ips :: Key(o.name, ip) in v.deadlines && ip in resident
  }

  ghost predicate AllFamiliar(v: View, resident: set<Addr>, observations: seq<Observation>) {
    forall i :: 0 <= i < |observations| ==> Familiar(v, resident, observations[i])
  }

  lemma {:induction false} FamiliarStill(v: View, w: View, resident: set<Addr>, observations: seq<Observation>, i: nat)
    requires v.deadlines.Keys <= w.deadlines.Keys && i < |observations|
    ensures AllFamiliar(v, resident, observations) ==> Familiar(w, resident, observations[i])
  {
    if AllFamiliar(v, resident, observations) {
      forall ip <- observations[i].ips
        ensures Key(observations[i].name, ip) in w.deadlines && ip in resident
      {
        assert Familiar(v, resident, observations[i]);
        assert Key(observations[i].name, ip) in v.deadlines.Keys;
      }
    }
  }

  lemma {:induction false} FamiliarAll(v: View, w: View, resident: set<Addr>, observations: seq<Observation>)
    ensures v.deadlines.Keys <= w.deadlines.Keys && AllFamiliar(v, resident, observations)
      ==> AllFamiliar(w, resident, observations)
  {
    if v.deadlines.Keys <= w.deadlines.Keys && AllFamiliar(v, resident, observations) {
      forall i | 0 <= i < |observations|
        ensures Familiar(w, resident, observations[i])
      {
        FamiliarStill(v, w, resident, observations, i);
      }
    }
  }

  lemma {:induction false} KeysGrow(v: View, name: string, bitmap: Bitmap, ips: seq<Addr>, deadline: Time)
    ensures v.deadlines.Keys <= PairedAll(v, name, bitmap, ips, deadline).deadlines.Keys
  {
    if ips != [] {
      KeysGrow(v, name, bitmap, ips[..|ips| - 1], deadline);
    }
  }

  lemma {:induction false} NothingExpired(v: View, cutoff: Time)
    ensures Expired(v.deadlines, cutoff) == {} ==> v.deadlines.Keys <= Collected(v, cutoff).deadlines.Keys
  {
    forall k | k in v.deadlines && v.deadlines[k] <= cutoff
      ensures k.ip in Expired(v.deadlines, cutoff)
    {
    }
  }

  class DomainRegistry {
    const index: DomainIndex
    const kernel: P.Projection
    const window: nat
    const lag: nat
    var activity: Activity
    var evaluatedAt: Time
    var closed: bool

    ghost predicate Valid()
      reads this`evaluatedAt, index, index.pairs, kernel
    {
      && index.Sound({}) && kernel.Valid()
      && Current(index.view, kernel.desired)
      && 0 <= evaluatedAt && !kernel.force
    }

    ghost function State(): Evidence
      reads this`evaluatedAt, index`view
    {
      Evidence(index.view, evaluatedAt)
    }

    // The queued activity this registry will apply.
    ghost function Queue(): Batch
      reads this, activity
    {
      if activity.registry == this then activity.pending else map[]
    }

    // The choice of kernel entries is what choosing anew would give.
    ghost predicate IsExact()
      reads index`view, kernel`desired
    {
      Exact(index.view, kernel.max, kernel.desired)
    }

    ghost predicate IsSettled()
      reads index`view, kernel`desired, kernel`resident
    {
      Settled(index.view, kernel.desired, kernel.resident.Keys)
    }

    constructor (max: nat, batching: bool, window: nat, lag: nat)
      ensures Valid() && fresh(index) && fresh(kernel) && fresh(activity) && index.pairs == {}
      ensures State() == Evidence(View(map[], map[]), 0) && !closed && activity.registry == this
        && activity.pending == map[]
      ensures this.window == window && this.lag == lag && kernel.max == max
      ensures kernel.resident == map[] && kernel.desired == map[] && kernel.pending == map[] && !kernel.failing
      ensures IsExact() && IsSettled()
    {
      index := new DomainIndex();
      kernel := new P.Projection(max, batching);
      this.window, this.lag := window, lag;
      evaluatedAt, closed := 0, false;
      activity := new Activity();
      new;
      activity.registry := this;
      NothingIsExact(max);
    }

    method Clock(now: Time)
      modifies this`evaluatedAt
      ensures evaluatedAt == Later(old(evaluatedAt), now)
    {
      if now > evaluatedAt {
        evaluatedAt := now;
      }
    }

    // Evidence recorded so far by one operation.
    ghost predicate Recording(v: View, changed: set<Addr>, reconsider: bool)
      reads this, index, index.pairs, kernel
    {
      index.Sound(changed) && Drift(v, index.view, changed, reconsider, kernel.resident.Keys)
    }

    // Progress through a batch of activity.
    ghost predicate Applying(s: Evidence, done: Batch, reconsider: bool, dirty: set<Addr>)
      reads this, index, index.pairs, kernel
    {
      && Recording(s.view, dirty, reconsider)
      && index.view == s.view.(deadlines := Drained(s.view.deadlines, done, window))
      && IsClock(s.evaluatedAt, done, evaluatedAt)
    }

    method ApplyOne(e: ActivityKey, at: Time, reconsider: bool, ghost s: Evidence, ghost done: Batch,
                    ghost dirty: set<Addr>) returns (r: bool)
      requires Applying(s, done, reconsider, dirty) && e !in done
      modifies this`evaluatedAt, index`byIP, index`nextGC, index`view, index.pairs
      ensures Applying(s, done[e := at], r, dirty) && index.pairs == old(index.pairs)
    {
      Clock(at);
      ClockStep(s.evaluatedAt, done, old(evaluatedAt), e, at);
      DrainedStep(s.view.deadlines, done, window, e, at);
      r := TouchOne(e, at + window, reconsider, s.view, dirty);
    }

    method TouchOne(e: ActivityKey, deadline: Time, reconsider: bool, ghost v: View, ghost dirty: set<Addr>)
      returns (r: bool)
      requires Recording(v, dirty, reconsider)
      modifies index`byIP, index`nextGC, index`view, index.pairs
      ensures Recording(v, dirty, r) && index.pairs == old(index.pairs)
      ensures index.view == old(index.view).(deadlines := Touched(old(index.view).deadlines, e, deadline))
    {
      index.IsCoherent(dirty);
      var raised := index.Touch(e, deadline, dirty);
      index.IsCoherent(dirty);
      DriftTouched(v, old(index.view), dirty, reconsider, kernel.resident.Keys, e, deadline, raised);
      r := reconsider || (raised && e.ip !in kernel.resident);
    }

    method ApplyActivity(batch: Batch, ghost dirty: set<Addr>) returns (reconsider: bool)
      requires index.Sound(dirty)
      modifies this`evaluatedAt, index`byIP, index`nextGC, index`view, index.pairs
      ensures index.Sound(dirty) && State() == Drain(old(State()), batch, window) && index.pairs == old(index.pairs)
      ensures Drift(old(index.view), index.view, dirty, reconsider, kernel.resident.Keys)
      ensures batch == map[] ==> !reconsider
    {
      ghost var s := State();
      reconsider := false;
      var todo := batch.Keys;
      DriftNone(index.view, dirty, kernel.resident.Keys);
      DrainedNothing(index.view.deadlines, window);
      assert batch - todo == map[];
      while todo != {}
        invariant todo <= batch.Keys && Applying(s, batch - todo, reconsider, dirty) && index.pairs == old(index.pairs)
        invariant batch == map[] ==> !reconsider
        decreases |todo|
      {
        var e :| e in todo;
        Taken(batch.Keys, todo, e);
        BatchStep(batch, todo, e);
        reconsider := ApplyOne(e, batch[e], reconsider, s, batch - todo, dirty);
        todo := todo - {e};
      }
      assert batch - todo == batch;
      ClockIs(s.evaluatedAt, batch, evaluatedAt);
    }

    // Only the owner of the queue takes its activity.
    method DrainActivity() returns (reconsider: bool)
      requires Valid()
      modifies this`evaluatedAt, activity`pending, index`byIP, index`nextGC, index`view, index.pairs
      ensures index.Sound({}) && State() == Drain(old(State()), old(Queue()), window) && 0 <= evaluatedAt
      ensures Drift(old(index.view), index.view, {}, reconsider, kernel.resident.Keys)
      ensures old(Queue()) == map[] ==> !reconsider
      ensures activity.pending == (if activity.registry == this then map[] else old(activity.pending))
        && index.pairs == old(index.pairs)
    {
      if activity.registry != this {
        DrainNothing(State(), window);
        DriftNone(index.view, {}, kernel.resident.Keys);
        return false;
      }
      var batch := activity.pending;
      activity.pending := map[];
      reconsider := ApplyActivity(batch, {});
    }

    // Collect what is due by the clock, then publish.
    method Settle(reconsider: bool, writes: P.Writes, ghost v: View) returns (failed: set<Addr>)
      requires index.Sound({}) && kernel.Valid() && Current(v, kernel.desired) && 0 <= evaluatedAt && !kernel.force
      requires Drift(v, index.view, {}, reconsider, kernel.resident.Keys)
      modifies index`byName, index`byIP, index`nextGC, index`view
      modifies kernel`desired, kernel`pending, kernel`resident, kernel`failing
      ensures Valid() && State() == Gc(old(State()), lag)
      ensures Exact(v, kernel.max, old(kernel.desired)) && Settled(v, old(kernel.desired), old(kernel.resident).Keys)
        ==> IsExact()
      ensures Published(kernel, old(kernel.resident), old(kernel.pending), evaluatedAt, failed, writes)
    {
      var changed := Collect(reconsider, v);
      failed := SyncProjection(index, kernel, changed, reconsider, evaluatedAt, writes, v);
    }

    method Collect(ghost reconsider: bool, ghost v: View) returns (changed: set<Addr>)
      requires index.Sound({}) && Drift(v, index.view, {}, reconsider, kernel.resident.Keys)
      modifies index`byName, index`byIP, index`nextGC, index`view
      ensures index.Sound(changed) && State() == Gc(old(State()), lag)
      ensures Drift(v, index.view, changed, reconsider, kernel.resident.Keys)
      ensures changed == Expired(old(index.view).deadlines, evaluatedAt - lag)
    {
      index.IsCoherent({});
      changed := index.Gc(evaluatedAt - lag, {});
      assert {} + changed == changed;
      DriftCollected(v, old(index.view), index.view, changed, reconsider, kernel.resident.Keys, evaluatedAt - lag);
    }

    method FlushActivity(writes: P.Writes) returns (failed: set<Addr>)
      requires Valid()
      modifies this`evaluatedAt, activity`pending, index`byName, index`byIP, index`nextGC, index`view, index.pairs
      modifies kernel`desired, kernel`pending, kernel`resident, kernel`failing
      ensures Valid()
      ensures !closed ==> State() == Flush(old(State()), old(Queue()), window, lag)
      ensures !closed
        ==> Explained(old(State()), old(Queue()), [], old(evaluatedAt), window, lag, State())
      ensures !closed && old(IsExact() && IsSettled()) ==> IsExact()
      ensures !closed ==> Published(kernel, old(kernel.resident), old(kernel.pending), evaluatedAt, failed, writes)
      ensures activity.pending == (if activity.registry == this && !closed then map[] else old(activity.pending))
        && index.pairs == old(index.pairs)
      ensures closed ==> unchanged(this) && unchanged(index) && unchanged(kernel) && unchanged(activity)
    {
      if closed {
        return {};
      }
      index.IsCoherent({});
      FlushExplained(State(), Queue(), window, lag);
      var reconsider := DrainActivity();
      failed := Settle(reconsider, writes, old(index.view));
    }

    method Sweep(now: Time, writes: P.Writes) returns (failed: set<Addr>)
      requires Valid()
      modifies this`evaluatedAt, activity`pending, index`byName, index`byIP, index`nextGC, index`view, index.pairs
      modifies kernel`desired, kernel`pending, kernel`resident, kernel`failing
      ensures Valid()
      ensures !closed ==> State() == E.Sweep(old(State()), old(Queue()), now, window, lag)
      ensures !closed ==> Explained(old(State()), old(Queue()), [], now, window, lag, State())
      ensures !closed && old(IsExact() && IsSettled()) ==> IsExact()
      ensures !closed ==> Published(kernel, old(kernel.resident), old(kernel.pending), evaluatedAt, failed, writes)
      ensures activity.pending == (if activity.registry == this && !closed then map[] else old(activity.pending))
        && index.pairs == old(index.pairs)
      ensures closed ==> unchanged(this) && unchanged(index) && unchanged(kernel) && unchanged(activity)
    {
      if closed {
        return {};
      }
      index.IsCoherent({});
      SweepExplained(State(), Queue(), now, window, lag);
      var reconsider := DrainActivity();
      Clock(now);
      failed := Settle(reconsider, writes, old(index.view));
    }

    method RecordOne(k: Key, bitmap: Bitmap, deadline: Time, changed: set<Addr>, reconsider: bool, ghost v: View)
      returns (changed': set<Addr>, reconsider': bool)
      requires Recording(v, changed, reconsider) && 0 < deadline
      modifies index, index.pairs
      ensures fresh(index.pairs - old(index.pairs)) && Recording(v, changed', reconsider')
      ensures index.view == Paired(old(index.view), k.name, bitmap, k.ip, deadline)
      ensures k in old(index.view).deadlines && k.ip in kernel.resident
        ==> changed' == changed && reconsider' == reconsider
    {
      index.IsCoherent(changed);
      var added, raised := index.Pair(k, bitmap, deadline, changed);
      changed' := if added then changed + {k.ip} else changed;
      reconsider' := reconsider || (raised && !added && k.ip !in kernel.resident);
      index.IsCoherent(changed');
      DriftPaired(v, old(index.view), changed, reconsider, kernel.resident.Keys, k, bitmap, deadline, raised);
    }

    method RecordAddresses(o: Observation, deadline: Time, changed: set<Addr>, reconsider: bool, ghost v: View)
      returns (changed': set<Addr>, reconsider': bool)
      requires Recording(v, changed, reconsider) && 0 < deadline
      modifies index, index.pairs
      ensures fresh(index.pairs - old(index.pairs)) && Recording(v, changed', reconsider')
      ensures index.view == PairedAll(old(index.view), o.name, o.bitmap, o.ips, deadline)
      ensures Familiar(old(index.view), kernel.resident.Keys, o) ==> changed' == changed && reconsider' == reconsider
    {
      changed', reconsider' := changed, reconsider;
      ghost var before := index.view;
      var i := 0;
      while i < |o.ips|
        invariant 0 <= i <= |o.ips| && fresh(index.pairs - old(index.pairs)) && Recording(v, changed', reconsider')
        invariant index.view == PairedAll(before, o.name, o.bitmap, o.ips[..i], deadline)
          && before.deadlines.Keys <= index.view.deadlines.Keys
        invariant Familiar(before, kernel.resident.Keys, o) ==> changed' == changed && reconsider' == reconsider
      {
        assert Familiar(before, kernel.resident.Keys, o) ==> Key(o.name, o.ips[i]) in before.deadlines.Keys;
        assert o.ips[..i + 1][..i] == o.ips[..i] && o.ips[..i + 1][i] == o.ips[i];
        changed', reconsider' := RecordOne(Key(o.name, o.ips[i]), o.bitmap, deadline, changed', reconsider', v);
        i := i + 1;
      }
      assert o.ips[..|o.ips|] == o.ips;
    }

    method Record(observations: seq<Observation>, at: Time, changed: set<Addr>, reconsider: bool, ghost v: View)
      returns (changed': set<Addr>, reconsider': bool)
      requires Recording(v, changed, reconsider) && 0 <= evaluatedAt
      modifies index, index.pairs
      ensures fresh(index.pairs - old(index.pairs)) && Recording(v, changed', reconsider')
      ensures index.view == ObservedAll(old(index.view), observations, at, evaluatedAt, window)
      ensures AllFamiliar(old(index.view), kernel.resident.Keys, observations)
        ==> changed' == changed && reconsider' == reconsider
    {
      changed', reconsider' := changed, reconsider;
      ghost var before := index.view;
      var i := 0;
      while i < |observations|
        invariant 0 <= i <= |observations| && fresh(index.pairs - old(index.pairs))
          && Recording(v, changed', reconsider')
        invariant index.view == ObservedAll(before, observations[..i], at, evaluatedAt, window)
          && before.deadlines.Keys <= index.view.deadlines.Keys
        invariant AllFamiliar(before, kernel.resident.Keys, observations)
          ==> changed' == changed && reconsider' == reconsider
      {
        var o := observations[i];
        assert observations[..i + 1][..i] == observations[..i] && observations[..i + 1][i] == o;
        var deadline := Deadline(o, at, window);
        FamiliarStill(before, index.view, kernel.resident.Keys, observations, i);
        KeysGrow(index.view, o.name, o.bitmap, o.ips, deadline);
        if deadline > evaluatedAt {
          changed', reconsider' := RecordAddresses(o, deadline, changed', reconsider', v);
        }
        i := i + 1;
      }
      assert observations[..|observations|] == observations;
    }

    // Drained, at the given time, and collected.
    method Prepare(at: Time) returns (changed: set<Addr>, reconsider: bool)
      requires Valid()
      modifies this`evaluatedAt, activity`pending, index`byName, index`byIP, index`nextGC, index`view, index.pairs
      ensures index.Sound(changed) && State() == E.Sweep(old(State()), old(Queue()), at, window, lag)
        && 0 <= evaluatedAt
      ensures Drift(old(index.view), index.view, changed, reconsider, kernel.resident.Keys)
      ensures activity.pending == (if activity.registry == this then map[] else old(activity.pending))
        && index.pairs == old(index.pairs)
      ensures old(Queue()) == map[] && Expired(old(index.view).deadlines, Later(old(evaluatedAt), at) - lag) == {} ==>
        changed == {} && !reconsider && old(index.view).deadlines.Keys <= index.view.deadlines.Keys
    {
      reconsider := DrainActivity();
      Clock(at);
      ghost var drained := index.view;
      changed := Collect(reconsider, old(index.view));
      DrainNothing(old(State()), window);
      NothingExpired(drained, evaluatedAt - lag);
    }

    // Nothing is queued or due, and every observed pair is known and installed.
    ghost predicate Quiet(observations: seq<Observation>, at: Time)
      reads this, activity, index, kernel
    {
      && Queue() == map[] && Expired(index.view.deadlines, Later(evaluatedAt, at) - lag) == {}
      && AllFamiliar(index.view, kernel.resident.Keys, observations)
    }

    // The evidence of one response, and what it changed.
    method Evaluate(observations: seq<Observation>, at: Time) returns (changed: set<Addr>, reconsider: bool)
      requires Valid()
      modifies this`evaluatedAt, activity`pending, index, index.pairs
      ensures State() == Observe(old(State()), old(Queue()), observations, at, window, lag) && 0 <= evaluatedAt
      ensures fresh(index.pairs - old(index.pairs)) && Recording(old(index.view), changed, reconsider)
      ensures activity.pending == if activity.registry == this then map[] else old(activity.pending)
      ensures old(Quiet(observations, at)) ==> changed == {} && !reconsider
    {
      changed, reconsider := Prepare(at);
      FamiliarAll(old(index.view), index.view, kernel.resident.Keys, observations);
      changed, reconsider := Record(observations, at, changed, reconsider, old(index.view));
    }

    // One delivered response. Queued activity and collection come first.
    method ObserveDNS(observations: seq<Observation>, at: Time, writes: P.Writes) returns (failed: set<Addr>)
      requires Valid()
      modifies this`evaluatedAt, activity`pending, index, index.pairs
      modifies kernel`desired, kernel`pending, kernel`resident, kernel`failing
      ensures Valid()
      ensures !closed ==> State() == Observe(old(State()), old(Queue()), observations, at, window, lag)
      ensures !closed ==> Explained(old(State()), old(Queue()), observations, at, window, lag, State())
      ensures !closed && old(IsExact() && IsSettled()) ==> IsExact()
      ensures !closed ==> Published(kernel, old(kernel.resident), old(kernel.pending), evaluatedAt, failed, writes)
      ensures activity.pending == if activity.registry == this && !closed then map[] else old(activity.pending)
      ensures fresh(index.pairs - old(index.pairs))
      ensures !closed && old(Quiet(observations, at)) ==> kernel.desired == old(kernel.desired)
      ensures closed ==> unchanged(this) && unchanged(index) && unchanged(kernel) && unchanged(activity)
    {
      if closed {
        return {};
      }
      index.IsCoherent({});
      ObserveExplained(State(), Queue(), observations, at, window, lag);
      var changed, reconsider := Evaluate(observations, at);
      failed := SyncProjection(index, kernel, changed, reconsider, evaluatedAt, writes, old(index.view));
    }

    // Retries what is due, without looking at the evidence.
    method RetryProjection(now: Time, writes: P.Writes) returns (failed: set<Addr>)
      requires Valid()
      modifies kernel`pending, kernel`resident, kernel`failing
      ensures Valid() && (closed ==> unchanged(kernel))
      ensures !closed ==> Published(kernel, old(kernel.resident), old(kernel.pending), now, failed, writes)
    {
      if closed {
        return {};
      }
      failed := kernel.Publish(now, writes);
    }

    // What the registry knows about a sniffed name at an address.
    method Verify(name: string, ip: Addr) returns (result: Verification)
      requires Valid()
      ensures result == Verified(index.view, kernel.resident, name, ip)
    {
      var k := Key(name, ip);
      assert KeyOk(index.byName, index.byIP, index.pairs, index.view, k);
      assert NameOk(index.byName, index.view.bitmaps, name) && AddrOk(index.byIP, index.view, {}, ip);
      if name !in index.byName {
        NotRegistered(index.byName, index.byIP, index.pairs, index.view, name, ip);
        return Verification(false, false, false);
      }
      var r := index.byName[name];
      if ip in r.addresses {
        var covered := r.bitmap == {};
        if ip in kernel.resident {
          var s := index.byIP[ip];
          covered := kernel.resident[ip] == Bitmaps(s.bump, s.routing);
        }
        assert k in index.view.deadlines;
        return Verification(true, true, covered);
      }
      AddressesOf(index.byName, index.byIP, index.pairs, index.view, name);
      var registered := exists addr <- r.addresses.Keys :: addr.v6 == ip.v6;
      SameFamily(index.view, r.addresses.Keys, name, ip);
      return Verification(registered, false, false);
    }

    // Publishes every summary of a registry that has not published anything yet.
    method RebuildProjection(now: Time, writes: P.Writes, ghost dirty: set<Addr>) returns (ok: bool)
      requires index.Sound(dirty) && kernel.Valid() && kernel.desired == map[] && 0 <= now
      modifies index`byIP, kernel`desired, kernel`pending, kernel`resident, kernel`failing, kernel`force
      ensures index.Sound({}) && kernel.Valid() && !kernel.force && Current(index.view, kernel.desired) && IsExact()
      ensures ok == !kernel.failing
      ensures ok && P.NothingDeferred(old(kernel.pending), now)
        ==> kernel.pending == map[] && kernel.resident == kernel.desired
      ensures writes.refused == {} && P.NothingDeferred(old(kernel.pending), now) ==> ok
    {
      index.AllDirty(dirty);
      var changed := index.byIP.Keys;
      kernel.force := true;
      DriftFromNothing(index.byName, index.byIP, index.pairs, index.view, kernel.resident.Keys);
      var failed := SyncProjection(index, kernel, changed, true, now, writes, View(map[], map[]));
      kernel.force := false;
      ok := !kernel.failing;
    }

    // A registry as constructed.
    ghost predicate Fresh()
      reads this`evaluatedAt, index, index.pairs, kernel
    {
      && Valid() && State() == Evidence(View(map[], map[]), 0) && index.pairs == {}
      && kernel.desired == map[] && kernel.pending == map[] && kernel.resident == map[]
    }

    // Evidence copied from a predecessor, with the activity queued meanwhile.
    method Inherit(other: DomainRegistry, matchBitmap: Matcher, queued: Batch, now: Time)
      returns (ghost dirty: set<Addr>)
      requires Fresh() && other.Valid() && this != other && index != other.index
      modifies this`evaluatedAt, index
      ensures index.Sound(dirty) && State() == Fork(other.State(), matchBitmap, queued, now, window, lag)
      ensures 0 <= evaluatedAt && fresh(index.pairs)
    {
      dirty := index.Install(other.index, matchBitmap);
      Clock(other.evaluatedAt);
      dirty := CatchUp(queued, now, dirty);
    }

    method CatchUp(queued: Batch, now: Time, ghost dirty: set<Addr>) returns (ghost dirty': set<Addr>)
      requires index.Sound(dirty) && 0 <= evaluatedAt
      modifies this`evaluatedAt, index`byName, index`byIP, index`nextGC, index`view, index.pairs
      ensures index.Sound(dirty') && State() == E.Sweep(old(State()), queued, now, window, lag)
      ensures 0 <= evaluatedAt && index.pairs == old(index.pairs)
    {
      var _ := ApplyActivity(queued, dirty);
      dirty' := CollectAt(now, dirty);
    }

    method CollectAt(now: Time, ghost dirty: set<Addr>) returns (ghost dirty': set<Addr>)
      requires index.Sound(dirty)
      modifies this`evaluatedAt, index`byName, index`byIP, index`nextGC, index`view
      ensures index.Sound(dirty') && State() == Gc(Tick(old(State()), now), lag)
    {
      Clock(now);
      var changed := index.Gc(evaluatedAt - lag, dirty);
      dirty' := dirty + changed;
    }

    method Succeed(other: DomainRegistry, matchBitmap: Matcher, now: Time, queued: Batch, writes: P.Writes)
      returns (ok: bool)
      requires Fresh() && other.Valid() && this != other && index != other.index && kernel != other.kernel
      modifies this`evaluatedAt, index, kernel`desired, kernel`pending, kernel`resident, kernel`failing, kernel`force
      ensures other.Valid() && other.State() == old(other.State())
      ensures ok ==>
        Valid() && IsExact() && kernel.resident == kernel.desired && kernel.pending == map[]
        && fresh(index.pairs)
      ensures ok ==> State() == old(Fork(other.State(), matchBitmap, queued, now, window, lag))
      ensures writes.refused == {} ==> ok
    {
      ghost var dirty := Inherit(other, matchBitmap, queued, now);
      ok := RebuildProjection(evaluatedAt, writes, dirty);
    }

    // Everything but the hand-over.
    method Candidate(other: DomainRegistry, matchBitmap: Matcher, now: Time, queued: Batch, otherWrites: P.Writes,
                     writes: P.Writes)
      returns (ok: bool, failed: set<Addr>)
      requires Fresh() && other.Valid() && !other.closed && other.activity.registry == other
      requires this != other && index != other.index && kernel != other.kernel && activity != other.activity
      modifies this`evaluatedAt, index, kernel`desired, kernel`pending, kernel`resident, kernel`failing, kernel`force
      modifies other`evaluatedAt, other.activity`pending, other.index`byName, other.index`byIP, other.index`nextGC,
        other.index`view, other.index.pairs
      modifies other.kernel`desired, other.kernel`pending, other.kernel`resident, other.kernel`failing
      ensures other.Valid() && other.State() == Flush(old(other.State()), old(other.Queue()), other.window, other.lag)
      ensures other.index.pairs == old(other.index.pairs)
      ensures old(other.IsExact() && other.IsSettled()) ==> other.IsExact()
      ensures Published(other.kernel, old(other.kernel.resident), old(other.kernel.pending), other.evaluatedAt, failed,
                        otherWrites)
      ensures ok ==>
        Valid() && IsExact() && kernel.resident == kernel.desired && kernel.pending == map[]
        && fresh(index.pairs)
      ensures ok ==> State() == Fork(other.State(), matchBitmap, queued, now, window, lag)
      ensures writes.refused == {} ==> ok
    {
      failed := other.FlushActivity(otherWrites);
      ok := Succeed(other, matchBitmap, now, queued, writes);
    }

    // The successor publishes its own projection before it takes over the queue;
    // until then, and on failure, the predecessor keeps everything. queued is
    // what arrives in the queue while this runs.
    method ForkFrom(other: DomainRegistry, matchBitmap: Matcher, now: Time, queued: Batch, otherWrites: P.Writes,
                    writes: P.Writes)
      returns (ok: bool, failed: set<Addr>)
      requires Fresh() && other.Valid() && !other.closed && other.activity.registry == other
      requires this != other && index != other.index && kernel != other.kernel && activity != other.activity
      modifies this`evaluatedAt, this`activity, index, kernel`desired, kernel`pending, kernel`resident, kernel`failing,
        kernel`force
      modifies other`evaluatedAt, other.activity, other.index`byName, other.index`byIP, other.index`nextGC,
        other.index`view, other.index.pairs
      modifies other.kernel`desired, other.kernel`pending, other.kernel`resident, other.kernel`failing
      ensures other.Valid() && other.State() == Flush(old(other.State()), old(other.Queue()), other.window, other.lag)
      ensures other.activity == old(other.activity) && other.activity.pending == queued
        && other.index.pairs == old(other.index.pairs)
      ensures old(other.IsExact() && other.IsSettled()) ==> other.IsExact()
      ensures Published(other.kernel, old(other.kernel.resident), old(other.kernel.pending), other.evaluatedAt, failed,
                        otherWrites)
      ensures ok ==> fresh(index.pairs)
      ensures ok ==> Valid() && IsExact() && kernel.resident == kernel.desired && kernel.pending == map[]
      ensures ok ==> State() == Fork(other.State(), matchBitmap, queued, now, window, lag)
      ensures ok ==> Inherited(other.State(), matchBitmap, queued, now, window, lag, State())
      ensures ok ==> activity == other.activity && activity.registry == this
      ensures !ok ==> other.activity.registry == other
      ensures writes.refused == {} ==> ok
    {
      ok, failed := Candidate(other, matchBitmap, now, queued, otherWrites, writes);
      label Prepared:
      HandOver(other.activity, queued, ok);
      other.Kept@Prepared();
      if ok {
        Kept@Prepared();
        other.index.IsCoherent({});
        ForkInherits(other.State(), matchBitmap, queued, now, window, lag);
      }
    }

    // The queue with what arrived meanwhile, and its new owner.
    method HandOver(queue: Activity, queued: Batch, accepted: bool)
      modifies this`activity, queue
      ensures queue.pending == queued
      ensures accepted ==> activity == queue && queue.registry == this
      ensures !accepted ==> activity == old(activity) && queue.registry == old(queue.registry)
    {
      queue.pending := queued;
      if accepted {
        activity := queue;
        queue.registry := this;
      }
    }

    twostate lemma {:induction false} Kept()
      requires old(Valid()) && unchanged(this`evaluatedAt, index, kernel) && unchanged(index.pairs)
      ensures Valid() && State() == old(State())
    {
    }

    // Terminal closure: the owner applies a last batch, nobody gets the next. A
    // second call finds everything done.
    method Close(writes: P.Writes) returns (failed: set<Addr>)
      requires Valid()
      modifies this`evaluatedAt, this`closed, activity, index`byName, index`byIP, index`nextGC, index`view, index.pairs
      modifies kernel`desired, kernel`pending, kernel`resident, kernel`failing
      ensures Valid() && closed
      ensures old(closed) ==> unchanged(this) && unchanged(index) && unchanged(kernel) && unchanged(activity)
      ensures !old(closed) ==> State() == Flush(old(State()), old(Queue()), window, lag)
      ensures !old(closed)
        ==> Explained(old(State()), old(Queue()), [], old(evaluatedAt), window, lag, State())
      ensures !old(closed) && old(IsExact() && IsSettled()) ==> IsExact()
      ensures !old(closed) ==> Published(kernel, old(kernel.resident), old(kernel.pending), evaluatedAt, failed, writes)
      ensures !old(closed) && old(activity.registry) == this ==> activity.registry == null && activity.pending == map[]
      ensures old(activity.registry) != this
        ==> activity.registry == old(activity.registry) && activity.pending == old(activity.pending)
    {
      if closed {
        return {};
      }
      failed := FlushActivity(writes);
      closed := true;
      if activity.registry == this {
        activity.registry := null;
      }
    }
  }

  lemma {:induction false} DriftFromNothing(byName: Names, byIP: Addresses, pairs: set<DomainPair>, w: View,
                                            resident: set<Addr>)
    requires KeysOk(byName, byIP, pairs, w)
    ensures Drift(View(map[], map[]), w, byIP.Keys, true, resident)
    ensures Current(View(map[], map[]), map[])
  {
    var v := View(map[], map[]);
    forall ip
      ensures DriftAt(v, w, byIP.Keys, true, resident, ip)
    {
      if ip !in byIP {
        NoNames(byName, byIP, pairs, w, ip);
        PriorityKept(v, w, ip);
      }
    }
  }

  lemma {:induction false} BatchStep(batch: Batch, todo: set<ActivityKey>, e: ActivityKey)
    requires e in batch && e in todo
    ensures (batch - todo)[e := batch[e]] == batch - (todo - {e})
  {
  }

  lemma {:induction false} ClockStep(t: Time, done: Batch, m: Time, e: ActivityKey, at: Time)
    requires IsClock(t, done, m) && e !in done
    ensures IsClock(t, done[e := at], Later(m, at))
  {
    var more := done[e := at];
    if m != t && at <= m {
      var f :| f in done && done[f] == m;
      assert f in more && more[f] == m;
    }
    if at > m {
      assert e in more && more[e] == at;
    }
  }
}
