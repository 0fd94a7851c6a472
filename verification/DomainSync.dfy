/** Bringing the kernel projection in line with the evidence after a change:
    patch the changed addresses, or choose anew from the cached summaries. */
module DomainSync {
  import opened Common
  import opened DomainView
  import opened DomainIndex
  import opened DomainSelection
  import opened DomainDrift
  import P = DomainProjection

  // Requests keep their retry time, new ones are due at once.
  ghost predicate Inherits(pending: P.Queue, pending': P.Queue) {
    forall ip :: ip in pending' ==> pending'[ip].due == P.RequestAt(pending, ip).due
  }

  // Addresses that nobody has asked about.
  ghost predicate Untouched(pending: P.Queue, pending': P.Queue, ips: set<Addr>) {
    forall ip <- ips :: P.RequestAt(pending', ip) == P.RequestAt(pending, ip)
  }

  lemma {:induction false} InheritsWant(pending: P.Queue, q: P.Queue, desired: P.Table, resident: P.Table, ip: Addr,
                                        forced: bool, todo: set<Addr>)
    requires Inherits(pending, q) && Untouched(pending, q, todo) && ip in todo
    ensures Inherits(pending, P.Requested(desired, resident, q, ip, forced))
    ensures Untouched(pending, P.Requested(desired, resident, q, ip, forced), todo - {ip})
  {
  }

  method Ask(kernel: P.Projection, ip: Addr, value: Option<Bitmaps>, ghost q: P.Queue, ghost todo: set<Addr>)
    requires kernel.Valid() && (value.Some? ==> |kernel.desired.Keys + {ip}| <= kernel.max)
    requires Inherits(q, kernel.pending) && Untouched(q, kernel.pending, todo) && ip in todo
    modifies kernel`desired, kernel`pending
    ensures kernel.Valid() && kernel.desired == P.Chosen(old(kernel.desired), ip, value)
    ensures Inherits(q, kernel.pending) && Untouched(q, kernel.pending, todo - {ip})
  {
    InheritsWant(q, kernel.pending, P.Chosen(kernel.desired, ip, value), kernel.resident, ip, kernel.force, todo);
    kernel.Want(ip, value, false);
  }

  lemma {:induction false} PatchStep(desired: P.Table, done: set<Addr>, v: View, ip: Addr)
    requires ip !in done
    ensures P.Chosen(Patched(desired, done, v), ip, if ip in Candidates(v) then Some(Fold(v, ip)) else None)
         == Patched(desired, done + {ip}, v)
  {
  }

  lemma {:induction false} PatchNone(desired: P.Table, v: View)
    ensures Patched(desired, {}, v) == desired
  {
  }

  // Enter or drop every changed address.
  method Patch(index: DomainIndex, kernel: P.Projection, changed: set<Addr>)
    requires index.Sound({}) && kernel.Valid() && |kernel.desired| + |changed| <= kernel.max
    modifies kernel`desired, kernel`pending
    ensures kernel.Valid() && kernel.desired == Patched(old(kernel.desired), changed, index.view)
    ensures Inherits(old(kernel.pending), kernel.pending)
  {
    ghost var d, q := kernel.desired, kernel.pending;
    var todo := changed;
    PatchNone(d, index.view);
    assert changed - todo == {};
    while todo != {}
      invariant todo <= changed && kernel.Valid() && Inherits(q, kernel.pending) && Untouched(q, kernel.pending, todo)
      invariant kernel.desired == Patched(d, changed - todo, index.view)
      decreases |todo|
    {
      var ip :| ip in todo;
      Taken(changed, todo, ip);
      IndexSummarizes(index.byName, index.byIP, index.pairs, index.view, ip);
      assert Summarizes(index.byIP, index.view, ip);
      PatchStep(d, changed - todo, index.view, ip);
      PatchRoom(d, changed, todo, index.view, ip);
      if ip in index.byIP && index.byIP[ip].bump != {} {
        Ask(kernel, ip, Some(Bitmaps(index.byIP[ip].bump, index.byIP[ip].routing)), q, todo);
      } else {
        Ask(kernel, ip, None, q, todo);
      }
      todo := todo - {ip};
    }
    assert changed - todo == changed;
  }

  lemma {:induction false} PatchRoom(desired: P.Table, changed: set<Addr>, todo: set<Addr>, v: View, ip: Addr)
    requires ip in todo && todo <= changed
    ensures |Patched(desired, changed - todo, v).Keys + {ip}| <= |desired| + |changed|
  {
    SubsetSize(Patched(desired, changed - todo, v).Keys + {ip}, desired.Keys + changed);
  }

  // Entries outside the selection go first, so that slots are free.
  method Drop(kernel: P.Projection, top: set<Addr>)
    requires kernel.Valid()
    modifies kernel`desired, kernel`pending
    ensures kernel.Valid() && Inherits(old(kernel.pending), kernel.pending)
      && Untouched(old(kernel.pending), kernel.pending, top)
    ensures kernel.desired == old(kernel.desired) - (old(kernel.desired).Keys - top)
  {
    ghost var d, q := kernel.desired, kernel.pending;
    var todo := kernel.desired.Keys - top;
    ghost var all, rest := todo, todo + top;
    assert all - todo == {} && d - {} == d;
    while todo != {}
      invariant todo <= all && kernel.Valid() && kernel.desired == d - (all - todo)
      invariant Inherits(q, kernel.pending) && Untouched(q, kernel.pending, rest) && todo <= rest && top <= rest
        && todo !! top
      decreases |todo|
    {
      var ip :| ip in todo;
      Taken(all, todo, ip);
      DropStep(d, all - todo, ip);
      Ask(kernel, ip, None, q, rest);
      rest := rest - {ip};
      todo := todo - {ip};
    }
    assert all - todo == all;
  }

  lemma {:induction false} DropStep(d: P.Table, done: set<Addr>, ip: Addr)
    ensures d - done - {ip} == d - (done + {ip})
  {
  }

  // Part of the selection has been entered with its current fold.
  ghost predicate EnteredAt(d: P.Table, desired: P.Table, top: set<Addr>, todo: set<Addr>, v: View, ip: Addr) {
    && (ip in desired ==> ip in top)
    && (ip in top && ip !in todo ==> ip in desired && desired[ip] == Fold(v, ip))
    && (ip in todo ==> (ip in desired <==> ip in d) && (ip in desired && ip in d ==> desired[ip] == d[ip]))
  }

  ghost predicate Entered(d: P.Table, desired: P.Table, top: set<Addr>, todo: set<Addr>, v: View) {
    forall ip {:trigger EnteredAt(d, desired, top, todo, v, ip)} :: EnteredAt(d, desired, top, todo, v, ip)
  }

  lemma {:induction false} EnterStep(d: P.Table, desired: P.Table, desired': P.Table, top: set<Addr>, todo: set<Addr>,
                                     v: View, ip: Addr)
    requires Entered(d, desired, top, todo, v) && ip in todo && ip in top
    requires desired' == desired[ip := Fold(v, ip)]
    ensures Entered(d, desired', top, todo - {ip}, v)
  {
    var rest := todo - {ip};
    forall a
      ensures EnteredAt(d, desired', top, rest, v, a)
    {
      assert EnteredAt(d, desired, top, todo, v, a);
    }
  }

  lemma {:induction false} EnterRoom(d: P.Table, desired: P.Table, top: set<Addr>, todo: set<Addr>, v: View, ip: Addr)
    requires Entered(d, desired, top, todo, v) && ip in top
    ensures |desired.Keys + {ip}| <= |top|
  {
    forall a | a in desired.Keys + {ip}
      ensures a in top
    {
      assert EnteredAt(d, desired, top, todo, v, a);
    }
    SubsetSize(desired.Keys + {ip}, top);
  }

  method Enter(index: DomainIndex, kernel: P.Projection, changed: set<Addr>, top: set<Addr>, ghost q: P.Queue)
    requires index.Sound({}) && kernel.Valid() && |top| <= kernel.max && top <= Candidates(index.view)
    requires kernel.desired.Keys <= top && Inherits(q, kernel.pending) && Untouched(q, kernel.pending, top)
    requires forall ip :: ip in kernel.desired && ip !in changed ==> kernel.desired[ip] == Fold(index.view, ip)
    modifies kernel`desired, kernel`pending
    ensures kernel.Valid() && Inherits(q, kernel.pending)
    ensures kernel.desired.Keys == top && forall ip ::
      ip in kernel.desired
      ==> kernel.desired[ip] == Fold(index.view, ip)
  {
    ghost var d := kernel.desired;
    var todo := top;
    while todo != {}
      invariant todo <= top && kernel.Valid() && Inherits(q, kernel.pending) && Untouched(q, kernel.pending, todo)
      invariant Entered(d, kernel.desired, top, todo, index.view)
      decreases |todo|
    {
      var ip :| ip in todo;
      Taken(top, todo, ip);
      assert EnteredAt(d, kernel.desired, top, todo, index.view, ip);
      EnterOne(index, kernel, ip, ip !in kernel.desired || ip in changed, d, top, todo, q);
      todo := todo - {ip};
    }
    Selected(d, kernel.desired, top, index.view);
  }

  method EnterOne(index: DomainIndex, kernel: P.Projection, ip: Addr, write: bool,
                  ghost d: P.Table, ghost top: set<Addr>, ghost todo: set<Addr>, ghost q: P.Queue)
    requires index.Sound({}) && kernel.Valid() && |top| <= kernel.max && top <= Candidates(index.view) && ip in todo
      && todo <= top
    requires Entered(d, kernel.desired, top, todo, index.view) && Inherits(q, kernel.pending)
      && Untouched(q, kernel.pending, todo)
    requires !write ==> ip in kernel.desired && kernel.desired[ip] == Fold(index.view, ip)
    modifies kernel`desired, kernel`pending
    ensures kernel.Valid() && Inherits(q, kernel.pending) && Untouched(q, kernel.pending, todo - {ip})
    ensures Entered(d, kernel.desired, top, todo - {ip}, index.view)
  {
    IndexSummarizes(index.byName, index.byIP, index.pairs, index.view, ip);
    assert Summarizes(index.byIP, index.view, ip);
    EnterRoom(d, kernel.desired, top, todo, index.view, ip);
    EnterStep(d, kernel.desired, kernel.desired[ip := Fold(index.view, ip)], top, todo, index.view, ip);
    if write {
      Ask(kernel, ip, Some(Bitmaps(index.byIP[ip].bump, index.byIP[ip].routing)), q, todo);
    } else {
      assert kernel.desired == kernel.desired[ip := Fold(index.view, ip)];
    }
  }

  lemma {:induction false} Selected(d: P.Table, desired: P.Table, top: set<Addr>, v: View)
    requires Entered(d, desired, top, {}, v)
    ensures desired.Keys == top && forall ip :: ip in desired ==> desired[ip] == Fold(v, ip)
  {
    forall ip
      ensures ip in desired.Keys <==> ip in top
      ensures ip in desired ==> desired[ip] == Fold(v, ip)
    {
      assert EnteredAt(d, desired, top, {}, v, ip);
    }
  }

  // Choose anew.
  method Reselect(index: DomainIndex, kernel: P.Projection, changed: set<Addr>)
    requires index.Sound({}) && kernel.Valid()
    requires forall ip :: ip in kernel.desired && ip !in changed ==> kernel.desired[ip] == Fold(index.view, ip)
    modifies kernel`desired, kernel`pending
    ensures kernel.Valid() && Inherits(old(kernel.pending), kernel.pending)
    ensures Exact(index.view, kernel.max, kernel.desired)
  {
    forall ip
      ensures Summarizes(index.byIP, index.view, ip)
    {
      IndexSummarizes(index.byName, index.byIP, index.pairs, index.view, ip);
    }
    var top := SelectTop(index.byIP, kernel.max, index.view);
    Drop(kernel, top);
    Enter(index, kernel, changed, top, old(kernel.pending));
  }

  method RebuildAll(index: DomainIndex, changed: set<Addr>)
    requires index.Sound(changed)
    modifies index`byIP
    ensures index.Sound({})
  {
    var todo := changed;
    while todo != {}
      invariant todo <= changed && index.Sound(todo)
      decreases |todo|
    {
      var ip :| ip in todo;
      Taken(changed, todo, ip);
      index.Rebuild(ip, todo);
      todo := todo - {ip};
    }
  }

  // Folds outside the changed addresses are as they were.
  lemma {:induction false} KeptFolds(v: View, w: View, desired: P.Table, changed: set<Addr>, reconsider: bool,
                                     resident: set<Addr>)
    requires Current(v, desired) && Drift(v, w, changed, reconsider, resident)
    ensures forall ip :: ip in desired && ip !in changed ==> desired[ip] == Fold(w, ip)
  {
    forall ip | ip in desired && ip !in changed
      ensures desired[ip] == Fold(w, ip)
    {
      assert CurrentAt(v, desired, ip) && DriftAt(v, w, changed, reconsider, resident, ip);
      FoldKept(v, w, ip);
    }
  }

  lemma {:induction false} ExactIsCurrent(v: View, max: nat, desired: P.Table)
    requires Exact(v, max, desired)
    ensures Current(v, desired)
  {
    forall ip
      ensures CurrentAt(v, desired, ip)
    {
      assert ip in desired ==> ip in desired.Keys;
    }
  }

  // The choice that follows a change, by either path.
  method Choose(index: DomainIndex, kernel: P.Projection, changed: set<Addr>, reconsider: bool, ghost v: View)
    requires index.Sound({}) && kernel.Valid() && Current(v, kernel.desired)
    requires Drift(v, index.view, changed, reconsider, kernel.resident.Keys)
    modifies kernel`desired, kernel`pending
    ensures kernel.Valid() && Current(index.view, kernel.desired) && Inherits(old(kernel.pending), kernel.pending)
    ensures Exact(v, kernel.max, old(kernel.desired)) && Settled(v, old(kernel.desired), kernel.resident.Keys) ==>
      Exact(index.view, kernel.max, kernel.desired)
    ensures reconsider || |old(kernel.desired)| + |changed| > kernel.max
      ==> Exact(index.view, kernel.max, kernel.desired)
    ensures !reconsider && changed == {} ==> kernel.desired == old(kernel.desired)
  {
    if !reconsider && |kernel.desired| + |changed| <= kernel.max {
      PatchedIsCurrent(v, index.view, kernel.desired, changed, reconsider, kernel.resident.Keys);
      if Exact(v, kernel.max, kernel.desired) && Settled(v, kernel.desired, kernel.resident.Keys) {
        FastIsExact(v, index.view, kernel.max, kernel.desired, changed, kernel.resident.Keys);
      }
      PatchNone(kernel.desired, index.view);
      Patch(index, kernel, changed);
    } else {
      KeptFolds(v, index.view, kernel.desired, changed, reconsider, kernel.resident.Keys);
      Reselect(index, kernel, changed);
      ExactIsCurrent(index.view, kernel.max, kernel.desired);
    }
  }

  // The outcome of a publication, told by the queue before the choice.
  lemma {:induction false} OutcomeInherited(desired: P.Table, resident: P.Table, q: P.Queue, q': P.Queue,
                                            resident': P.Table, pending': P.Queue,
                                            max: nat, now: Time, failed: set<Addr>)
    requires Inherits(q, q') && P.Queued(desired, resident, q') && pending'.Keys <= q'.Keys && 0 <= now
    requires P.Outcome(desired, resident, q', resident', pending', now, failed)
    ensures P.Outcome(desired, resident, q, resident', pending', now, failed)
    ensures P.NothingDeferred(q, now) ==> P.NothingDeferred(q', now)
    ensures P.Complete(desired, q', resident', pending', max, now, failed)
      ==> P.Complete(desired, q, resident', pending', max, now, failed)
  {
    assert forall ip :: ip in pending' ==> ip in pending'.Keys;
    forall ip
      ensures P.OutcomeAt(desired, resident, q, resident', pending', now, failed, ip)
    {
      assert P.OutcomeAt(desired, resident, q', resident', pending', now, failed, ip)
        && P.QueuedAt(desired, resident, q', ip);
      assert ip in pending' ==> ip in pending'.Keys;
    }
  }

  // One publication. Without failures and deferrals the kernel holds exactly the
  // choice afterwards.
  ghost predicate Published(kernel: P.Projection, resident: P.Table, pending: P.Queue, now: Time, failed: set<Addr>,
                            writes: P.Writes)
    reads kernel
  {
    && P.Outcome(kernel.desired, resident, pending, kernel.resident, kernel.pending, now, failed)
    && P.Complete(kernel.desired, pending, kernel.resident, kernel.pending, kernel.max, now, failed)
    && failed <= writes.refused
    && (!(kernel.force && kernel.batching) ==> P.Spared(resident, kernel.resident, writes.refused))
    && (P.NothingDeferred(pending, now) && (failed == {} || !kernel.failing)
        ==> kernel.pending == map[] && kernel.resident == kernel.desired)
    && (kernel.pending == map[] ==> !kernel.failing)
  }

  method SyncProjection(index: DomainIndex, kernel: P.Projection, changed: set<Addr>, reconsider: bool, now: Time,
                        writes: P.Writes, ghost v: View)
    returns (failed: set<Addr>)
    requires index.Sound(changed) && kernel.Valid() && Current(v, kernel.desired) && 0 <= now
    requires Drift(v, index.view, changed, reconsider, kernel.resident.Keys)
    modifies index`byIP, kernel`desired, kernel`pending, kernel`resident, kernel`failing
    ensures index.Sound({}) && kernel.Valid() && Current(index.view, kernel.desired)
    ensures Exact(v, kernel.max, old(kernel.desired)) && Settled(v, old(kernel.desired), old(kernel.resident).Keys) ==>
      Exact(index.view, kernel.max, kernel.desired)
    ensures reconsider || |old(kernel.desired)| + |changed| > kernel.max
      ==> Exact(index.view, kernel.max, kernel.desired)
    ensures !reconsider && changed == {} ==> kernel.desired == old(kernel.desired)
    ensures Published(kernel, old(kernel.resident), old(kernel.pending), now, failed, writes)
  {
    RebuildAll(index, changed);
    Choose(index, kernel, changed, reconsider, v);
    ghost var q, r := kernel.pending, kernel.resident;
    failed := kernel.Publish(now, writes);
    OutcomeInherited(kernel.desired, r, old(kernel.pending), q, kernel.resident, kernel.pending, kernel.max, now,
                     failed);
  }

  // No removal failed or was put off.
  ghost predicate Clean(desired: P.Table, pending: P.Queue, now: Time, failed: set<Addr>) {
    forall ip :: ip in failed || now < P.RequestAt(pending, ip).due ==> ip in desired
  }

  // Then every installed entry is chosen.
  lemma {:induction false} CleanSettles(v: View, desired: P.Table, resident: P.Table, pending: P.Queue,
                                        resident': P.Table, pending': P.Queue,
                                        now: Time, failed: set<Addr>)
    requires P.Outcome(desired, resident, pending, resident', pending', now, failed)
      && Clean(desired, pending, now, failed)
    ensures resident'.Keys <= desired.Keys && Settled(v, desired, resident'.Keys)
  {
    forall ip | ip in resident'.Keys
      ensures ip in desired.Keys
    {
      assert P.OutcomeAt(desired, resident, pending, resident', pending', now, failed, ip);
    }
  }

  // A publication leaves an unchosen candidate installed exactly if the removal
  // of one failed or was put off.
  lemma {:induction false} SettledIff(v: View, desired: P.Table, resident: P.Table, pending: P.Queue,
                                      resident': P.Table, pending': P.Queue,
                                      now: Time, failed: set<Addr>)
    requires P.Outcome(desired, resident, pending, resident', pending', now, failed)
    ensures Settled(v, desired, resident'.Keys) <==>
      forall ip <- resident :: ip in Candidates(v) && ip !in desired
        ==> ip !in failed && P.RequestAt(pending, ip).due <= now
  {
    if Settled(v, desired, resident'.Keys) {
      forall ip <- resident | ip in Candidates(v) && ip !in desired
        ensures ip !in failed && P.RequestAt(pending, ip).due <= now
      {
        assert P.OutcomeAt(desired, resident, pending, resident', pending', now, failed, ip);
        assert ip !in resident'.Keys;
      }
    }
    if forall ip <- resident ::
      ip in Candidates(v) && ip !in desired
      ==> ip !in failed && P.RequestAt(pending, ip).due <= now {
      forall ip <- resident'.Keys | ip in Candidates(v)
        ensures ip in desired
      {
        assert P.OutcomeAt(desired, resident, pending, resident', pending', now, failed, ip);
      }
    }
  }
}
