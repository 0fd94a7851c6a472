/** The kernel map as a bounded projection of the evidence: what it should hold,
    what it is known to hold, and the coalesced difference still to be written.
    Every write may fail. */
module DomainProjection {
  import opened Common
  import opened DomainView
  import opened DomainEvidence

  datatype Publication = Publication(due: Time, force: bool)

  const UNREQUESTED := Publication(0, false)
  const BATCH_SIZE: nat := 256

  // Which kernel writes fail while one operation publishes: addresses whose own
  // write fails, and batches by their number. A batch applies as a whole or not.
  datatype Writes = Writes(refused: set<Addr>, refusedBatches: set<nat>)

  type Table = map<Addr, Bitmaps>
  type Queue = map<Addr, Publication>

  predicate Same(desired: Table, resident: Table, ip: Addr) {
    && (ip in desired <==> ip in resident)
    && (ip in desired && ip in resident ==> desired[ip] == resident[ip])
  }

  // Every difference is queued, and nothing is queued for an unknown address.
  predicate QueuedAt(desired: Table, resident: Table, pending: Queue, ip: Addr) {
    && (!Same(desired, resident, ip) ==> ip in pending)
    && (ip in pending ==> ip in desired || ip in resident)
  }

  ghost predicate Queued(desired: Table, resident: Table, pending: Queue) {
    forall ip {:trigger QueuedAt(desired, resident, pending, ip)} :: QueuedAt(desired, resident, pending, ip)
  }

  // The queue holds selected or installed addresses only.
  lemma {:induction false} QueueIsBounded(desired: Table, resident: Table, pending: Queue, max: nat)
    requires Queued(desired, resident, pending) && |desired| <= max && |resident| <= max
    ensures |pending| <= 2 * max
  {
    forall ip | ip in pending.Keys
      ensures ip in desired.Keys + resident.Keys
    {
      assert QueuedAt(desired, resident, pending, ip);
    }
    SubsetSize(pending.Keys, desired.Keys + resident.Keys);
    assert |desired.Keys + resident.Keys| <= |desired.Keys| + |resident.Keys|;
  }

  lemma {:induction false} EmptyQueue(desired: Table, resident: Table)
    requires Queued(desired, resident, map[])
    ensures desired == resident
  {
    forall ip
      ensures Same(desired, resident, ip)
    {
      assert QueuedAt(desired, resident, map[], ip);
    }
    assert forall ip :: ip in desired <==> ip in resident by {
      forall ip
        ensures ip in desired <==> ip in resident
      {
        assert Same(desired, resident, ip);
      }
    }
    forall ip | ip in desired
      ensures desired[ip] == resident[ip]
    {
      assert Same(desired, resident, ip);
    }
  }

  // Nothing waits for its retry time.
  ghost predicate NothingDeferred(pending: Queue, now: Time) {
    forall ip :: ip in pending ==> pending[ip].due <= now
  }

  // A chosen entry that cannot go in, because the map is full of others.
  predicate Blocked(desired: Table, resident: Table, max: nat, ip: Addr) {
    ip in desired && ip !in resident && |resident| >= max
  }

  // A request is taken up in its own pass once it is due.
  predicate Due(desired: Table, pending: Queue, ip: Addr, removing: bool, now: Time) {
    ip in pending && removing != (ip in desired) && pending[ip].due <= now
  }

  function Written(desired: Table, resident: Table, ip: Addr): Table {
    if ip in desired then resident[ip := desired[ip]] else resident - {ip}
  }

  lemma {:induction false} WrittenQueued(desired: Table, resident: Table, pending: Queue, ip: Addr)
    requires Queued(desired, resident, pending)
    ensures Queued(desired, Written(desired, resident, ip), pending - {ip})
  {
    var written, rest := Written(desired, resident, ip), pending - {ip};
    forall other
      ensures QueuedAt(desired, written, rest, other)
    {
      assert QueuedAt(desired, resident, pending, other);
    }
  }

  lemma {:induction false} RetriedQueued(desired: Table, resident: Table, pending: Queue, ip: Addr,
                                         request: Publication)
    requires Queued(desired, resident, pending) && ip in pending
    ensures Queued(desired, resident, pending[ip := request])
  {
    var retried := pending[ip := request];
    forall other
      ensures QueuedAt(desired, resident, retried, other)
    {
      assert QueuedAt(desired, resident, pending, other);
    }
  }

  lemma {:induction false} WrittenSize(desired: Table, resident: Table, max: nat, ip: Addr)
    requires |resident| <= max && !Blocked(desired, resident, max, ip)
    ensures |Written(desired, resident, ip)| <= max
  {
    if ip in desired {
      assert Written(desired, resident, ip).Keys == resident.Keys + {ip};
    } else {
      SubsetSize(Written(desired, resident, ip).Keys, resident.Keys);
    }
  }

  // One request: skipped, refused and put off, or written.
  ghost predicate Attempted(desired: Table, resident: Table, pending: Queue, resident': Table, pending': Queue,
                            max: nat, ip: Addr, removing: bool, now: Time, failed: bool)
    requires ip in pending
  {
    if failed then
      Due(desired, pending, ip, removing, now) && resident' == resident
        && pending' == pending[ip := pending[ip].(due := now + SECOND)]
    else if !Due(desired, pending, ip, removing, now) || Blocked(desired, resident, max, ip) then
      resident' == resident && pending' == pending
    else
      resident' == Written(desired, resident, ip) && pending' == pending - {ip}
  }

  lemma {:induction false} FreeingStep(desired: Table, resident: Table, pending: Queue, r: Table, q: Queue, r': Table,
                                       q': Queue,
                                       max: nat, ips: set<Addr>, ip: Addr, now: Time, failed: set<Addr>, refused: bool)
    requires Freeing(desired, resident, pending, r, q, ips, now, failed) && ip in pending && ip !in ips && ip in q
      && ip !in failed
    requires Attempted(desired, r, q, r', q', max, ip, true, now, refused)
    ensures Freeing(desired, resident, pending, r', q', ips + {ip}, now, if refused then failed + {ip} else failed)
  {
    var ips', failed' := ips + {ip}, if refused then failed + {ip} else failed;
    forall a
      ensures FreeingAt(desired, resident, pending, r', q', ips', now, failed', a)
    {
      assert FreeingAt(desired, resident, pending, r, q, ips, now, failed, a);
    }
  }

  lemma {:induction false} FillingStep(desired: Table, resident: Table, pending: Queue, r: Table, q: Queue, r': Table,
                                       q': Queue,
                                       max: nat, ips: set<Addr>, ip: Addr, now: Time, failed: set<Addr>, refused: bool)
    requires Filling(desired, resident, pending, r, q, ips, now, failed) && ip in pending && ip !in ips && ip in q
      && ip !in failed
    requires Attempted(desired, r, q, r', q', max, ip, false, now, refused) && |desired| <= max
    ensures Filling(desired, resident, pending, r', q', ips + {ip}, now, if refused then failed + {ip} else failed)
  {
    var ips', failed' := ips + {ip}, if refused then failed + {ip} else failed;
    RoomToFill(desired, resident, pending, r, q, max, ips, ip, now, failed);
    forall a
      ensures FillingAt(desired, resident, pending, r', q', ips', now, failed', a)
    {
      assert FillingAt(desired, resident, pending, r, q, ips, now, failed, a);
      if a == ip {
        FillingHere(desired, resident, pending, r, q, r', q', max, ips, ip, now, failed, refused);
      }
    }
  }

  lemma {:induction false} FillingHere(desired: Table, resident: Table, pending: Queue, r: Table, q: Queue, r': Table,
                                       q': Queue,
                                       max: nat, ips: set<Addr>, ip: Addr, now: Time, failed: set<Addr>, refused: bool)
    requires FillingAt(desired, resident, pending, r, q, ips, now, failed, ip) && ip in pending && ip !in ips
      && ip in q && ip !in failed
    requires Attempted(desired, r, q, r', q', max, ip, false, now, refused)
    requires resident.Keys <= desired.Keys ==> !Blocked(desired, r, max, ip)
    ensures FillingAt(desired, resident, pending, r', q', ips + {ip}, now, if refused then failed + {ip} else failed,
                      ip)
  {
  }

  // Once all superfluous entries are gone, the capacity guard never blocks.
  lemma {:induction false} RoomToFill(desired: Table, resident: Table, pending: Queue, r: Table, q: Queue,
                                      max: nat, ips: set<Addr>, ip: Addr, now: Time, failed: set<Addr>)
    requires Filling(desired, resident, pending, r, q, ips, now, failed) && |desired| <= max
    ensures resident.Keys <= desired.Keys ==> !Blocked(desired, r, max, ip)
  {
    if resident.Keys <= desired.Keys && ip in desired && ip !in r {
      forall a | a in r.Keys + {ip}
        ensures a in desired.Keys
      {
        assert FillingAt(desired, resident, pending, r, q, ips, now, failed, a);
      }
      SubsetSize(r.Keys + {ip}, desired.Keys);
    }
  }

  // Progress of the pass that frees slots, over some of the queue.
  ghost predicate Freeing(desired: Table, resident: Table, pending: Queue, resident': Table, pending': Queue,
                          ips: set<Addr>, now: Time, failed: set<Addr>) {
    && (forall ip {:trigger FreeingAt(desired, resident, pending, resident', pending', ips, now, failed, ip)} ::
          FreeingAt(desired, resident, pending, resident', pending', ips, now, failed, ip))
  }

  ghost predicate FreeingAt(desired: Table, resident: Table, pending: Queue, resident': Table, pending': Queue,
                            ips: set<Addr>, now: Time, failed: set<Addr>, ip: Addr) {
    && (ip in resident' ==> ip in resident && resident'[ip] == resident[ip])
    && (ip in desired && ip in resident ==> ip in resident')
    && (ip in pending' ==> ip in pending && (ip !in failed ==> pending'[ip] == pending[ip]))
    && (ip in pending && ip !in ips ==> ip in pending')
    && (ip in ips && Due(desired, pending, ip, true, now) && ip !in failed ==> ip !in pending' && ip !in resident')
    && (ip in resident && (ip !in ips || ip in failed || !Due(desired, pending, ip, true, now)) ==> ip in resident')
    && (ip in failed ==> PutOff(pending', ip, now))
  }

  // A failed request waits for a second.
  predicate PutOff(pending: Queue, ip: Addr, now: Time) {
    ip in pending && pending[ip].due == now + SECOND
  }

  // Progress of the pass that fills slots.
  ghost predicate Filling(desired: Table, resident: Table, pending: Queue, resident': Table, pending': Queue,
                          ips: set<Addr>, now: Time, failed: set<Addr>) {
    && (forall ip {:trigger FillingAt(desired, resident, pending, resident', pending', ips, now, failed, ip)} ::
          FillingAt(desired, resident, pending, resident', pending', ips, now, failed, ip))
  }

  ghost predicate FillingAt(desired: Table, resident: Table, pending: Queue, resident': Table, pending': Queue,
                            ips: set<Addr>, now: Time, failed: set<Addr>, ip: Addr) {
    && (ip !in desired || ip !in ips ==> Same(resident', resident, ip))
    && (ip in resident ==> ip in resident')
    && (ip in pending' ==> ip in pending && (ip !in failed ==> pending'[ip] == pending[ip]))
    && (ip in pending && (ip !in ips || !Due(desired, pending, ip, false, now))
        ==> ip in pending' && pending'[ip] == pending[ip])
    && ((ip in ips && Due(desired, pending, ip, false, now) && ip !in failed
         && (ip in resident || resident.Keys <= desired.Keys)) ==> ip !in pending')
    && (ip in failed ==> PutOff(pending', ip, now) && Same(resident', resident, ip))
  }

  // A request that was due and did not fail is left only for want of a slot.
  ghost predicate CrowdedAt(desired: Table, pending: Queue, resident': Table, pending': Queue, full: bool,
                            ips: set<Addr>, now: Time, failed: set<Addr>, ip: Addr)
  {
    ip in ips && ip in pending' && ip !in failed && Due(desired, pending, ip, false, now) ==> ip !in resident' && full
  }

  ghost predicate Crowded(desired: Table, pending: Queue, resident': Table, pending': Queue, full: bool,
                          ips: set<Addr>, now: Time, failed: set<Addr>)
  {
    forall ip {:trigger CrowdedAt(desired, pending, resident', pending', full, ips, now, failed, ip)} ::
      CrowdedAt(desired, pending, resident', pending', full, ips, now, failed, ip)
  }

  lemma {:induction false} CrowdedStep(desired: Table, resident: Table, pending: Queue, r: Table, q: Queue, r': Table,
                                       q': Queue,
                                       max: nat, ips: set<Addr>, ip: Addr, now: Time, failed: set<Addr>, refused: bool)
    requires Filling(desired, resident, pending, r, q, ips, now, failed) && ip !in ips && ip in q && ip !in failed
    requires Crowded(desired, pending, r, q, |r| >= max, ips, now, failed)
    requires Attempted(desired, r, q, r', q', max, ip, false, now, refused)
    ensures Crowded(desired, pending, r', q', |r'| >= max, ips + {ip}, now, if refused then failed + {ip} else failed)
  {
    var ips', failed', full, full' := ips + {ip}, if refused then failed + {ip} else failed, |r| >= max, |r'| >= max;
    assert full ==> full' by {
      SubsetSize(r.Keys, r'.Keys);
    }
    assert FillingAt(desired, resident, pending, r, q, ips, now, failed, ip);
    forall a
      ensures CrowdedAt(desired, pending, r', q', full', ips', now, failed', a)
    {
      assert CrowdedAt(desired, pending, r, q, full, ips, now, failed, a);
    }
  }

  // The effect of one request.
  function Chosen(desired: Table, ip: Addr, value: Option<Bitmaps>): Table {
    if value.Some? then desired[ip := value.value] else desired - {ip}
  }

  function RequestAt(pending: Queue, ip: Addr): Publication {
    if ip in pending then pending[ip] else UNREQUESTED
  }

  // A request keeps its retry time; a superfluous one is withdrawn.
  function Requested(desired: Table, resident: Table, pending: Queue, ip: Addr, forced: bool): Queue {
    var request := RequestAt(pending, ip);
    var must := forced || request.force;
    if Same(desired, resident, ip) && (ip !in desired || !must) then pending - {ip}
    else pending[ip := request.(force := must)]
  }

  lemma {:induction false} ChosenSize(desired: Table, ip: Addr, value: Option<Bitmaps>)
    ensures |Chosen(desired, ip, value)| <= if value.Some? then |desired.Keys + {ip}| else |desired|
  {
    if value.Some? {
      assert Chosen(desired, ip, value).Keys == desired.Keys + {ip};
    } else {
      SubsetSize(Chosen(desired, ip, value).Keys, desired.Keys);
    }
  }

  lemma {:induction false} WantQueued(desired: Table, resident: Table, pending: Queue, ip: Addr,
                                      value: Option<Bitmaps>, forced: bool)
    requires Queued(desired, resident, pending)
    ensures var chosen := Chosen(desired, ip, value); Queued(chosen, resident,
                                                             Requested(chosen, resident, pending, ip, forced))
  {
    var chosen := Chosen(desired, ip, value);
    var requested := Requested(chosen, resident, pending, ip, forced);
    forall other
      ensures QueuedAt(chosen, resident, requested, other)
    {
      assert QueuedAt(desired, resident, pending, other);
    }
  }

  lemma {:induction false} PassStarts(desired: Table, resident: Table, pending: Queue, now: Time)
    ensures Freeing(desired, resident, pending, resident, pending, {}, now, {})
    ensures Filling(desired, resident, pending, resident, pending, {}, now, {})
  {
  }

  // A batch confirms due requests at their wanted values; all else is untouched.
  ghost predicate BatchedAt(desired: Table, resident: Table, pending: Queue, resident': Table, pending': Queue,
                            now: Time, ip: Addr)
  {
    if ip in pending && ip !in pending' then
      ip in desired && pending[ip].due <= now && ip in resident' && resident'[ip] == desired[ip]
    else
      && Same(resident', resident, ip)
      && (ip in pending' ==> ip in pending && pending'[ip] == pending[ip])
  }

  ghost predicate Batched(desired: Table, resident: Table, pending: Queue, resident': Table, pending': Queue,
                          now: Time)
  {
    forall ip {:trigger BatchedAt(desired, resident, pending, resident', pending', now, ip)} ::
      BatchedAt(desired, resident, pending, resident', pending', now, ip)
  }

  // The open batch: wanted values of queued addresses, within the free slots.
  predicate GatheredAt(desired: Table, pending: Queue, batch: Table, todo: set<Addr>, now: Time, ip: Addr) {
    && (ip in batch ==>
        ip in desired && batch[ip] == desired[ip] && ip in pending && pending[ip].due <= now
        && ip !in todo)
    && (ip in todo ==> ip in pending)
  }

  ghost predicate Gathered(desired: Table, resident: Table, pending: Queue, batch: Table, todo: set<Addr>, now: Time,
                           max: nat, remaining: int)
  {
    && (forall ip {:trigger GatheredAt(desired, pending, batch, todo, now, ip)} ::
        GatheredAt(desired, pending, batch, todo, now, ip))
    && 0 <= remaining && |resident.Keys + batch.Keys| + remaining == max
  }

  lemma {:induction false} BatchStarts(desired: Table, resident: Table, pending: Queue, todo: set<Addr>, now: Time,
                                       max: nat)
    requires todo == pending.Keys && |resident| <= max
    ensures Gathered(desired, resident, pending, map[], todo, now, max, max - |resident|)
    ensures Batched(desired, resident, pending, resident, pending, now)
  {
    var batch: Table := map[];
    assert resident.Keys + batch.Keys == resident.Keys;
  }

  lemma {:induction false} GatheredRest(desired: Table, resident: Table, pending: Queue, batch: Table, todo: set<Addr>,
                                        now: Time, max: nat, remaining: int, ip: Addr)
    requires Gathered(desired, resident, pending, batch, todo, now, max, remaining) && ip in todo
    ensures Gathered(desired, resident, pending, batch, todo - {ip}, now, max, remaining) && ip in pending
      && ip !in batch
  {
    var rest := todo - {ip};
    assert GatheredAt(desired, pending, batch, todo, now, ip);
    forall a
      ensures GatheredAt(desired, pending, batch, rest, now, a)
    {
      assert GatheredAt(desired, pending, batch, todo, now, a);
    }
  }

  lemma {:induction false} GatheredOne(desired: Table, resident: Table, pending: Queue, batch: Table, todo: set<Addr>,
                                       now: Time, max: nat, remaining: int, ip: Addr)
    requires Gathered(desired, resident, pending, batch, todo, now, max, remaining)
    requires ip in desired && ip in pending && pending[ip].due <= now && ip !in todo && ip !in batch
      && (ip in resident || remaining > 0)
    ensures Gathered(desired, resident, pending, batch[ip := desired[ip]], todo, now, max,
                     if ip in resident then remaining else remaining - 1)
  {
    var batch' := batch[ip := desired[ip]];
    forall a
      ensures GatheredAt(desired, pending, batch', todo, now, a)
    {
      assert GatheredAt(desired, pending, batch, todo, now, a);
    }
    assert resident.Keys + batch'.Keys == resident.Keys + batch.Keys + {ip};
    if ip in resident {
      assert resident.Keys + batch.Keys + {ip} == resident.Keys + batch.Keys;
    }
  }

  lemma {:induction false} FlushQueued(desired: Table, resident: Table, pending: Queue, batch: Table, todo: set<Addr>,
                                       now: Time, max: nat, remaining: int)
    requires Queued(desired, resident, pending)
      && Gathered(desired, resident, pending, batch, todo, now, max, remaining)
    ensures Queued(desired, resident + batch, pending - batch.Keys) && |resident + batch| <= max
    ensures Gathered(desired, resident + batch, pending - batch.Keys, map[], todo, now, max, remaining)
  {
    var r, q, none: Table := resident + batch, pending - batch.Keys, map[];
    forall ip
      ensures QueuedAt(desired, r, q, ip) && GatheredAt(desired, q, none, todo, now, ip)
    {
      assert QueuedAt(desired, resident, pending, ip) && GatheredAt(desired, pending, batch, todo, now, ip);
    }
    assert r.Keys == resident.Keys + batch.Keys && r.Keys + none.Keys == r.Keys;
  }

  lemma {:induction false} FlushBatched(desired: Table, resident: Table, pending: Queue, r: Table, q: Queue,
                                        batch: Table, todo: set<Addr>, now: Time, max: nat, remaining: int)
    requires Batched(desired, resident, pending, r, q, now) && Gathered(desired, r, q, batch, todo, now, max, remaining)
    ensures Batched(desired, resident, pending, r + batch, q - batch.Keys, now)
  {
    var r', q' := r + batch, q - batch.Keys;
    forall ip
      ensures BatchedAt(desired, resident, pending, r', q', now, ip)
    {
      assert BatchedAt(desired, resident, pending, r, q, now, ip) && GatheredAt(desired, q, batch, todo, now, ip);
    }
  }

  // Batches before this one were accepted.
  predicate AllAccepted(n: nat, refused: set<nat>) {
    forall i <- refused :: n <= i
  }

  lemma {:induction false} NextAccepted(n: nat, refused: set<nat>)
    requires AllAccepted(n, refused) && n !in refused
    ensures AllAccepted(n + 1, refused)
  {
  }

  // A wanted and due request is passed over only for want of a slot.
  ghost predicate ExhaustedAt(desired: Table, resident: Table, pending: Queue, batch: Table, max: nat, now: Time,
                              todo: set<Addr>, ip: Addr)
  {
    ip in desired && ip in pending && pending[ip].due <= now && ip !in todo && ip !in batch ==>
      ip !in resident && |resident.Keys + batch.Keys| >= max
  }

  ghost predicate Exhausted(desired: Table, resident: Table, pending: Queue, batch: Table, max: nat, now: Time,
                            todo: set<Addr>)
  {
    forall ip {:trigger ExhaustedAt(desired, resident, pending, batch, max, now, todo, ip)} ::
      ExhaustedAt(desired, resident, pending, batch, max, now, todo, ip)
  }

  lemma {:induction false} Passed(desired: Table, resident: Table, pending: Queue, batch: Table, todo: set<Addr>,
                                  now: Time, max: nat, remaining: int, ip: Addr)
    requires Exhausted(desired, resident, pending, batch, max, now, todo)
      && Gathered(desired, resident, pending, batch, todo, now, max, remaining)
    requires ip in pending && (ip !in desired || now < pending[ip].due || (ip !in resident && remaining <= 0))
    ensures Exhausted(desired, resident, pending, batch, max, now, todo - {ip})
  {
    var rest := todo - {ip};
    forall a
      ensures ExhaustedAt(desired, resident, pending, batch, max, now, rest, a)
    {
      assert ExhaustedAt(desired, resident, pending, batch, max, now, todo, a);
    }
  }

  lemma {:induction false} Entered(desired: Table, resident: Table, pending: Queue, batch: Table, todo: set<Addr>,
                                   now: Time, max: nat, ip: Addr)
    requires Exhausted(desired, resident, pending, batch, max, now, todo + {ip}) && ip in desired
    ensures Exhausted(desired, resident, pending, batch[ip := desired[ip]], max, now, todo)
  {
    var batch' := batch[ip := desired[ip]];
    SubsetSize(resident.Keys + batch.Keys, resident.Keys + batch'.Keys);
    forall a
      ensures ExhaustedAt(desired, resident, pending, batch', max, now, todo, a)
    {
      assert ExhaustedAt(desired, resident, pending, batch, max, now, todo + {ip}, a);
    }
  }

  lemma {:induction false} Confirmed(desired: Table, resident: Table, pending: Queue, batch: Table, todo: set<Addr>,
                                     now: Time, max: nat)
    requires Exhausted(desired, resident, pending, batch, max, now, todo)
    ensures Exhausted(desired, resident + batch, pending - batch.Keys, map[], max, now, todo)
    ensures |pending - batch.Keys| + |batch| >= |pending|
  {
    var r, q, none: Table := resident + batch, pending - batch.Keys, map[];
    assert r.Keys + none.Keys == resident.Keys + batch.Keys;
    forall a
      ensures ExhaustedAt(desired, r, q, none, max, now, todo, a)
    {
      assert ExhaustedAt(desired, resident, pending, batch, max, now, todo, a);
    }
    SubsetSize(pending.Keys, q.Keys + batch.Keys);
    assert |q.Keys + batch.Keys| <= |q.Keys| + |batch.Keys|;
  }

  // The outcome of one publication for an address. An entry that should be gone
  // stays exactly if its removal failed or was not due; a failed request keeps
  // what is installed and waits; any other request left over was left as it was,
  // and for an installed entry only because it was not due.
  ghost predicate OutcomeAt(desired: Table, resident: Table, pending: Queue, resident': Table, pending': Queue,
                            now: Time, failed: set<Addr>, ip: Addr)
  {
    && (ip !in desired ==> (ip in resident' <==> ip in resident && (ip in failed || now < RequestAt(pending, ip).due)))
    && (ip in failed ==> PutOff(pending', ip, now) && Same(resident', resident, ip))
    && (ip in pending' && ip !in failed ==> pending'[ip].due == RequestAt(pending, ip).due)
    && (ip in pending' && ip !in failed && ip in resident ==> now < RequestAt(pending, ip).due)
  }

  ghost predicate Outcome(desired: Table, resident: Table, pending: Queue, resident': Table, pending': Queue,
                          now: Time, failed: set<Addr>)
  {
    forall ip {:trigger OutcomeAt(desired, resident, pending, resident', pending', now, failed, ip)} ::
      OutcomeAt(desired, resident, pending, resident', pending', now, failed, ip)
  }

  // A chosen entry that was due and did not fail is missing only if the map is full.
  ghost predicate Complete(desired: Table, pending: Queue, resident': Table, pending': Queue, max: nat, now: Time,
                           failed: set<Addr>)
  {
    forall ip <- pending' :: ip in desired && ip !in failed && RequestAt(pending, ip).due <= now
      ==> ip !in resident' && |resident'| >= max
  }

  lemma {:induction false} CrowdedIsComplete(desired: Table, r0: Table, q0: Queue, r1: Table, q1: Queue, r2: Table,
                                             q2: Queue, r3: Table, q3: Queue, max: nat, now: Time,
                                             unfreed: set<Addr>, unfilled: set<Addr>)
    requires Freeing(desired, r0, q0, r1, q1, q0.Keys, now, unfreed) && (forall ip <- unfreed :: ip !in desired)
    requires Batched(desired, r1, q1, r2, q2, now) && Filling(desired, r2, q2, r3, q3, q2.Keys, now, unfilled)
    requires Crowded(desired, q2, r3, q3, |r3| >= max, q2.Keys, now, unfilled)
    ensures Complete(desired, q0, r3, q3, max, now, unfreed + unfilled)
  {
    var failed := unfreed + unfilled;
    forall ip <- q3 | ip in desired && ip !in failed && RequestAt(q0, ip).due <= now
      ensures ip !in r3 && |r3| >= max
    {
      assert FreeingAt(desired, r0, q0, r1, q1, q0.Keys, now, unfreed, ip);
      assert BatchedAt(desired, r1, q1, r2, q2, now, ip)
        && FillingAt(desired, r2, q2, r3, q3, q2.Keys, now, unfilled, ip);
      assert CrowdedAt(desired, q2, r3, q3, |r3| >= max, q2.Keys, now, unfilled, ip);
    }
  }

  // Entries whose own write is refused stay as they are.
  ghost predicate Spared(resident: Table, resident': Table, refused: set<Addr>) {
    forall ip <- refused :: Same(resident', resident, ip)
  }

  lemma {:induction false} Freed(desired: Table, r0: Table, q0: Queue, r1: Table, q1: Queue, now: Time,
                                 failed: set<Addr>)
    requires Queued(desired, r0, q0) && Freeing(desired, r0, q0, r1, q1, q0.Keys, now, failed)
    ensures failed == {} && NothingDeferred(q0, now) ==> r1.Keys <= desired.Keys && NothingDeferred(q1, now)
  {
    if failed == {} && NothingDeferred(q0, now) {
      forall ip | ip in r1.Keys
        ensures ip in desired.Keys
      {
        assert FreeingAt(desired, r0, q0, r1, q1, q0.Keys, now, failed, ip) && QueuedAt(desired, r0, q0, ip);
      }
      forall ip | ip in q1
        ensures ip in q0 && q1[ip] == q0[ip]
      {
        assert FreeingAt(desired, r0, q0, r1, q1, q0.Keys, now, failed, ip);
      }
    }
  }

  lemma {:induction false} Filled(desired: Table, r0: Table, q0: Queue, r1: Table, q1: Queue, r2: Table, q2: Queue,
                                  r3: Table, q3: Queue,
                                  now: Time, unfreed: set<Addr>, unfilled: set<Addr>)
    requires Queued(desired, r0, q0) && Freeing(desired, r0, q0, r1, q1, q0.Keys, now, unfreed)
    requires forall ip <- unfreed :: ip !in desired
    requires Batched(desired, r1, q1, r2, q2, now)
    requires Queued(desired, r2, q2) && Filling(desired, r2, q2, r3, q3, q2.Keys, now, unfilled)
      && forall ip <- unfilled :: ip in desired
    ensures Outcome(desired, r0, q0, r3, q3, now, unfreed + unfilled) && q3.Keys <= q0.Keys
  {
    var failed := unfreed + unfilled;
    forall ip
      ensures OutcomeAt(desired, r0, q0, r3, q3, now, failed, ip) && (ip in q3 ==> ip in q0)
    {
      assert FreeingAt(desired, r0, q0, r1, q1, q0.Keys, now, unfreed, ip) && QueuedAt(desired, r0, q0, ip);
      assert BatchedAt(desired, r1, q1, r2, q2, now, ip);
      assert FillingAt(desired, r2, q2, r3, q3, q2.Keys, now, unfilled, ip) && QueuedAt(desired, r2, q2, ip);
    }
  }

  lemma {:induction false} Emptied(desired: Table, r1: Table, q1: Queue, r2: Table, q2: Queue, r3: Table, q3: Queue,
                                   now: Time)
    requires Batched(desired, r1, q1, r2, q2, now)
    requires Queued(desired, r2, q2) && Filling(desired, r2, q2, r3, q3, q2.Keys, now, {})
    requires r1.Keys <= desired.Keys && NothingDeferred(q1, now)
    ensures q3 == map[]
  {
    forall ip
      ensures ip in r2.Keys ==> ip in desired.Keys
    {
      assert BatchedAt(desired, r1, q1, r2, q2, now, ip);
    }
    forall ip
      ensures ip !in q3
    {
      assert FillingAt(desired, r2, q2, r3, q3, q2.Keys, now, {}, ip) && BatchedAt(desired, r1, q1, r2, q2, now, ip);
      assert QueuedAt(desired, r2, q2, ip);
    }
  }

  class Projection {
    const max: nat
    const batching: bool
    var resident: Table
    var desired: Table
    var pending: Queue
    var force: bool
    var failing: bool

    ghost predicate Valid()
      reads this
    {
      Queued(desired, resident, pending) && |resident| <= max && |desired| <= max
    }

    constructor (max: nat, batching: bool)
      ensures this.max == max && this.batching == batching && Valid()
      ensures resident == map[] && desired == map[] && pending == map[] && !force && !failing
    {
      this.max, this.batching := max, batching;
      resident, desired, pending, force, failing := map[], map[], map[], false, false;
    }

    // The next publication should bring this address to this value.
    method Want(ip: Addr, value: Option<Bitmaps>, forced: bool)
      requires Valid() && (value.Some? ==> |desired.Keys + {ip}| <= max)
      modifies this`desired, this`pending
      ensures Valid()
      ensures desired == Chosen(old(desired), ip, value)
      ensures pending == Requested(desired, resident, old(pending), ip, forced || force)
      ensures ip in pending ==> pending[ip].due == if ip in old(pending) then old(pending)[ip].due else 0
      ensures ip in pending || Same(desired, resident, ip)
    {
      var request := RequestAt(pending, ip);
      var must := forced || force || request.force;
      if value.Some? {
        desired := desired[ip := value.value];
      } else {
        desired := desired - {ip};
      }
      var wanted, installed := ip in desired, ip in resident;
      if (!wanted && !installed) || (!must && wanted && installed && desired[ip] == resident[ip]) {
        pending := pending - {ip};
      } else {
        pending := pending[ip := request.(force := must)];
      }
      ChosenSize(old(desired), ip, value);
      WantQueued(old(desired), resident, old(pending), ip, value, forced || force);
    }

    // One queued request in one pass.
    method Attempt(ip: Addr, removing: bool, now: Time, writes: Writes) returns (failed: bool)
      requires Valid() && ip in pending
      modifies this`resident, this`pending, this`failing
      ensures Valid() && failing == (old(failing) || failed)
      ensures failed ==> ip in writes.refused
      ensures ip in writes.refused ==> resident == old(resident)
      ensures Attempted(desired, old(resident), old(pending), resident, pending, max, ip, removing, now, failed)
    {
      failed := false;
      var request := pending[ip];
      var wanted := ip in desired;
      if removing == wanted || now < request.due {
        return;
      }
      if wanted && ip !in resident && |resident| >= max {
        return;
      }
      if ip in writes.refused {
        RetriedQueued(desired, resident, pending, ip, request.(due := now + SECOND));
        failing, failed := true, true;
        pending := pending[ip := request.(due := now + SECOND)];
        return;
      }
      WrittenQueued(desired, resident, pending, ip);
      WrittenSize(desired, resident, max, ip);
      if wanted {
        resident := resident[ip := desired[ip]];
      } else {
        resident := resident - {ip};
      }
      pending := pending - {ip};
    }

    method Pass(removing: bool, now: Time, writes: Writes) returns (failed: set<Addr>)
      requires Valid()
      modifies this`resident, this`pending, this`failing
      ensures Valid() && failed <= writes.refused && failing == (old(failing) || failed != {})
      ensures forall ip <- failed :: removing != (ip in desired)
      ensures Spared(old(resident), resident, writes.refused)
      ensures removing ==> Freeing(desired, old(resident), old(pending), resident, pending, old(pending).Keys, now,
                                   failed)
      ensures !removing ==> Filling(desired, old(resident), old(pending), resident, pending, old(pending).Keys, now,
                                    failed)
      ensures !removing ==> Crowded(desired, old(pending), resident, pending, |resident| >= max, old(pending).Keys, now,
                                    failed)
    {
      ghost var r, q := resident, pending;
      var todo := pending.Keys;
      ghost var all := todo;
      failed := {};
      assert all - todo == {};
      PassStarts(desired, resident, pending, now);
      while todo != {}
        invariant todo <= all && Valid() && failed <= writes.refused && failing == (old(failing) || failed != {})
        invariant failed !! todo && forall ip <- failed :: removing != (ip in desired)
        invariant Spared(r, resident, writes.refused)
        invariant removing ==> Freeing(desired, r, q, resident, pending, all - todo, now, failed)
        invariant !removing ==> Filling(desired, r, q, resident, pending, all - todo, now, failed)
        invariant !removing ==> Crowded(desired, q, resident, pending, |resident| >= max, all - todo, now, failed)
        decreases |todo|
      {
        var ip :| ip in todo;
        Taken(all, todo, ip);
        var refused := AttemptNext(ip, removing, now, writes, r, q, all - todo, failed);
        failed := if refused then failed + {ip} else failed;
        todo := todo - {ip};
      }
      assert all - todo == all;
    }

    method AttemptNext(ip: Addr, removing: bool, now: Time, writes: Writes, ghost r: Table, ghost q: Queue,
                       ghost ips: set<Addr>, ghost failed: set<Addr>)
      returns (refused: bool)
      requires Valid() && ip in q && ip !in ips && ip !in failed
      requires removing ==> Freeing(desired, r, q, resident, pending, ips, now, failed)
      requires !removing ==> Filling(desired, r, q, resident, pending, ips, now, failed)
      requires !removing ==> Crowded(desired, q, resident, pending, |resident| >= max, ips, now, failed)
      modifies this`resident, this`pending, this`failing
      ensures Valid() && failing == (old(failing) || refused)
        && (refused ==> ip in writes.refused && removing != (ip in desired))
      ensures Spared(old(resident), resident, writes.refused)
      ensures removing ==> Freeing(desired, r, q, resident, pending, ips + {ip}, now,
                                   if refused then failed + {ip} else failed)
      ensures !removing ==> Filling(desired, r, q, resident, pending, ips + {ip}, now,
                                    if refused then failed + {ip} else failed)
      ensures !removing ==> Crowded(desired, q, resident, pending, |resident| >= max, ips + {ip}, now,
                                    if refused then failed + {ip} else failed)
    {
      if removing {
        assert FreeingAt(desired, r, q, resident, pending, ips, now, failed, ip);
      } else {
        assert FillingAt(desired, r, q, resident, pending, ips, now, failed, ip);
      }
      ghost var resident0, pending0 := resident, pending;
      refused := Attempt(ip, removing, now, writes);
      if removing {
        FreeingStep(desired, r, q, resident0, pending0, resident, pending, max, ips, ip, now, failed, refused);
      } else {
        FillingStep(desired, r, q, resident0, pending0, resident, pending, max, ips, ip, now, failed, refused);
        CrowdedStep(desired, r, q, resident0, pending0, resident, pending, max, ips, ip, now, failed, refused);
      }
    }

    // A full reconstruction writes in batches after removals have freed slots,
    // up to the first batch that fails. The rest is left to single writes.
    method PublishBatch(now: Time, writes: Writes) returns (flushes: nat)
      requires Valid()
      modifies this`resident, this`pending
      ensures Valid() && Batched(desired, old(resident), old(pending), resident, pending, now)
      ensures AllAccepted(flushes, writes.refusedBatches)
      ensures |pending| + BATCH_SIZE * flushes >= |old(pending)| && (flushes == 0 ==> pending == old(pending))
      ensures flushes in writes.refusedBatches || Exhausted(desired, resident, pending, map[], max, now, {})
    {
      ghost var r, q := resident, pending;
      var batch: Table := map[];
      var remaining := max - |resident|;
      flushes := 0;
      var todo := pending.Keys;
      ghost var all := todo;
      BatchStarts(desired, resident, pending, todo, now, max);
      while todo != {}
        invariant todo <= all && Valid()
        invariant Batched(desired, r, q, resident, pending, now)
        invariant Gathered(desired, resident, pending, batch, todo, now, max, remaining)
        invariant Exhausted(desired, resident, pending, batch, max, now, todo)
        invariant AllAccepted(flushes, writes.refusedBatches)
        invariant |batch| < BATCH_SIZE && |pending| + BATCH_SIZE * flushes >= |q| && (flushes == 0 ==> pending == q)
        decreases |todo|
      {
        var ip :| ip in todo;
        Taken(all, todo, ip);
        GatheredRest(desired, resident, pending, batch, todo, now, max, remaining, ip);
        if ip !in desired || now < pending[ip].due || (ip !in resident && remaining <= 0) {
          Passed(desired, resident, pending, batch, todo, now, max, remaining, ip);
          todo := todo - {ip};
          continue;
        }
        assert todo - {ip} + {ip} == todo;
        todo := todo - {ip};
        GatheredOne(desired, resident, pending, batch, todo, now, max, remaining, ip);
        Entered(desired, resident, pending, batch, todo, now, max, ip);
        if ip !in resident {
          remaining := remaining - 1;
        }
        batch := batch[ip := desired[ip]];
        if |batch| == BATCH_SIZE {
          if flushes in writes.refusedBatches {
            return;
          }
          Flush(batch, remaining, todo, now, r, q);
          NextAccepted(flushes, writes.refusedBatches);
          flushes := flushes + 1;
          batch := map[];
        }
      }
      if batch != map[] && flushes !in writes.refusedBatches {
        Flush(batch, remaining, todo, now, r, q);
        NextAccepted(flushes, writes.refusedBatches);
        flushes := flushes + 1;
      }
    }

    method Flush(batch: Table, ghost remaining: int, ghost todo: set<Addr>, ghost now: Time, ghost r: Table,
                 ghost q: Queue)
      requires Valid() && Batched(desired, r, q, resident, pending, now)
        && Gathered(desired, resident, pending, batch, todo, now, max, remaining)
      requires Exhausted(desired, resident, pending, batch, max, now, todo)
      modifies this`resident, this`pending
      ensures Valid() && Batched(desired, r, q, resident, pending, now)
        && Gathered(desired, resident, pending, map[], todo, now, max, remaining)
      ensures Exhausted(desired, resident, pending, map[], max, now, todo) && |pending| + |batch| >= |old(pending)|
    {
      FlushQueued(desired, resident, pending, batch, todo, now, max, remaining);
      FlushBatched(desired, r, q, resident, pending, batch, todo, now, max, remaining);
      Confirmed(desired, resident, pending, batch, todo, now, max);
      resident := resident + batch;
      pending := pending - batch.Keys;
    }

    // Removals first, then insertions into the freed slots; whatever fails keeps
    // its installed value and is retried later.
    method Publish(now: Time, writes: Writes) returns (failed: set<Addr>)
      requires Valid()
      modifies this`resident, this`pending, this`failing
      ensures Valid() && failed <= writes.refused && pending.Keys <= old(pending).Keys
      ensures Outcome(desired, old(resident), old(pending), resident, pending, now, failed)
      ensures Complete(desired, old(pending), resident, pending, max, now, failed)
      ensures failing <==> pending != map[] && (old(failing) || failed != {})
      ensures !(force && batching) ==> Spared(old(resident), resident, writes.refused)
      ensures failed == {} && NothingDeferred(old(pending), now) ==> pending == map[] && resident == desired
      ensures !failing && NothingDeferred(old(pending), now) ==> pending == map[] && resident == desired
      ensures pending == map[] ==> !failing
    {
      ghost var r0, q0 := resident, pending;
      var unfreed := Pass(true, now, writes);
      Freed(desired, r0, q0, resident, pending, now, unfreed);
      ghost var r1, q1 := resident, pending;
      if force && batching && |pending| > 1 {
        var _ := PublishBatch(now, writes);
      } else {
        BatchStarts(desired, resident, pending, pending.Keys, now, max);
      }
      ghost var r2, q2 := resident, pending;
      var unfilled := Pass(false, now, writes);
      Filled(desired, r0, q0, r1, q1, r2, q2, resident, pending, now, unfreed, unfilled);
      CrowdedIsComplete(desired, r0, q0, r1, q1, r2, q2, resident, pending, max, now, unfreed, unfilled);
      failed := unfreed + unfilled;
      Finish(failed == {} && NothingDeferred(q0, now), r1, q1, r2, q2, now);
    }

    // Without failures and deferrals nothing is left to do.
    method Finish(ghost smooth: bool, ghost r1: Table, ghost q1: Queue, ghost r2: Table, ghost q2: Queue,
                  ghost now: Time)
      requires Valid() && Batched(desired, r1, q1, r2, q2, now) && Queued(desired, r2, q2)
      requires smooth ==>
        Filling(desired, r2, q2, resident, pending, q2.Keys, now, {}) && r1.Keys <= desired.Keys
        && NothingDeferred(q1, now)
      modifies this`failing
      ensures Valid() && (smooth || pending == map[] ==> pending == map[] && resident == desired && !failing)
      ensures pending != map[] ==> failing == old(failing)
    {
      if smooth {
        Emptied(desired, r1, q1, r2, q2, resident, pending, now);
      }
      if |pending| == 0 {
        EmptyQueue(desired, resident);
        failing := false;
      }
    }
  }
}
