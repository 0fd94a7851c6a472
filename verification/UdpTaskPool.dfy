/** The UDP task scheduler: per-source queues served round robin by a bounded set
    of workers. Each method is one critical section; a packet is executed between
    a worker's Take and its Finish, outside the lock. */
module UdpTaskPool {

  const QUEUE_LENGTH: nat := 128
  const MAX_WORKERS: nat := 128
  const MAX_SOURCES: nat := 2048
  const MAX_PENDING: nat := 8192

  type Source = nat

  datatype Task = Task(source: Source, payload: nat)

  datatype Worker = Waiting | Executing(task: Task)

  datatype Drop = Rejected | SourceQueueFull | TaskLimit | SourceLimit | MemoryLimit

  datatype Emission = Accepted | Dropped(reason: Drop)

  type Log = map<Source, seq<Task>>
  type Workers = map<nat, Worker>
  type Owners = map<Source, nat>

  function At(log: Log, k: Source): seq<Task> {
    if k in log then log[k] else []
  }

  function Logged(log: Log, t: Task): Log {
    log[t.source := At(log, t.source) + [t]]
  }

  // ------ Sizes ------

  ghost function Size(log: Log): nat
    decreases |log|
  {
    if log == map[] then 0
    else
      var k :| k in log;
      assert |log - {k}| < |log| by {
        assert (log - {k}).Keys == log.Keys - {k};
      }
      |log[k]| + Size(log - {k})
  }

  lemma {:induction false} SizeWithout(log: Log, k: Source)
    requires k in log
    ensures Size(log) == |log[k]| + Size(log - {k})
    decreases |log|
  {
    var j :| j in log && Size(log) == |log[j]| + Size(log - {j});
    if j != k {
      assert (log - {j}).Keys == log.Keys - {j} && (log - {k}).Keys == log.Keys - {k};
      SizeWithout(log - {j}, k);
      SizeWithout(log - {k}, j);
      assert log - {j} - {k} == log - {k} - {j};
    }
  }

  lemma {:induction false} Others(log: Log, k: Source, s: seq<Task>)
    ensures log[k := s] - {k} == log - {k}
    ensures k !in log ==> log - {k} == log
    ensures |log[k := s]| == if k in log then |log| else |log| + 1
  {
    assert log[k := s].Keys == log.Keys + {k};
  }

  lemma {:induction false} SizeUpdated(log: Log, k: Source, s: seq<Task>)
    ensures Size(log[k := s]) == Size(log) - |At(log, k)| + |s|
    ensures |log[k := s]| == if k in log then |log| else |log| + 1
  {
    Others(log, k, s);
    SizeWithout(log[k := s], k);
    if k in log {
      SizeWithout(log, k);
    }
  }

  lemma {:induction false} SizeDropped(log: Log, k: Source)
    requires k in log && log[k] == []
    ensures Size(log - {k}) == Size(log) && |log - {k}| == |log| - 1
  {
    SizeWithout(log, k);
    assert (log - {k}).Keys == log.Keys - {k};
  }

  lemma {:induction false} InjectiveSize(m: Owners, into: set<nat>)
    requires forall k :: k in m ==> m[k] in into
    requires forall j, k :: j in m && k in m && m[j] == m[k] ==> j == k
    ensures |m| <= |into|
    decreases |m|
  {
    if k :| k in m {
      var rest := m - {k};
      assert rest.Keys == m.Keys - {k};
      InjectiveSize(rest, into - {m[k]});
    }
  }

  // ------ The invariant, source by source and worker by worker ------

  // At most one worker executes a source's packet: the source's owner.
  function RunningAt(workers: Workers, owner: Owners, k: Source): seq<Task> {
    if k in owner && owner[k] in workers && workers[owner[k]].Executing? then [workers[owner[k]].task] else []
  }

  predicate OwnerOk(workers: Workers, owner: Owners, k: Source) {
    k in owner ==> owner[k] in workers && workers[owner[k]].Executing? && workers[owner[k]].task.source == k
  }

  predicate WorkerOk(workers: Workers, owner: Owners, w: nat) {
    w in workers && workers[w].Executing? ==> workers[w].task.source in owner && owner[workers[w].task.source] == w
  }

  ghost predicate Owned(workers: Workers, owner: Owners) {
    && (forall k {:trigger OwnerOk(workers, owner, k)} :: OwnerOk(workers, owner, k))
    && (forall w {:trigger WorkerOk(workers, owner, w)} :: WorkerOk(workers, owner, w))
  }

  // What was accepted is, in this order, what was released, what is executing and
  // what waits.
  predicate InOrder(queue: seq<Task>, running: seq<Task>, accepted: seq<Task>, released: seq<Task>) {
    accepted == released + running + queue
  }

  // A live queue is on the ready list or owned by a worker, never both.
  predicate SourceOk(queues: Log, ready: seq<Source>, owner: Owners, k: Source) {
    && (k in queues <==> k in ready || k in owner)
    && !(k in ready && k in owner)
    && (k in ready ==> At(queues, k) != [])
    && |At(queues, k)| <= QUEUE_LENGTH
    && (forall t <- At(queues, k) :: t.source == k)
  }

  ghost predicate Scheduled(queues: Log, ready: seq<Source>, owner: Owners) {
    forall k {:trigger SourceOk(queues, ready, owner, k)} :: SourceOk(queues, ready, owner, k)
  }

  predicate LoggedOk(queues: Log, workers: Workers, owner: Owners, accepted: Log, released: Log, k: Source) {
    InOrder(At(queues, k), RunningAt(workers, owner, k), At(accepted, k), At(released, k))
  }

  ghost predicate Ordered(queues: Log, workers: Workers, owner: Owners, accepted: Log, released: Log) {
    forall k {:trigger LoggedOk(queues, workers, owner, accepted, released, k)} ::
      LoggedOk(queues, workers, owner, accepted, released, k)
  }

  predicate NoDuplicates(s: seq<Source>) {
    forall i, j :: 0 <= i < j < |s| ==> s[i] != s[j]
  }

  // Accepted and not yet released: waiting or executing.
  ghost predicate Counted(queues: Log, owner: Owners, tasks: nat) {
    tasks == Size(queues) + |owner|
  }

  ghost predicate Bounded(queues: Log, workers: Workers, nextWorker: nat) {
    && |queues| <= MAX_SOURCES && |workers| <= MAX_WORKERS
    && (|queues| <= |workers| || |workers| == MAX_WORKERS)
    && (forall w :: w in workers ==> w < nextWorker)
  }

  ghost predicate Consistent(queues: Log, ready: seq<Source>, workers: Workers, owner: Owners, accepted: Log,
                             released: Log, tasks: nat)
  {
    && Scheduled(queues, ready, owner) && Owned(workers, owner)
    && Ordered(queues, workers, owner, accepted, released)
    && Counted(queues, owner, tasks) && NoDuplicates(ready)
  }

  // ------ One step each ------

  lemma {:induction false} AppendScheduled(queues: Log, ready: seq<Source>, owner: Owners, t: Task)
    requires Scheduled(queues, ready, owner) && |At(queues, t.source)| < QUEUE_LENGTH
    ensures Scheduled(Logged(queues, t), if t.source in queues then ready else ready + [t.source], owner)
  {
    var queues', ready' := Logged(queues, t), if t.source in queues then ready else ready + [t.source];
    forall k
      ensures SourceOk(queues', ready', owner, k)
    {
      assert SourceOk(queues, ready, owner, k) && SourceOk(queues, ready, owner, t.source);
    }
  }

  lemma {:induction false} AppendOrdered(queues: Log, workers: Workers, owner: Owners, accepted: Log, released: Log,
                                         t: Task)
    requires Ordered(queues, workers, owner, accepted, released)
    ensures Ordered(Logged(queues, t), workers, owner, Logged(accepted, t), released)
  {
    var queues', accepted' := Logged(queues, t), Logged(accepted, t);
    forall k
      ensures LoggedOk(queues', workers, owner, accepted', released, k)
    {
      assert LoggedOk(queues, workers, owner, accepted, released, k);
    }
  }

  lemma {:induction false} AppendReady(queues: Log, ready: seq<Source>, owner: Owners, k: Source)
    requires Scheduled(queues, ready, owner) && NoDuplicates(ready) && k !in queues
    ensures NoDuplicates(ready + [k])
  {
    assert SourceOk(queues, ready, owner, k);
  }

  lemma {:induction false} AppendConsistent(queues: Log, ready: seq<Source>, workers: Workers, owner: Owners,
                                            accepted: Log, released: Log, tasks: nat, t: Task)
    requires Consistent(queues, ready, workers, owner, accepted, released, tasks)
    requires |At(queues, t.source)| < QUEUE_LENGTH
    ensures Consistent(queues[t.source := At(queues, t.source) + [t]],
                       if t.source in queues then ready else ready + [t.source], workers, owner, Logged(accepted, t),
                       released, tasks + 1)
    ensures |queues[t.source := At(queues, t.source) + [t]]|
      == if t.source in queues then |queues| else |queues| + 1
  {
    AppendScheduled(queues, ready, owner, t);
    AppendOrdered(queues, workers, owner, accepted, released, t);
    SizeUpdated(queues, t.source, At(queues, t.source) + [t]);
    if t.source !in queues {
      AppendReady(queues, ready, owner, t.source);
    }
  }

  lemma {:induction false} GrowOwned(queues: Log, workers: Workers, owner: Owners, accepted: Log, released: Log, w: nat)
    requires Owned(workers, owner) && Ordered(queues, workers, owner, accepted, released) && w !in workers
    ensures Owned(workers[w := Waiting], owner) && Ordered(queues, workers[w := Waiting], owner, accepted, released)
  {
    var workers' := workers[w := Waiting];
    forall k
      ensures OwnerOk(workers', owner, k) && LoggedOk(queues, workers', owner, accepted, released, k)
    {
      assert OwnerOk(workers, owner, k) && LoggedOk(queues, workers, owner, accepted, released, k);
    }
    forall x
      ensures WorkerOk(workers', owner, x)
    {
      assert WorkerOk(workers, owner, x);
    }
  }

  // The first ready source hands its first packet to a worker.
  lemma {:induction false} TakeScheduled(queues: Log, ready: seq<Source>, owner: Owners, w: nat)
    requires Scheduled(queues, ready, owner) && NoDuplicates(ready) && ready != []
    ensures ready[0] in queues && queues[ready[0]] != [] && ready[0] !in owner
    ensures Scheduled(queues[ready[0] := queues[ready[0]][1..]], ready[1..], owner[ready[0] := w])
    ensures queues[ready[0]][0].source == ready[0]
  {
    var k := ready[0];
    assert SourceOk(queues, ready, owner, k);
    var queues', ready', owner' := queues[k := queues[k][1..]], ready[1..], owner[k := w];
    forall j
      ensures SourceOk(queues', ready', owner', j)
    {
      assert SourceOk(queues, ready, owner, j);
      assert ready == [k] + ready';
    }
  }

  lemma {:induction false} TakeOwned(workers: Workers, owner: Owners, w: nat, t: Task)
    requires Owned(workers, owner) && w in workers && workers[w].Waiting? && t.source !in owner
    ensures Owned(workers[w := Executing(t)], owner[t.source := w])
  {
    var workers', owner' := workers[w := Executing(t)], owner[t.source := w];
    forall k
      ensures OwnerOk(workers', owner', k)
    {
      assert OwnerOk(workers, owner, k);
    }
    forall x
      ensures WorkerOk(workers', owner', x)
    {
      assert WorkerOk(workers, owner, x);
    }
  }

  lemma {:induction false} TakeOrdered(queues: Log, workers: Workers, owner: Owners, accepted: Log, released: Log,
                                       w: nat, t: Task)
    requires Ordered(queues, workers, owner, accepted, released) && Owned(workers, owner)
    requires t.source in queues && queues[t.source] != [] && queues[t.source][0] == t && t.source !in owner
    requires w in workers && workers[w].Waiting?
    ensures Ordered(queues[t.source := queues[t.source][1..]], workers[w := Executing(t)], owner[t.source := w],
                    accepted, released)
  {
    var queues', workers', owner' := queues[t.source := queues[t.source][1..]], workers[w := Executing(t)],
      owner[t.source := w];
    forall k
      ensures LoggedOk(queues', workers', owner', accepted, released, k)
    {
      assert LoggedOk(queues, workers, owner, accepted, released, k) && OwnerOk(workers, owner, k);
      if k == t.source {
        FirstTaken(queues[k], At(accepted, k), At(released, k), t);
      }
    }
  }

  lemma {:induction false} FirstTaken(queue: seq<Task>, accepted: seq<Task>, released: seq<Task>, t: Task)
    requires queue != [] && queue[0] == t && InOrder(queue, [], accepted, released)
    ensures InOrder(queue[1..], [t], accepted, released)
  {
    assert queue == [t] + queue[1..];
    assert released + [] == released;
    assert released + ([t] + queue[1..]) == released + [t] + queue[1..];
  }

  lemma {:induction false} TakeCounted(queues: Log, workers: Workers, owner: Owners, tasks: nat, nextWorker: nat,
                                       w: nat, k: Source, worker: Worker)
    requires Counted(queues, owner, tasks) && Bounded(queues, workers, nextWorker)
    requires k in queues && queues[k] != [] && k !in owner && w in workers
    ensures Counted(queues[k := queues[k][1..]], owner[k := w], tasks)
    ensures Bounded(queues[k := queues[k][1..]], workers[w := worker], nextWorker)
  {
    SizeUpdated(queues, k, queues[k][1..]);
    OneMoreOwner(owner, k, w);
    SameWorkers(workers, w, worker);
  }

  lemma {:induction false} OneMoreOwner(owner: Owners, k: Source, w: nat)
    requires k !in owner
    ensures |owner[k := w]| == |owner| + 1
  {
    assert owner[k := w].Keys == owner.Keys + {k};
  }

  lemma {:induction false} SameWorkers(workers: Workers, w: nat, worker: Worker)
    requires w in workers
    ensures workers[w := worker].Keys == workers.Keys
  {
  }

  lemma {:induction false} FinishCounted(queues: Log, workers: Workers, owner: Owners, tasks: nat, nextWorker: nat,
                                         w: nat, k: Source, worker: Worker)
    requires Counted(queues, owner, tasks) && Bounded(queues, workers, nextWorker)
    requires k in queues && k in owner && w in workers
    ensures tasks > 0 && Counted(Remaining(queues, k), owner - {k}, tasks - 1)
    ensures Bounded(Remaining(queues, k), workers[w := worker], nextWorker)
  {
    assert (owner - {k}).Keys == owner.Keys - {k};
    SameWorkers(workers, w, worker);
    if queues[k] == [] {
      SizeDropped(queues, k);
    }
  }

  // A source without waiting packets is forgotten.
  function Remaining(queues: Log, k: Source): Log
    requires k in queues
  {
    if queues[k] == [] then queues - {k} else queues
  }

  // The executed packet is released; its source goes to the back or away.
  lemma {:induction false} FinishScheduled(queues: Log, ready: seq<Source>, owner: Owners, k: Source)
    requires Scheduled(queues, ready, owner) && k in owner
    ensures k in queues && k !in ready
    ensures if queues[k] == [] then Scheduled(queues - {k}, ready, owner - {k})
      else Scheduled(queues, ready + [k], owner - {k})
  {
    assert SourceOk(queues, ready, owner, k);
    var owner' := owner - {k};
    if queues[k] == [] {
      var queues' := queues - {k};
      forall j
        ensures SourceOk(queues', ready, owner', j)
      {
        assert SourceOk(queues, ready, owner, j);
      }
    } else {
      var ready' := ready + [k];
      forall j
        ensures SourceOk(queues, ready', owner', j)
      {
        assert SourceOk(queues, ready, owner, j);
      }
    }
  }

  lemma {:induction false} FinishOwned(workers: Workers, owner: Owners, w: nat)
    requires Owned(workers, owner) && w in workers && workers[w].Executing?
    ensures workers[w].task.source in owner && owner[workers[w].task.source] == w
    ensures Owned(workers[w := Waiting], owner - {workers[w].task.source})
  {
    assert WorkerOk(workers, owner, w);
    var workers', owner' := workers[w := Waiting], owner - {workers[w].task.source};
    forall k
      ensures OwnerOk(workers', owner', k)
    {
      assert OwnerOk(workers, owner, k);
    }
    forall x
      ensures WorkerOk(workers', owner', x)
    {
      assert WorkerOk(workers, owner, x);
    }
  }

  lemma {:induction false} FinishOrdered(queues: Log, queues': Log, workers: Workers, owner: Owners, accepted: Log,
                                         released: Log, w: nat)
    requires Ordered(queues, workers, owner, accepted, released) && Owned(workers, owner)
    requires w in workers && workers[w].Executing?
    requires workers[w].task.source in queues && queues' == Remaining(queues, workers[w].task.source)
    ensures Ordered(queues', workers[w := Waiting], owner - {workers[w].task.source}, accepted,
                    Logged(released, workers[w].task))
  {
    var t := workers[w].task;
    assert WorkerOk(workers, owner, w);
    var workers', owner', released' := workers[w := Waiting], owner - {t.source}, Logged(released, t);
    forall k
      ensures LoggedOk(queues', workers', owner', accepted, released', k)
    {
      assert LoggedOk(queues, workers, owner, accepted, released, k) && OwnerOk(workers, owner, k);
    }
  }

  lemma {:induction false} ExitOwned(queues: Log, workers: Workers, owner: Owners, accepted: Log, released: Log, w: nat)
    requires Owned(workers, owner) && Ordered(queues, workers, owner, accepted, released) && w in workers
      && workers[w].Waiting?
    ensures Owned(workers - {w}, owner) && Ordered(queues, workers - {w}, owner, accepted, released)
    ensures |owner| <= |workers| - 1
  {
    var workers' := workers - {w};
    forall k
      ensures OwnerOk(workers', owner, k) && LoggedOk(queues, workers', owner, accepted, released, k)
    {
      assert OwnerOk(workers, owner, k) && LoggedOk(queues, workers, owner, accepted, released, k);
    }
    forall x
      ensures WorkerOk(workers', owner, x)
    {
      assert WorkerOk(workers, owner, x);
    }
    OwnersFit(workers', owner);
    assert workers'.Keys == workers.Keys - {w};
  }

  lemma {:induction false} OwnersFit(workers: Workers, owner: Owners)
    requires Owned(workers, owner)
    ensures |owner| <= |workers|
  {
    forall k | k in owner
      ensures owner[k] in workers.Keys
    {
      assert OwnerOk(workers, owner, k);
    }
    forall j, k | j in owner && k in owner && owner[j] == owner[k]
      ensures j == k
    {
      assert OwnerOk(workers, owner, j) && OwnerOk(workers, owner, k);
    }
    InjectiveSize(owner, workers.Keys);
  }

  lemma {:induction false} FinishReady(queues: Log, ready: seq<Source>, owner: Owners, k: Source)
    requires Scheduled(queues, ready, owner) && NoDuplicates(ready) && k in owner
    ensures NoDuplicates(ready + [k]) && NoDuplicates(ready + []) && ready + [] == ready
  {
    assert SourceOk(queues, ready, owner, k);
  }

  lemma {:induction false} TakeTurn(ready: seq<Source>, lined: seq<Source>, served: seq<Source>)
    requires ready != [] && lined == served + ready && NoDuplicates(ready)
    ensures lined == (served + [ready[0]]) + ready[1..] && NoDuplicates(ready[1..])
  {
    assert ready == [ready[0]] + ready[1..];
  }

  // A source that needs a turn goes to the back of the list; nobody else moves.
  ghost predicate Joins(settled: bool, k: Source, ready: seq<Source>, ready': seq<Source>, lined: seq<Source>,
                        lined': seq<Source>)
  {
    if settled then ready' == ready && lined' == lined else ready' == ready + [k] && lined' == lined + [k]
  }

  // At most one more worker, waiting, exactly if there are fewer than sources.
  ghost predicate Hired(workers: Workers, workers': Workers, sources: nat) {
    && (forall w :: w in workers ==> w in workers' && workers'[w] == workers[w])
    && (forall w :: w in workers' && w !in workers ==> workers'[w].Waiting?)
    && |workers'| == |workers| + if |workers| < MAX_WORKERS && |workers| < sources then 1 else 0
  }

  class UdpTaskPool {
    var queues: Log
    var ready: seq<Source>
    var workers: Workers
    var nextWorker: nat
    var tasks: nat
    var closed: bool
    var cancelled: bool
    ghost var owner: Owners
    ghost var accepted: Log
    ghost var released: Log
    // Every entry to the ready list, and every turn taken from it.
    ghost var lined: seq<Source>
    ghost var served: seq<Source>

    ghost predicate Sound()
      reads this
    {
      Consistent(queues, ready, workers, owner, accepted, released, tasks) && lined == served + ready
    }

    // There is a worker for every source, up to the bound.
    ghost predicate Limits()
      reads this
    {
      tasks <= MAX_PENDING && Bounded(queues, workers, nextWorker)
    }

    ghost predicate Valid()
      reads this
    {
      Sound() && Limits()
    }

    constructor ()
      ensures Valid() && accepted == map[] && released == map[] && workers == map[] && !closed && !cancelled
    {
      queues, ready, workers, nextWorker, tasks := map[], [], map[], 0, 0;
      closed, cancelled := false, false;
      owner, accepted, released, lined, served := map[], map[], map[], [], [];
    }

    // Capacity is checked before the datagram is copied; memory tells whether
    // the copy fits the packet budget.
    function Verdict(k: Source, memory: bool): Emission
      reads this
    {
      if closed || cancelled then Dropped(Rejected)
      else if |At(queues, k)| == QUEUE_LENGTH then Dropped(SourceQueueFull)
      else if tasks == MAX_PENDING then Dropped(TaskLimit)
      else if k !in queues && |queues| == MAX_SOURCES then Dropped(SourceLimit)
      else if !memory then Dropped(MemoryLimit)
      else Accepted
    }

    method Emit(t: Task, memory: bool) returns (e: Emission)
      requires Valid()
      modifies this`queues, this`ready, this`tasks, this`workers, this`nextWorker, this`accepted, this`lined
      ensures Valid() && e == old(Verdict(t.source, memory))
      ensures accepted == if e.Accepted? then Logged(old(accepted), t) else old(accepted)
      ensures e.Accepted? ==> queues == old(queues)[t.source := At(old(queues), t.source) + [t]]
      ensures e.Accepted? ==> Joins(t.source in old(queues), t.source, old(ready), ready, old(lined), lined)
      ensures e.Accepted? ==> Hired(old(workers), workers, |queues|) && tasks == old(tasks) + 1
      ensures e.Dropped? ==> unchanged(this)
    {
      if closed || cancelled {
        return Dropped(Rejected);
      }
      var k := t.source;
      assert SourceOk(queues, ready, owner, k);
      if k in queues && |queues[k]| == QUEUE_LENGTH {
        return Dropped(SourceQueueFull);
      }
      if tasks == MAX_PENDING {
        return Dropped(TaskLimit);
      }
      if k !in queues && |queues| == MAX_SOURCES {
        return Dropped(SourceLimit);
      }
      if !memory {
        return Dropped(MemoryLimit);
      }
      Append(t);
      Grow();
      return Accepted;
    }

    // The accepted packet joins its source, a new source joins the ready list.
    method Append(t: Task)
      requires Sound() && |At(queues, t.source)| < QUEUE_LENGTH
      modifies this`queues, this`ready, this`tasks, this`accepted, this`lined
      ensures Sound() && accepted == Logged(old(accepted), t) && tasks == old(tasks) + 1
      ensures |queues| == if t.source in old(queues) then |old(queues)| else |old(queues)| + 1
      ensures queues == old(queues)[t.source := At(old(queues), t.source) + [t]]
      ensures Joins(t.source in old(queues), t.source, old(ready), ready, old(lined), lined)
    {
      AppendConsistent(queues, ready, workers, owner, accepted, released, tasks, t);
      if t.source !in queues {
        ready := ready + [t.source];
        lined := lined + [t.source];
      }
      queues := queues[t.source := At(queues, t.source) + [t]];
      tasks := tasks + 1;
      accepted := Logged(accepted, t);
    }

    // One more worker when there are more sources than workers and room for it.
    method Grow()
      requires Sound() && tasks <= MAX_PENDING && |queues| <= MAX_SOURCES && |workers| <= MAX_WORKERS
      requires |queues| <= |workers| + 1 || |workers| == MAX_WORKERS
      requires forall w :: w in workers ==> w < nextWorker
      modifies this`workers, this`nextWorker
      ensures Valid() && Hired(old(workers), workers, |queues|)
    {
      if |workers| < MAX_WORKERS && |workers| < |queues| {
        GrowOwned(queues, workers, owner, accepted, released, nextWorker);
        assert workers[nextWorker := Waiting].Keys == workers.Keys + {nextWorker};
        workers := workers[nextWorker := Waiting];
        nextWorker := nextWorker + 1;
      }
    }

    method Close()
      requires Valid()
      modifies this`closed
      ensures Valid() && closed
    {
      closed := true;
    }

    method Cancel()
      requires Valid()
      modifies this`cancelled
      ensures Valid() && cancelled
    {
      cancelled := true;
    }

    // A waiting worker takes the first packet of the first ready source.
    method Take(w: nat) returns (t: Task, execute: bool)
      requires Valid() && w in workers && workers[w].Waiting? && ready != []
      modifies this`queues, this`ready, this`workers, this`tasks, this`owner, this`released, this`lined, this`served
      ensures tasks == old(tasks) && released == old(released) && lined == old(lined)
      ensures Valid() && workers == old(workers)[w := Executing(t)] && execute == !cancelled
      ensures t.source == old(ready)[0] && At(old(queues), t.source) == [t] + At(queues, t.source)
      ensures served == old(served) + [t.source] && ready == old(ready)[1..]
      ensures queues == old(queues)[t.source := At(queues, t.source)]
    {
      var k := ready[0];
      TakeScheduled(queues, ready, owner, w);
      t := queues[k][0];
      TakeOwned(workers, owner, w, t);
      TakeOrdered(queues, workers, owner, accepted, released, w, t);
      TakeCounted(queues, workers, owner, tasks, nextWorker, w, k, Executing(t));
      TakeTurn(ready, lined, served);
      execute := !cancelled;
      served := served + [k];
      Commit(queues[k := queues[k][1..]], ready[1..], workers[w := Executing(t)], tasks, owner[k := w], released,
             lined);
    }

    method Commit(queues: Log, ready: seq<Source>, workers: Workers, tasks: nat, ghost owner: Owners,
                  ghost released: Log, ghost lined: seq<Source>)
      requires Consistent(queues, ready, workers, owner, accepted, released, tasks) && lined == served + ready
      requires tasks <= MAX_PENDING && Bounded(queues, workers, nextWorker)
      modifies this`queues, this`ready, this`workers, this`tasks, this`owner, this`released, this`lined
      ensures Valid() && this.queues == queues && this.ready == ready && this.workers == workers && this.tasks == tasks
      ensures this.owner == owner && this.released == released && this.lined == lined
    {
      this.queues, this.ready, this.workers, this.tasks := queues, ready, workers, tasks;
      this.owner, this.released, this.lined := owner, released, lined;
    }

    // The packet has been executed or skipped; its buffer is released.
    method Finish(w: nat)
      requires Valid() && w in workers && workers[w].Executing?
      modifies this`queues, this`ready, this`workers, this`tasks, this`owner, this`released, this`lined
      ensures Valid() && workers == old(workers)[w := Waiting]
      ensures released == Logged(old(released), old(workers)[w].task) && tasks == old(tasks) - 1
      ensures var k := old(workers)[w].task.source;
        && Joins(At(old(queues), k) == [], k, old(ready), ready, old(lined), lined)
        && queues == if At(old(queues), k) == [] then old(queues) - {k} else old(queues)
    {
      var t := workers[w].task;
      var k := t.source;
      FinishOwned(workers, owner, w);
      FinishScheduled(queues, ready, owner, k);
      FinishOrdered(queues, Remaining(queues, k), workers, owner, accepted, released, w);
      FinishCounted(queues, workers, owner, tasks, nextWorker, w, k, Waiting);
      FinishReady(queues, ready, owner, k);
      var back := if queues[k] == [] then [] else [k];
      Commit(Remaining(queues, k), ready + back, workers[w := Waiting], tasks - 1, owner - {k}, Logged(released, t),
             lined + back);
    }

    // A worker returns once the pool is closed and no source is ready.
    method Exit(w: nat)
      requires Valid() && w in workers && workers[w].Waiting? && closed && ready == []
      modifies this`workers
      ensures Valid() && workers == old(workers) - {w}
    {
      ExitOwned(queues, workers, owner, accepted, released, w);
      AllOwned(queues, ready, owner);
      assert (workers - {w}).Keys == workers.Keys - {w};
      workers := workers - {w};
    }

    // Packets of one source never execute concurrently.
    lemma {:induction false} Exclusive(a: nat, b: nat)
      requires Valid() && a in workers && b in workers && a != b && workers[a].Executing? && workers[b].Executing?
      ensures workers[a].task.source != workers[b].task.source
    {
      assert WorkerOk(workers, owner, a) && WorkerOk(workers, owner, b);
    }

    // Once all workers have returned, every accepted packet has been released,
    // in the order of its source.
    lemma {:induction false} AllReleased()
      requires Valid() && workers == map[]
      ensures queues == map[] && tasks == 0 && forall k :: At(released, k) == At(accepted, k)
    {
      OwnersFit(workers, owner);
      assert |queues| == 0 && |owner| == 0;
      forall k
        ensures At(released, k) == At(accepted, k)
      {
        assert LoggedOk(queues, workers, owner, accepted, released, k);
      }
    }
  }

  lemma {:induction false} AllOwned(queues: Log, ready: seq<Source>, owner: Owners)
    requires Scheduled(queues, ready, owner) && ready == []
    ensures queues.Keys == owner.Keys
  {
    forall k
      ensures k in queues.Keys <==> k in owner.Keys
    {
      assert SourceOk(queues, ready, owner, k);
    }
  }

  // ------ Whole runs ------

  datatype Step = EmitStep(task: Task, memory: bool) | TakeStep(w: nat) | FinishStep(w: nat) | ExitStep(w: nat)
    | CloseStep | CancelStep

  // Logs only ever grow.
  ghost predicate Grows(a: Log, b: Log) {
    forall k {:trigger At(b, k)} :: At(a, k) <= At(b, k)
  }

  lemma {:induction false} LoggedGrows(a: Log, b: Log, t: Task)
    requires Grows(a, b)
    ensures Grows(a, Logged(b, t))
  {
    forall k
      ensures At(a, k) <= At(Logged(b, t), k)
    {
      assert At(a, k) <= At(b, k);
    }
  }

  // Sources take their turns in the order of the list.
  ghost predicate InTurn(ready: seq<Source>, turns: seq<Source>) {
    ready <= turns || turns <= ready
  }

  // Before a source has another turn, every source that waited at its last one has
  // had a turn.
  ghost predicate RoundRobin(ready: seq<Source>, turns: seq<Source>) {
    forall j :: 0 < j < |turns| && ready != [] && turns[j] == turns[0] ==> forall k <- ready :: k in turns[..j]
  }

  lemma {:induction false} TurnsTaken(ready: seq<Source>, lined: seq<Source>, served: seq<Source>,
                                      ready': seq<Source>, lined': seq<Source>, served': seq<Source>)
    requires lined == served + ready && lined' == served' + ready' && NoDuplicates(ready)
    requires lined <= lined' && served <= served'
    ensures InTurn(ready, served'[|served|..]) && RoundRobin(ready, served'[|served|..])
  {
    var turns := served'[|served|..];
    forall i | 0 <= i < |turns| && i < |ready|
      ensures turns[i] == ready[i]
    {
      assert lined'[|served| + i] == lined[|served| + i];
    }
    forall j | 0 < j < |turns| && ready != [] && turns[j] == turns[0]
      ensures forall k <- ready :: k in turns[..j]
    {
      assert j >= |ready|;
      forall k <- ready
        ensures k in turns[..j]
      {
        var i :| 0 <= i < |ready| && ready[i] == k;
        assert turns[..j][i] == k;
      }
    }
  }

  // What a run never takes back.
  ghost predicate Forward(pool: UdpTaskPool, accepted: Log, released: Log, lined: seq<Source>, served: seq<Source>)
    reads pool
  {
    && Grows(accepted, pool.accepted) && Grows(released, pool.released)
    && lined <= pool.lined && served <= pool.served
  }

  // One step of an arbitrary interleaving; a step that is not enabled waits.
  method Advance(pool: UdpTaskPool, step: Step, ghost a: Log, ghost r: Log, ghost l: seq<Source>, ghost s: seq<Source>)
    requires pool.Valid() && Forward(pool, a, r, l, s)
    modifies pool
    ensures pool.Valid() && Forward(pool, a, r, l, s)
  {
    match step {
      case EmitStep(t, memory) =>
        LoggedGrows(a, pool.accepted, t);
        var _ := pool.Emit(t, memory);
      case TakeStep(w) => AdvanceTake(pool, w, a, r, l, s);
      case FinishStep(w) => AdvanceFinish(pool, w, a, r, l, s);
      case ExitStep(w) => AdvanceExit(pool, w, a, r, l, s);
      case CloseStep => pool.Close();
      case CancelStep => pool.Cancel();
    }
  }

  method AdvanceTake(pool: UdpTaskPool, w: nat, ghost a: Log, ghost r: Log, ghost l: seq<Source>, ghost s: seq<Source>)
    requires pool.Valid() && Forward(pool, a, r, l, s)
    modifies pool
    ensures pool.Valid() && Forward(pool, a, r, l, s)
  {
    if w in pool.workers && pool.workers[w].Waiting? && pool.ready != [] {
      var _, _ := pool.Take(w);
    }
  }

  method AdvanceFinish(pool: UdpTaskPool, w: nat, ghost a: Log, ghost r: Log, ghost l: seq<Source>,
                       ghost s: seq<Source>)
    requires pool.Valid() && Forward(pool, a, r, l, s)
    modifies pool
    ensures pool.Valid() && Forward(pool, a, r, l, s)
  {
    if w in pool.workers && pool.workers[w].Executing? {
      LoggedGrows(r, pool.released, pool.workers[w].task);
      pool.Finish(w);
    }
  }

  method AdvanceExit(pool: UdpTaskPool, w: nat, ghost a: Log, ghost r: Log, ghost l: seq<Source>, ghost s: seq<Source>)
    requires pool.Valid() && Forward(pool, a, r, l, s)
    modifies pool
    ensures pool.Valid() && Forward(pool, a, r, l, s)
  {
    if w in pool.workers && pool.workers[w].Waiting? && pool.closed && pool.ready == [] {
      pool.Exit(w);
    }
  }

  // Every interleaving of emitters, workers and closure keeps the invariant and
  // serves the sources that were waiting in turn, and when it leaves no worker,
  // everything accepted has been released once.
  method Run(pool: UdpTaskPool, steps: seq<Step>)
    requires pool.Valid()
    modifies pool
    ensures pool.Valid() && Grows(old(pool.accepted), pool.accepted) && Grows(old(pool.released), pool.released)
    ensures old(pool.lined) <= pool.lined && old(pool.served) <= pool.served
    ensures InTurn(old(pool.ready), pool.served[|old(pool.served)|..])
    ensures RoundRobin(old(pool.ready), pool.served[|old(pool.served)|..])
    ensures pool.workers == map[] ==> forall k :: At(pool.released, k) == At(pool.accepted, k)
  {
    var i := 0;
    while i < |steps|
      invariant 0 <= i <= |steps| && pool.Valid()
      invariant Forward(pool, old(pool.accepted), old(pool.released), old(pool.lined), old(pool.served))
    {
      Advance(pool, steps[i], old(pool.accepted), old(pool.released), old(pool.lined), old(pool.served));
      i := i + 1;
    }
    TurnsTaken(old(pool.ready), old(pool.lined), old(pool.served), pool.ready, pool.lined, pool.served);
    if pool.workers == map[] {
      pool.AllReleased();
    }
  }
}
