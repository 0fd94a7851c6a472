/** A table of reference-counted locks. Locking registers under the table's mutex
    and then waits for the key's lock; unlocking releases that lock and then
    deregisters. Each of the four methods is one atomic step. */
module KeyLocker {
  import opened Common

  type Key = string
  type Goroutine = nat

  class Locker {
    ghost const key: Key
    var holder: Option<Goroutine>
    var ref: nat

    constructor (ghost key: Key)
      ensures this.key == key && holder == None && ref == 1
    {
      this.key, holder, ref := key, None, 1;
    }
  }

  // Where a goroutine stands between entering Lock and leaving Unlock.
  datatype Stage = Waiting | Holding | Releasing

  datatype User = User(key: Key, locker: Locker, stage: Stage)

  type Table = map<Key, Locker>
  type Users = map<Goroutine, User>

  function UsersOf(users: Users, key: Key): set<Goroutine> {
    set g | g in users && users[g].key == key
  }

  // All goroutines registered for a key share the mapped locker.
  predicate UserOk(m: Table, users: Users, g: Goroutine) {
    g in users ==> users[g].key in m && m[users[g].key] == users[g].locker
  }

  ghost predicate EntryOk(m: Table, lockers: set<Locker>, users: Users, key: Key) {
    && (key in m <==> UsersOf(users, key) != {})
    && (key in m ==> m[key] in lockers && m[key].key == key)
  }

  ghost predicate Registered(m: Table, lockers: set<Locker>, users: Users) {
    && (forall g {:trigger UserOk(m, users, g)} :: UserOk(m, users, g))
    && (forall key {:trigger EntryOk(m, lockers, users, key)} :: EntryOk(m, lockers, users, key))
  }

  lemma {:induction false} UsersAdded(users: Users, g: Goroutine, u: User, key: Key)
    requires g !in users
    ensures UsersOf(users[g := u], key) == UsersOf(users, key) + (if key == u.key then {g} else {})
    ensures g !in UsersOf(users, key)
  {
  }

  lemma {:induction false} UsersMoved(users: Users, g: Goroutine, stage: Stage, key: Key)
    requires g in users
    ensures UsersOf(users[g := users[g].(stage := stage)], key) == UsersOf(users, key)
  {
  }

  lemma {:induction false} UsersRemoved(users: Users, g: Goroutine, key: Key)
    requires g in users
    ensures UsersOf(users - {g}, key) == UsersOf(users, key) - (if key == users[g].key then {g} else {})
    ensures g in UsersOf(users, users[g].key)
  {
  }

  // holders plus waiters plus not yet deregistered releasers; and the holder.
  ghost predicate Counts(users: Users, key: Key, ref: nat, holder: Option<Goroutine>) {
    && ref == |UsersOf(users, key)|
    && (forall g :: holder == Some(g) <==> g in users && users[g].key == key && users[g].stage == Holding)
  }

  lemma {:induction false} CountAdded(users: Users, g: Goroutine, u: User, key: Key, ref: nat,
                                      holder: Option<Goroutine>)
    requires g !in users && u.stage == Waiting && Counts(users, key, ref, holder)
    ensures Counts(users[g := u], key, if key == u.key then ref + 1 else ref, holder)
  {
    UsersAdded(users, g, u, key);
  }

  lemma {:induction false} CountFirst(users: Users, g: Goroutine, u: User)
    requires g !in users && u.stage == Waiting && UsersOf(users, u.key) == {}
    ensures Counts(users[g := u], u.key, 1, None)
  {
    UsersAdded(users, g, u, u.key);
    assert UsersOf(users[g := u], u.key) == {g};
    forall x | x in users
      ensures users[x].key != u.key
    {
      assert x in UsersOf(users, u.key) <==> users[x].key == u.key;
    }
  }

  lemma {:induction false} CountRemoved(users: Users, g: Goroutine, key: Key, ref: nat, holder: Option<Goroutine>)
    requires g in users && users[g].stage == Releasing && Counts(users, key, ref, holder)
    ensures key == users[g].key ==> ref > 0
    ensures Counts(users - {g}, key, if key == users[g].key then ref - 1 else ref, holder)
  {
    UsersRemoved(users, g, key);
    if key == users[g].key {
      LastUser(UsersOf(users, key), g);
    }
  }

  lemma {:induction false} AddRegistered(m: Table, lockers: set<Locker>, users: Users, g: Goroutine, key: Key,
                                         l: Locker)
    requires Registered(m, lockers, users) && g !in users && l.key == key && (key in m ==> m[key] == l)
    ensures Registered(m[key := l], lockers + {l}, users[g := User(key, l, Waiting)])
  {
    var m', lockers', users' := m[key := l], lockers + {l}, users[g := User(key, l, Waiting)];
    forall x
      ensures UserOk(m', users', x)
    {
      assert UserOk(m, users, x);
    }
    forall k
      ensures EntryOk(m', lockers', users', k)
    {
      assert EntryOk(m, lockers, users, k);
      UsersAdded(users, g, User(key, l, Waiting), k);
      if k == key {
        assert g in UsersOf(users', k);
      }
    }
  }

  lemma {:induction false} MoveRegistered(m: Table, lockers: set<Locker>, users: Users, g: Goroutine, stage: Stage)
    requires Registered(m, lockers, users) && g in users
    ensures Registered(m, lockers, users[g := users[g].(stage := stage)])
  {
    var users' := users[g := users[g].(stage := stage)];
    forall x
      ensures UserOk(m, users', x)
    {
      assert UserOk(m, users, x);
    }
    forall k
      ensures EntryOk(m, lockers, users', k)
    {
      assert EntryOk(m, lockers, users, k);
      UsersMoved(users, g, stage, k);
    }
  }

  lemma {:induction false} RemoveRegistered(m: Table, lockers: set<Locker>, users: Users, g: Goroutine)
    requires Registered(m, lockers, users) && g in users
    ensures var key := users[g].key;
      if UsersOf(users, key) == {g} then Registered(m - {key}, lockers, users - {g})
        else Registered(m, lockers, users - {g})
  {
    var key, users' := users[g].key, users - {g};
    var m' := if UsersOf(users, key) == {g} then m - {key} else m;
    forall x
      ensures UserOk(m', users', x)
    {
      assert UserOk(m, users, x);
      if x in users' && users[x].key == key {
        assert x in UsersOf(users, key);
      }
    }
    forall k
      ensures EntryOk(m', lockers, users', k)
    {
      assert EntryOk(m, lockers, users, k);
      UsersRemoved(users, g, k);
    }
  }

  class KeyLocker {
    var m: Table
    ghost var lockers: set<Locker>
    ghost var users: Users

    // The count of an entry is the number of goroutines using it, and its lock is
    // held by exactly the goroutine that is in its critical section.
    ghost predicate CountOk(key: Key)
      reads this, lockers
    {
      key in m && m[key] in lockers ==> Counts(users, key, m[key].ref, m[key].holder)
    }

    ghost predicate Valid()
      reads this, lockers
    {
      Registered(m, lockers, users) && forall key {:trigger CountOk(key)} :: CountOk(key)
    }

    constructor ()
      ensures Valid() && m == map[] && users == map[] && lockers == {}
    {
      m, lockers, users := map[], {}, map[];
    }

    // First half of Lock, under the table's mutex.
    method Register(g: Goroutine, key: Key) returns (l: Locker, isNew: bool)
      requires Valid() && g !in users
      modifies this, lockers
      ensures Valid() && fresh(lockers - old(lockers)) && users == old(users)[g := User(key, l, Waiting)]
      ensures isNew <==> UsersOf(old(users), key) == {}
    {
      assert EntryOk(m, lockers, users, key) && CountOk(key);
      isNew := key !in m;
      if isNew {
        l := new Locker(key);
        m := m[key := l];
      } else {
        l := m[key];
        l.ref := l.ref + 1;
      }
      AddRegistered(old(m), lockers, users, g, key, l);
      assert !isNew ==> m == m[key := l];
      lockers := lockers + {l};
      users := users[g := User(key, l, Waiting)];
      forall k
        ensures CountOk(k)
      {
        assert old(CountOk(k)) && EntryOk(old(m), old(lockers), old(users), k);
        if k in old(m) {
          CountAdded(old(users), g, User(key, l, Waiting), k, old(m[k].ref), old(m[k].holder));
        } else if k == key {
          CountFirst(old(users), g, User(key, l, Waiting));
        }
      }
    }

    // Second half of Lock: the wait for the key's lock ends.
    method Acquire(g: Goroutine, l: Locker)
      requires Valid() && g in users && users[g].stage == Waiting && users[g].locker == l && l.holder == None
      modifies this`users, l
      ensures Valid() && users == old(users)[g := old(users)[g].(stage := Holding)]
    {
      assert UserOk(m, users, g) && EntryOk(m, lockers, users, users[g].key);
      MoveRegistered(m, lockers, users, g, Holding);
      l.holder := Some(g);
      users := users[g := users[g].(stage := Holding)];
      forall k
        ensures CountOk(k)
      {
        assert old(CountOk(k)) && EntryOk(m, lockers, old(users), k);
        UsersMoved(old(users), g, Holding, k);
      }
    }

    // First half of Unlock.
    method Release(g: Goroutine, l: Locker)
      requires Valid() && g in users && users[g].stage == Holding && users[g].locker == l
      modifies this`users, l
      ensures Valid() && users == old(users)[g := old(users)[g].(stage := Releasing)]
    {
      assert UserOk(m, users, g) && EntryOk(m, lockers, users, users[g].key);
      MoveRegistered(m, lockers, users, g, Releasing);
      l.holder := None;
      users := users[g := users[g].(stage := Releasing)];
      forall k
        ensures CountOk(k)
      {
        assert old(CountOk(k)) && EntryOk(m, lockers, old(users), k);
        UsersMoved(old(users), g, Releasing, k);
      }
    }

    // Second half of Unlock, under the table's mutex.
    method Deregister(g: Goroutine, key: Key, l: Locker)
      requires Valid() && g in users && users[g] == User(key, l, Releasing)
      modifies this`m, this`users, l
      ensures Valid() && users == old(users) - {g}
    {
      assert UserOk(m, users, g) && EntryOk(m, lockers, users, key) && CountOk(key);
      RemoveRegistered(m, lockers, users, g);
      UsersRemoved(users, g, key);
      LastUser(UsersOf(users, key), g);
      l.ref := l.ref - 1;
      if l.ref == 0 {
        m := m - {key};
      }
      users := users - {g};
      forall k
        ensures CountOk(k)
      {
        assert old(CountOk(k)) && EntryOk(old(m), lockers, old(users), k);
        if k in old(m) {
          CountRemoved(old(users), g, k, old(m[k].ref), old(m[k].holder));
        }
      }
    }

    // At most one goroutine is in a key's critical section.
    lemma {:induction false} Exclusive(a: Goroutine, b: Goroutine)
      requires Valid() && a in users && b in users && users[a].stage == Holding && users[b].stage == Holding
      requires users[a].key == users[b].key
      ensures a == b
    {
      var key := users[a].key;
      assert UserOk(m, users, a) && EntryOk(m, lockers, users, key) && CountOk(key);
      assert m[key].holder == Some(a) && m[key].holder == Some(b);
    }

    // A goroutine that could take its next step.
    ghost predicate Enabled(g: Goroutine)
      reads this, lockers
    {
      g in users && (users[g].stage == Waiting ==> users[g].locker in lockers && users[g].locker.holder == None)
    }

    // Nobody waits forever for want of anybody who could move.
    lemma {:induction false} NoDeadlock(g: Goroutine) returns (next: Goroutine)
      requires Valid() && g in users
      ensures Enabled(next) && users[next].key == users[g].key
    {
      var key := users[g].key;
      assert UserOk(m, users, g) && EntryOk(m, lockers, users, key) && CountOk(key);
      match m[key].holder
      case None => next := g;
      case Some(h) => next := h;
    }

    // The lock of a key is free exactly if nobody is in the critical section.
    lemma {:induction false} FreeIff(g: Goroutine)
      requires Valid() && g in users && users[g].key in m && m[users[g].key] == users[g].locker
        && users[g].locker in lockers
      ensures users[g].locker.holder == None <==> Free(StagesOf(users), users[g].key)
    {
      var key := users[g].key;
      assert CountOk(key);
      if m[key].holder.Some? {
        var h := m[key].holder.value;
        assert h in users && users[h].key == key && users[h].stage == Holding;
        assert StagesOf(users)[h] == (key, Holding);
      } else {
        forall h | h in StagesOf(users)
          ensures StagesOf(users)[h] != (key, Holding)
        {
          assert m[key].holder != Some(h);
        }
      }
    }

    // Without users the table is empty.
    lemma {:induction false} NothingKept()
      requires Valid() && users == map[]
      ensures m == map[]
    {
      forall key
        ensures key !in m
      {
        assert EntryOk(m, lockers, users, key);
        assert UsersOf(users, key) == {};
      }
    }
  }

  // ------ Whole runs ------

  // The four atomic steps of Lock and Unlock.
  datatype Step = RegisterStep(g: Goroutine, key: Key) | AcquireStep(g: Goroutine) | ReleaseStep(g: Goroutine)
    | DeregisterStep(g: Goroutine)

  // What a lock per key is: who uses which key, and how far each has come.
  type Stages = map<Goroutine, (Key, Stage)>

  predicate Free(stages: Stages, key: Key) {
    forall g :: g in stages ==> stages[g] != (key, Holding)
  }

  predicate IsAt(stages: Stages, g: Goroutine, stage: Stage) {
    g in stages && stages[g].1 == stage
  }

  // A goroutine goes on exactly if it is its turn and, to enter the critical
  // section, nobody is in there.
  function After(stages: Stages, step: Step): Stages {
    var g := step.g;
    match step
    case RegisterStep(_, key) => if g in stages then stages else stages[g := (key, Waiting)]
    case AcquireStep(_) =>
      if IsAt(stages, g, Waiting) && Free(stages, stages[g].0) then stages[g := (stages[g].0, Holding)] else stages
    case ReleaseStep(_) => if IsAt(stages, g, Holding) then stages[g := (stages[g].0, Releasing)] else stages
    case DeregisterStep(_) => if IsAt(stages, g, Releasing) then stages - {g} else stages
  }

  function AfterAll(steps: seq<Step>): Stages {
    if steps == [] then map[] else After(AfterAll(steps[..|steps| - 1]), steps[|steps| - 1])
  }

  function StagesOf(users: Users): Stages {
    map g | g in users :: (users[g].key, users[g].stage)
  }

  // One step of an arbitrary interleaving; a step that is not enabled waits.
  method Advance(kl: KeyLocker, users: Users, step: Step) returns (users': Users)
    requires kl.Valid() && kl.users == users
    modifies kl, kl.lockers
    ensures kl.Valid() && kl.users == users' && fresh(kl.lockers - old(kl.lockers))
    ensures StagesOf(users') == After(StagesOf(users), step)
  {
    users' := users;
    var g := step.g;
    assert UserOk(kl.m, users, g);
    if g in users {
      assert EntryOk(kl.m, kl.lockers, users, users[g].key);
      kl.FreeIff(g);
    }
    match step {
      case RegisterStep(_, key) =>
        if g !in users {
          var l, _ := kl.Register(g, key);
          users' := users[g := User(key, l, Waiting)];
        }
      case AcquireStep(_) =>
        if g in users && users[g].stage == Waiting && users[g].locker.holder == None {
          kl.Acquire(g, users[g].locker);
          users' := users[g := users[g].(stage := Holding)];
        }
      case ReleaseStep(_) =>
        if g in users && users[g].stage == Holding {
          kl.Release(g, users[g].locker);
          users' := users[g := users[g].(stage := Releasing)];
        }
      case DeregisterStep(_) =>
        if g in users && users[g].stage == Releasing {
          kl.Deregister(g, users[g].key, users[g].locker);
          users' := users - {g};
        }
    }
  }

  // Every interleaving of lockers and unlockers runs as with a lock per key, keeps
  // each critical section to one goroutine, and leaves nothing in the table once
  // everybody is gone.
  method Run(steps: seq<Step>) returns (kl: KeyLocker, users: Users)
    ensures kl.Valid() && kl.users == users && StagesOf(users) == AfterAll(steps)
    ensures forall a, b :: a in users && b in users && users[a].key == users[b].key ==>
      users[a].locker == users[b].locker && (users[a].stage == Holding && users[b].stage == Holding ==> a == b)
    ensures users == map[] ==> kl.m == map[]
  {
    kl := new KeyLocker();
    users := map[];
    var i := 0;
    while i < |steps|
      invariant 0 <= i <= |steps| && kl.Valid() && kl.users == users && fresh(kl.lockers)
      invariant StagesOf(users) == AfterAll(steps[..i])
    {
      users := Advance(kl, users, steps[i]);
      assert steps[..i + 1][..i] == steps[..i];
      i := i + 1;
    }
    assert steps[..|steps|] == steps;
    forall a, b | a in users && b in users && users[a].key == users[b].key
      ensures users[a].locker == users[b].locker && (users[a].stage == Holding && users[b].stage == Holding ==> a == b)
    {
      assert UserOk(kl.m, users, a) && UserOk(kl.m, users, b);
      if users[a].stage == Holding && users[b].stage == Holding {
        kl.Exclusive(a, b);
      }
    }
    if users == map[] {
      kl.NothingKept();
    }
  }

  lemma {:induction false} LastUser(s: set<Goroutine>, g: Goroutine)
    requires g in s
    ensures |s| == 1 <==> s == {g}
    ensures |s - {g}| == |s| - 1
  {
    if |s| == 1 {
      assert |s - {g}| == 0;
      assert s == s - {g} + {g};
    }
  }
}
