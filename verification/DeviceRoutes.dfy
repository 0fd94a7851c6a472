/** Device routing epochs: leases of userspace connections, the epoch table the
    kernel reads, and a change that moves both or neither. */
module DeviceRoutes {
  import opened Common

  type Mac = nat
  const NO_MAC: Mac := 0

  class Lease {
    ghost const mac: Mac
    ghost const epoch: nat
    var aborted: bool

    constructor (ghost mac: Mac, ghost epoch: nat)
      ensures this.mac == mac && this.epoch == epoch && !aborted
    {
      this.mac, this.epoch, aborted := mac, epoch, false;
    }
  }

  datatype DeviceRoute = DeviceRoute(epoch: nat, lease: Option<Lease>)

  datatype RouteState = RouteState(epoch: nat, updating: bool)

  type Devices = map<Mac, DeviceRoute>
  type Table = map<Mac, RouteState>

  const NEW_DEVICE := DeviceRoute(0, None)

  function DeviceAt(devices: Devices, mac: Mac): DeviceRoute {
    if mac in devices then devices[mac] else NEW_DEVICE
  }

  // What the kernel sees for a device: absent entries are idle at epoch zero.
  function StateAt(table: Table, mac: Mac): RouteState {
    if mac in table then table[mac] else RouteState(0, false)
  }

  function Replacement(devices: Devices, changed: set<Mac>, updating: bool, mac: Mac): RouteState {
    var epoch := DeviceAt(devices, mac).epoch;
    if mac !in changed then RouteState(epoch, false)
    else if updating then RouteState(epoch, true)
    else RouteState(epoch + 1, false)
  }

  // The table agrees with this replacement for every device.
  ghost predicate Replaces(table: Table, devices: Devices, changed: set<Mac>, updating: bool) {
    forall mac {:trigger StateAt(table, mac)} :: StateAt(table, mac) == Replacement(devices, changed, updating, mac)
  }

  // A gate marks the changed devices as updating; the table behind it has them one
  // epoch further.
  predicate Shows(table: Table, devices: Devices, changed: bool, updating: bool, mac: Mac) {
    && (StateAt(table, mac).updating <==> changed && updating)
    && StateAt(table, mac).epoch == DeviceAt(devices, mac).epoch + if changed && !updating then 1 else 0
  }

  // A replacement leaves out idle devices at epoch zero.
  method BuildTable(devices: Devices, changed: set<Mac>, updating: bool, fails: bool) returns (table: Option<Table>)
    requires changed <= devices.Keys
    ensures table.None? <==> fails
    ensures table.Some? ==> Replaces(table.value, devices, changed, updating)
    ensures table.Some? ==> forall mac :: Shows(table.value, devices, mac in changed, updating, mac)
  {
    if fails {
      return None;
    }
    var m: Table := map[];
    var todo := devices.Keys;
    while todo != {}
      invariant todo <= devices.Keys
      invariant forall mac {:trigger StateAt(m, mac)} ::
        StateAt(m, mac) == if mac in todo then RouteState(0, false) else Replacement(devices, changed, updating, mac)
      decreases |todo|
    {
      var mac :| mac in todo;
      ghost var before := m;
      var state := RouteState(devices[mac].epoch, false);
      if mac in changed {
        state := if updating then state.(updating := true) else state.(epoch := state.epoch + 1);
      }
      if state.epoch != 0 || state.updating {
        m := m[mac := state];
      }
      forall other
        ensures StateAt(m, other) == if other in todo - {mac} then RouteState(0, false)
          else Replacement(devices, changed, updating, other)
      {
        assert StateAt(before, other) == if other in todo then RouteState(0, false)
          else Replacement(devices, changed, updating, other);
      }
      todo := todo - {mac};
    }
    return Some(m);
  }

  // How the work around the change goes: whether it got its commit done, and
  // whether it reports success in the end.
  datatype Applied = Applied(committed: bool, ok: bool)

  datatype Faults = Faults(lookup: bool, gate: bool, next: bool, swap: bool, applied: Applied, restore: bool)

  // The gate was published, so the work around the change runs.
  predicate Begins(f: Faults) {
    !f.lookup && !f.gate && !f.next && !f.swap
  }

  predicate Succeeds(f: Faults) {
    Begins(f) && f.applied.ok
  }

  // A published table could not be taken back.
  predicate Stuck(f: Faults) {
    Begins(f) && !f.applied.ok && f.restore
  }

  datatype Admission = Unmanaged | Refused | Granted(lease: Lease)

  class DeviceRoutes {
    var devices: Devices
    var outer: Table
    ghost var issued: set<Lease>

    // Every lease ever granted is the current one of its device, or aborted
    // because the device has moved on.
    ghost predicate LeaseOk(l: Lease)
      reads this`devices, this`issued, issued
    {
      l in issued ==>
        if l.aborted then l.epoch < DeviceAt(devices, l.mac).epoch
          else DeviceAt(devices, l.mac) == DeviceRoute(l.epoch, Some(l))
    }

    ghost predicate DeviceOk(mac: Mac)
      reads this`devices, this`issued, issued
    {
      var d := DeviceAt(devices, mac);
      d.lease.Some? ==>
        d.lease.value in issued && !d.lease.value.aborted && d.lease.value.mac == mac
        && d.lease.value.epoch == d.epoch
    }

    ghost predicate Valid()
      reads this`devices, this`issued, issued
    {
      (forall l <- issued :: LeaseOk(l)) && (forall mac {:trigger DeviceOk(mac)} :: DeviceOk(mac))
    }

    // The kernel's table shows every device at its epoch.
    ghost predicate Synced()
      reads this
    {
      Replaces(outer, devices, {}, false)
    }

    constructor ()
      ensures Valid() && Synced() && devices == map[] && issued == {}
    {
      devices, outer, issued := map[], map[], {};
    }

    // A connection routed under a stale epoch is refused.
    method Acquire(mac: Mac, routeEpoch: nat) returns (a: Admission)
      requires Valid()
      modifies this`devices, this`issued
      ensures Valid() && (Synced() <==> old(Synced())) && fresh(issued - old(issued)) && old(issued) <= issued
      ensures a.Unmanaged? <==> mac == NO_MAC
      ensures a.Refused? <==> mac != NO_MAC && routeEpoch != old(DeviceAt(devices, mac).epoch)
      ensures a.Granted? ==> a.lease in issued && !a.lease.aborted && a.lease.mac == mac && a.lease.epoch == routeEpoch
      ensures forall other :: DeviceAt(devices, other).epoch == old(DeviceAt(devices, other).epoch)
    {
      if mac == NO_MAC {
        return Unmanaged;
      }
      assert DeviceOk(mac);
      var device := DeviceAt(devices, mac);
      if routeEpoch != device.epoch {
        AddDevice(mac);
        return Refused;
      }
      if device.lease.None? {
        var lease := new Lease(mac, device.epoch);
        ghost var devices0, issued0 := devices, issued;
        devices := devices[mac := device.(lease := Some(lease))];
        issued := issued + {lease};
        forall m
          ensures DeviceOk(m)
        {
          assert old(DeviceOk(m));
        }
        forall l <- issued
          ensures LeaseOk(l)
        {
          if l != lease {
            assert old(LeaseOk(l));
          }
        }
        KeepEpochs(outer, devices0, devices);
        return Granted(lease);
      }
      return Granted(device.lease.value);
    }

    method AddDevice(mac: Mac)
      requires Valid()
      modifies this`devices
      ensures Valid() && mac in devices && forall other :: DeviceAt(devices, other) == old(DeviceAt(devices, other))
      ensures old(devices.Keys) <= devices.Keys && (Synced() <==> old(Synced()))
    {
      ghost var before := devices;
      devices := devices[mac := DeviceAt(devices, mac)];
      forall m
        ensures DeviceOk(m)
      {
        assert old(DeviceOk(m));
      }
      forall l <- issued
        ensures LeaseOk(l)
      {
        assert old(LeaseOk(l));
      }
      KeepEpochs(outer, before, devices);
    }

    method AddDevices(changed: set<Mac>)
      requires Valid()
      modifies this`devices
      ensures Valid() && changed <= devices.Keys && forall other ::
        DeviceAt(devices, other) == old(DeviceAt(devices, other))
    {
      var todo := changed;
      while todo != {}
        invariant todo <= changed && changed - todo <= devices.Keys && Valid()
        invariant forall other :: DeviceAt(devices, other) == old(DeviceAt(devices, other))
        decreases |todo|
      {
        var mac :| mac in todo;
        AddDevice(mac);
        todo := todo - {mac};
      }
    }

    // One device leaves its epoch: its lease is aborted, the next one is new.
    method Bump(mac: Mac)
      requires Valid() && mac in devices
      modifies this`devices, issued
      ensures Valid()
      ensures devices == old(devices)[mac := DeviceRoute(old(devices)[mac].epoch + 1, None)]
      ensures forall l <- issued :: l.aborted == (old(l.aborted) || l.mac == mac)
    {
      assert DeviceOk(mac);
      var device := devices[mac];
      if device.lease.Some? {
        device.lease.value.aborted := true;
      }
      devices := devices[mac := DeviceRoute(device.epoch + 1, None)];
      forall l <- issued
        ensures LeaseOk(l) && l.aborted == (old(l.aborted) || l.mac == mac)
      {
        assert old(LeaseOk(l));
      }
      forall m
        ensures DeviceOk(m)
      {
        assert old(DeviceOk(m));
      }
    }

    method BumpAll(changed: set<Mac>)
      requires Valid() && changed <= devices.Keys
      modifies this`devices, issued
      ensures Valid() && Bumped(old(devices), devices, changed)
      ensures forall l <- issued :: l.aborted == (old(l.aborted) || l.mac in changed)
    {
      var todo := changed;
      while todo != {}
        invariant todo <= changed && changed <= devices.Keys && Valid() && Bumped(old(devices), devices, changed - todo)
        invariant forall l <- issued :: l.aborted == (old(l.aborted) || l.mac in changed - todo)
        decreases |todo|
      {
        var mac :| mac in todo;
        ghost var before := devices;
        assert BumpedAt(old(devices), devices, changed - todo, mac);
        Bump(mac);
        BumpedStep(old(devices), before, devices, changed, todo, mac);
        todo := todo - {mac};
      }
      assert changed - todo == changed;
    }

    // All affected devices move together, in userspace and in the published
    // table; a failure that could restore the table moves nothing. Success that
    // is reported without a commit leaves the gate in place.
    method Change(changed: set<Mac>, f: Faults) returns (ok: bool)
      requires Valid()
      modifies this`devices, this`outer, issued
      ensures Valid() && ok == Succeeds(f)
      ensures Bumped(old(devices), devices, if ok then changed else {})
      ensures forall l <- issued :: l.aborted == (old(l.aborted) || (ok && l.mac in changed))
      ensures ok ==> if f.applied.committed then Synced() else Replaces(outer, old(devices), changed, true)
      ensures !ok && !Stuck(f) ==> outer == old(outer)
      ensures Stuck(f) ==> Replaces(outer, devices, changed, !f.applied.committed)
    {
      ghost var devices0 := devices;
      AddDevices(changed);
      Unbumped(devices0, devices);
      if f.lookup {
        return false;
      }
      var previous := outer;
      var gate := BuildTable(devices, changed, true, f.gate);
      if gate.None? {
        return false;
      }
      var next := BuildTable(devices, changed, false, f.next);
      if next.None? || f.swap {
        return false;
      }
      outer := if f.applied.committed then next.value else gate.value;
      if !f.applied.ok {
        if !f.restore {
          outer := previous;
        }
        return false;
      }
      Finish(changed, devices0);
      return true;
    }

    // Userspace follows what was published.
    method Finish(changed: set<Mac>, ghost devices0: Devices)
      requires Valid() && changed <= devices.Keys && Bumped(devices0, devices, {})
      modifies this`devices, issued
      ensures Valid() && Bumped(devices0, devices, changed)
      ensures forall l <- issued :: l.aborted == (old(l.aborted) || l.mac in changed)
      ensures old(Replaces(outer, devices, changed, false)) ==> Synced()
      ensures old(Replaces(outer, devices, changed, true)) ==> Replaces(outer, devices0, changed, true)
    {
      ghost var before := devices;
      BumpAll(changed);
      Committed(outer, devices0, before, devices, changed);
      Gated(outer, devices0, before, changed);
    }
  }

  // Exactly these devices are one epoch further, without a lease.
  predicate BumpedAt(a: Devices, b: Devices, changed: set<Mac>, mac: Mac) {
    DeviceAt(b, mac) == if mac in changed then DeviceRoute(DeviceAt(a, mac).epoch + 1, None) else DeviceAt(a, mac)
  }

  ghost predicate Bumped(a: Devices, b: Devices, changed: set<Mac>) {
    forall mac {:trigger BumpedAt(a, b, changed, mac)} :: BumpedAt(a, b, changed, mac)
  }

  lemma {:induction false} BumpedStep(a: Devices, b: Devices, b': Devices, changed: set<Mac>, todo: set<Mac>, mac: Mac)
    requires Bumped(a, b, changed - todo) && mac in todo && todo <= changed && mac in b
    requires b' == b[mac := DeviceRoute(b[mac].epoch + 1, None)]
    ensures Bumped(a, b', changed - (todo - {mac}))
  {
    var done := changed - (todo - {mac});
    forall m
      ensures BumpedAt(a, b', done, m)
    {
      assert BumpedAt(a, b, changed - todo, m);
    }
  }

  lemma {:induction false} Unbumped(a: Devices, b: Devices)
    requires forall mac :: DeviceAt(b, mac) == DeviceAt(a, mac)
    ensures Bumped(a, b, {})
  {
  }

  lemma {:induction false} Committed(table: Table, a: Devices, b: Devices, b': Devices, changed: set<Mac>)
    requires Bumped(a, b, {}) && Bumped(b, b', changed)
    ensures Bumped(a, b', changed) && (Replaces(table, b, changed, false) ==> Replaces(table, b', {}, false))
  {
    forall mac
      ensures BumpedAt(a, b', changed, mac) && (Replaces(table, b, changed, false)
                                                ==> StateAt(table, mac) == Replacement(b', {}, false, mac))
    {
      assert BumpedAt(a, b, {}, mac) && BumpedAt(b, b', changed, mac);
    }
  }

  lemma {:induction false} Gated(table: Table, a: Devices, b: Devices, changed: set<Mac>)
    requires Bumped(a, b, {})
    ensures Replaces(table, b, changed, true) ==> Replaces(table, a, changed, true)
  {
    if Replaces(table, b, changed, true) {
      forall mac
        ensures StateAt(table, mac) == Replacement(a, changed, true, mac)
      {
        assert BumpedAt(a, b, {}, mac);
      }
    }
  }

  // A table is right for all devices at the same epochs, or for none.
  lemma {:induction false} KeepEpochs(table: Table, a: Devices, b: Devices)
    requires forall mac :: DeviceAt(a, mac).epoch == DeviceAt(b, mac).epoch
    ensures Replaces(table, a, {}, false) <==> Replaces(table, b, {}, false)
  {
    forall mac
      ensures Replacement(a, {}, false, mac) == Replacement(b, {}, false, mac)
    {
      assert DeviceAt(a, mac).epoch == DeviceAt(b, mac).epoch;
    }
  }

  // ------ Whole runs ------

  datatype Step = AcquireStep(mac: Mac, epoch: nat) | ChangeStep(changed: set<Mac>, faults: Faults)

  // The caller commits before it reports success, and what was published can be
  // taken back.
  predicate Orderly(step: Step) {
    step.ChangeStep? ==> (Succeeds(step.faults) ==> step.faults.applied.committed) && !Stuck(step.faults)
  }

  // One of the change's own tables stays published.
  predicate Published(f: Faults) {
    Succeeds(f) || Stuck(f)
  }

  // Whether the table agrees with userspace after a step.
  predicate SyncedBy(synced: bool, step: Step) {
    match step
    case AcquireStep(_, _) => synced
    case ChangeStep(changed, f) =>
      if Published(f) then changed == {} || (Succeeds(f) && f.applied.committed) else synced
  }

  predicate SyncedAfter(synced: bool, steps: seq<Step>) {
    if steps == [] then synced else SyncedBy(SyncedAfter(synced, steps[..|steps| - 1]), steps[|steps| - 1])
  }

  lemma {:induction false} OrderlyStaySynced(steps: seq<Step>)
    requires forall s <- steps :: Orderly(s)
    ensures SyncedAfter(true, steps)
  {
    if steps != [] {
      assert steps[|steps| - 1] in steps;
      OrderlyStaySynced(steps[..|steps| - 1]);
    }
  }

  // A gate, or a table that ran ahead, is right only if it concerns no device.
  lemma {:induction false} WrongTable(table: Table, before: Devices, devices: Devices, changed: set<Mac>, ok: bool,
                                      updating: bool)
    requires Bumped(before, devices, if ok then changed else {}) && (ok ==> updating)
    requires Replaces(table, if ok then before else devices, changed, updating)
    ensures Replaces(table, devices, {}, false) <==> changed == {}
  {
    if changed == {} {
      KeepEpochsBumped(table, before, devices);
    } else {
      var mac :| mac in changed;
      assert BumpedAt(before, devices, if ok then changed else {}, mac);
      assert StateAt(table, mac) != Replacement(devices, {}, false, mac);
    }
  }

  lemma {:induction false} KeepEpochsBumped(table: Table, a: Devices, b: Devices)
    requires Bumped(a, b, {})
    ensures Replaces(table, a, {}, false) <==> Replaces(table, b, {}, false)
  {
    forall mac
      ensures DeviceAt(a, mac).epoch == DeviceAt(b, mac).epoch
    {
      assert BumpedAt(a, b, {}, mac);
    }
    KeepEpochs(table, a, b);
  }

  ghost predicate Advances(a: Devices, b: Devices) {
    forall mac {:trigger DeviceAt(b, mac)} :: DeviceAt(a, mac).epoch <= DeviceAt(b, mac).epoch
  }

  lemma {:induction false} BumpedAdvances(a: Devices, b: Devices, c: Devices, changed: set<Mac>)
    requires Advances(a, b) && Bumped(b, c, changed)
    ensures Advances(a, c)
  {
    forall mac
      ensures DeviceAt(a, mac).epoch <= DeviceAt(c, mac).epoch
    {
      assert BumpedAt(b, c, changed, mac) && DeviceAt(a, mac).epoch <= DeviceAt(b, mac).epoch;
    }
  }

  method Advance(d: DeviceRoutes, step: Step, ghost a: Devices)
    requires d.Valid() && Advances(a, d.devices)
    modifies d, d.issued
    ensures d.Valid() && Advances(a, d.devices) && fresh(d.issued - old(d.issued)) && old(d.issued) <= d.issued
    ensures d.Synced() <==> SyncedBy(old(d.Synced()), step)
  {
    match step {
      case AcquireStep(mac, epoch) => var _ := d.Acquire(mac, epoch);
      case ChangeStep(changed, f) =>
        ghost var before := d.devices;
        var ok := d.Change(changed, f);
        BumpedAdvances(a, before, d.devices, if ok then changed else {});
        if Published(f) && !(ok && f.applied.committed) {
          WrongTable(d.outer, before, d.devices, changed, ok, !f.applied.committed);
        } else if !ok {
          KeepEpochsBumped(d.outer, before, d.devices);
        }
    }
  }

  // Any run of admissions and changes. Epochs only grow, no lease is lost, and a
  // lease is live exactly as long as its device stays in the lease's epoch. The
  // table agrees with userspace exactly if the last change that left one of its
  // tables published was committed and successful, or concerned no device.
  method Run(d: DeviceRoutes, steps: seq<Step>)
    requires d.Valid()
    modifies d, d.issued
    ensures d.Valid() && Advances(old(d.devices), d.devices) && old(d.issued) <= d.issued
    ensures forall l <- d.issued :: l.aborted <==> l.epoch < DeviceAt(d.devices, l.mac).epoch
    ensures d.Synced() <==> SyncedAfter(old(d.Synced()), steps)
    ensures old(d.Synced()) && (forall s <- steps :: Orderly(s)) ==> d.Synced()
  {
    var i := 0;
    assert steps[..0] == [];
    while i < |steps|
      invariant 0 <= i <= |steps| && d.Valid() && Advances(old(d.devices), d.devices)
      invariant fresh(d.issued - old(d.issued)) && old(d.issued) <= d.issued
      invariant d.Synced() <==> SyncedAfter(old(d.Synced()), steps[..i])
    {
      Advance(d, steps[i], old(d.devices));
      assert steps[..i + 1][..i] == steps[..i];
      i := i + 1;
    }
    assert steps[..|steps|] == steps;
    if forall s <- steps :: Orderly(s) {
      OrderlyStaySynced(steps);
    }
    forall l <- d.issued
      ensures l.aborted <==> l.epoch < DeviceAt(d.devices, l.mac).epoch
    {
      assert d.LeaseOk(l);
    }
  }
}
