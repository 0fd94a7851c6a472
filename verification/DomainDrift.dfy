/** When the incremental choice of kernel entries agrees with choosing anew. */
module DomainDrift {
  import opened Common
  import opened DomainView
  import opened DomainEvidence

  type Table = map<Addr, Bitmaps>

  // What an operation knows about an address it did not report as changed: same
  // names, and a priority that only rose, with notice unless it is resident.
  ghost predicate DriftAt(v: View, w: View, changed: set<Addr>, reconsider: bool, resident: set<Addr>, ip: Addr) {
    ip !in changed ==>
      && SameNames(v, w, ip)
      && Priority(v, ip) <= Priority(w, ip)
      && (Priority(v, ip) < Priority(w, ip) && ip !in resident ==> reconsider)
  }

  ghost predicate Drift(v: View, w: View, changed: set<Addr>, reconsider: bool, resident: set<Addr>) {
    forall ip {:trigger DriftAt(v, w, changed, reconsider, resident, ip)} ::
      DriftAt(v, w, changed, reconsider, resident, ip)
  }

  lemma {:induction false} DriftNone(v: View, changed: set<Addr>, resident: set<Addr>)
    ensures Drift(v, v, changed, false, resident)
  {
  }

  // Chaining a step that touches one address only.
  lemma {:induction false} DriftTouch(v: View, w: View, w': View, changed: set<Addr>, reconsider: bool,
                                      resident: set<Addr>, ip: Addr, raised: bool)
    requires Drift(v, w, changed, reconsider, resident)
    requires forall other :: other != ip ==> SameNames(w, w', other) && Priority(w, other) == Priority(w', other)
    requires SameNames(w, w', ip)
    requires ip !in changed ==> Priority(w, ip) <= Priority(w', ip) && (Priority(w, ip) < Priority(w', ip) ==> raised)
    ensures Drift(v, w', changed, reconsider || (raised && ip !in resident), resident)
  {
    var now := reconsider || (raised && ip !in resident);
    forall a
      ensures DriftAt(v, w', changed, now, resident, a)
    {
      assert DriftAt(v, w, changed, reconsider, resident, a);
    }
  }

  // Chaining a step that reports the addresses it changes.
  lemma {:induction false} DriftChange(v: View, w: View, w': View, changed: set<Addr>, more: set<Addr>,
                                       reconsider: bool, resident: set<Addr>)
    requires Drift(v, w, changed, reconsider, resident)
    requires forall ip :: ip !in more ==> SameNames(w, w', ip) && Priority(w, ip) == Priority(w', ip)
    ensures Drift(v, w', changed + more, reconsider, resident)
  {
    var all := changed + more;
    forall a
      ensures DriftAt(v, w', all, reconsider, resident, a)
    {
      assert DriftAt(v, w, changed, reconsider, resident, a);
    }
  }

  // ------ The steps of the registry ------

  lemma {:induction false} PriorityGrows(v: View, w: View, ip: Addr)
    requires Coherent(v) && Coherent(w) && SameNames(v, w, ip)
    requires forall k: Key | k.ip == ip && k in v.deadlines :: k in w.deadlines && v.deadlines[k] <= w.deadlines[k]
    ensures Priority(v, ip) <= Priority(w, ip)
  {
    PriorityIsHighest(v, ip, 0);
    PriorityIsHighest(w, ip, 0);
    if Priority(v, ip) > 0 {
      var k :| k in v.deadlines && k.ip == ip && BitmapOf(v, k.name) != {} && v.deadlines[k] == Priority(v, ip);
      assert w.deadlines[k] in Relevant(w, ip);
    }
  }

  lemma {:induction false} TouchedElsewhere(v: View, e: ActivityKey, t: Time, ip: Addr)
    ensures var w := v.(deadlines := Touched(v.deadlines, e, t));
      SameNames(v, w, ip) && (ip != e.ip ==> Priority(v, ip) == Priority(w, ip))
  {
    var w := v.(deadlines := Touched(v.deadlines, e, t));
    if ip != e.ip {
      PriorityKept(v, w, ip);
    }
  }

  lemma {:induction false} DriftTouched(v: View, w: View, changed: set<Addr>, reconsider: bool, resident: set<Addr>,
                                        e: ActivityKey, t: Time, raised: bool)
    requires Drift(v, w, changed, reconsider, resident) && Coherent(w)
    requires var w' := w.(deadlines := Touched(w.deadlines, e, t));
      Coherent(w') && (e.ip !in changed ==> (raised <==> Priority(w, e.ip) < Priority(w', e.ip)))
    ensures Drift(v, w.(deadlines := Touched(w.deadlines, e, t)), changed, reconsider || (raised && e.ip !in resident),
                  resident)
  {
    var w' := w.(deadlines := Touched(w.deadlines, e, t));
    forall ip
      ensures SameNames(w, w', ip) && (ip != e.ip ==> Priority(w, ip) == Priority(w', ip))
    {
      TouchedElsewhere(w, e, t, ip);
    }
    PriorityGrows(w, w', e.ip);
    DriftTouch(v, w, w', changed, reconsider, resident, e.ip, raised);
  }

  lemma {:induction false} PairedElsewhere(v: View, k: Key, bitmap: Bitmap, t: Time, ip: Addr)
    requires Coherent(v) && (ip != k.ip || k in v.deadlines)
    ensures var w := Paired(v, k.name, bitmap, k.ip, t);
      SameNames(v, w, ip) && (ip != k.ip ==> Priority(v, ip) == Priority(w, ip))
  {
    var w := Paired(v, k.name, bitmap, k.ip, t);
    if ip != k.ip {
      PriorityKept(v, w, ip);
    }
  }

  lemma {:induction false} DriftPaired(v: View, w: View, changed: set<Addr>, reconsider: bool, resident: set<Addr>,
                                       k: Key, bitmap: Bitmap, t: Time, raised: bool)
    requires Drift(v, w, changed, reconsider, resident) && Coherent(w)
    requires var w' := Paired(w, k.name, bitmap, k.ip, t);
      Coherent(w') && (k in w.deadlines && k.ip !in changed ==> (raised <==> Priority(w, k.ip) < Priority(w', k.ip)))
    ensures var w' := Paired(w, k.name, bitmap, k.ip, t);
      if k in w.deadlines then Drift(v, w', changed, reconsider || (raised && k.ip !in resident), resident)
      else Drift(v, w', changed + {k.ip}, reconsider, resident)
  {
    var w' := Paired(w, k.name, bitmap, k.ip, t);
    forall ip | ip != k.ip || k in w.deadlines
      ensures SameNames(w, w', ip) && (ip != k.ip ==> Priority(w, ip) == Priority(w', ip))
    {
      PairedElsewhere(w, k, bitmap, t, ip);
    }
    if k in w.deadlines {
      PriorityGrows(w, w', k.ip);
      DriftTouch(v, w, w', changed, reconsider, resident, k.ip, raised);
    } else {
      DriftChange(v, w, w', changed, {k.ip}, reconsider, resident);
    }
  }

  lemma {:induction false} DriftCollected(v: View, w: View, w': View, gone: set<Addr>, reconsider: bool,
                                          resident: set<Addr>, cutoff: Time)
    requires Drift(v, w, {}, reconsider, resident) && Coherent(w)
    requires w' == Collected(w, cutoff) && gone == Expired(w.deadlines, cutoff)
    ensures Drift(v, w', gone, reconsider, resident)
  {
    forall ip | ip !in gone
      ensures SameNames(w, w', ip) && Priority(w, ip) == Priority(w', ip)
    {
      forall k: Key | k in w.deadlines && k.ip == ip
        ensures k in w'.deadlines && k.name in w'.bitmaps
      {
        assert w.deadlines[k] > cutoff;
        assert k in w'.deadlines;
      }
      PriorityKept(w, w', ip);
    }
    DriftChange(v, w, w', {}, gone, reconsider, resident);
    assert {} + gone == gone;
  }

  // The fast path: changed addresses are entered or dropped, all others kept.
  ghost function Patched(desired: Table, changed: set<Addr>, v: View): Table {
    map ip | ip in desired.Keys + changed && (ip in changed ==> ip in Candidates(v)) ::
      if ip in changed then Fold(v, ip) else desired[ip]
  }

  // The chosen entries are candidates with current folds.
  ghost predicate CurrentAt(v: View, desired: Table, ip: Addr) {
    ip in desired ==> ip in Candidates(v) && desired[ip] == Fold(v, ip)
  }

  ghost predicate Current(v: View, desired: Table) {
    forall ip {:trigger CurrentAt(v, desired, ip)} :: CurrentAt(v, desired, ip)
  }

  lemma {:induction false} PatchedIsCurrent(v: View, w: View, desired: Table, changed: set<Addr>, reconsider: bool,
                                            resident: set<Addr>)
    requires Current(v, desired) && Drift(v, w, changed, reconsider, resident)
    ensures Current(w, Patched(desired, changed, w))
  {
    var patched := Patched(desired, changed, w);
    forall ip
      ensures CurrentAt(w, patched, ip)
    {
      assert CurrentAt(v, desired, ip) && DriftAt(v, w, changed, reconsider, resident, ip);
      if ip !in changed {
        FoldKept(v, w, ip);
      }
    }
  }

  // Every resident candidate is among the chosen.
  ghost predicate Settled(v: View, desired: Table, resident: set<Addr>) {
    forall ip <- resident :: ip in Candidates(v) ==> ip in desired
  }

  lemma {:induction false} AllFit(v: View, w: View, max: nat, desired: Table, changed: set<Addr>, resident: set<Addr>)
    requires IsTop(v, max, desired.Keys) && Drift(v, w, changed, false, resident)
    requires |desired| + |changed| <= max && |desired| < max
    ensures Patched(desired, changed, w).Keys == Candidates(w) && |Candidates(w)| <= max
  {
    SubsetSize(desired.Keys, Candidates(v));
    forall ip
      ensures ip in Patched(desired, changed, w) <==> ip in Candidates(w)
    {
      assert DriftAt(v, w, changed, false, resident, ip);
      if ip !in changed {
        FoldKept(v, w, ip);
      }
    }
    SubsetSize(Candidates(w), desired.Keys + changed);
  }

  lemma {:induction false} StaysTop(v: View, w: View, max: nat, desired: Table, resident: set<Addr>)
    requires IsTop(v, max, desired.Keys) && Drift(v, w, {}, false, resident) && Settled(v, desired, resident)
    ensures IsTop(w, max, desired.Keys)
  {
    forall ip
      ensures ip in Candidates(v) <==> ip in Candidates(w)
    {
      assert DriftAt(v, w, {}, false, resident, ip);
      FoldKept(v, w, ip);
    }
    assert Candidates(v) == Candidates(w);
    forall a, b | a in desired.Keys && b in Candidates(w) - desired.Keys
      ensures Above(w, a, b)
    {
      assert Above(v, a, b) && DriftAt(v, w, {}, false, resident, a) && DriftAt(v, w, {}, false, resident, b);
    }
  }

  // Without notice of a priority and with room for every change, patching the
  // old choice is choosing anew.
  lemma {:induction false} FastIsExact(v: View, w: View, max: nat, desired: Table, changed: set<Addr>,
                                       resident: set<Addr>)
    requires Exact(v, max, desired) && Drift(v, w, changed, false, resident) && Settled(v, desired, resident)
    requires |desired| + |changed| <= max
    ensures Exact(w, max, Patched(desired, changed, w))
  {
    forall ip
      ensures CurrentAt(v, desired, ip)
    {
    }
    PatchedIsCurrent(v, w, desired, changed, false, resident);
    var patched := Patched(desired, changed, w);
    forall ip | ip in patched
      ensures patched[ip] == Fold(w, ip)
    {
      assert CurrentAt(w, patched, ip);
    }
    if |desired| < max {
      AllFit(v, w, max, desired, changed, resident);
    } else {
      NoChange(changed);
      assert patched.Keys == desired.Keys;
      StaysTop(v, w, max, desired, resident);
    }
  }

  lemma {:induction false} NoChange(changed: set<Addr>)
    requires |changed| <= 0
    ensures changed == {}
  {
  }

  // Nothing is the choice from nothing.
  lemma {:induction false} NothingIsExact(max: nat)
    ensures Exact(View(map[], map[]), max, map[]) && Settled(View(map[], map[]), map[], {})
  {
    assert Candidates(View(map[], map[])) == {};
  }

  // ------ Exactly when the notices suffice ------

  // A renewal that the registry does not reconsider.
  ghost predicate Unnoticed(v: View, k: Key, t: Time, resident: set<Addr>) {
    && k in v.deadlines && v.deadlines[k] < t
    && (Priority(v, k.ip) < Priority(Renewed(v, k, t), k.ip) ==> k.ip in resident)
  }

  lemma {:induction false} DriftRenewed(v: View, k: Key, t: Time, resident: set<Addr>)
    requires Coherent(v) && Unnoticed(v, k, t, resident)
    ensures Drift(v, Renewed(v, k, t), {}, false, resident)
  {
    RenewedPriority(v, k, t);
    var w := Renewed(v, k, t);
    forall ip
      ensures DriftAt(v, w, {}, false, resident, ip)
    {
      RenewedElsewhere(v, k, t, ip);
    }
  }

  lemma {:induction false} CurrentRenewed(v: View, k: Key, t: Time, desired: Table)
    requires k in v.deadlines && forall ip :: ip in desired ==> desired[ip] == Fold(v, ip)
    ensures forall ip :: ip in desired ==> desired[ip] == Fold(Renewed(v, k, t), ip)
  {
    forall ip | ip in desired
      ensures desired[ip] == Fold(Renewed(v, k, t), ip)
    {
      RenewedElsewhere(v, k, t, ip);
    }
  }

  lemma {:induction false} SettledSuffices(v: View, max: nat, desired: Table, resident: set<Addr>, k: Key, t: Time)
    requires Coherent(v) && Exact(v, max, desired) && Settled(v, desired, resident) && Unnoticed(v, k, t, resident)
    ensures Exact(Renewed(v, k, t), max, desired)
  {
    DriftRenewed(v, k, t, resident);
    StaysTop(v, Renewed(v, k, t), max, desired, resident);
    CurrentRenewed(v, k, t, desired);
  }

  // Past every priority there is.
  lemma {:induction false} Beyond(v: View, ips: set<Addr>) returns (t: Time)
    ensures 0 < t && forall ip <- ips :: Priority(v, ip) < t
    decreases ips
  {
    if ip :| ip in ips {
      t := Beyond(v, ips - {ip});
      t := if Priority(v, ip) < t then t else Priority(v, ip) + 1;
      assert forall other <- ips :: other == ip || other in ips - {ip};
    } else {
      t := 1;
    }
  }

  // A resident candidate that was not chosen can overtake the chosen unnoticed.
  lemma {:induction false} Overtakes(v: View, max: nat, desired: Table, resident: set<Addr>, ip: Addr)
    returns (k: Key, t: Time)
    requires Coherent(v) && Exact(v, max, desired) && |resident| <= max
    requires ip in resident && ip in Candidates(v) && ip !in desired
    ensures Unnoticed(v, k, t, resident) && !Exact(Renewed(v, k, t), max, desired)
  {
    k :| k in v.deadlines && BitmapOf(v, k.name) != {} && k.ip == ip;
    t := Beyond(v, desired.Keys + {ip});
    assert ip in desired.Keys + {ip};
    PriorityIsHighest(v, ip, 0);
    assert v.deadlines[k] in Relevant(v, ip);
    RenewedPriority(v, k, t);
    var w := Renewed(v, k, t);
    RenewedElsewhere(v, k, t, ip);
    FoldKept(v, w, ip);
    SubsetSize({ip}, resident);
    SubsetSize(desired.Keys, Candidates(v));
    assert |desired.Keys| > 0;
    var a :| a in desired.Keys;
    RenewedElsewhere(v, k, t, a);
    assert Priority(v, a) < t;
    assert !Above(w, a, ip);
  }

  // Unnoticed renewals keep the choice exact if and only if every resident
  // candidate is chosen.
  lemma {:induction false} NoticesSufficeIffSettled(v: View, max: nat, desired: Table, resident: set<Addr>)
    requires Coherent(v) && Exact(v, max, desired) && |resident| <= max
    ensures (forall k, t {:trigger Unnoticed(v, k, t, resident)} ::
      Unnoticed(v, k, t, resident)
      ==> Exact(Renewed(v, k, t), max, desired))
       <==> Settled(v, desired, resident)
  {
    if Settled(v, desired, resident) {
      forall k, t | Unnoticed(v, k, t, resident)
        ensures Exact(Renewed(v, k, t), max, desired)
      {
        SettledSuffices(v, max, desired, resident, k, t);
      }
    } else {
      var ip :| ip in resident && ip in Candidates(v) && ip !in desired;
      var k, t := Overtakes(v, max, desired, resident, ip);
    }
  }
}
