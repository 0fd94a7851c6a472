/** What every pair of a registry lives on: deadlines it had, activity that named
    it, and responses that contained it, each until its own time. */
module DomainAccount {
  import opened Common
  import opened DomainView
  import opened DomainEvidence

  // ------ Claims on a pair's lifetime ------

  // What the evidence and the queued activity give a pair that is known.
  ghost predicate OldClaim(d: map<Key, Time>, batch: Batch, window: nat, k: Key, t: Time) {
    k in d && (t == d[k] || exists e :: e in batch && Names(e, k) && t == batch[e] + window)
  }

  // Activity at the address, of this name or of any.
  predicate Names(e: ActivityKey, k: Key) {
    e == ActivityKey(k.ip, None) || e == ActivityKey(k.ip, Some(k.name))
  }

  // One of them reaches beyond the cutoff.
  ghost predicate Alive(d: map<Key, Time>, batch: Batch, window: nat, cutoff: Time, k: Key) {
    exists t :: OldClaim(d, batch, window, k, t) && t > cutoff
  }

  // An observation counts until its lifetime and the window have both passed.
  predicate Live(o: Observation, at: Time, window: nat, now: Time) {
    at + o.ttl * SECOND > now || at + window > now
  }

  // What the responses give a pair.
  ghost predicate NewClaim(os: seq<Observation>, at: Time, window: nat, now: Time, k: Key, t: Time) {
    exists i :: 0 <= i < |os| && os[i].name == k.name && k.ip in os[i].ips && Live(os[i], at, window, now)
      && (t == at + os[i].ttl * SECOND || t == at + window)
  }

  ghost predicate Claim(d: map<Key, Time>, batch: Batch, os: seq<Observation>, at: Time, window: nat, now: Time,
                        cutoff: Time, k: Key, t: Time)
  {
    || (Alive(d, batch, window, cutoff, k) && OldClaim(d, batch, window, k, t))
    || NewClaim(os, at, window, now, k, t)
  }

  // A pair is known exactly if something claims it, until the latest claim.
  ghost predicate AccountedAt(d: map<Key, Time>, batch: Batch, os: seq<Observation>, at: Time, window: nat, now: Time,
                              cutoff: Time, after: map<Key, Time>, k: Key)
  {
    && (k in after <==> exists t :: Claim(d, batch, os, at, window, now, cutoff, k, t))
    && (k in after ==>
          && Claim(d, batch, os, at, window, now, cutoff, k, after[k])
          && forall t :: Claim(d, batch, os, at, window, now, cutoff, k, t) ==> t <= after[k])
  }

  ghost predicate Accounted(d: map<Key, Time>, batch: Batch, os: seq<Observation>, at: Time, window: nat, now: Time,
                            cutoff: Time, after: map<Key, Time>)
  {
    forall k: Key :: AccountedAt(d, batch, os, at, window, now, cutoff, after, k)
  }

  // The latest time seen.
  ghost predicate IsNow(before: Time, batch: Batch, at: Time, now: Time) {
    && before <= now && at <= now && (forall e :: e in batch ==> batch[e] <= now)
    && (now == before || now == at || exists e :: e in batch && batch[e] == now)
  }

  // ------ Bitmaps ------

  predicate Counts(o: Observation, at: Time, window: nat, now: Time, name: string) {
    o.name == name && o.ips != [] && Live(o, at, window, now)
  }

  ghost predicate FirstCounting(os: seq<Observation>, at: Time, window: nat, now: Time, name: string, i: nat) {
    && i < |os| && Counts(os[i], at, window, now, name)
    && forall j :: 0 <= j < i ==> !Counts(os[j], at, window, now, name)
  }

  ghost predicate NameAlive(d: map<Key, Time>, batch: Batch, window: nat, cutoff: Time, name: string) {
    exists ip :: Alive(d, batch, window, cutoff, Key(name, ip))
  }

  // A name that stays known keeps its bitmap; a new one gets that of the first
  // observation that counts.
  ghost predicate NamedAt(v: View, batch: Batch, os: seq<Observation>, at: Time, window: nat, now: Time, cutoff: Time,
                          bitmaps: map<string, Bitmap>, name: string)
  {
    if NameAlive(v.deadlines, batch, window, cutoff, name) then
      name in v.bitmaps && name in bitmaps && bitmaps[name] == v.bitmaps[name]
    else
      && (name in bitmaps <==> exists i: nat :: FirstCounting(os, at, window, now, name, i))
      && forall i: nat :: FirstCounting(os, at, window, now, name, i) ==>
           name in bitmaps && bitmaps[name] == os[i].bitmap
  }

  ghost predicate Named(v: View, batch: Batch, os: seq<Observation>, at: Time, window: nat, now: Time, cutoff: Time,
                        bitmaps: map<string, Bitmap>)
  {
    forall name: string :: NamedAt(v, batch, os, at, window, now, cutoff, bitmaps, name)
  }

  // What an operation at some time makes of the evidence.
  ghost predicate Explained(s: Evidence, batch: Batch, os: seq<Observation>, at: Time, window: nat, lag: nat,
                            r: Evidence)
  {
    && IsNow(s.evaluatedAt, batch, at, r.evaluatedAt)
    && Accounted(s.view.deadlines, batch, os, at, window, r.evaluatedAt, r.evaluatedAt - lag, r.view.deadlines)
    && Named(s.view, batch, os, at, window, r.evaluatedAt, r.evaluatedAt - lag, r.view.bitmaps)
  }

  // ------ Activity ------

  lemma {:induction false} ExtendedIsLatest(d: map<Key, Time>, batch: Batch, window: nat, k: Key)
    requires k in d
    ensures var m := Extended(batch, window, k, d[k]);
      OldClaim(d, batch, window, k, m) && forall t :: OldClaim(d, batch, window, k, t) ==> t <= m
  {
    var any, one := ActivityKey(k.ip, None), ActivityKey(k.ip, Some(k.name));
    assert any in batch ==> Names(any, k);
    assert one in batch ==> Names(one, k);
  }

  // After activity and collection.
  lemma {:induction false} Gathered(v: View, batch: Batch, window: nat, cutoff: Time, k: Key)
    ensures var after := Collected(v.(deadlines := Drained(v.deadlines, batch, window)), cutoff).deadlines;
      && (k in after <==> Alive(v.deadlines, batch, window, cutoff, k))
      && (k in after ==>
            && OldClaim(v.deadlines, batch, window, k, after[k])
            && forall t :: OldClaim(v.deadlines, batch, window, k, t) ==> t <= after[k])
  {
    if k in v.deadlines {
      ExtendedIsLatest(v.deadlines, batch, window, k);
    }
  }

  // ------ Responses ------

  lemma {:induction false} PairedAllIs(v: View, name: string, bitmap: Bitmap, ips: seq<Addr>, deadline: Time, k: Key)
    ensures var after := PairedAll(v, name, bitmap, ips, deadline).deadlines;
      && (k in after <==> k in v.deadlines || (k.name == name && k.ip in ips))
      && (k in after ==>
            after[k] == if !(k.name == name && k.ip in ips) then v.deadlines[k]
                        else if k in v.deadlines && deadline < v.deadlines[k] then v.deadlines[k] else deadline)
  {
    if ips != [] {
      var front, last := ips[..|ips| - 1], ips[|ips| - 1];
      assert ips == front + [last];
      PairedAllIs(v, name, bitmap, front, deadline, k);
    }
  }

  // The latest of what was known and what the responses claim.
  ghost predicate Merged(base: map<Key, Time>, os: seq<Observation>, at: Time, window: nat, now: Time,
                         after: map<Key, Time>, k: Key)
  {
    && (k in after <==> k in base || exists t :: NewClaim(os, at, window, now, k, t))
    && (k in after ==>
          && ((k in base && after[k] == base[k]) || NewClaim(os, at, window, now, k, after[k]))
          && (k in base ==> base[k] <= after[k])
          && forall t :: NewClaim(os, at, window, now, k, t) ==> t <= after[k])
  }

  lemma {:induction false} ClaimsGrow(os: seq<Observation>, o: Observation, at: Time, window: nat, now: Time, k: Key,
                                      t: Time)
    ensures NewClaim(os + [o], at, window, now, k, t) <==>
      || NewClaim(os, at, window, now, k, t)
      || (o.name == k.name && k.ip in o.ips && Live(o, at, window, now)
          && (t == at + o.ttl * SECOND || t == at + window))
  {
    var more := os + [o];
    if NewClaim(os, at, window, now, k, t) {
      var i :| 0 <= i < |os| && os[i].name == k.name && k.ip in os[i].ips && Live(os[i], at, window, now)
        && (t == at + os[i].ttl * SECOND || t == at + window);
      assert more[i] == os[i];
    }
    assert more[|os|] == o;
  }

  lemma {:induction false} ObservedIsMerged(v: View, os: seq<Observation>, at: Time, window: nat, now: Time, k: Key)
    ensures Merged(v.deadlines, os, at, window, now, ObservedAll(v, os, at, now, window).deadlines, k)
  {
    if os != [] {
      var front, o := os[..|os| - 1], os[|os| - 1];
      assert os == front + [o];
      ObservedIsMerged(v, front, at, window, now, k);
      MergedNext(v, front, o, at, window, now, k);
    }
  }

  lemma {:induction false} MergedNext(v: View, os: seq<Observation>, o: Observation, at: Time, window: nat, now: Time,
                                      k: Key)
    requires Merged(v.deadlines, os, at, window, now, ObservedAll(v, os, at, now, window).deadlines, k)
    ensures var w := Observed(ObservedAll(v, os, at, now, window), o, at, now, window);
      Merged(v.deadlines, os + [o], at, window, now, w.deadlines, k)
  {
    var w := ObservedAll(v, os, at, now, window);
    var deadline := Deadline(o, at, window);
    forall t
      ensures NewClaim(os + [o], at, window, now, k, t) <==>
        || NewClaim(os, at, window, now, k, t)
        || (o.name == k.name && k.ip in o.ips && deadline > now && (t == at + o.ttl * SECOND || t == at + window))
    {
      ClaimsGrow(os, o, at, window, now, k, t);
    }
    PairedAllIs(w, o.name, o.bitmap, o.ips, deadline, k);
    if o.name == k.name && k.ip in o.ips && deadline > now {
      assert NewClaim(os + [o], at, window, now, k, deadline);
    }
  }

  lemma {:induction false} PairedBitmaps(v: View, name: string, bitmap: Bitmap, ips: seq<Addr>, deadline: Time,
                                         n: string)
    ensures var after := PairedAll(v, name, bitmap, ips, deadline).bitmaps;
      && (n in after <==> n in v.bitmaps || (n == name && ips != []))
      && (n in after ==> after[n] == if n in v.bitmaps then v.bitmaps[n] else bitmap)
  {
    if ips != [] {
      PairedBitmaps(v, name, bitmap, ips[..|ips| - 1], deadline, n);
    }
  }

  lemma {:induction false} ObservedBitmaps(v: View, os: seq<Observation>, at: Time, window: nat, now: Time, n: string)
    ensures var after := ObservedAll(v, os, at, now, window).bitmaps;
      && (n in v.bitmaps ==> n in after && after[n] == v.bitmaps[n])
      && (n !in v.bitmaps ==>
            && (n in after <==> exists i: nat :: FirstCounting(os, at, window, now, n, i))
            && forall i: nat :: FirstCounting(os, at, window, now, n, i) ==> n in after && after[n] == os[i].bitmap)
  {
    if os != [] {
      var front, o := os[..|os| - 1], os[|os| - 1];
      assert os == front + [o];
      ObservedBitmaps(v, front, at, window, now, n);
      var w := ObservedAll(v, front, at, now, window);
      PairedBitmaps(w, o.name, o.bitmap, o.ips, Deadline(o, at, window), n);
      CountingNext(front, o, at, window, now, n);
    }
  }

  lemma {:induction false} CountingNext(os: seq<Observation>, o: Observation, at: Time, window: nat, now: Time,
                                        n: string)
    ensures forall i: nat | i < |os| ::
      FirstCounting(os + [o], at, window, now, n, i) <==> FirstCounting(os, at, window, now, n, i)
    ensures FirstCounting(os + [o], at, window, now, n, |os|) <==>
      Counts(o, at, window, now, n) && forall i: nat :: !FirstCounting(os, at, window, now, n, i)
  {
    var more := os + [o];
    forall i: nat | i < |os|
      ensures more[i] == os[i]
    {
    }
    if forall i: nat :: !FirstCounting(os, at, window, now, n, i) {
      NoneCounts(os, at, window, now, n, |os|);
    }
  }

  lemma {:induction false} NoneCounts(os: seq<Observation>, at: Time, window: nat, now: Time, n: string, m: nat)
    requires m <= |os| && forall i: nat :: !FirstCounting(os, at, window, now, n, i)
    ensures forall j :: 0 <= j < m ==> !Counts(os[j], at, window, now, n)
  {
    if m > 0 {
      NoneCounts(os, at, window, now, n, m - 1);
      assert !FirstCounting(os, at, window, now, n, m - 1);
    }
  }

  // ------ Whole operations ------

  lemma {:induction false} Explains(v: View, batch: Batch, os: seq<Observation>, at: Time, window: nat, now: Time,
                                    cutoff: Time, k: Key)
    ensures var ready := Collected(v.(deadlines := Drained(v.deadlines, batch, window)), cutoff);
      AccountedAt(v.deadlines, batch, os, at, window, now, cutoff, ObservedAll(ready, os, at, now, window).deadlines, k)
  {
    var ready := Collected(v.(deadlines := Drained(v.deadlines, batch, window)), cutoff);
    Gathered(v, batch, window, cutoff, k);
    ObservedIsMerged(ready, os, at, window, now, k);
    var after := ObservedAll(ready, os, at, now, window).deadlines;
    if k in after {
      assert Claim(v.deadlines, batch, os, at, window, now, cutoff, k, after[k]);
    }
  }

  lemma {:induction false} ExplainsName(v: View, batch: Batch, os: seq<Observation>, at: Time, window: nat, now: Time,
                                        cutoff: Time, name: string)
    requires Coherent(v)
    ensures var ready := Collected(v.(deadlines := Drained(v.deadlines, batch, window)), cutoff);
      NamedAt(v, batch, os, at, window, now, cutoff, ObservedAll(ready, os, at, now, window).bitmaps, name)
  {
    var ready := Collected(v.(deadlines := Drained(v.deadlines, batch, window)), cutoff);
    ObservedBitmaps(ready, os, at, window, now, name);
    if NameAlive(v.deadlines, batch, window, cutoff, name) {
      var ip :| Alive(v.deadlines, batch, window, cutoff, Key(name, ip));
      Gathered(v, batch, window, cutoff, Key(name, ip));
      assert Used(ready.deadlines, name);
    } else if Used(ready.deadlines, name) {
      var k :| k in ready.deadlines && k.name == name;
      Gathered(v, batch, window, cutoff, k);
    }
  }

  // Every response leaves exactly the pairs that something claims.
  lemma {:induction false} ObserveExplained(s: Evidence, batch: Batch, os: seq<Observation>, at: Time, window: nat,
                                            lag: nat)
    requires Coherent(s.view)
    ensures Explained(s, batch, os, at, window, lag, Observe(s, batch, os, at, window, lag))
  {
    var r := Observe(s, batch, os, at, window, lag);
    var now, cutoff := r.evaluatedAt, r.evaluatedAt - lag;
    forall k: Key
      ensures AccountedAt(s.view.deadlines, batch, os, at, window, now, cutoff, r.view.deadlines, k)
    {
      Explains(s.view, batch, os, at, window, now, cutoff, k);
    }
    forall name: string
      ensures NamedAt(s.view, batch, os, at, window, now, cutoff, r.view.bitmaps, name)
    {
      ExplainsName(s.view, batch, os, at, window, now, cutoff, name);
    }
  }

  lemma {:induction false} SweepExplained(s: Evidence, batch: Batch, now: Time, window: nat, lag: nat)
    requires Coherent(s.view)
    ensures Explained(s, batch, [], now, window, lag, Sweep(s, batch, now, window, lag))
  {
    ObserveExplained(s, batch, [], now, window, lag);
  }

  lemma {:induction false} FlushExplained(s: Evidence, batch: Batch, window: nat, lag: nat)
    requires Coherent(s.view)
    ensures Explained(s, batch, [], s.evaluatedAt, window, lag, Flush(s, batch, window, lag))
  {
    SweepExplained(s, batch, s.evaluatedAt, window, lag);
  }

  // A successor knows what a sweep would leave, under the bitmaps of its matcher.
  ghost predicate Inherited(s: Evidence, f: Matcher, queued: Batch, now: Time, window: nat, lag: nat, r: Evidence) {
    && IsNow(s.evaluatedAt, queued, now, r.evaluatedAt)
    && Accounted(s.view.deadlines, queued, [], now, window, r.evaluatedAt, r.evaluatedAt - lag, r.view.deadlines)
    && (forall name :: name in r.view.bitmaps <==> Used(r.view.deadlines, name))
    && (forall name :: name in r.view.bitmaps ==> r.view.bitmaps[name] == f(name))
  }

  lemma {:induction false} ForkInherits(s: Evidence, f: Matcher, queued: Batch, now: Time, window: nat, lag: nat)
    requires Coherent(s.view)
    ensures Inherited(s, f, queued, now, window, lag, Fork(s, f, queued, now, window, lag))
  {
    var rebased := Evidence(Rebased(s.view, f), s.evaluatedAt);
    SweepExplained(rebased, queued, now, window, lag);
  }
}
