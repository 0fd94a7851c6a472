/** What each registry operation does to the evidence, as functions of it. */
module DomainEvidence {
  import opened Common
  import opened DomainView

  // Activity names one domain of an address, or all of them.
  datatype ActivityKey = ActivityKey(ip: Addr, domain: Option<string>)

  // Coalesced activity: the latest time per key.
  type Batch = map<ActivityKey, Time>

  predicate Concerns(e: ActivityKey, k: Key) {
    e.ip == k.ip && (e.domain.None? || e.domain.value == k.name)
  }

  // One more event for the same registry.
  function Enqueued(batch: Batch, e: ActivityKey, at: Time): Batch {
    if at > (if e in batch then batch[e] else 0) then batch[e := at] else batch
  }

  function Later(a: Time, b: Time): Time {
    if a < b then b else a
  }

  // Activity extends deadlines and never creates evidence.
  function Touched(deadlines: map<Key, Time>, e: ActivityKey, deadline: Time): map<Key, Time> {
    map k | k in deadlines :: if Concerns(e, k) then Later(deadlines[k], deadline) else deadlines[k]
  }

  // Only some names of the address.
  function TouchedNames(deadlines: map<Key, Time>, ip: Addr, names: set<string>, deadline: Time): map<Key, Time> {
    map k | k in deadlines :: if k.ip == ip && k.name in names then Later(deadlines[k], deadline) else deadlines[k]
  }

  lemma {:induction false} TouchedOne(v: View, ip: Addr, names: set<string>, name: string, deadline: Time)
    requires Key(name, ip) in v.deadlines && name !in names
    ensures var w := v.(deadlines := TouchedNames(v.deadlines, ip, names, deadline));
      && Key(name, ip) in w.deadlines
      && v.(deadlines := TouchedNames(v.deadlines, ip, names + {name}, deadline))
      == Renewed(w, Key(name, ip), Later(w.deadlines[Key(name, ip)], deadline))
  {
  }

  lemma {:induction false} TouchedIs(v: View, e: ActivityKey, names: set<string>, deadline: Time)
    requires forall k: Key :: k in v.deadlines && k.ip == e.ip ==> (k.name in names <==> Concerns(e, k))
    ensures Touched(v.deadlines, e, deadline) == TouchedNames(v.deadlines, e.ip, names, deadline)
  {
  }

  function Reached(batch: Batch, e: ActivityKey, window: nat, t: Time): Time {
    if e in batch then Later(t, batch[e] + window) else t
  }

  function Extended(batch: Batch, window: nat, k: Key, t: Time): Time {
    Reached(batch, ActivityKey(k.ip, None), window, Reached(batch, ActivityKey(k.ip, Some(k.name)), window, t))
  }

  // A whole batch at once, in whatever order its events are applied.
  function Drained(deadlines: map<Key, Time>, batch: Batch, window: nat): map<Key, Time> {
    map k | k in deadlines :: Extended(batch, window, k, deadlines[k])
  }

  lemma {:induction false} ExtendedStep(batch: Batch, window: nat, k: Key, t: Time, e: ActivityKey, at: Time)
    requires e !in batch
    ensures Extended(batch[e := at], window, k, t)
         == if Concerns(e, k) then Later(Extended(batch, window, k, t), at + window) else Extended(batch, window, k, t)
  {
    if Concerns(e, k) {
      assert e == ActivityKey(k.ip, None) || e == ActivityKey(k.ip, Some(k.name));
    }
  }

  lemma {:induction false} DrainedStep(deadlines: map<Key, Time>, batch: Batch, window: nat, e: ActivityKey, at: Time)
    requires e !in batch
    ensures Drained(deadlines, batch[e := at], window) == Touched(Drained(deadlines, batch, window), e, at + window)
  {
    forall k | k in deadlines
      ensures Drained(deadlines, batch[e := at], window)[k]
        == Touched(Drained(deadlines, batch, window), e, at + window)[k]
    {
      ExtendedStep(batch, window, k, deadlines[k], e, at);
    }
  }

  lemma {:induction false} DrainedNothing(deadlines: map<Key, Time>, window: nat)
    ensures Drained(deadlines, map[], window) == deadlines
  {
  }

  // The clock after a batch: the latest time seen.
  ghost predicate IsClock(t: Time, batch: Batch, m: Time) {
    && t <= m
    && (forall e :: e in batch ==> batch[e] <= m)
    && (m == t || exists e :: e in batch && batch[e] == m)
  }

  lemma {:induction false} HasClock(t: Time, batch: Batch) returns (m: Time)
    ensures IsClock(t, batch, m)
    decreases |batch|
  {
    if e :| e in batch {
      m := HasClock(t, batch - {e});
      m := Later(m, batch[e]);
      assert forall f :: f in batch ==> f == e || f in batch - {e};
      if m != t && m != batch[e] {
        var f :| f in batch - {e} && (batch - {e})[f] == m;
        assert f in batch && batch[f] == m;
      }
    } else {
      m := t;
    }
  }

  lemma {:induction false} ClockExists(t: Time, batch: Batch)
    ensures exists m :: IsClock(t, batch, m)
  {
    var _ := HasClock(t, batch);
  }

  ghost function Clocked(t: Time, batch: Batch): (m: Time)
    ensures IsClock(t, batch, m)
  {
    ClockExists(t, batch);
    var m :| IsClock(t, batch, m);
    m
  }

  lemma {:induction false} ClockIs(t: Time, batch: Batch, m: Time)
    requires IsClock(t, batch, m)
    ensures m == Clocked(t, batch)
  {
  }

  lemma {:induction false} DrainNothing(s: Evidence, window: nat)
    ensures Drain(s, map[], window) == s
  {
    DrainedNothing(s.view.deadlines, window);
    ClockIs(s.evaluatedAt, map[], s.evaluatedAt);
  }

  // Pairs whose deadline is past the cutoff stay; names without pairs go.
  ghost function Collected(v: View, cutoff: Time): View {
    var deadlines := map k | k in v.deadlines && v.deadlines[k] > cutoff :: v.deadlines[k];
    View(deadlines, map name | name in v.bitmaps && Used(deadlines, name) :: v.bitmaps[name])
  }

  // Addresses that lose a name.
  function Expired(d: map<Key, Time>, cutoff: Time): set<Addr> {
    set k | k in d && d[k] <= cutoff :: k.ip
  }

  // A scan of some addresses of one name.
  function Scanned(d: map<Key, Time>, name: string, ips: set<Addr>, cutoff: Time): map<Key, Time> {
    map k | k in d && !(k.name == name && k.ip in ips && d[k] <= cutoff) :: d[k]
  }

  function ExpiredIn(d: map<Key, Time>, name: string, ips: set<Addr>, cutoff: Time): set<Addr> {
    set ip | ip in ips && Key(name, ip) in d && d[Key(name, ip)] <= cutoff
  }

  lemma {:induction false} ScannedNone(d: map<Key, Time>, name: string, cutoff: Time)
    ensures Scanned(d, name, {}, cutoff) == d && ExpiredIn(d, name, {}, cutoff) == {}
  {
  }

  lemma {:induction false} ScannedStep(d: map<Key, Time>, name: string, ips: set<Addr>, ip: Addr, cutoff: Time)
    requires Key(name, ip) in d && ip !in ips
    ensures var k := Key(name, ip);
      && k in Scanned(d, name, ips, cutoff) && Scanned(d, name, ips, cutoff)[k] == d[k]
      && Scanned(d, name, ips + {ip}, cutoff) == (if d[k] <= cutoff then Scanned(d, name, ips, cutoff) - {k}
                                                  else Scanned(d, name, ips, cutoff))
      && ExpiredIn(d, name, ips + {ip}, cutoff)
        == (if d[k] <= cutoff then ExpiredIn(d, name, ips, cutoff) + {ip} else ExpiredIn(d, name, ips, cutoff))
  {
  }

  // Names still to be scanned keep all their pairs.
  ghost function CollectedBut(v: View, todo: set<string>, cutoff: Time): View {
    var deadlines := map k | k in v.deadlines && (k.name in todo || v.deadlines[k] > cutoff) :: v.deadlines[k];
    View(deadlines, map name | name in v.bitmaps && (name in todo || Used(deadlines, name)) :: v.bitmaps[name])
  }

  ghost function ExpiredBut(d: map<Key, Time>, todo: set<string>, cutoff: Time): set<Addr> {
    set k | k in d && k.name !in todo && d[k] <= cutoff :: k.ip
  }

  // w after the scan of one more name.
  lemma {:induction false} CollectedStep(v: View, todo: set<string>, name: string, cutoff: Time, ips: set<Addr>,
                                         w: View)
    requires name in todo
    requires forall k: Key :: k in v.deadlines && k.name == name ==> k.ip in ips
    requires w.deadlines == Scanned(CollectedBut(v, todo, cutoff).deadlines, name, ips, cutoff)
    requires w.bitmaps == if Used(w.deadlines, name) then CollectedBut(v, todo, cutoff).bitmaps
      else CollectedBut(v, todo, cutoff).bitmaps - {name}
    ensures w == CollectedBut(v, todo - {name}, cutoff)
  {
    var a, b := CollectedBut(v, todo, cutoff), CollectedBut(v, todo - {name}, cutoff);
    assert w.deadlines == b.deadlines;
    forall n
      ensures n in w.bitmaps <==> n in b.bitmaps
    {
      if n != name && Used(a.deadlines, n) {
        var k :| k in a.deadlines && k.name == n;
        assert k in w.deadlines;
      }
      if n != name && Used(w.deadlines, n) {
        var k :| k in w.deadlines && k.name == n;
        assert k in a.deadlines;
      }
    }
    assert w.bitmaps == b.bitmaps;
  }

  lemma {:induction false} ExpiredStep(d: map<Key, Time>, todo: set<string>, name: string, cutoff: Time, ips: set<Addr>)
    requires name in todo && forall k: Key :: k in d && k.name == name ==> k.ip in ips
    ensures ExpiredBut(d, todo - {name}, cutoff) == ExpiredBut(d, todo, cutoff) + ExpiredIn(d, name, ips, cutoff)
  {
  }

  lemma {:induction false} CollectedEnds(v: View, cutoff: Time)
    requires Lean(v)
    ensures Coherent(v) ==> CollectedBut(v, v.bitmaps.Keys, cutoff) == v
    ensures CollectedBut(v, {}, cutoff) == Collected(v, cutoff)
      && ExpiredBut(v.deadlines, {}, cutoff) == Expired(v.deadlines, cutoff)
    ensures Coherent(v) ==> ExpiredBut(v.deadlines, v.bitmaps.Keys, cutoff) == {}
    ensures Lean(Collected(v, cutoff))
  {
  }

  // Nothing to collect: the scan would change nothing.
  lemma {:induction false} CollectedNothing(v: View, cutoff: Time)
    requires Lean(v) && forall k :: k in v.deadlines ==> v.deadlines[k] > cutoff
    ensures Collected(v, cutoff) == v && Expired(v.deadlines, cutoff) == {}
  {
    assert Collected(v, cutoff).deadlines == v.deadlines;
  }

  // One address of one observation. A known name keeps its bitmap.
  function Paired(v: View, name: string, bitmap: Bitmap, ip: Addr, deadline: Time): View {
    var k := Key(name, ip);
    View(v.deadlines[k := if k in v.deadlines then Later(v.deadlines[k], deadline) else deadline],
         v.bitmaps[name := if name in v.bitmaps then v.bitmaps[name] else bitmap])
  }

  function PairedAll(v: View, name: string, bitmap: Bitmap, ips: seq<Addr>, deadline: Time): View {
    if ips == [] then v
    else Paired(PairedAll(v, name, bitmap, ips[..|ips| - 1], deadline), name, bitmap, ips[|ips| - 1], deadline)
  }

  datatype Observation = Observation(name: string, ips: seq<Addr>, bitmap: Bitmap, ttl: int)

  function Deadline(o: Observation, at: Time, window: nat): Time {
    at + (if o.ttl * SECOND > window then o.ttl * SECOND else window)
  }

  // A delayed observation keeps its own time and is dropped once that is past.
  function Observed(v: View, o: Observation, at: Time, now: Time, window: nat): View {
    if Deadline(o, at, window) <= now then v else PairedAll(v, o.name, o.bitmap, o.ips, Deadline(o, at, window))
  }

  function ObservedAll(v: View, os: seq<Observation>, at: Time, now: Time, window: nat): View {
    if os == [] then v
    else Observed(ObservedAll(v, os[..|os| - 1], at, now, window), os[|os| - 1], at, now, window)
  }

  datatype Evidence = Evidence(view: View, evaluatedAt: Time)

  ghost function Drain(s: Evidence, batch: Batch, window: nat): Evidence {
    Evidence(s.view.(deadlines := Drained(s.view.deadlines, batch, window)), Clocked(s.evaluatedAt, batch))
  }

  function Tick(s: Evidence, now: Time): Evidence {
    s.(evaluatedAt := Later(s.evaluatedAt, now))
  }

  ghost function Gc(s: Evidence, lag: nat): Evidence {
    s.(view := Collected(s.view, s.evaluatedAt - lag))
  }

  ghost function Flush(s: Evidence, batch: Batch, window: nat, lag: nat): Evidence {
    Gc(Drain(s, batch, window), lag)
  }

  ghost function Sweep(s: Evidence, batch: Batch, now: Time, window: nat, lag: nat): Evidence {
    Gc(Tick(Drain(s, batch, window), now), lag)
  }

  ghost function Observe(s: Evidence, batch: Batch, os: seq<Observation>, at: Time, window: nat, lag: nat): Evidence {
    var ready := Gc(Tick(Drain(s, batch, window), at), lag);
    ready.(view := ObservedAll(ready.view, os, at, ready.evaluatedAt, window))
  }

  // One pair without a lifetime of its own arrives before anything comes due.
  lemma {:induction false} ObserveOne(s: Evidence, name: string, ip: Addr, bitmap: Bitmap, at: Time, window: nat)
    requires Lean(s.view) && s.evaluatedAt <= at && 0 < window && forall k ::
      k in s.view.deadlines
      ==> s.view.deadlines[k] > at
    ensures Observe(s, map[], [Observation(name, [ip], bitmap, 0)], at, window, 0)
         == Evidence(Paired(s.view, name, bitmap, ip, at + window), at)
    ensures Expired(s.view.deadlines, at) == {}
  {
    DrainNothing(s, window);
    CollectedNothing(s.view, at);
    var o, deadline := Observation(name, [ip], bitmap, 0), at + window;
    assert [o][..0] == [] && [ip][..0] == [];
    assert PairedAll(s.view, name, bitmap, [ip], deadline)
        == Paired(PairedAll(s.view, name, bitmap, [], deadline), name, bitmap, ip, deadline);
    assert ObservedAll(s.view, [o], at, at, window)
      == Observed(ObservedAll(s.view, [], at, at, window), o, at, at, window);
  }

  // ------ Handing evidence to another matcher ------

  type Matcher = string -> Bitmap

  // The same pairs under the bitmaps of another matcher.
  ghost function Rebased(v: View, f: Matcher): View {
    View(v.deadlines, map name | name in v.bitmaps :: f(name))
  }

  // A copy of some of the pairs.
  ghost function Copied(v: View, done: set<Key>, f: Matcher): View {
    View(map k | k in v.deadlines && k in done :: v.deadlines[k],
         map name | name in v.bitmaps && UsedIn(v, done, name) :: f(name))
  }

  ghost predicate UsedIn(v: View, done: set<Key>, name: string) {
    exists k :: k in done && k in v.deadlines && k.name == name
  }

  lemma {:induction false} CopiedNone(v: View, f: Matcher)
    ensures Copied(v, {}, f) == View(map[], map[])
  {
  }

  lemma {:induction false} CopiedAll(v: View, f: Matcher)
    requires Lean(v)
    ensures Copied(v, v.deadlines.Keys, f) == Rebased(v, f)
  {
    forall name | name in v.bitmaps
      ensures UsedIn(v, v.deadlines.Keys, name)
    {
      assert Used(v.deadlines, name);
      var k :| k in v.deadlines && k.name == name;
      assert k in v.deadlines.Keys;
    }
  }

  lemma {:induction false} CopiedStep(v: View, done: set<Key>, k: Key, f: Matcher)
    requires Coherent(v) && k in v.deadlines && k !in done
    ensures Paired(Copied(v, done, f), k.name, f(k.name), k.ip, v.deadlines[k]) == Copied(v, done + {k}, f)
    ensures k !in Copied(v, done, f).deadlines
  {
    var a, b := Paired(Copied(v, done, f), k.name, f(k.name), k.ip, v.deadlines[k]), Copied(v, done + {k}, f);
    assert a.deadlines == b.deadlines;
    forall name
      ensures name in a.bitmaps <==> name in b.bitmaps
    {
      if UsedIn(v, done, name) {
        var j :| j in done && j in v.deadlines && j.name == name;
        assert j in done + {k};
      }
      if name == k.name {
        assert k in done + {k} && k in v.deadlines;
      }
      if UsedIn(v, done + {k}, name) && name != k.name {
        var j :| j in done + {k} && j in v.deadlines && j.name == name;
        assert j in done;
      }
    }
    assert a.bitmaps == b.bitmaps;
  }

  // What a successor starts from: the copy, the events queued meanwhile, and one
  // collection at its own time.
  ghost function Fork(s: Evidence, f: Matcher, queued: Batch, now: Time, window: nat, lag: nat): Evidence {
    Sweep(Evidence(Rebased(s.view, f), s.evaluatedAt), queued, now, window, lag)
  }
}
