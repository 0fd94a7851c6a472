/** The two lookup directions of the registry over shared pair objects, the
    cached fold of every address, and the lazy collection bound. */
module DomainIndex {
  import opened Common
  import opened DomainView
  import opened DomainEvidence

  // The object both directions share; key is the pair it stands for.
  class DomainPair {
    ghost const key: Key
    var retainUntil: Time

    constructor (ghost key: Key, retainUntil: Time)
      ensures this.key == key && this.retainUntil == retainUntil
    {
      this.key := key;
      this.retainUntil := retainUntil;
    }
  }

  datatype DomainRecord = DomainRecord(bitmap: Bitmap, addresses: map<Addr, DomainPair>)

  datatype IpRecord = IpRecord(domains: map<string, DomainPair>, bump: Bitmap, routing: Bitmap, priority: Time)

  type Names = map<string, DomainRecord>
  type Addresses = map<Addr, IpRecord>

  predicate Has(byName: Names, k: Key) {
    k.name in byName && k.ip in byName[k.name].addresses
  }

  function PairAt(byName: Names, k: Key): DomainPair
    requires Has(byName, k)
  {
    byName[k.name].addresses[k.ip]
  }

  predicate Listed(byIP: Addresses, k: Key) {
    k.ip in byIP && k.name in byIP[k.ip].domains
  }

  // Both directions agree on this pair, down to the object.
  ghost predicate KeyOk(byName: Names, byIP: Addresses, pairs: set<DomainPair>, v: View, k: Key) {
    && (k in v.deadlines <==> Has(byName, k))
    && (Has(byName, k) <==> Listed(byIP, k))
    && (Has(byName, k) ==>
          && PairAt(byName, k) in pairs && PairAt(byName, k).key == k
          && byIP[k.ip].domains[k.name] == PairAt(byName, k)
          && k.name in v.bitmaps && 0 < v.deadlines[k])
  }

  ghost predicate KeysOk(byName: Names, byIP: Addresses, pairs: set<DomainPair>, v: View) {
    forall k: Key {:trigger KeyOk(byName, byIP, pairs, v, k)} :: KeyOk(byName, byIP, pairs, v, k)
  }

  predicate NameOk(byName: Names, bitmaps: map<string, Bitmap>, name: string) {
    && (name in byName <==> name in bitmaps)
    && (name in byName ==> byName[name].bitmap == bitmaps[name])
  }

  ghost predicate NamesOk(byName: Names, bitmaps: map<string, Bitmap>) {
    forall name {:trigger NameOk(byName, bitmaps, name)} :: NameOk(byName, bitmaps, name)
  }

  // An address record is never empty, and its cached summary is the fold of its
  // names unless they changed since its last rebuild.
  ghost predicate AddrOk(byIP: Addresses, v: View, dirty: set<Addr>, ip: Addr) {
    ip in byIP ==>
      && byIP[ip].domains.Keys != {}
      && (ip in dirty || (Bitmaps(byIP[ip].bump, byIP[ip].routing) == Fold(v, ip)
                          && byIP[ip].priority == Priority(v, ip)))
  }

  ghost predicate AddrsOk(byIP: Addresses, v: View, dirty: set<Addr>) {
    forall ip {:trigger AddrOk(byIP, v, dirty, ip)} :: AddrOk(byIP, v, dirty, ip)
  }

  ghost predicate Consistent(byName: Names, byIP: Addresses, pairs: set<DomainPair>, v: View, dirty: set<Addr>) {
    KeysOk(byName, byIP, pairs, v) && NamesOk(byName, v.bitmaps) && AddrsOk(byIP, v, dirty)
  }

  lemma {:induction false} ConsistentIsCoherent(byName: Names, byIP: Addresses, pairs: set<DomainPair>, v: View)
    requires KeysOk(byName, byIP, pairs, v)
    ensures Coherent(v)
  {
    forall k | k in v.deadlines
      ensures k.name in v.bitmaps && 0 < v.deadlines[k]
    {
      assert KeyOk(byName, byIP, pairs, v, k);
    }
  }

  // nextGC is a lower bound on all deadlines, zero when there are none.
  ghost predicate Bounds(nextGC: Time, v: View) {
    0 <= nextGC && forall k :: k in v.deadlines ==> 0 < nextGC <= v.deadlines[k]
  }

  // During a scan: the names still to do, except for some addresses of one, are
  // not accounted for yet.
  ghost predicate Bounding(nextGC: Time, v: View, todo: set<string>, name: string, ips: set<Addr>) {
    0 <= nextGC && forall k ::
      k in v.deadlines && (k.name !in todo || (k.name == name && k.ip in ips))
      ==> 0 < nextGC <= v.deadlines[k]
  }

  // ------ Changes, on values ------

  lemma {:induction false} KeysExtend(byName: Names, byIP: Addresses, pairs: set<DomainPair>, v: View, k: Key, t: Time,
                                      priority: Time)
    requires KeysOk(byName, byIP, pairs, v) && k in v.deadlines && 0 < t && k.ip in byIP
    ensures KeysOk(byName, byIP[k.ip := byIP[k.ip].(priority := priority)], pairs, Renewed(v, k, t))
  {
    var byIP', w := byIP[k.ip := byIP[k.ip].(priority := priority)], Renewed(v, k, t);
    forall j: Key
      ensures KeyOk(byName, byIP', pairs, w, j)
    {
      assert KeyOk(byName, byIP, pairs, v, j);
    }
  }

  lemma {:induction false} AddrsExtend(byIP: Addresses, v: View, dirty: set<Addr>, k: Key, t: Time, priority: Time)
    requires AddrsOk(byIP, v, dirty) && Coherent(v) && k in v.deadlines && v.deadlines[k] < t && k.ip in byIP
    requires priority == if BitmapOf(v, k.name) != {} && byIP[k.ip].priority < t then t else byIP[k.ip].priority
    ensures AddrsOk(byIP[k.ip := byIP[k.ip].(priority := priority)], Renewed(v, k, t), dirty)
  {
    RenewedPriority(v, k, t);
    var byIP', w := byIP[k.ip := byIP[k.ip].(priority := priority)], Renewed(v, k, t);
    forall ip
      ensures AddrOk(byIP', w, dirty, ip)
    {
      assert AddrOk(byIP, v, dirty, ip);
      RenewedElsewhere(v, k, t, ip);
    }
  }

  // The address record after one of its pairs was extended.
  function Ranked(s: IpRecord, bitmap: Bitmap, t: Time): IpRecord {
    if bitmap != {} && t > s.priority then s.(priority := t) else s
  }

  lemma {:induction false} ConsistentExtend(byName: Names, byIP: Addresses, pairs: set<DomainPair>, v: View,
                                            dirty: set<Addr>, k: Key, t: Time)
    requires Consistent(byName, byIP, pairs, v, dirty)
    requires Has(byName, k) && k in v.deadlines && v.deadlines[k] < t && k.ip in byIP
    ensures Consistent(byName, byIP[k.ip := Ranked(byIP[k.ip], byName[k.name].bitmap, t)], pairs, Renewed(v, k, t),
                       dirty)
    ensures k.ip !in dirty ==>
      (byName[k.name].bitmap != {} && t > byIP[k.ip].priority <==> Priority(v, k.ip) < Priority(Renewed(v, k, t), k.ip))
  {
    assert KeyOk(byName, byIP, pairs, v, k) && NameOk(byName, v.bitmaps, k.name) && AddrOk(byIP, v, dirty, k.ip);
    var s := byIP[k.ip];
    var priority := Ranked(s, byName[k.name].bitmap, t).priority;
    assert Ranked(s, byName[k.name].bitmap, t) == s.(priority := priority);
    ConsistentIsCoherent(byName, byIP, pairs, v);
    KeysExtend(byName, byIP, pairs, v, k, t, priority);
    AddrsExtend(byIP, v, dirty, k, t, priority);
    RenewedPriority(v, k, t);
  }

  lemma {:induction false} KeysAdd(byName: Names, byIP: Addresses, pairs: set<DomainPair>, v: View, k: Key,
                                   bitmap: Bitmap, p: DomainPair, t: Time)
    requires KeysOk(byName, byIP, pairs, v) && k !in v.deadlines && p.key == k && 0 < t
    ensures KeysOk(WithName(byName, k, bitmap, p), WithAddr(byIP, k, p), pairs + {p},
                   Paired(v, k.name, bitmap, k.ip, t))
  {
    var byName', byIP', pairs', w := WithName(byName, k, bitmap, p), WithAddr(byIP, k, p), pairs + {p},
      Paired(v, k.name, bitmap, k.ip, t);
    forall j: Key
      ensures KeyOk(byName', byIP', pairs', w, j)
    {
      assert KeyOk(byName, byIP, pairs, v, j) && KeyOk(byName, byIP, pairs, v, k);
    }
  }

  lemma {:induction false} NamesAdd(byName: Names, v: View, k: Key, bitmap: Bitmap, p: DomainPair, t: Time)
    requires NamesOk(byName, v.bitmaps)
    ensures NamesOk(WithName(byName, k, bitmap, p), Paired(v, k.name, bitmap, k.ip, t).bitmaps)
  {
    var byName', bitmaps := WithName(byName, k, bitmap, p), Paired(v, k.name, bitmap, k.ip, t).bitmaps;
    forall name
      ensures NameOk(byName', bitmaps, name)
    {
      assert NameOk(byName, v.bitmaps, name) && NameOk(byName, v.bitmaps, k.name);
    }
  }

  lemma {:induction false} AddrsAdd(byIP: Addresses, v: View, dirty: set<Addr>, k: Key, bitmap: Bitmap, p: DomainPair,
                                    t: Time)
    requires AddrsOk(byIP, v, dirty) && Coherent(v)
    ensures AddrsOk(WithAddr(byIP, k, p), Paired(v, k.name, bitmap, k.ip, t), dirty + {k.ip})
  {
    var byIP', w := WithAddr(byIP, k, p), Paired(v, k.name, bitmap, k.ip, t);
    forall ip
      ensures AddrOk(byIP', w, dirty + {k.ip}, ip)
    {
      assert AddrOk(byIP, v, dirty, ip);
      if ip == k.ip {
        assert k.name in byIP'[ip].domains.Keys;
      } else {
        FoldKept(v, w, ip);
        PriorityKept(v, w, ip);
      }
    }
  }

  lemma {:induction false} LeanAdd(v: View, k: Key, bitmap: Bitmap, t: Time)
    requires Lean(v)
    ensures Lean(Paired(v, k.name, bitmap, k.ip, t))
  {
    var w := Paired(v, k.name, bitmap, k.ip, t);
    forall name | name in w.bitmaps
      ensures exists j :: j in w.deadlines && j.name == name
    {
      if name == k.name {
        assert k in w.deadlines;
      } else {
        var j :| j in v.deadlines && j.name == name;
        assert j in w.deadlines;
      }
    }
  }

  // Both directions with one more pair.
  function WithName(byName: Names, k: Key, bitmap: Bitmap, p: DomainPair): Names {
    var r := if k.name in byName then byName[k.name] else DomainRecord(bitmap, map[]);
    byName[k.name := r.(addresses := r.addresses[k.ip := p])]
  }

  function WithAddr(byIP: Addresses, k: Key, p: DomainPair): Addresses {
    var s := if k.ip in byIP then byIP[k.ip] else IpRecord(map[], {}, {}, 0);
    byIP[k.ip := s.(domains := s.domains[k.name := p])]
  }

  // Both directions without one pair. An address without names goes.
  function WithoutName(byName: Names, k: Key): Names
    requires k.name in byName
  {
    byName[k.name := byName[k.name].(addresses := byName[k.name].addresses - {k.ip})]
  }

  function WithoutAddr(byIP: Addresses, k: Key): Addresses
    requires k.ip in byIP
  {
    var domains := byIP[k.ip].domains - {k.name};
    if domains.Keys == {} then byIP - {k.ip} else byIP[k.ip := byIP[k.ip].(domains := domains)]
  }

  function Dropped(v: View, k: Key): View {
    v.(deadlines := v.deadlines - {k})
  }

  lemma {:induction false} KeysRemove(byName: Names, byIP: Addresses, pairs: set<DomainPair>, v: View, k: Key)
    requires KeysOk(byName, byIP, pairs, v) && k.name in byName && k.ip in byIP
    ensures KeysOk(WithoutName(byName, k), WithoutAddr(byIP, k), pairs, Dropped(v, k))
  {
    var byName', byIP', w := WithoutName(byName, k), WithoutAddr(byIP, k), Dropped(v, k);
    forall j: Key
      ensures KeyOk(byName', byIP', pairs, w, j)
    {
      assert KeyOk(byName, byIP, pairs, v, j);
      if j != k && j.ip == k.ip && Has(byName, j) {
        assert j.name in byIP[k.ip].domains.Keys - {k.name};
      }
    }
  }

  lemma {:induction false} NamesRemove(byName: Names, bitmaps: map<string, Bitmap>, k: Key)
    requires NamesOk(byName, bitmaps) && k.name in byName
    ensures NamesOk(WithoutName(byName, k), bitmaps)
  {
    var byName' := WithoutName(byName, k);
    forall name
      ensures NameOk(byName', bitmaps, name)
    {
      assert NameOk(byName, bitmaps, name);
    }
  }

  lemma {:induction false} AddrsRemove(byIP: Addresses, v: View, dirty: set<Addr>, k: Key)
    requires AddrsOk(byIP, v, dirty) && k.ip in byIP
    ensures AddrsOk(WithoutAddr(byIP, k), Dropped(v, k), dirty + {k.ip})
  {
    var byIP', w := WithoutAddr(byIP, k), Dropped(v, k);
    forall ip
      ensures AddrOk(byIP', w, dirty + {k.ip}, ip)
    {
      assert AddrOk(byIP, v, dirty, ip);
      if ip != k.ip {
        FoldKept(v, w, ip);
        PriorityKept(v, w, ip);
      }
    }
  }

  // The names listed for an address are exactly its names in the evidence.
  lemma {:induction false} NamesOf(byName: Names, byIP: Addresses, pairs: set<DomainPair>, v: View, ip: Addr)
    requires KeysOk(byName, byIP, pairs, v) && ip in byIP
    ensures forall name <- byIP[ip].domains.Keys :: Has(byName, Key(name, ip)) && Key(name, ip) in v.deadlines
    ensures forall k: Key :: k in v.deadlines && k.ip == ip ==> k.name in byIP[ip].domains.Keys
  {
    forall name <- byIP[ip].domains.Keys
      ensures Has(byName, Key(name, ip)) && Key(name, ip) in v.deadlines
    {
      assert KeyOk(byName, byIP, pairs, v, Key(name, ip));
    }
    forall k: Key | k in v.deadlines && k.ip == ip
      ensures k.name in byIP[ip].domains.Keys
    {
      assert KeyOk(byName, byIP, pairs, v, k);
    }
  }

  lemma {:induction false} NoNames(byName: Names, byIP: Addresses, pairs: set<DomainPair>, v: View, ip: Addr)
    requires KeysOk(byName, byIP, pairs, v) && ip !in byIP
    ensures forall k: Key :: k in v.deadlines ==> k.ip != ip
  {
    forall k: Key | k in v.deadlines
      ensures k.ip != ip
    {
      assert KeyOk(byName, byIP, pairs, v, k);
    }
  }

  // The links do not depend on the cached summaries.
  lemma {:induction false} KeysRefold(byName: Names, byIP: Addresses, pairs: set<DomainPair>, v: View, ip: Addr,
                                      s: IpRecord)
    requires KeysOk(byName, byIP, pairs, v) && ip in byIP && s.domains == byIP[ip].domains
    ensures KeysOk(byName, byIP[ip := s], pairs, v)
  {
    var byIP' := byIP[ip := s];
    forall k: Key
      ensures KeyOk(byName, byIP', pairs, v, k)
    {
      assert KeyOk(byName, byIP, pairs, v, k);
    }
  }

  lemma {:induction false} AddrsRefold(byIP: Addresses, v: View, dirty: set<Addr>, ip: Addr, s: IpRecord)
    requires AddrsOk(byIP, v, dirty) && ip in byIP && s.domains == byIP[ip].domains
    requires Bitmaps(s.bump, s.routing) == Fold(v, ip) && s.priority == Priority(v, ip)
    ensures AddrsOk(byIP[ip := s], v, dirty - {ip})
  {
    var byIP' := byIP[ip := s];
    forall a
      ensures AddrOk(byIP', v, dirty - {ip}, a)
    {
      assert AddrOk(byIP, v, dirty, a);
    }
  }

  lemma {:induction false} AddrsClean(byIP: Addresses, v: View, dirty: set<Addr>, ip: Addr)
    requires AddrsOk(byIP, v, dirty) && ip !in byIP
    ensures AddrsOk(byIP, v, dirty - {ip})
  {
    forall a
      ensures AddrOk(byIP, v, dirty - {ip}, a)
    {
      assert AddrOk(byIP, v, dirty, a);
    }
  }

  // Some names of an address have been touched, and its priority rose or not.
  ghost predicate Touching(v: View, w: View, ip: Addr, names: set<string>, deadline: Time, raised: bool,
                           unknown: bool)
  {
    && w == v.(deadlines := TouchedNames(v.deadlines, ip, names, deadline))
    && (unknown || (Priority(v, ip) <= Priority(w, ip) && (raised <==> Priority(v, ip) < Priority(w, ip))))
  }

  lemma {:induction false} TouchingNone(v: View, ip: Addr, deadline: Time)
    ensures Touching(v, v, ip, {}, deadline, false, false)
  {
    assert TouchedNames(v.deadlines, ip, {}, deadline) == v.deadlines;
  }

  // The summary of an address over some of its names.
  ghost predicate FoldedOver(v: View, ip: Addr, names: set<string>, bump: Bitmap, routing: Bitmap, priority: Time) {
    && bump == Bump(Restrict(v, ip, names), ip)
    && routing == Routing(Restrict(v, ip, names), ip)
    && priority == Priority(Restrict(v, ip, names), ip)
  }

  lemma {:induction false} FoldOneMore(v: View, ip: Addr, names: set<string>, name: string, bump: Bitmap,
                                       routing: Bitmap, priority: Time)
    requires Coherent(v) && Key(name, ip) in v.deadlines && name !in names
      && FoldedOver(v, ip, names, bump, routing, priority)
    ensures FoldedOver(v, ip, names + {name}, bump + BitmapOf(v, name), routing * BitmapOf(v, name),
                       Raised(BitmapOf(v, name), priority, v.deadlines[Key(name, ip)]))
  {
    RestrictStep(v, ip, names, name);
    RestrictPriority(v, ip, names, name);
  }

  lemma {:induction false} AddressesOf(byName: Names, byIP: Addresses, pairs: set<DomainPair>, v: View, name: string)
    requires KeysOk(byName, byIP, pairs, v) && name in byName
    ensures forall ip <- byName[name].addresses.Keys :: Key(name, ip) in v.deadlines
    ensures forall k: Key :: k in v.deadlines && k.name == name ==> k.ip in byName[name].addresses.Keys
  {
    forall ip <- byName[name].addresses.Keys
      ensures Key(name, ip) in v.deadlines
    {
      assert KeyOk(byName, byIP, pairs, v, Key(name, ip));
    }
    forall k: Key | k in v.deadlines && k.name == name
      ensures k.ip in byName[name].addresses.Keys
    {
      assert KeyOk(byName, byIP, pairs, v, k);
    }
  }

  lemma {:induction false} AllNames(byName: Names, bitmaps: map<string, Bitmap>)
    requires NamesOk(byName, bitmaps)
    ensures byName.Keys == bitmaps.Keys
  {
    forall name
      ensures name in byName <==> name in bitmaps
    {
      assert NameOk(byName, bitmaps, name);
    }
  }

  // Forgetting a name that has no pairs left.
  lemma {:induction false} ConsistentForget(byName: Names, byIP: Addresses, pairs: set<DomainPair>, v: View,
                                            dirty: set<Addr>, name: string)
    requires Consistent(byName, byIP, pairs, v, dirty) && name in byName && byName[name].addresses.Keys == {}
    ensures Consistent(byName - {name}, byIP, pairs, v.(bitmaps := v.bitmaps - {name}), dirty)
    ensures !Used(v.deadlines, name)
  {
    var byName', w := byName - {name}, v.(bitmaps := v.bitmaps - {name});
    forall k: Key
      ensures KeyOk(byName', byIP, pairs, w, k) && (k in v.deadlines ==> k.name != name)
    {
      assert KeyOk(byName, byIP, pairs, v, k);
    }
    forall n
      ensures NameOk(byName', w.bitmaps, n)
    {
      assert NameOk(byName, v.bitmaps, n);
    }
    forall ip
      ensures AddrOk(byIP, w, dirty, ip)
    {
      assert AddrOk(byIP, v, dirty, ip);
      FoldKept(v, w, ip);
      PriorityKept(v, w, ip);
    }
  }

  // Progress of a scan through the addresses of one name, and through the names.
  ghost predicate Scanning(v: View, w: View, nextGC: Time, todo: set<string>, name: string, ips: set<Addr>,
                           cutoff: Time, removed: set<Addr>)
  {
    && w == v.(deadlines := Scanned(v.deadlines, name, ips, cutoff))
    && removed == ExpiredIn(v.deadlines, name, ips, cutoff)
    && Bounding(nextGC, w, todo, name, ips)
  }

  ghost predicate Collecting(v: View, w: View, nextGC: Time, todo: set<string>, cutoff: Time, changed: set<Addr>) {
    && w == CollectedBut(v, todo, cutoff)
    && changed == ExpiredBut(v.deadlines, todo, cutoff)
    && Bounding(nextGC, w, todo, "", {})
  }

  // One pair: collected, or accounted for in the bound.
  ghost predicate Decides(v: View, w: View, nextGC: Time, nextGC': Time, k: Key, cutoff: Time, gone: bool)
    requires k in v.deadlines
  {
    && (gone <==> v.deadlines[k] <= cutoff)
    && w == (if gone then Dropped(v, k) else v)
    && (if gone then nextGC' == nextGC else 0 < nextGC' <= v.deadlines[k] && (nextGC == 0 || nextGC' <= nextGC))
  }

  lemma {:induction false} ScanningStep(v: View, w: View, w': View, nextGC: Time, nextGC': Time, todo: set<string>,
                                        name: string,
                                        ips: set<Addr>, ip: Addr, cutoff: Time, removed: set<Addr>, gone: bool)
    requires Scanning(v, w, nextGC, todo, name, ips, cutoff, removed) && Key(name, ip) in v.deadlines && ip !in ips
    requires Key(name, ip) in w.deadlines && Decides(w, w', nextGC, nextGC', Key(name, ip), cutoff, gone)
    ensures Scanning(v, w', nextGC', todo, name, ips + {ip}, cutoff, if gone then removed + {ip} else removed)
  {
    ScannedStep(v.deadlines, name, ips, ip, cutoff);
  }

  lemma {:induction false} CollectingStep(v: View, w: View, w': View, nextGC: Time, todo: set<string>, name: string,
                                          ips: set<Addr>,
                                          cutoff: Time, changed: set<Addr>, removed: set<Addr>)
    requires name in todo && w == CollectedBut(v, todo, cutoff) && changed == ExpiredBut(v.deadlines, todo, cutoff)
    requires forall k: Key :: k in w.deadlines && k.name == name ==> k.ip in ips
    requires Scanning(w, w'.(bitmaps := w.bitmaps), nextGC, todo, name, ips, cutoff, removed)
    requires w'.bitmaps == if Used(w'.deadlines, name) then w.bitmaps else w.bitmaps - {name}
    ensures Collecting(v, w', nextGC, todo - {name}, cutoff, changed + removed)
  {
    forall k: Key | k in v.deadlines && k.name == name
      ensures k.ip in ips
    {
      assert k in w.deadlines;
    }
    CollectedStep(v, todo, name, cutoff, ips, w');
    ExpiredStep(v.deadlines, todo, name, cutoff, ips);
    assert ExpiredIn(w.deadlines, name, ips, cutoff) == ExpiredIn(v.deadlines, name, ips, cutoff);
  }

  class DomainIndex {
    var byName: Names
    var byIP: Addresses
    var nextGC: Time
    ghost var view: View
    ghost var pairs: set<DomainPair>

    // The shared object carries the deadline of its pair.
    ghost predicate StoredAt(k: Key)
      reads this`byName, this`view, this`pairs, pairs
    {
      Has(byName, k) && PairAt(byName, k) in pairs && k in view.deadlines ==>
        PairAt(byName, k).retainUntil == view.deadlines[k]
    }

    ghost predicate Stored()
      reads this`byName, this`view, this`pairs, pairs
    {
      forall k: Key {:trigger StoredAt(k)} :: StoredAt(k)
    }

    ghost predicate Linked(dirty: set<Addr>)
      reads this, pairs
    {
      Consistent(byName, byIP, pairs, view, dirty) && Stored()
    }

    ghost predicate Sound(dirty: set<Addr>)
      reads this, pairs
    {
      Linked(dirty) && Bounds(nextGC, view) && Lean(view)
    }

    constructor ()
      ensures Sound({}) && view == View(map[], map[]) && pairs == {} && byIP == map[]
    {
      byName, byIP, nextGC := map[], map[], 0;
      view, pairs := View(map[], map[]), {};
    }

    lemma {:induction false} IsCoherent(dirty: set<Addr>)
      requires Linked(dirty)
      ensures Coherent(view)
    {
      ConsistentIsCoherent(byName, byIP, pairs, view);
    }

    // Any superset of the listed addresses may stand for the dirty ones.
    lemma {:induction false} AllDirty(dirty: set<Addr>)
      requires Sound(dirty)
      ensures Sound(byIP.Keys)
    {
      forall ip
        ensures AddrOk(byIP, view, byIP.Keys, ip)
      {
        assert AddrOk(byIP, view, dirty, ip);
      }
    }

    method TrackDeadline(deadline: Time)
      modifies this`nextGC
      ensures nextGC == if old(nextGC) == 0 || deadline < old(nextGC) then deadline else old(nextGC)
    {
      if nextGC == 0 || deadline < nextGC {
        nextGC := deadline;
      }
    }

    // Reports whether the address's cached priority rose.
    method Extend(k: Key, deadline: Time, ghost dirty: set<Addr>) returns (raised: bool)
      requires Sound(dirty) && Has(byName, k)
      modifies this`byIP, this`nextGC, this`view, PairAt(byName, k)
      ensures Sound(dirty) && k in old(view).deadlines
      ensures view == Renewed(old(view), k, Later(old(view).deadlines[k], deadline))
      ensures k.ip !in dirty ==> (raised <==> Priority(old(view), k.ip) < Priority(view, k.ip))
    {
      assert KeyOk(byName, byIP, pairs, view, k) && StoredAt(k);
      raised := false;
      if deadline > PairAt(byName, k).retainUntil {
        var bitmap := byName[k.name].bitmap;
        raised := bitmap != {} && deadline > byIP[k.ip].priority;
        ConsistentExtend(byName, byIP, pairs, view, dirty, k, deadline);
        TrackDeadline(deadline);
        Renew(k, deadline);
        byIP := byIP[k.ip := Ranked(byIP[k.ip], bitmap, deadline)];
      } else {
        assert view == Renewed(view, k, view.deadlines[k]);
      }
    }

    // The one write both directions see.
    method Renew(k: Key, deadline: Time)
      requires KeysOk(byName, byIP, pairs, view) && Stored() && Has(byName, k) && k in view.deadlines
      modifies this`view, PairAt(byName, k)
      ensures Stored() && view == Renewed(old(view), k, deadline)
    {
      ghost var before := view;
      PairAt(byName, k).retainUntil := deadline;
      view := Renewed(view, k, deadline);
      forall j: Key
        ensures StoredAt(j)
      {
        assert KeyOk(byName, byIP, pairs, before, j) && KeyOk(byName, byIP, pairs, before, k);
        assert old(StoredAt(j));
      }
    }

    // One address of an observation: extend the known pair or add a new one.
    method Pair(k: Key, bitmap: Bitmap, deadline: Time, ghost dirty: set<Addr>) returns (added: bool, raised: bool)
      requires Sound(dirty) && 0 < deadline
      modifies this, pairs
      ensures fresh(pairs - old(pairs)) && Sound(if added then dirty + {k.ip} else dirty)
      ensures view == Paired(old(view), k.name, bitmap, k.ip, deadline)
      ensures added <==> k !in old(view).deadlines
      ensures !added && k.ip !in dirty ==> (raised <==> Priority(old(view), k.ip) < Priority(view, k.ip))
    {
      assert KeyOk(byName, byIP, pairs, view, k) && NameOk(byName, view.bitmaps, k.name);
      if Has(byName, k) {
        added := false;
        raised := Extend(k, deadline, dirty);
        assert view == Paired(old(view), k.name, bitmap, k.ip, deadline);
      } else {
        added, raised := true, false;
        AddPair(k, bitmap, deadline, dirty);
      }
    }

    method AddPair(k: Key, bitmap: Bitmap, deadline: Time, ghost dirty: set<Addr>)
      requires Sound(dirty) && 0 < deadline && k !in view.deadlines
      modifies this
      ensures fresh(pairs - old(pairs)) && old(pairs) <= pairs && Sound(dirty + {k.ip})
      ensures view == Paired(old(view), k.name, bitmap, k.ip, deadline)
    {
      var pair := new DomainPair(k, deadline);
      ConsistentIsCoherent(byName, byIP, pairs, view);
      KeysAdd(byName, byIP, pairs, view, k, bitmap, pair, deadline);
      NamesAdd(byName, view, k, bitmap, pair, deadline);
      AddrsAdd(byIP, view, dirty, k, bitmap, pair, deadline);
      LeanAdd(view, k, bitmap, deadline);
      TrackDeadline(deadline);
      Insert(k, bitmap, pair);
    }

    method Insert(k: Key, bitmap: Bitmap, pair: DomainPair)
      requires KeysOk(byName, byIP, pairs, view) && Stored() && pair !in pairs && k !in view.deadlines
      modifies this`byName, this`byIP, this`view, this`pairs
      ensures byName == WithName(old(byName), k, bitmap, pair) && byIP == WithAddr(old(byIP), k, pair)
      ensures pairs == old(pairs) + {pair} && view == Paired(old(view), k.name, bitmap, k.ip, pair.retainUntil)
      ensures Stored()
    {
      ghost var before, names, addrs := view, byName, byIP;
      byName := WithName(byName, k, bitmap, pair);
      byIP := WithAddr(byIP, k, pair);
      view := Paired(view, k.name, bitmap, k.ip, pair.retainUntil);
      pairs := pairs + {pair};
      forall j: Key
        ensures StoredAt(j)
      {
        assert KeyOk(names, addrs, old(pairs), before, j) && KeyOk(names, addrs, old(pairs), before, k);
        assert old(StoredAt(j));
      }
    }

    method RemovePair(k: Key, ghost dirty: set<Addr>)
      requires Linked(dirty) && Has(byName, k)
      modifies this`byName, this`byIP, this`view
      ensures Linked(dirty + {k.ip}) && byName.Keys == old(byName.Keys)
      ensures view == Dropped(old(view), k)
    {
      assert KeyOk(byName, byIP, pairs, view, k);
      KeysRemove(byName, byIP, pairs, view, k);
      NamesRemove(byName, view.bitmaps, k);
      AddrsRemove(byIP, view, dirty, k);
      ghost var before, names, addrs := view, byName, byIP;
      byName := WithoutName(byName, k);
      byIP := WithoutAddr(byIP, k);
      view := Dropped(view, k);
      forall j: Key
        ensures StoredAt(j)
      {
        assert KeyOk(names, addrs, pairs, before, j);
        assert old(StoredAt(j));
      }
    }

    // Activity on one name of an address, or on all of them.
    method Touch(e: ActivityKey, deadline: Time, ghost dirty: set<Addr>) returns (raised: bool)
      requires Sound(dirty)
      modifies this`byIP, this`nextGC, this`view, pairs
      ensures Sound(dirty) && view == old(view).(deadlines := Touched(old(view).deadlines, e, deadline))
      ensures e.ip !in dirty ==> (raised <==> Priority(old(view), e.ip) < Priority(view, e.ip))
    {
      if e.domain.Some? {
        var k := Key(e.domain.value, e.ip);
        assert KeyOk(byName, byIP, pairs, view, k);
        raised := false;
        if Has(byName, k) {
          raised := Extend(k, deadline, dirty);
        }
        assert view == old(view).(deadlines := Touched(old(view).deadlines, e, deadline));
      } else {
        raised := TouchAll(e.ip, deadline, dirty);
      }
    }

    method TouchAll(ip: Addr, deadline: Time, ghost dirty: set<Addr>) returns (raised: bool)
      requires Sound(dirty)
      modifies this`byIP, this`nextGC, this`view, pairs
      ensures Sound(dirty) && view == old(view).(deadlines := Touched(old(view).deadlines, ActivityKey(ip, None),
          deadline))
      ensures ip !in dirty ==> (raised <==> Priority(old(view), ip) < Priority(view, ip))
    {
      raised := false;
      if ip !in byIP {
        NoNames(byName, byIP, pairs, view, ip);
        assert view == view.(deadlines := Touched(view.deadlines, ActivityKey(ip, None), deadline));
        return;
      }
      NamesOf(byName, byIP, pairs, view, ip);
      var todo := byIP[ip].domains.Keys;
      ghost var names, v := todo, view;
      TouchingNone(v, ip, deadline);
      assert names - todo == {};
      while todo != {}
        invariant todo <= names && Sound(dirty)
        invariant Touching(v, view, ip, names - todo, deadline, raised, ip in dirty)
        decreases |todo|
      {
        var name :| name in todo;
        Taken(names, todo, name);
        TouchedOne(v, ip, names - todo, name, deadline);
        var rose := ExtendListed(Key(name, ip), deadline, dirty);
        raised := raised || rose;
        todo := todo - {name};
      }
      assert names - todo == names;
      TouchedIs(v, ActivityKey(ip, None), names, deadline);
    }

    // As Extend, where the pair may be any of the address.
    method ExtendListed(k: Key, deadline: Time, ghost dirty: set<Addr>) returns (raised: bool)
      requires Sound(dirty) && Has(byName, k)
      modifies this`byIP, this`nextGC, this`view, pairs
      ensures Sound(dirty) && k in old(view).deadlines
      ensures view == Renewed(old(view), k, Later(old(view).deadlines[k], deadline))
      ensures k.ip !in dirty ==>
        && (raised <==> Priority(old(view), k.ip) < Priority(view, k.ip))
        && Priority(old(view), k.ip) <= Priority(view, k.ip)
    {
      assert KeyOk(byName, byIP, pairs, view, k);
      ConsistentIsCoherent(byName, byIP, pairs, view);
      raised := Extend(k, deadline, dirty);
      if old(view).deadlines[k] < deadline {
        RenewedPriority(old(view), k, deadline);
      } else {
        assert view == old(view);
      }
    }

    // Recomputes the summary of one address from its names.
    method Rebuild(ip: Addr, ghost dirty: set<Addr>)
      requires Sound(dirty)
      modifies this`byIP
      ensures Sound(dirty - {ip}) && byIP.Keys == old(byIP.Keys)
    {
      if ip in byIP {
        NamesOf(byName, byIP, pairs, view, ip);
        ConsistentIsCoherent(byName, byIP, pairs, view);
        var bump, routing, priority := FoldNames(ip);
        ghost var before := byIP;
        byIP := byIP[ip := byIP[ip].(bump := bump, routing := routing, priority := priority)];
        KeysRefold(byName, before, pairs, view, ip, byIP[ip]);
        AddrsRefold(before, view, dirty, ip, byIP[ip]);
      } else {
        AddrsClean(byIP, view, dirty, ip);
      }
    }

    method Member(ip: Addr, name: string) returns (bitmap: Bitmap, deadline: Time)
      requires KeysOk(byName, byIP, pairs, view) && NamesOk(byName, view.bitmaps) && Stored()
      requires ip in byIP && name in byIP[ip].domains
      ensures Key(name, ip) in view.deadlines && deadline == view.deadlines[Key(name, ip)]
      ensures bitmap == BitmapOf(view, name)
    {
      assert KeyOk(byName, byIP, pairs, view, Key(name, ip)) && NameOk(byName, view.bitmaps, name)
        && StoredAt(Key(name, ip));
      bitmap, deadline := byName[name].bitmap, byIP[ip].domains[name].retainUntil;
    }

    method FoldNames(ip: Addr) returns (bump: Bitmap, routing: Bitmap, priority: Time)
      requires KeysOk(byName, byIP, pairs, view) && NamesOk(byName, view.bitmaps) && Stored() && ip in byIP
      ensures Bitmaps(bump, routing) == Fold(view, ip) && priority == Priority(view, ip)
    {
      bump, routing, priority := {}, AllBits(), 0;
      var todo := byIP[ip].domains.Keys;
      ghost var names := todo;
      NamesOf(byName, byIP, pairs, view, ip);
      ConsistentIsCoherent(byName, byIP, pairs, view);
      RestrictNone(view, ip);
      assert names - todo == {};
      while todo != {}
        invariant todo <= names && FoldedOver(view, ip, names - todo, bump, routing, priority)
        decreases |todo|
      {
        var name :| name in todo;
        Taken(names, todo, name);
        var bitmap, deadline := Member(ip, name);
        FoldOneMore(view, ip, names - todo, name, bump, routing, priority);
        bump, routing := bump + bitmap, routing * bitmap;
        if bitmap != {} && deadline > priority {
          priority := deadline;
        }
        todo := todo - {name};
      }
      assert names - todo == names;
      RestrictAll(view, ip, names);
    }

    // One address of the name being scanned: collected, or accounted for.
    method CollectPair(k: Key, cutoff: Time, ghost dirty: set<Addr>) returns (gone: bool)
      requires Linked(dirty) && k in view.deadlines && 0 <= nextGC
      modifies this`byName, this`byIP, this`nextGC, this`view
      ensures Linked(if gone then dirty + {k.ip} else dirty) && byName.Keys == old(byName.Keys)
      ensures Decides(old(view), view, old(nextGC), nextGC, k, cutoff, gone)
    {
      assert KeyOk(byName, byIP, pairs, view, k) && StoredAt(k);
      var deadline := PairAt(byName, k).retainUntil;
      gone := deadline <= cutoff;
      if gone {
        RemovePair(k, dirty);
      } else {
        TrackDeadline(deadline);
      }
    }

    // All addresses of one name.
    method ScanName(name: string, cutoff: Time, ghost todo: set<string>, ghost dirty: set<Addr>)
      returns (removed: set<Addr>, ghost all: set<Addr>)
      requires Linked(dirty) && name in byName && Bounding(nextGC, view, todo, name, {})
      modifies this`byName, this`byIP, this`nextGC, this`view
      ensures Linked(dirty + removed) && byName.Keys == old(byName.Keys)
      ensures forall k: Key :: k in old(view).deadlines && k.name == name ==> k.ip in all
      ensures Scanning(old(view), view, nextGC, todo, name, all, cutoff, removed)
    {
      ghost var v := view;
      var rest := byName[name].addresses.Keys;
      all, removed := rest, {};
      AddressesOf(byName, byIP, pairs, view, name);
      ScannedNone(v.deadlines, name, cutoff);
      assert all - rest == {} && dirty + removed == dirty;
      while rest != {}
        invariant rest <= all && Linked(dirty + removed) && byName.Keys == old(byName.Keys)
        invariant Scanning(v, view, nextGC, todo, name, all - rest, cutoff, removed)
        decreases |rest|
      {
        var ip :| ip in rest;
        Taken(all, rest, ip);
        removed := ScanOne(name, ip, cutoff, removed, v, all - rest, todo, dirty);
        rest := rest - {ip};
      }
      assert all - rest == all;
    }

    method ScanOne(name: string, ip: Addr, cutoff: Time, removed: set<Addr>,
                   ghost v: View, ghost ips: set<Addr>, ghost todo: set<string>, ghost dirty: set<Addr>)
                     returns (removed': set<Addr>)
      requires Linked(dirty + removed) && Key(name, ip) in v.deadlines && ip !in ips
      requires Scanning(v, view, nextGC, todo, name, ips, cutoff, removed)
      modifies this`byName, this`byIP, this`nextGC, this`view
      ensures Linked(dirty + removed') && byName.Keys == old(byName.Keys)
      ensures Scanning(v, view, nextGC, todo, name, ips + {ip}, cutoff, removed')
    {
      ScannedStep(v.deadlines, name, ips, ip, cutoff);
      var gone := CollectPair(Key(name, ip), cutoff, dirty + removed);
      ScanningStep(v, old(view), view, old(nextGC), nextGC, todo, name, ips, ip, cutoff, removed, gone);
      removed' := if gone then removed + {ip} else removed;
      assert gone ==> dirty + removed' == dirty + removed + {ip};
    }

    // A name that lost its last address is forgotten.
    method CollectName(name: string, cutoff: Time, ghost todo: set<string>, ghost dirty: set<Addr>)
      returns (removed: set<Addr>, ghost all: set<Addr>)
      requires Linked(dirty) && name in byName && Bounding(nextGC, view, todo, name, {})
      modifies this`byName, this`byIP, this`nextGC, this`view
      ensures Linked(dirty + removed) && old(byName.Keys) - {name} <= byName.Keys
      ensures forall k: Key :: k in old(view).deadlines && k.name == name ==> k.ip in all
      ensures Scanning(old(view), view.(bitmaps := old(view).bitmaps), nextGC, todo, name, all, cutoff, removed)
      ensures view.bitmaps == if Used(view.deadlines, name) then old(view).bitmaps else old(view).bitmaps - {name}
    {
      removed, all := ScanName(name, cutoff, todo, dirty);
      if byName[name].addresses.Keys == {} {
        ConsistentForget(byName, byIP, pairs, view, dirty + removed, name);
        Forget(name);
      } else {
        var ip :| ip in byName[name].addresses.Keys;
        assert KeyOk(byName, byIP, pairs, view, Key(name, ip));
      }
    }

    method Forget(name: string)
      requires Stored() && name in byName && byName[name].addresses.Keys == {}
      modifies this`byName, this`view
      ensures Stored() && byName == old(byName) - {name} && view == old(view).(bitmaps := old(view).bitmaps - {name})
    {
      byName := byName - {name};
      view := view.(bitmaps := view.bitmaps - {name});
      forall k: Key
        ensures StoredAt(k)
      {
        assert old(StoredAt(k));
      }
    }

    // Collection of everything due at the cutoff. The early exit is exact.
    method Gc(cutoff: Time, ghost dirty: set<Addr>) returns (changed: set<Addr>)
      requires Sound(dirty)
      modifies this`byName, this`byIP, this`nextGC, this`view
      ensures view == Collected(old(view), cutoff) && changed == Expired(old(view).deadlines, cutoff)
      ensures Sound(dirty + changed)
    {
      ghost var v := view;
      IsCoherent(dirty);
      if nextGC == 0 || cutoff < nextGC {
        CollectedNothing(view, cutoff);
        assert dirty + {} == dirty;
        return {};
      }
      changed := {};
      nextGC := 0;
      var todo := byName.Keys;
      AllNames(byName, view.bitmaps);
      CollectedEnds(view, cutoff);
      assert dirty + changed == dirty;
      while todo != {}
        invariant todo <= byName.Keys && Linked(dirty + changed) && Collecting(v, view, nextGC, todo, cutoff, changed)
        decreases |todo|
      {
        var name :| name in todo;
        Taken(todo, todo, name);
        ghost var before := view;
        var removed, ips := CollectName(name, cutoff, todo, dirty + changed);
        CollectingStep(v, before, view, nextGC, todo, name, ips, cutoff, changed, removed);
        Joined(dirty, changed, removed);
        changed := changed + removed;
        todo := todo - {name};
      }
    }

    function Keys(): set<Key>
      reads this`byName
    {
      set name, ip | name in byName && ip in byName[name].addresses :: Key(name, ip)
    }

    lemma {:induction false} KeysAreAll(dirty: set<Addr>)
      requires Linked(dirty)
      ensures Keys() == view.deadlines.Keys
    {
      forall k: Key
        ensures k in Keys() <==> k in view.deadlines
      {
        assert KeyOk(byName, byIP, pairs, view, k);
        if Has(byName, k) {
          assert k == Key(k.name, k.ip);
        }
      }
    }

    // Fresh pairs for all evidence of a predecessor, under this matcher's bitmaps.
    method Install(other: DomainIndex, matchBitmap: Matcher) returns (ghost dirty: set<Addr>)
      requires this != other && other.Sound({}) && Sound({}) && view == View(map[], map[]) && pairs == {}
      modifies this
      ensures fresh(pairs) && Sound(dirty) && view == Rebased(other.view, matchBitmap)
    {
      other.KeysAreAll({});
      var keys := other.Keys();
      dirty := InstallKeys(other, keys, matchBitmap);
      CopiedAll(other.view, matchBitmap);
    }

    method InstallKeys(other: DomainIndex, keys: set<Key>, matchBitmap: Matcher) returns (ghost dirty: set<Addr>)
      requires this != other && other.Sound({}) && Sound({}) && view == View(map[], map[]) && pairs == {}
      requires keys <= other.view.deadlines.Keys
      modifies this
      ensures fresh(pairs) && Sound(dirty) && view == Copied(other.view, keys, matchBitmap)
    {
      dirty := {};
      var todo := keys;
      CopiedNone(other.view, matchBitmap);
      assert keys - todo == {};
      while todo != {}
        invariant todo <= keys && fresh(pairs) && Sound(dirty)
        invariant view == Copied(other.view, keys - todo, matchBitmap)
        decreases |todo|
      {
        var k :| k in todo;
        Taken(keys, todo, k);
        InstallOne(other, k, matchBitmap, keys - todo, dirty);
        dirty := dirty + {k.ip};
        todo := todo - {k};
      }
      assert keys - todo == keys;
    }

    method InstallOne(other: DomainIndex, k: Key, matchBitmap: Matcher, ghost done: set<Key>, ghost dirty: set<Addr>)
      requires this != other && other.Sound({}) && Sound(dirty) && k in other.view.deadlines && k !in done
      requires view == Copied(other.view, done, matchBitmap)
      modifies this
      ensures fresh(pairs - old(pairs)) && Sound(dirty + {k.ip})
      ensures view == Copied(other.view, done + {k}, matchBitmap)
    {
      other.IsCoherent({});
      CopiedStep(other.view, done, k, matchBitmap);
      var deadline := other.DeadlineAt(k);
      AddPair(k, matchBitmap(k.name), deadline, dirty);
    }

    method DeadlineAt(k: Key) returns (deadline: Time)
      requires Sound({}) && k in view.deadlines
      ensures deadline == view.deadlines[k] && 0 < deadline
    {
      assert KeyOk(byName, byIP, pairs, view, k) && StoredAt(k);
      deadline := PairAt(byName, k).retainUntil;
    }
  }

  lemma {:induction false} Joined(a: set<Addr>, b: set<Addr>, c: set<Addr>)
    ensures a + b + c == a + (b + c)
  {
  }
}
