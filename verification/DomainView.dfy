/** Evidence that names resolve to addresses, and what it means for one address:
    the folded rule bitmaps, its priority and its place among the candidates for
    the bounded kernel map. */
module DomainView {
  import opened Common

  datatype Addr = Addr(v6: bool, bits: nat)

  // Address order: shorter families first, then by value.
  predicate Before(a: Addr, b: Addr) {
    if a.v6 == b.v6 then a.bits < b.bits else b.v6
  }

  // Nanoseconds; zero is the unset time.
  type Time = int
  const SECOND: Time := 1_000_000_000

  // One bit per domain predicate of the compiled matcher.
  const BITS: nat := 1024
  type Bitmap = set<nat>

  datatype Bitmaps = Bitmaps(bump: Bitmap, routing: Bitmap)

  datatype Key = Key(name: string, ip: Addr)

  // Deadlines of all name-address pairs, and the bitmap of each known name.
  datatype View = View(deadlines: map<Key, Time>, bitmaps: map<string, Bitmap>)

  ghost predicate Coherent(v: View) {
    forall k :: k in v.deadlines ==> k.name in v.bitmaps && 0 < v.deadlines[k]
  }

  ghost predicate Used(deadlines: map<Key, Time>, name: string) {
    exists k :: k in deadlines && k.name == name
  }

  // Every known name still has some address.
  ghost predicate Lean(v: View) {
    forall name :: name in v.bitmaps ==> Used(v.deadlines, name)
  }

  function BitmapOf(v: View, name: string): Bitmap {
    if name in v.bitmaps then v.bitmaps[name] else {}
  }

  // OR over all names of the address.
  ghost function Bump(v: View, ip: Addr): Bitmap {
    set k: Key, x: nat | k in v.deadlines && x in BitmapOf(v, k.name) && k.ip == ip :: x
  }

  // AND over all names of the address, including those with an empty bitmap.
  ghost function Routing(v: View, ip: Addr): Bitmap {
    set x: nat {:trigger InAll(v, ip, x)} | x < BITS && InAll(v, ip, x)
  }

  ghost predicate InAll(v: View, ip: Addr, x: nat) {
    forall k :: k in v.deadlines && k.ip == ip ==> x in BitmapOf(v, k.name)
  }

  ghost function Fold(v: View, ip: Addr): Bitmaps {
    Bitmaps(Bump(v, ip), Routing(v, ip))
  }

  // Deadlines of the names that matter to some rule.
  ghost function Relevant(v: View, ip: Addr): set<Time> {
    set k: Key | k in v.deadlines && k.ip == ip && BitmapOf(v, k.name) != {} :: v.deadlines[k]
  }

  ghost predicate IsHighest(s: set<Time>, m: Time) {
    && (forall t <- s :: t <= m)
    && (m in s || m == 0)
  }

  lemma {:induction false} HasHighest(s: set<Time>) returns (m: Time)
    requires forall t <- s :: 0 < t
    ensures IsHighest(s, m)
    decreases s
  {
    if t :| t in s {
      m := HasHighest(s - {t});
      m := if m < t then t else m;
      assert forall u <- s :: u == t || u in s - {t};
    } else {
      m := 0;
    }
  }

  ghost function Highest(s: set<Time>): Time {
    if exists m :: IsHighest(s, m) then var m :| IsHighest(s, m); m else 0
  }

  // The latest relevant deadline, zero if there is none.
  ghost function Priority(v: View, ip: Addr): Time {
    Highest(Relevant(v, ip))
  }

  lemma {:induction false} PriorityIsHighest(v: View, ip: Addr, m: Time)
    requires Coherent(v)
    ensures IsHighest(Relevant(v, ip), Priority(v, ip)) && 0 <= Priority(v, ip)
    ensures IsHighest(Relevant(v, ip), m) && 0 <= m ==> m == Priority(v, ip)
  {
    var m' := HasHighest(Relevant(v, ip));
  }

  // It is the latest deadline of a name that some rule mentions.
  lemma {:induction false} PriorityMeans(v: View, ip: Addr)
    requires Coherent(v)
    ensures forall k ::
      k in v.deadlines && k.ip == ip && BitmapOf(v, k.name) != {} ==> v.deadlines[k] <= Priority(v, ip)
    ensures if forall k :: k in v.deadlines && k.ip == ip ==> BitmapOf(v, k.name) == {} then Priority(v, ip) == 0
      else exists k :: k in v.deadlines && k.ip == ip && BitmapOf(v, k.name) != {} && v.deadlines[k] == Priority(v, ip)
  {
    PriorityIsHighest(v, ip, 0);
    forall k | k in v.deadlines && k.ip == ip && BitmapOf(v, k.name) != {}
      ensures v.deadlines[k] in Relevant(v, ip)
    {
    }
    if Priority(v, ip) in Relevant(v, ip) {
      var k :| k in v.deadlines && k.ip == ip && BitmapOf(v, k.name) != {} && v.deadlines[k] == Priority(v, ip);
    }
  }

  // ------ What a change of the evidence does to one address ------

  // Both views know the same names for the address, with the same bitmaps.
  ghost predicate SameNames(v: View, w: View, ip: Addr) {
    forall k: Key | k.ip == ip ::
      && (k in v.deadlines <==> k in w.deadlines)
      && (k in v.deadlines ==> BitmapOf(v, k.name) == BitmapOf(w, k.name))
  }

  lemma {:induction false} FoldKept(v: View, w: View, ip: Addr)
    requires SameNames(v, w, ip)
    ensures Fold(v, ip) == Fold(w, ip)
    ensures ip in Candidates(v) <==> ip in Candidates(w)
  {
    assert Bump(v, ip) == Bump(w, ip);
    forall x: nat
      ensures InAll(v, ip, x) == InAll(w, ip, x)
    {
    }
    assert Routing(v, ip) == Routing(w, ip);
    CandidateHasBits(v, ip);
    CandidateHasBits(w, ip);
  }

  lemma {:induction false} PriorityKept(v: View, w: View, ip: Addr)
    requires SameNames(v, w, ip)
    requires forall k: Key | k.ip == ip && k in v.deadlines :: v.deadlines[k] == w.deadlines[k]
    ensures Priority(v, ip) == Priority(w, ip)
  {
    assert Relevant(v, ip) == Relevant(w, ip);
  }

  // One later deadline.
  function Renewed(v: View, k: Key, t: Time): View {
    v.(deadlines := v.deadlines[k := t])
  }

  lemma {:induction false} RenewedElsewhere(v: View, k: Key, t: Time, ip: Addr)
    requires k in v.deadlines
    ensures SameNames(v, Renewed(v, k, t), ip) && Fold(Renewed(v, k, t), ip) == Fold(v, ip)
    ensures ip != k.ip ==> Priority(Renewed(v, k, t), ip) == Priority(v, ip)
  {
    FoldKept(v, Renewed(v, k, t), ip);
    if ip != k.ip {
      PriorityKept(v, Renewed(v, k, t), ip);
    }
  }

  lemma {:induction false} RenewedPriority(v: View, k: Key, t: Time)
    requires Coherent(v) && k in v.deadlines && v.deadlines[k] < t
    ensures Coherent(Renewed(v, k, t))
    ensures Priority(Renewed(v, k, t), k.ip) == Raised(BitmapOf(v, k.name), Priority(v, k.ip), t)
  {
    var w := Renewed(v, k, t);
    PriorityIsHighest(v, k.ip, 0);
    if BitmapOf(v, k.name) == {} {
      assert Relevant(w, k.ip) == Relevant(v, k.ip);
    } else {
      var m := if Priority(v, k.ip) < t then t else Priority(v, k.ip);
      assert k in w.deadlines && w.deadlines[k] == t;
      assert t in Relevant(w, k.ip);
      forall u <- Relevant(w, k.ip)
        ensures u <= m
      {
        var j :| j in w.deadlines && j.ip == k.ip && BitmapOf(w, j.name) != {} && w.deadlines[j] == u;
        if j != k {
          assert v.deadlines[j] in Relevant(v, k.ip);
        }
      }
      if m != t {
        var j :| j in v.deadlines && j.ip == k.ip && BitmapOf(v, j.name) != {} && v.deadlines[j] == m;
        assert j in w.deadlines && w.deadlines[j] == m && m in Relevant(w, k.ip);
      }
      PriorityIsHighest(w, k.ip, m);
    }
  }

  // ------ Folding one name after another ------

  predicate Bit(x: nat) {
    x < BITS
  }

  function AllBits(): Bitmap {
    set x: nat {:trigger Bit(x)} | x < BITS && Bit(x)
  }

  // The view of one address, restricted to some of its names.
  ghost function Restrict(v: View, ip: Addr, names: set<string>): View {
    v.(deadlines := map k: Key | k in v.deadlines && k.ip == ip && k.name in names :: v.deadlines[k])
  }

  lemma {:induction false} RestrictNone(v: View, ip: Addr)
    requires Coherent(v)
    ensures Bump(Restrict(v, ip, {}), ip) == {} && Routing(Restrict(v, ip, {}), ip) == AllBits()
    ensures Priority(Restrict(v, ip, {}), ip) == 0
  {
    var w := Restrict(v, ip, {});
    forall x: nat
      ensures InAll(w, ip, x) && (x in AllBits() <==> x < BITS)
    {
      assert Bit(x) <==> x < BITS;
    }
    assert Relevant(w, ip) == {};
    PriorityIsHighest(w, ip, 0);
  }

  lemma {:induction false} RestrictAll(v: View, ip: Addr, names: set<string>)
    requires forall k: Key :: k in v.deadlines && k.ip == ip ==> k.name in names
    ensures Fold(Restrict(v, ip, names), ip) == Fold(v, ip) && Priority(Restrict(v, ip, names), ip) == Priority(v, ip)
  {
    FoldKept(Restrict(v, ip, names), v, ip);
    PriorityKept(Restrict(v, ip, names), v, ip);
  }

  // b knows one more name of the address than a.
  ghost predicate OneMore(a: View, b: View, ip: Addr, k: Key) {
    && a.bitmaps == b.bitmaps && k !in a.deadlines && k.ip == ip
    && (forall j: Key :: j in b.deadlines <==> j in a.deadlines || j == k)
    && (forall j: Key :: j in a.deadlines ==> a.deadlines[j] == b.deadlines[j])
  }

  lemma {:induction false} BumpStep(a: View, b: View, ip: Addr, k: Key)
    requires OneMore(a, b, ip, k)
    ensures Bump(b, ip) == Bump(a, ip) + BitmapOf(b, k.name)
  {
    forall x: nat
      ensures x in Bump(b, ip) <==> x in Bump(a, ip) || x in BitmapOf(b, k.name)
    {
      if x in Bump(a, ip) {
        var j :| j in a.deadlines && x in BitmapOf(a, j.name) && j.ip == ip;
        assert j in b.deadlines && x in BitmapOf(b, j.name);
      }
      if x in BitmapOf(b, k.name) {
        assert k in b.deadlines;
      }
      if x in Bump(b, ip) && x !in BitmapOf(b, k.name) {
        var j :| j in b.deadlines && x in BitmapOf(b, j.name) && j.ip == ip;
        assert j in a.deadlines && x in BitmapOf(a, j.name);
      }
    }
  }

  lemma {:induction false} RoutingStep(a: View, b: View, ip: Addr, k: Key)
    requires OneMore(a, b, ip, k)
    ensures Routing(b, ip) == Routing(a, ip) * BitmapOf(b, k.name)
  {
    forall x: nat
      ensures InAll(b, ip, x) <==> InAll(a, ip, x) && x in BitmapOf(b, k.name)
    {
      if InAll(b, ip, x) {
        assert k in b.deadlines && forall j: Key :: j in a.deadlines ==> j in b.deadlines;
      }
    }
  }

  lemma {:induction false} RestrictStep(v: View, ip: Addr, names: set<string>, name: string)
    requires Coherent(v) && Key(name, ip) in v.deadlines && name !in names
    ensures OneMore(Restrict(v, ip, names), Restrict(v, ip, names + {name}), ip, Key(name, ip))
    ensures Bump(Restrict(v, ip, names + {name}), ip) == Bump(Restrict(v, ip, names), ip) + BitmapOf(v, name)
    ensures Routing(Restrict(v, ip, names + {name}), ip) == Routing(Restrict(v, ip, names), ip) * BitmapOf(v, name)
  {
    var a, b, k := Restrict(v, ip, names), Restrict(v, ip, names + {name}), Key(name, ip);
    BumpStep(a, b, ip, k);
    RoutingStep(a, b, ip, k);
  }

  // The priority after one more deadline.
  function Raised(bitmap: Bitmap, before: Time, t: Time): Time {
    if bitmap != {} && before < t then t else before
  }

  lemma {:induction false} PriorityStep(a: View, b: View, ip: Addr, k: Key)
    requires OneMore(a, b, ip, k) && Coherent(b) && k in b.deadlines
    ensures Priority(b, ip) == Raised(BitmapOf(b, k.name), Priority(a, ip), b.deadlines[k])
  {
    assert Coherent(a) by {
      assert forall j: Key :: j in a.deadlines ==> j in b.deadlines;
    }
    PriorityIsHighest(a, ip, 0);
    if BitmapOf(b, k.name) == {} {
      assert Relevant(b, ip) == Relevant(a, ip);
    } else {
      RelevantStep(a, b, ip, k);
      PriorityIsHighest(b, ip, Raised(BitmapOf(b, k.name), Priority(a, ip), b.deadlines[k]));
    }
  }

  lemma {:induction false} RestrictPriority(v: View, ip: Addr, names: set<string>, name: string)
    requires Coherent(v) && Key(name, ip) in v.deadlines && name !in names
    ensures Priority(Restrict(v, ip, names + {name}), ip)
         == Raised(BitmapOf(v, name), Priority(Restrict(v, ip, names), ip), v.deadlines[Key(name, ip)])
  {
    RestrictStep(v, ip, names, name);
    PriorityStep(Restrict(v, ip, names), Restrict(v, ip, names + {name}), ip, Key(name, ip));
  }

  lemma {:induction false} RelevantStep(a: View, b: View, ip: Addr, k: Key)
    requires OneMore(a, b, ip, k) && k in b.deadlines && BitmapOf(b, k.name) != {}
    ensures Relevant(b, ip) == Relevant(a, ip) + {b.deadlines[k]}
  {
    forall t <- Relevant(b, ip)
      ensures t in Relevant(a, ip) || t == b.deadlines[k]
    {
      var j :| j in b.deadlines && j.ip == ip && BitmapOf(b, j.name) != {} && b.deadlines[j] == t;
      assert j == k || j in a.deadlines;
    }
    forall t <- Relevant(a, ip)
      ensures t in Relevant(b, ip)
    {
      var j :| j in a.deadlines && j.ip == ip && BitmapOf(a, j.name) != {} && a.deadlines[j] == t;
      assert j in b.deadlines;
    }
  }

  // ------ Candidates for the kernel map ------

  ghost function Candidates(v: View): set<Addr> {
    set k: Key | k in v.deadlines && BitmapOf(v, k.name) != {} :: k.ip
  }

  lemma {:induction false} NonEmpty(b: Bitmap)
    requires b != {}
    ensures exists x :: x in b
  {
    assert |b| > 0;
  }

  lemma {:induction false} CandidateHasBits(v: View, ip: Addr)
    ensures ip in Candidates(v) <==> Bump(v, ip) != {}
  {
    if ip in Candidates(v) {
      var k :| k in v.deadlines && BitmapOf(v, k.name) != {} && k.ip == ip;
      NonEmpty(BitmapOf(v, k.name));
      var x :| x in BitmapOf(v, k.name);
      assert x in Bump(v, ip);
    }
    if x :| x in Bump(v, ip) {
      var k :| k in v.deadlines && x in BitmapOf(v, k.name) && k.ip == ip;
    }
  }

  // Higher priority; at equal priority IPv4 first, then the smaller address.
  ghost predicate Above(v: View, a: Addr, b: Addr) {
    || Priority(v, a) > Priority(v, b)
    || (Priority(v, a) == Priority(v, b) && ((!a.v6 && b.v6) || (a.v6 == b.v6 && a.bits < b.bits)))
  }

  lemma {:induction false} Asymmetric(v: View, a: Addr, b: Addr)
    ensures !Above(v, a, b) || !Above(v, b, a)
  {
  }

  // The best candidates by priority and address, as many as fit.
  ghost predicate IsTop(v: View, max: nat, s: set<Addr>) {
    && s <= Candidates(v)
    && |s| == (if |Candidates(v)| < max then |Candidates(v)| else max)
    && forall a, b {:trigger Above(v, a, b)} :: a in s && b in Candidates(v) - s ==> Above(v, a, b)
  }

  // Recomputed from scratch: the top candidates with their current folds.
  ghost predicate Exact(v: View, max: nat, desired: map<Addr, Bitmaps>) {
    && IsTop(v, max, desired.Keys)
    && forall ip :: ip in desired ==> desired[ip] == Fold(v, ip)
  }

  // A loop over a set takes one element.
  lemma {:induction false} Taken<T>(all: set<T>, todo: set<T>, x: T)
    requires x in todo && todo <= all
    ensures x !in all - todo && all - (todo - {x}) == (all - todo) + {x}
    ensures |todo - {x}| < |todo| && todo - {x} <= all
  {
  }

  lemma {:induction false} TopIsUnique(v: View, max: nat, s: set<Addr>, t: set<Addr>)
    requires IsTop(v, max, s) && IsTop(v, max, t)
    ensures s == t
  {
    if s != t {
      SubsetSizes(s, t);
      var a :| a in s - t;
      var b :| b in t - s;
      Asymmetric(v, a, b);
    }
  }

  lemma {:induction false} SubsetSizes<T>(s: set<T>, t: set<T>)
    requires |s| == |t| && s != t
    ensures exists x :: x in s - t
    ensures exists x :: x in t - s
  {
    if forall x :: x in s ==> x in t {
      SubsetSize(s, t);
    } else {
      var x :| x in s && x !in t;
      assert x in s - t;
    }
    if forall x :: x in t ==> x in s {
      SubsetSize(t, s);
    } else {
      var x :| x in t && x !in s;
      assert x in t - s;
    }
  }

  lemma {:induction false} ExactIsUnique(v: View, max: nat, a: map<Addr, Bitmaps>, b: map<Addr, Bitmaps>)
    requires Exact(v, max, a) && Exact(v, max, b)
    ensures a == b
  {
    TopIsUnique(v, max, a.Keys, b.Keys);
    assert forall ip :: ip in a ==> ip in a.Keys && ip in b.Keys;
  }
}
