/** Choosing the kernel entries from the cached summaries: all candidates, or the
    first ones in rank order when they do not fit. */
module DomainSelection {
  import opened DomainView
  import opened DomainIndex

  predicate Ahead(byIP: Addresses, a: Addr, b: Addr)
    requires a in byIP && b in byIP
  {
    byIP[a].priority > byIP[b].priority || (byIP[a].priority == byIP[b].priority && Before(a, b))
  }

  predicate Known(byIP: Addresses, s: seq<Addr>) {
    forall i :: 0 <= i < |s| ==> s[i] in byIP
  }

  predicate Ordered(byIP: Addresses, s: seq<Addr>)
    requires Known(byIP, s)
  {
    forall i, j :: 0 <= i < j < |s| ==> Ahead(byIP, s[i], s[j])
  }

  function Elements(s: seq<Addr>): set<Addr> {
    set i | 0 <= i < |s| :: s[i]
  }

  predicate Distinct(s: seq<Addr>) {
    forall i, j :: 0 <= i < j < |s| ==> s[i] != s[j]
  }

  lemma {:induction false} DistinctSize(s: seq<Addr>)
    requires Distinct(s)
    ensures |Elements(s)| == |s|
  {
    if s != [] {
      var rest := s[..|s| - 1];
      DistinctSize(rest);
      assert Elements(s) == Elements(rest) + {s[|s| - 1]};
    }
  }

  // Sorting, one insertion at a time.
  function Insert(byIP: Addresses, x: Addr, s: seq<Addr>): (r: seq<Addr>)
    requires x in byIP && Known(byIP, s)
    ensures Known(byIP, r) && |r| == |s| + 1
    ensures Elements(r) == Elements(s) + {x}
  {
    if s == [] || Ahead(byIP, x, s[0]) then
      assert Elements([x] + s) == Elements(s) + {x} by {
        InsertElements(x, s);
      }
      [x] + s
    else
      assert Elements([s[0]] + Insert(byIP, x, s[1..])) == Elements(s) + {x} by {
        InsertElements(s[0], Insert(byIP, x, s[1..]));
        InsertElements(s[0], s[1..]);
        assert s == [s[0]] + s[1..];
      }
      [s[0]] + Insert(byIP, x, s[1..])
  }

  lemma {:induction false} InsertElements(x: Addr, s: seq<Addr>)
    ensures Elements([x] + s) == Elements(s) + {x}
  {
    var r := [x] + s;
    forall a
      ensures a in Elements(r) <==> a in Elements(s) || a == x
    {
      if a in Elements(s) {
        var i :| 0 <= i < |s| && s[i] == a;
        assert r[i + 1] == a;
      }
      assert r[0] == x;
      if a in Elements(r) && a != x {
        var i :| 0 <= i < |r| && r[i] == a;
        assert s[i - 1] == a;
      }
    }
  }

  lemma {:induction false} InsertOrdered(byIP: Addresses, x: Addr, s: seq<Addr>)
    requires x in byIP && Known(byIP, s) && Ordered(byIP, s) && x !in Elements(s)
    ensures Ordered(byIP, Insert(byIP, x, s))
  {
    if s == [] || Ahead(byIP, x, s[0]) {
      var r := [x] + s;
      forall i, j | 0 <= i < j < |r|
        ensures Ahead(byIP, r[i], r[j])
      {
        if i == 0 && j > 1 {
          assert Ahead(byIP, s[0], s[j - 1]);
        } else if i > 0 {
          assert Ahead(byIP, s[i - 1], s[j - 1]);
        }
      }
    } else {
      var rest := Insert(byIP, x, s[1..]);
      assert s[0] in Elements(s);
      forall a <- Elements(s[1..])
        ensures a in Elements(s)
      {
        var i :| 0 <= i < |s[1..]| && s[1..][i] == a;
        assert s[i + 1] == a;
      }
      InsertOrdered(byIP, x, s[1..]);
      forall j | 0 <= j < |rest|
        ensures Ahead(byIP, s[0], rest[j])
      {
        assert rest[j] in Elements(rest);
        if rest[j] != x {
          var i :| 0 <= i < |s[1..]| && s[1..][i] == rest[j];
          assert s[i + 1] == rest[j];
        }
      }
    }
  }

  function Sort(byIP: Addresses, s: seq<Addr>): (r: seq<Addr>)
    requires Known(byIP, s)
    ensures Known(byIP, r) && |r| == |s| && Elements(r) == Elements(s)
  {
    if s == [] then []
    else
      assert Elements(s) == Elements(s[1..]) + {s[0]} by {
        InsertElements(s[0], s[1..]);
        assert s == [s[0]] + s[1..];
      }
      Insert(byIP, s[0], Sort(byIP, s[1..]))
  }

  lemma {:induction false} SortOrdered(byIP: Addresses, s: seq<Addr>)
    requires Known(byIP, s) && Distinct(s)
    ensures Ordered(byIP, Sort(byIP, s))
  {
    if s != [] {
      SortOrdered(byIP, s[1..]);
      forall i | 0 <= i < |s[1..]|
        ensures s[1..][i] != s[0]
      {
        assert s[i + 1] == s[1..][i];
      }
      InsertOrdered(byIP, s[0], Sort(byIP, s[1..]));
    }
  }

  // The summaries an index keeps are those of its evidence.
  ghost predicate Summarizes(byIP: Addresses, v: View, ip: Addr) {
    && (ip in Candidates(v) <==> ip in byIP && byIP[ip].bump != {})
    && (ip in byIP ==> Bitmaps(byIP[ip].bump, byIP[ip].routing) == Fold(v, ip) && byIP[ip].priority == Priority(v, ip))
  }

  lemma {:induction false} IndexSummarizes(byName: Names, byIP: Addresses, pairs: set<DomainPair>, v: View, ip: Addr)
    requires Consistent(byName, byIP, pairs, v, {})
    ensures Summarizes(byIP, v, ip)
  {
    assert AddrOk(byIP, v, {}, ip);
    CandidateHasBits(v, ip);
    if ip !in byIP {
      NoNames(byName, byIP, pairs, v, ip);
    }
  }

  lemma {:induction false} PrefixElements(s: seq<Addr>, max: nat, j: nat)
    requires j < |s| && max <= |s|
    ensures j < max ==> s[j] in Elements(s[..max])
  {
    assert j < max ==> s[..max][j] == s[j];
  }

  lemma {:induction false} ElementsSnoc(s: seq<Addr>, x: Addr)
    ensures Elements(s + [x]) == Elements(s) + {x}
  {
    var r := s + [x];
    forall a
      ensures a in Elements(r) <==> a in Elements(s) || a == x
    {
      if a in Elements(s) {
        var i :| 0 <= i < |s| && s[i] == a;
        assert r[i] == a;
      }
      assert r[|s|] == x;
    }
  }

  // The first entries of an ordered list of all candidates are the top.
  lemma {:induction false} PrefixIsTop(byIP: Addresses, v: View, s: seq<Addr>, max: nat)
    requires forall ip {:trigger Summarizes(byIP, v, ip)} :: Summarizes(byIP, v, ip)
    requires Known(byIP, s) && Elements(s) == Candidates(v) && Ordered(byIP, s) && max < |s|
    ensures IsTop(v, max, Elements(s[..max]))
  {
    var top := Elements(s[..max]);
    forall i, j | 0 <= i < j < |s|
      ensures s[i] != s[j]
    {
      assert Ahead(byIP, s[i], s[j]);
    }
    DistinctSize(s);
    DistinctSize(s[..max]);
    forall a <- top
      ensures a in Candidates(v)
    {
      var i :| 0 <= i < |s[..max]| && s[..max][i] == a;
      assert s[i] in Elements(s);
    }
    forall a, b | a in top && b in Candidates(v) - top
      ensures Above(v, a, b)
    {
      var i :| 0 <= i < |s[..max]| && s[..max][i] == a;
      var j :| 0 <= j < |s| && s[j] == b;
      PrefixElements(s, max, j);
      assert Ahead(byIP, s[i], s[j]) && Summarizes(byIP, v, a) && Summarizes(byIP, v, b);
    }
  }

  lemma {:induction false} AllIsTop(v: View, max: nat)
    requires |Candidates(v)| <= max
    ensures IsTop(v, max, Candidates(v))
  {
  }

  // The records outside todo that have a bump, each once.
  ghost predicate Listed(byIP: Addresses, todo: set<Addr>, states: seq<Addr>) {
    && Known(byIP, states) && Distinct(states)
    && Elements(states) == set ip | ip in byIP.Keys - todo && byIP[ip].bump != {}
  }

  lemma {:induction false} ListedNext(byIP: Addresses, todo: set<Addr>, states: seq<Addr>, ip: Addr)
    requires Listed(byIP, todo, states) && ip in todo && todo <= byIP.Keys
    ensures Listed(byIP, todo - {ip}, if byIP[ip].bump != {} then states + [ip] else states)
  {
    assert byIP.Keys - (todo - {ip}) == byIP.Keys - todo + {ip};
    if byIP[ip].bump != {} {
      ElementsSnoc(states, ip);
      assert ip !in Elements(states);
      assert forall i :: 0 <= i < |states| ==> states[i] in Elements(states);
    }
  }

  lemma {:induction false} ListedAll(byIP: Addresses, v: View, states: seq<Addr>)
    requires forall ip {:trigger Summarizes(byIP, v, ip)} :: Summarizes(byIP, v, ip)
    requires Listed(byIP, {}, states)
    ensures Elements(states) == Candidates(v)
  {
    forall ip
      ensures ip in Elements(states) <==> ip in Candidates(v)
    {
      assert Summarizes(byIP, v, ip);
    }
  }

  method ListCandidates(byIP: Addresses, ghost v: View) returns (states: seq<Addr>)
    requires forall ip {:trigger Summarizes(byIP, v, ip)} :: Summarizes(byIP, v, ip)
    ensures Known(byIP, states) && Distinct(states) && Elements(states) == Candidates(v)
  {
    states := [];
    var todo := byIP.Keys;
    while todo != {}
      invariant todo <= byIP.Keys && Listed(byIP, todo, states)
      decreases |todo|
    {
      var ip :| ip in todo;
      ListedNext(byIP, todo, states, ip);
      if byIP[ip].bump != {} {
        states := states + [ip];
      }
      todo := todo - {ip};
    }
    ListedAll(byIP, v, states);
  }

  method SelectTop(byIP: Addresses, max: nat, ghost v: View) returns (top: set<Addr>)
    requires forall ip {:trigger Summarizes(byIP, v, ip)} :: Summarizes(byIP, v, ip)
    ensures IsTop(v, max, top)
  {
    var states := ListCandidates(byIP, v);
    DistinctSize(states);
    if |states| > max {
      SortOrdered(byIP, states);
      states := Sort(byIP, states);
      PrefixIsTop(byIP, v, states, max);
      states := states[..max];
    } else {
      AllIsTop(v, max);
    }
    top := Elements(states);
  }
}
