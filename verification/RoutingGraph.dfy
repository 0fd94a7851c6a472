/** Validation of the rule-set reference graph: one memoized depth-first search
    that decides definedness, acyclicity and bounded depth together. */
module RoutingGraph {
  import opened RoutingPolicies

  const MAX_REFERENCE_DEPTH: nat := 64

  predicate Uses(statements: seq<Statement>, name: string) {
    exists s <- statements :: s.UseStatement? && s.name == name
  }

  // A reference chain out of a block; the block itself is not listed.
  predicate Chain(sets: RuleSets, block: seq<Statement>, path: seq<string>)
    decreases |path|
  {
    path == [] || (path[0] in sets && Uses(block, path[0]) && Chain(sets, sets[path[0]], path[1..]))
  }

  // The block at the end of a chain.
  function End(sets: RuleSets, block: seq<Statement>, path: seq<string>): seq<Statement>
    requires Chain(sets, block, path)
    decreases |path|
  {
    if path == [] then block else End(sets, sets[path[0]], path[1..])
  }

  predicate Defined(sets: RuleSets, block: seq<Statement>) {
    forall s <- block :: s.UseStatement? ==> s.name in sets
  }

  predicate Repeats(path: seq<string>) {
    exists i, j :: 0 <= i < j < |path| && path[i] == path[j]
  }

  // What is demanded of one chain out of a block: it repeats no rule set, its
  // end refers only to defined sets, and with the block it has at most 64 blocks.
  ghost predicate Proper(sets: RuleSets, block: seq<Statement>, path: seq<string>)
    requires Chain(sets, block, path)
  {
    |path| + 1 <= MAX_REFERENCE_DEPTH && Defined(sets, End(sets, block, path)) && !Repeats(path)
  }

  ghost predicate Sound(sets: RuleSets, block: seq<Statement>) {
    forall path {:trigger Chain(sets, block, path)} :: Chain(sets, block, path) ==> Proper(sets, block, path)
  }

  // depth counts the blocks of the longest chain, which exists.
  ghost predicate Measured(sets: RuleSets, block: seq<Statement>, depth: nat) {
    && (forall path {:trigger Chain(sets, block, path)} ::
          Chain(sets, block, path) ==> |path| < depth && Defined(sets, End(sets, block, path)))
    && exists path {:trigger Chain(sets, block, path)} :: Chain(sets, block, path) && |path| + 1 == depth
  }

  lemma {:induction false} ChainConcat(sets: RuleSets, block: seq<Statement>, a: seq<string>, b: seq<string>)
    requires Chain(sets, block, a)
    ensures Chain(sets, block, a + b) <==> Chain(sets, End(sets, block, a), b)
    ensures Chain(sets, block, a + b) ==> End(sets, block, a + b) == End(sets, End(sets, block, a), b)
    decreases |a|
  {
    if a == [] {
      assert a + b == b;
    } else {
      assert (a + b)[1..] == a[1..] + b;
      ChainConcat(sets, sets[a[0]], a[1..], b);
    }
  }

  lemma {:induction false} ChainSplit(sets: RuleSets, block: seq<Statement>, a: seq<string>, b: seq<string>)
    requires Chain(sets, block, a + b)
    ensures Chain(sets, block, a)
    decreases |a|
  {
    if a != [] {
      assert (a + b)[1..] == a[1..] + b;
      ChainSplit(sets, sets[a[0]], a[1..], b);
    }
  }

  lemma {:induction false} EndIsLast(sets: RuleSets, block: seq<Statement>, path: seq<string>)
    requires path != [] && Chain(sets, block, path)
    ensures path[|path| - 1] in sets && End(sets, block, path) == sets[path[|path| - 1]]
    decreases |path|
  {
    if |path| > 1 {
      EndIsLast(sets, sets[path[0]], path[1..]);
    }
  }

  // Going around a cycle once more gives a longer chain with the same end.
  lemma {:induction false} GoAround(sets: RuleSets, block: seq<Statement>, path: seq<string>, loop: seq<string>,
                                    length: nat)
    returns (longer: seq<string>)
    requires Chain(sets, block, path) && loop != []
    requires Chain(sets, End(sets, block, path), loop)
    requires End(sets, End(sets, block, path), loop) == End(sets, block, path)
    ensures Chain(sets, block, longer) && |longer| >= length
    decreases if |path| < length then length - |path| else 0
  {
    if |path| >= length {
      longer := path;
    } else {
      ChainConcat(sets, block, path, loop);
      longer := GoAround(sets, block, path + loop, loop, length);
    }
  }

  lemma {:induction false} RepeatsGrow(sets: RuleSets, block: seq<Statement>, path: seq<string>, length: nat)
    returns (longer: seq<string>)
    requires Chain(sets, block, path) && Repeats(path)
    ensures Chain(sets, block, longer) && |longer| >= length
  {
    var i, j :| 0 <= i < j < |path| && path[i] == path[j];
    var to, loop := path[..i + 1], path[i + 1..j + 1];
    assert path == path[..j + 1] + path[j + 1..];
    ChainSplit(sets, block, path[..j + 1], path[j + 1..]);
    assert path[..j + 1] == to + loop;
    ChainSplit(sets, block, to, loop);
    ChainConcat(sets, block, to, loop);
    EndIsLast(sets, block, to);
    EndIsLast(sets, block, to + loop);
    longer := GoAround(sets, block, to, loop, length);
  }

  lemma {:induction false} MeasuredIsSound(sets: RuleSets, block: seq<Statement>, depth: nat)
    requires Measured(sets, block, depth) && depth <= MAX_REFERENCE_DEPTH
    ensures Sound(sets, block)
  {
    forall path | Chain(sets, block, path)
      ensures Proper(sets, block, path)
    {
      if Repeats(path) {
        var _ := RepeatsGrow(sets, block, path, depth);
      }
    }
  }

  // ------ The search ------

  type Depths = map<string, nat>

  // Zero marks the rule sets on the stack; every other entry is exact.
  ghost predicate Memo(sets: RuleSets, depths: Depths, stack: seq<string>) {
    && (forall name :: name in stack ==> name in depths)
    && (forall name :: name in depths ==> name in sets && Entry(sets, depths, stack, name))
  }

  ghost predicate Entry(sets: RuleSets, depths: Depths, stack: seq<string>, name: string)
    requires name in depths && name in sets
  {
    if depths[name] == 0 then name in stack else name !in stack && Measured(sets, sets[name], depths[name])
  }

  // The statements examined so far, as a block of their own.
  ghost predicate Examined(sets: RuleSets, block: seq<Statement>, i: nat, depth: nat)
    requires i <= |block|
  {
    Measured(sets, block[..i], depth) && 1 <= depth <= MAX_REFERENCE_DEPTH
  }

  lemma {:induction false} UsesSnoc(block: seq<Statement>, i: nat, name: string)
    requires i < |block|
    ensures Uses(block[..i + 1], name) <==> Uses(block[..i], name) || (block[i].UseStatement? && block[i].name == name)
  {
    assert block[..i + 1] == block[..i] + [block[i]];
  }

  // Appending a statement that is not a use changes no chain.
  lemma {:induction false} ExaminedRule(sets: RuleSets, block: seq<Statement>, i: nat, depth: nat)
    requires i < |block| && Examined(sets, block, i, depth) && block[i].RuleStatement?
    ensures Examined(sets, block, i + 1, depth)
  {
    var before, after := block[..i], block[..i + 1];
    assert Chain(sets, before, []);
    assert after == before + [block[i]];
    forall path
      ensures Chain(sets, after, path) == Chain(sets, before, path)
      ensures Chain(sets, after, path) && path != [] ==> End(sets, after, path) == End(sets, before, path)
    {
      if path != [] {
        UsesSnoc(block, i, path[0]);
      }
    }
  }

  // A use of a measured rule set extends the longest chain by that set.
  lemma {:induction false} ExaminedUse(sets: RuleSets, block: seq<Statement>, i: nat, depth: nat, child: nat)
    requires i < |block| && Examined(sets, block, i, depth) && block[i].UseStatement? && block[i].name in sets
    requires Measured(sets, sets[block[i].name], child)
    ensures Measured(sets, block[..i + 1], if child + 1 > depth then child + 1 else depth)
  {
    var before, after, name := block[..i], block[..i + 1], block[i].name;
    var longest := if child + 1 > depth then child + 1 else depth;
    assert after == before + [block[i]];
    assert Chain(sets, before, []);
    forall path | Chain(sets, after, path)
      ensures |path| < longest && Defined(sets, End(sets, after, path))
    {
      if path != [] {
        UsesSnoc(block, i, path[0]);
        if Uses(before, path[0]) {
          assert Chain(sets, before, path);
        } else {
          assert Chain(sets, sets[name], path[1..]);
        }
      }
    }
    if child + 1 > depth {
      var path :| Chain(sets, sets[name], path) && |path| + 1 == child;
      UsesSnoc(block, i, name);
      assert ([name] + path)[1..] == path;
      assert Chain(sets, after, [name] + path);
    } else {
      var path :| Chain(sets, before, path) && |path| + 1 == depth;
      if path != [] {
        UsesSnoc(block, i, path[0]);
      }
      assert Chain(sets, after, path);
    }
  }

  lemma {:induction false} Broken(sets: RuleSets, start: seq<Statement>, path: seq<string>)
    requires Chain(sets, start, path)
    requires |path| >= MAX_REFERENCE_DEPTH || !Defined(sets, End(sets, start, path)) || Repeats(path)
    ensures !Sound(sets, start)
  {
    assert !Proper(sets, start, path);
  }

  lemma {:induction false} Revisited(sets: RuleSets, start: seq<Statement>, stack: seq<string>, name: string)
    requires Chain(sets, start, stack + [name]) && name in stack
    ensures !Sound(sets, start)
  {
    var at :| 0 <= at < |stack| && stack[at] == name;
    assert (stack + [name])[at] == (stack + [name])[|stack|];
    Broken(sets, start, stack + [name]);
  }

  // The chain of the search so far, extended by a use of its last block.
  lemma {:induction false} Extended(sets: RuleSets, start: seq<Statement>, stack: seq<string>, block: seq<Statement>,
                                    name: string, more: seq<string>)
    requires Chain(sets, start, stack) && End(sets, start, stack) == block && Uses(block, name) && name in sets
    requires Chain(sets, sets[name], more)
    ensures Chain(sets, start, stack + [name] + more)
    ensures Chain(sets, start, stack + [name]) && End(sets, start, stack + [name]) == sets[name]
  {
    assert [name][1..] == [] && ([name] + more)[1..] == more;
    ChainConcat(sets, start, stack, [name]);
    ChainConcat(sets, start, stack + [name], more);
  }

  // The depth of one rule set used by the current block.
  method Visit(sets: RuleSets, depths: Depths, stack: seq<string>, block: seq<Statement>, name: string,
               ghost start: seq<Statement>)
    returns (ok: bool, child: nat, depths': Depths)
    requires |stack| <= MAX_REFERENCE_DEPTH && Memo(sets, depths, stack)
    requires Chain(sets, start, stack) && End(sets, start, stack) == block && Uses(block, name) && name in sets
    ensures ok ==> Measured(sets, sets[name], child) && Memo(sets, depths', stack)
    ensures !ok ==> !Sound(sets, start)
    decreases MAX_REFERENCE_DEPTH - |stack|, 0
  {
    Extended(sets, start, stack, block, name, []);
    if name in depths {
      assert Entry(sets, depths, stack, name);
      if depths[name] == 0 {
        Revisited(sets, start, stack, name);
        return false, 0, depths;
      }
      return true, depths[name], depths;
    }
    if |stack| >= MAX_REFERENCE_DEPTH {
      Broken(sets, start, stack);
      return false, 0, depths;
    }
    assert name !in stack;
    Pushed(sets, depths, stack, name);
    ok, child, depths' := Resolve(sets, depths[name := 0], stack + [name], sets[name], start);
    if ok {
      Popped(sets, depths', stack, name, child);
      depths' := depths'[name := child];
    }
  }

  method Resolve(sets: RuleSets, depths: Depths, stack: seq<string>, block: seq<Statement>, ghost start: seq<Statement>)
    returns (ok: bool, depth: nat, depths': Depths)
    requires |stack| <= MAX_REFERENCE_DEPTH && Memo(sets, depths, stack)
    requires Chain(sets, start, stack) && End(sets, start, stack) == block
    ensures ok ==> Measured(sets, block, depth) && depth <= MAX_REFERENCE_DEPTH && Memo(sets, depths', stack)
    ensures !ok ==> !Sound(sets, start)
    decreases MAX_REFERENCE_DEPTH - |stack|, 1
  {
    depth, depths' := 1, depths;
    var i := 0;
    assert Chain(sets, block[..0], []);
    while i < |block|
      invariant 0 <= i <= |block|
      invariant Examined(sets, block, i, depth) && Memo(sets, depths', stack)
    {
      if block[i].RuleStatement? {
        ExaminedRule(sets, block, i, depth);
        i := i + 1;
        continue;
      }
      var name := block[i].name;
      assert block[i] in block;
      if name !in sets {
        Broken(sets, start, stack);
        return false, 0, depths';
      }
      assert Uses(block, name);
      var child;
      ok, child, depths' := Visit(sets, depths', stack, block, name, start);
      if !ok {
        return;
      }
      ExaminedUse(sets, block, i, depth, child);
      depth := if child + 1 > depth then child + 1 else depth;
      if depth > MAX_REFERENCE_DEPTH {
        TooDeep(sets, start, stack, block, name, child);
        return false, 0, depths';
      }
      i := i + 1;
    }
    assert block[..|block|] == block;
    ok := true;
  }

  lemma {:induction false} TooDeep(sets: RuleSets, start: seq<Statement>, stack: seq<string>, block: seq<Statement>,
                                   name: string, child: nat)
    requires Chain(sets, start, stack) && End(sets, start, stack) == block && Uses(block, name) && name in sets
    requires Measured(sets, sets[name], child) && child >= MAX_REFERENCE_DEPTH
    ensures !Sound(sets, start)
  {
    var path :| Chain(sets, sets[name], path) && |path| + 1 == child;
    Extended(sets, start, stack, block, name, path);
    Broken(sets, start, stack + [name] + path);
  }

  lemma {:induction false} Pushed(sets: RuleSets, depths: Depths, stack: seq<string>, name: string)
    requires Memo(sets, depths, stack) && name in sets && name !in depths
    ensures Memo(sets, depths[name := 0], stack + [name])
  {
    var now := depths[name := 0];
    forall n | n in now
      ensures Entry(sets, now, stack + [name], n)
    {
      if n != name {
        assert Entry(sets, depths, stack, n);
      }
    }
  }

  lemma {:induction false} Popped(sets: RuleSets, depths: Depths, stack: seq<string>, name: string, child: nat)
    requires Memo(sets, depths, stack + [name]) && name in sets && name !in stack
    requires Measured(sets, sets[name], child)
    ensures Memo(sets, depths[name := child], stack)
  {
    assert Chain(sets, sets[name], []);
    var now := depths[name := child];
    forall n | n in now
      ensures n in sets && Entry(sets, now, stack, n)
    {
      if n != name {
        assert Entry(sets, depths, stack + [name], n);
      }
    }
  }

  // References go down in measured depth.
  lemma {:induction false} MeasuredRanks(sets: RuleSets, block: seq<Statement>, depth: nat, rank: Ranks)
    requires Measured(sets, block, depth)
    requires forall name :: name in sets ==> name in rank && Measured(sets, sets[name], rank[name])
    ensures Below(sets, rank, block, depth)
  {
    forall s <- block | s.UseStatement? && s.name in sets
      ensures rank[s.name] < depth
    {
      Deeper(sets, block, depth, s.name, rank[s.name]);
    }
  }

  lemma {:induction false} Deeper(sets: RuleSets, block: seq<Statement>, depth: nat, name: string, child: nat)
    requires Measured(sets, block, depth) && Uses(block, name)
    requires name in sets && Measured(sets, sets[name], child)
    ensures child < depth
  {
    var path :| Chain(sets, sets[name], path) && |path| + 1 == child;
    assert ([name] + path)[1..] == path;
    assert Chain(sets, block, [name] + path);
  }

  // Every rule set and both blocks of every policy are checked. A failure means
  // that some block really is cyclic, too deep or refers to an undefined set.
  method Validate(names: seq<string>, sets: RuleSets, policies: seq<Policy>) returns (ok: bool, ghost rank: Ranks)
    requires forall name :: name in sets <==> name in names
    ensures ok <==>
      && (forall name <- names :: Sound(sets, sets[name]))
      && (forall p <- policies :: Sound(sets, p.statements) && Sound(sets, p.rules))
    ensures ok ==> Ranked(sets, rank) && forall name :: name in sets ==> rank[name] <= MAX_REFERENCE_DEPTH
  {
    var depths: Depths := map[];
    rank := map[];
    var i, depth := 0, 0;
    while i < |names|
      invariant 0 <= i <= |names| && Memo(sets, depths, [])
      invariant forall name <- names[..i] ::
        name in rank && rank[name] <= MAX_REFERENCE_DEPTH && Measured(sets, sets[name], rank[name])
    {
      ok, depth, depths := Resolve(sets, depths, [], sets[names[i]], sets[names[i]]);
      if !ok {
        assert names[i] in names;
        return;
      }
      rank := rank[names[i] := depth];
      assert names[..i + 1] == names[..i] + [names[i]];
      i := i + 1;
    }
    assert names[..|names|] == names;
    forall name <- names
      ensures Sound(sets, sets[name]) && Below(sets, rank, sets[name], rank[name])
    {
      MeasuredIsSound(sets, sets[name], rank[name]);
      MeasuredRanks(sets, sets[name], rank[name], rank);
    }
    i := 0;
    while i < |policies|
      invariant 0 <= i <= |policies| && Memo(sets, depths, [])
      invariant forall p <- policies[..i] :: Sound(sets, p.statements) && Sound(sets, p.rules)
    {
      ok, depth, depths := Resolve(sets, depths, [], policies[i].statements, policies[i].statements);
      if !ok {
        assert policies[i] in policies;
        return;
      }
      MeasuredIsSound(sets, policies[i].statements, depth);
      ok, depth, depths := Resolve(sets, depths, [], policies[i].rules, policies[i].rules);
      if !ok {
        assert policies[i] in policies;
        return;
      }
      MeasuredIsSound(sets, policies[i].rules, depth);
      assert policies[..i + 1] == policies[..i] + [policies[i]];
      i := i + 1;
    }
    assert policies[..|policies|] == policies;
    ok := true;
  }
}
