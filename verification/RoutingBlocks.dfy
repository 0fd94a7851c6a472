/** Conditional blocks of one profile: nested or disjoint, within one phase and
    ending between rules. Then a single end position replaces a scope stack. */
module RoutingBlocks {
  import opened RoutingInstructions
  import opened RoutingSpans
  import opened RoutingCursor

  predicate Conditional(op: Op) {
    op.instr.action == ConditionalJump
  }

  function ScopeEnd(code: seq<Op>, p: nat): nat
    requires p < |code|
  {
    p + code[p].instr.mark
  }

  predicate JumpFits(code: seq<Op>, p: nat)
    requires p < |code|
  {
    Linking(code[p].instr) || Conditional(code[p]) ==> 0 < code[p].instr.mark <= |code| - p
  }

  // Position q lies in the body of the conditional block entered at p.
  predicate Encloses(code: seq<Op>, p: nat, q: nat) {
    p < q < |code| && Conditional(code[p]) && q < ScopeEnd(code, p)
  }

  // A conditional block ends before position q.
  predicate EndsAt(code: seq<Op>, p: nat, q: nat) {
    p < q < |code| && Conditional(code[p]) && ScopeEnd(code, p) == q
  }

  // What the scan has established for all positions before `limit`.

  ghost predicate JumpsFit(code: seq<Op>, limit: nat)
    requires limit <= |code|
  {
    forall p: nat {:trigger JumpFits(code, p)} :: p < limit ==> JumpFits(code, p)
  }

  ghost predicate OnePhase(code: seq<Op>, limit: nat)
    requires limit <= |code|
  {
    forall p: nat, q: nat {:trigger Encloses(code, p, q)} ::
      q < limit && Encloses(code, p, q) ==> code[q].phase == code[p].phase
  }

  ghost predicate Nested(code: seq<Op>, limit: nat)
    requires limit <= |code|
  {
    forall p: nat, q: nat {:trigger Encloses(code, p, q)} ::
      q < limit && Encloses(code, p, q) && Conditional(code[q]) ==> ScopeEnd(code, q) <= ScopeEnd(code, p)
  }

  ghost predicate EndBetweenRules(code: seq<Op>, limit: nat)
    requires limit <= |code|
  {
    forall p: nat, q: nat {:trigger EndsAt(code, p, q)} ::
      q < limit && EndsAt(code, p, q) ==> !Linking(code[q - 1].instr)
  }

  ghost predicate WellNested(code: seq<Op>, limit: nat)
    requires limit <= |code|
  {
    JumpsFit(code, limit) && OnePhase(code, limit) && Nested(code, limit) && EndBetweenRules(code, limit)
  }

  datatype OpenScope = OpenScope(end: nat, phase: Phase)

  // The scan's stack holds the open scopes, innermost last.
  ghost predicate Tracks(code: seq<Op>, position: nat, scopes: seq<OpenScope>, starts: seq<nat>)
    requires position <= |code|
  {
    && |starts| == |scopes|
    && (forall k :: 0 <= k < |scopes| ==> Opens(code, position, starts[k], scopes[k]))
    && Narrowing(scopes)
    && Complete(code, position, starts)
  }

  ghost predicate Opens(code: seq<Op>, position: nat, start: nat, scope: OpenScope)
    requires position <= |code|
  {
    && start < position <= scope.end
    && Conditional(code[start])
    && scope == OpenScope(ScopeEnd(code, start), code[start].phase)
  }

  ghost predicate Narrowing(scopes: seq<OpenScope>) {
    forall j, k :: 0 <= j < k < |scopes| ==> scopes[k].end <= scopes[j].end && scopes[k].phase == scopes[j].phase
  }

  ghost predicate Complete(code: seq<Op>, position: nat, starts: seq<nat>)
    requires position <= |code|
  {
    forall p: nat :: p < position && Conditional(code[p]) && position <= ScopeEnd(code, p) ==> p in starts
  }

  // Exactly the outermost n scopes stay open at this position.
  ghost predicate Closed(code: seq<Op>, position: nat, scopes: seq<OpenScope>, starts: seq<nat>, n: nat)
    requires position < |code|
  {
    && Tracks(code, position, scopes, starts) && n <= |scopes|
    && (forall k :: n <= k < |scopes| ==> scopes[k].end == position)
    && (forall k :: 0 <= k < n ==> position < scopes[k].end)
    && (n < |scopes| ==> position > 0 && !Linking(code[position - 1].instr))
  }

  // Close the scopes that end here; `previous` is the action just before.
  method CloseScopes(ghost code: seq<Op>, position: nat, scopes: seq<OpenScope>, ghost starts: seq<nat>,
                     previous: Action)
    returns (ok: bool, open: seq<OpenScope>, ghost kept: seq<nat>, ghost culprit: nat)
    requires position < |code| && Tracks(code, position, scopes, starts)
    requires position > 0 ==> previous == code[position - 1].instr.action
    ensures ok ==> Closed(code, position, scopes, starts, |open|)
    ensures ok ==> open == scopes[..|open|] && kept == starts[..|open|]
    ensures !ok ==> culprit < position && Conditional(code[culprit]) && ScopeEnd(code, culprit) == position
    ensures !ok ==> Linking(code[position - 1].instr)
  {
    open, kept, culprit := scopes, starts, 0;
    while |open| != 0 && position >= open[|open| - 1].end
      invariant open <= scopes && kept <= starts && |open| == |kept|
      invariant forall k :: |open| <= k < |scopes| ==> scopes[k].end == position
      invariant |open| < |scopes| ==> position > 0 && !Linking(code[position - 1].instr)
    {
      if previous == Or || previous == And {
        return false, [], [], starts[|open| - 1];
      }
      open, kept := open[..|open| - 1], kept[..|open| - 1];
    }
    ok := true;
  }

  // Accepts exactly the well-nested programs.
  method ValidateRoutingBlocks(pool: seq<Instr>, spans: seq<Span>) returns (ok: bool)
    requires InPool(pool, spans)
    ensures var code := Flatten(pool, spans); ok == WellNested(code, |code|)
  {
    ghost var code := Flatten(pool, spans);
    FlattenLength(pool, spans);
    var scopes: seq<OpenScope>, previous := [], Route;
    ghost var starts: seq<nat> := [];
    var cursor := new Cursor(spans);
    while cursor.span < |spans|
      invariant fresh(cursor) && cursor.Valid() && cursor.spans == spans && cursor.length == |code|
      invariant Tracks(code, cursor.position, scopes, starts)
      invariant WellNested(code, cursor.position)
      invariant cursor.position > 0 ==> previous == code[cursor.position - 1].instr.action
      decreases |code| - cursor.position
    {
      var position, phase, instr := cursor.position, spans[cursor.span].phase, pool[cursor.instruction];
      FlattenAt(pool, spans, cursor.span, cursor.instruction);
      ok, scopes, starts := CheckPosition(code, position, cursor.length, instr, phase, scopes, starts, previous);
      if !ok {
        return false;
      }
      previous := instr.action;
      var _ := cursor.Advance(1);
    }
    return true;
  }

  method CheckPosition(ghost code: seq<Op>, position: nat, length: nat, instr: Instr, phase: Phase,
                       scopes: seq<OpenScope>, ghost starts: seq<nat>, previous: Action)
    returns (ok: bool, next: seq<OpenScope>, ghost nextStarts: seq<nat>)
    requires position < |code| == length && code[position] == Op(instr, phase)
    requires Tracks(code, position, scopes, starts) && WellNested(code, position)
    requires position > 0 ==> previous == code[position - 1].instr.action
    ensures ok ==> WellNested(code, position + 1) && Tracks(code, position + 1, next, nextStarts)
    ensures !ok ==> !WellNested(code, |code|)
  {
    var closed;
    ghost var kept, culprit;
    closed, next, kept, culprit := CloseScopes(code, position, scopes, starts, previous);
    nextStarts := kept;
    if !closed {
      BadEnd(code, culprit, position);
      return false, [], [];
    }
    ghost var n := |next|;
    if |next| != 0 && phase != next[|next| - 1].phase {
      BadPhase(code, starts[n - 1], position);
      return false, [], [];
    }
    if instr.action == Or || instr.action == And || instr.action == ConditionalJump {
      if instr.mark == 0 || instr.mark > length - position {
        BadJump(code, position);
        return false, [], [];
      }
    }
    if instr.action == ConditionalJump {
      if |next| != 0 && position + instr.mark > next[|next| - 1].end {
        BadNesting(code, starts[n - 1], position);
        return false, [], [];
      }
      next, nextStarts := next + [OpenScope(position + instr.mark, phase)], nextStarts + [position];
      TracksPushed(code, position, scopes, starts, n, next, nextStarts);
    } else {
      TracksKept(code, position, scopes, starts, n);
    }
    Extended(code, position, scopes, starts, n);
    return true, next, nextStarts;
  }

  lemma {:induction false} StillOpen(code: seq<Op>, position: nat, scopes: seq<OpenScope>, starts: seq<nat>, n: nat)
    requires position < |code| && Tracks(code, position, scopes, starts) && n <= |scopes|
    requires forall k :: n <= k < |scopes| ==> scopes[k].end == position
    ensures forall p: nat :: p < position && Conditional(code[p]) && position < ScopeEnd(code, p) ==> p in starts[..n]
  {
    forall p: nat | p < position && Conditional(code[p]) && position < ScopeEnd(code, p)
      ensures p in starts[..n]
    {
      var k :| 0 <= k < |starts| && starts[k] == p;
      assert Opens(code, position, p, scopes[k]);
      assert starts[..n][k] == p;
    }
  }

  // The position fits the scopes that stay open around it.
  ghost predicate Fits(code: seq<Op>, position: nat, scopes: seq<OpenScope>, starts: seq<nat>, n: nat)
    requires position < |code|
  {
    && Closed(code, position, scopes, starts, n)
    && (n > 0 ==> code[position].phase == scopes[n - 1].phase)
    && (n > 0 && Conditional(code[position]) ==> ScopeEnd(code, position) <= scopes[n - 1].end)
    && JumpFits(code, position)
  }

  lemma {:induction false} Surrounding(code: seq<Op>, position: nat, scopes: seq<OpenScope>, starts: seq<nat>, n: nat,
                                       p: nat)
    requires position < |code| && Fits(code, position, scopes, starts, n)
    requires p < position && Conditional(code[p]) && position < ScopeEnd(code, p)
    ensures code[position].phase == code[p].phase
    ensures Conditional(code[position]) ==> ScopeEnd(code, position) <= ScopeEnd(code, p)
  {
    StillOpen(code, position, scopes, starts, n);
    var k :| 0 <= k < n && starts[..n][k] == p;
    assert Opens(code, position, starts[k], scopes[k]);
    assert k < n - 1 ==> scopes[n - 1].end <= scopes[k].end && scopes[n - 1].phase == scopes[k].phase;
  }

  lemma {:induction false} ExtendedPhase(code: seq<Op>, position: nat, scopes: seq<OpenScope>, starts: seq<nat>, n: nat)
    requires position < |code| && Fits(code, position, scopes, starts, n) && OnePhase(code, position)
    ensures OnePhase(code, position + 1)
  {
    forall p: nat, q: nat | q < position + 1 && Encloses(code, p, q)
      ensures code[q].phase == code[p].phase
    {
      if q == position {
        Surrounding(code, position, scopes, starts, n, p);
      }
    }
  }

  lemma {:induction false} ExtendedNesting(code: seq<Op>, position: nat, scopes: seq<OpenScope>, starts: seq<nat>,
                                           n: nat)
    requires position < |code| && Fits(code, position, scopes, starts, n) && Nested(code, position)
    ensures Nested(code, position + 1)
  {
    forall p: nat, q: nat | q < position + 1 && Encloses(code, p, q) && Conditional(code[q])
      ensures ScopeEnd(code, q) <= ScopeEnd(code, p)
    {
      if q == position {
        Surrounding(code, position, scopes, starts, n, p);
      }
    }
  }

  lemma {:induction false} ExtendedEnds(code: seq<Op>, position: nat, scopes: seq<OpenScope>, starts: seq<nat>, n: nat)
    requires position < |code| && Fits(code, position, scopes, starts, n) && EndBetweenRules(code, position)
    ensures EndBetweenRules(code, position + 1)
  {
    forall p: nat, q: nat | q < position + 1 && EndsAt(code, p, q)
      ensures !Linking(code[q - 1].instr)
    {
      if q == position {
        assert p in starts;
      }
    }
  }

  lemma {:induction false} Extended(code: seq<Op>, position: nat, scopes: seq<OpenScope>, starts: seq<nat>, n: nat)
    requires position < |code| && Fits(code, position, scopes, starts, n) && WellNested(code, position)
    ensures WellNested(code, position + 1)
  {
    ExtendedPhase(code, position, scopes, starts, n);
    ExtendedNesting(code, position, scopes, starts, n);
    ExtendedEnds(code, position, scopes, starts, n);
  }

  lemma {:induction false} CompleteOn(code: seq<Op>, position: nat, scopes: seq<OpenScope>, starts: seq<nat>, n: nat)
    requires position < |code| && Fits(code, position, scopes, starts, n)
    ensures !Conditional(code[position]) ==> Complete(code, position + 1, starts[..n])
    ensures Complete(code, position + 1, starts[..n] + [position])
  {
    StillOpen(code, position, scopes, starts, n);
    var pushed := starts[..n] + [position];
    assert pushed[n] == position;
    forall p: nat | p < position + 1 && Conditional(code[p]) && position + 1 <= ScopeEnd(code, p)
      ensures p in pushed
      ensures !Conditional(code[position]) ==> p in starts[..n]
    {
      if p < position {
        var k :| 0 <= k < n && starts[..n][k] == p;
        assert pushed[k] == p;
      }
    }
  }

  lemma {:induction false} TracksKept(code: seq<Op>, position: nat, scopes: seq<OpenScope>, starts: seq<nat>, n: nat)
    requires position < |code| && Fits(code, position, scopes, starts, n) && !Conditional(code[position])
    ensures Tracks(code, position + 1, scopes[..n], starts[..n])
  {
    CompleteOn(code, position, scopes, starts, n);
    forall k | 0 <= k < n
      ensures Opens(code, position + 1, starts[..n][k], scopes[..n][k])
    {
      assert Opens(code, position, starts[k], scopes[k]);
    }
  }

  lemma {:induction false} TracksPushed(code: seq<Op>, position: nat, scopes: seq<OpenScope>, starts: seq<nat>, n: nat,
                                        next: seq<OpenScope>, nextStarts: seq<nat>)
    requires position < |code| && Fits(code, position, scopes, starts, n) && Conditional(code[position])
    requires next == scopes[..n] + [OpenScope(ScopeEnd(code, position), code[position].phase)]
    requires nextStarts == starts[..n] + [position]
    ensures Tracks(code, position + 1, next, nextStarts)
  {
    CompleteOn(code, position, scopes, starts, n);
    forall k | 0 <= k < n + 1
      ensures Opens(code, position + 1, nextStarts[k], next[k])
    {
      assert k < n ==> Opens(code, position, starts[k], scopes[k]);
    }
    forall j, k | 0 <= j < k < n + 1
      ensures next[k].end <= next[j].end && next[k].phase == next[j].phase
    {
      assert next[j] == scopes[j] && (k < n ==> next[k] == scopes[k]);
      assert j < n - 1 ==> scopes[n - 1].end <= scopes[j].end && scopes[n - 1].phase == scopes[j].phase;
    }
  }

  lemma {:induction false} BadEnd(code: seq<Op>, p: nat, position: nat)
    requires p < position < |code| && Conditional(code[p]) && ScopeEnd(code, p) == position
      && Linking(code[position - 1].instr)
    ensures !WellNested(code, |code|)
  {
    assert EndsAt(code, p, position);
  }

  lemma {:induction false} BadPhase(code: seq<Op>, p: nat, position: nat)
    requires p < position < |code| && Conditional(code[p]) && position < ScopeEnd(code, p)
      && code[p].phase != code[position].phase
    ensures !WellNested(code, |code|)
  {
    assert Encloses(code, p, position);
  }

  lemma {:induction false} BadNesting(code: seq<Op>, p: nat, position: nat)
    requires p < position < |code| && Conditional(code[p]) && position < ScopeEnd(code, p)
    requires Conditional(code[position]) && ScopeEnd(code, p) < ScopeEnd(code, position)
    ensures !WellNested(code, |code|)
  {
    assert Encloses(code, p, position);
  }

  lemma {:induction false} BadJump(code: seq<Op>, position: nat)
    requires position < |code| && !JumpFits(code, position)
    ensures !WellNested(code, |code|)
  {
    assert !JumpsFit(code, |code|);
  }
}
