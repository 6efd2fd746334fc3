// What is decided, and when, about a Run's result: by its guard, by the end of
// its context, and by what its wait, its listeners and its Shutdown answer
// (server.go). Each statement is about every continuation of a reachable state.
module RunVerdicts {
  import opened Common
  import opened Lifecycle
  import opened RunInvariant
  import opened LifecycleSafety

  // ---- how one action changes a call ----

  predicate OwnMove(s: State, c: Call, choice: Choice, c1: Call) {
    match c.phase
    case Guard =>
      || (c1 == c.(phase := c1.phase) && c1.phase.Returned? && c1.phase.result.Some?
          && Refusal(c1.phase.result.value))
      || c1 == c.(phase := CheckContext, binds := s.server.binds)
    case Clearing(r) => c1 == c.(phase := Returned(r))
    case _ =>
      if Atomic(c.phase) then c1 == AfterAtomic(c, s.server.restartRequested) else LocalStep(c, choice) == Some(c1)
  }

  predicate Moves(s: State, a: Action, id: nat, c: Call, c1: Call) {
    match a
    case Step(i, choice) => if i == id then OwnMove(s, c, choice, c1) else c1 == c
    case CancelOuter(i, cause) =>
      if i == id then c.outer.None? && c1 == Cancel(c, cause).(outer := Some(cause)) else c1 == c
    case ReloadCancel(_) => c1 == c || c1 == Cancel(c, Canceled).(byReload := true)
    case ServeReturns(i, g, e) =>
      if i == id then
        && g < |c.goroutines| && c.goroutines[g] == Serving
        && c1 == c.(goroutines := c.goroutines[g := Done], errCh := c.errCh + [e])
      else c1 == c
    case _ => c1 == c
  }

  lemma StepMoves(s: State, id: nat, choice: Choice)
    requires id in s.calls && RunStep(s, id, choice).Some?
    ensures var s1 := RunStep(s, id, choice).value;
            && id in s1.calls && OwnMove(s, s.calls[id], choice, s1.calls[id])
            && s1.calls == s.calls[id := s1.calls[id]]
  {
  }

  lemma CallMoves(s: State, a: Action, id: nat)
    requires id in s.calls && Next(s, a).Some?
    ensures id in Next(s, a).value.calls && Moves(s, a, id, s.calls[id], Next(s, a).value.calls[id])
  {
    if a.Step? {
      StepMoves(s, a.id, a.choice);
    }
  }

  // Past the guard, with nothing published yet.
  predicate Unpublished(p: Phase) {
    p.CheckContext? || p.Waiting? || p.Listening? || p.Listened?
  }

  lemma OpeningFrame(c: Call, choice: Choice)
    requires Unpublished(c.phase) && LocalStep(c, choice).Some?
    ensures var c1 := LocalStep(c, choice).value; c1 == c.(phase := c1.phase, listeners := c1.listeners)
  {
  }

  // What no step of Run on its own state changes.
  lemma LocalFrame(c: Call, choice: Choice)
    requires LocalStep(c, choice).Some?
    ensures var c1 := LocalStep(c, choice).value;
            c1.wait == c.wait && c1.binds == c.binds && c1.outer == c.outer && c1.byReload == c.byReload
  {
    if Unpublished(c.phase) {
      OpeningFrame(c, choice);
    }
  }

  // ---- Runs that will not serve ----

  function ResultOf(p: Phase): Outcome
    requires Tail(p)
  {
    match p
    case Cancelling(r) => r
    case Unmarking(r) => r
    case Clearing(r) => r
    case Returned(r) => r
  }

  // On the way out with this result, without having served.
  predicate Leaves(c: Call, r: Outcome) {
    Tail(c.phase) && ResultOf(c.phase) == r
  }

  // Bound to leave with this result: it has it, or the context whose error
  // that is has ended by the time Run looks.
  predicate Bound(c: Call, r: Outcome) {
    && c.exit == NotYet
    && (|| Leaves(c, r)
        || (c.phase.CheckContext? && c.outer.Some? && r == Some(Context(c.outer.value)))
        || (c.phase.Listened? && c.ctx.Some? && r == Some(Context(c.ctx.value))))
  }

  lemma BoundTailMove(s: State, c: Call, choice: Choice, c1: Call)
    requires Tail(c.phase) && OwnMove(s, c, choice, c1)
    ensures Tail(c1.phase) && ResultOf(c1.phase) == ResultOf(c.phase) && c1.exit == c.exit
  {
    match c.phase
    case Cancelling(r) =>
      assert LocalStep(c, choice) == Some(Cancel(c, Canceled).(phase := Unmarking(r)));
    case Unmarking(r) => assert c1 == c.(phase := Clearing(r));
    case Clearing(_) =>
    case Returned(_) =>
  }

  lemma BoundOwnMove(s: State, c: Call, choice: Choice, c1: Call, r: Outcome)
    requires Bound(c, r) && OwnMove(s, c, choice, c1)
    ensures Bound(c1, r)
  {
    if Tail(c.phase) {
      BoundTailMove(s, c, choice, c1);
    } else {
      assert LocalStep(c, choice) == Some(c1);
    }
  }

  lemma BoundMove(s: State, a: Action, id: nat, c: Call, c1: Call, r: Outcome)
    requires Bound(c, r) && Moves(s, a, id, c, c1)
    ensures Bound(c1, r)
  {
    if a.Step? && a.id == id {
      BoundOwnMove(s, c, a.choice, c1, r);
    }
  }

  lemma {:induction false} StaysBound(s: State, id: nat, r: Outcome, more: seq<Action>)
    requires id in s.calls && Bound(s.calls[id], r) && Execute(s, more).Some?
    ensures id in Execute(s, more).value.calls && Bound(Execute(s, more).value.calls[id], r)
    decreases |more|
  {
    if more != [] {
      var s1 := Next(s, more[0]).value;
      CallMoves(s, more[0], id);
      BoundMove(s, more[0], id, s.calls[id], s1.calls[id], r);
      StaysBound(s1, id, r, more[1..]);
    }
  }

  // It shows no listener, has handed none to Serve, and if it has returned it
  // has returned this, with every listener closed and its context released.
  predicate NeverServes(c: Call, r: Outcome) {
    && !Exposed(c) && c.goroutines == []
    && (c.phase.Returned? ==> c.phase == Returned(r) && c.exit == NotYet && All(c.listeners, Shut))
  }

  lemma BoundShows(c: Call, r: Outcome)
    requires Local(c) && Bound(c, r)
    ensures NeverServes(c, r)
  {
  }

  lemma BoundNeverServes(s: State, id: nat, r: Outcome, more: seq<Action>)
    requires Inv(s) && id in s.calls && Bound(s.calls[id], r) && Execute(s, more).Some?
    ensures id in Execute(s, more).value.calls && NeverServes(Execute(s, more).value.calls[id], r)
  {
    var t := Execute(s, more).value;
    StaysBound(s, id, r, more);
    assert Local(t.calls[id]) by {
      AlwaysInv(s, more);
      assert CallInv(t, id);
    }
    BoundShows(t.calls[id], r);
  }

  // Run looks at its context twice before it serves: the caller's before it
  // does anything, its own once it has listened. If the context has ended by
  // then, in every continuation the Run never shows a listener, and what it
  // returns is that context's error, with every listener closed.
  lemma EndedContextIsReturned(s: State, id: nat, cause: Cause, more: seq<Action>)
    requires Reachable(s) && id in s.calls && Execute(s, more).Some?
    requires var c := s.calls[id];
             || (c.phase.CheckContext? && c.outer == Some(cause))
             || (c.phase.Listened? && c.ctx == Some(cause))
    ensures id in Execute(s, more).value.calls
    ensures NeverServes(Execute(s, more).value.calls[id], Some(Context(cause)))
  {
    ReachableInv(s);
    assert CallInv(s, id);
    BoundNeverServes(s, id, Some(Context(cause)), more);
  }

  // What its environment answers is final too: a failed wait is an unhealthy
  // Run, a wait cancelled returns nil, and an address that cannot be opened
  // fails the Run; none of them ever serves.
  lemma AnswersAreFinal(s: State, id: nat, choice: Choice, more: seq<Action>)
    requires Reachable(s) && id in s.calls && Next(s, Step(id, choice)).Some?
    requires Execute(Next(s, Step(id, choice)).value, more).Some?
    ensures var c, t := s.calls[id], Execute(Next(s, Step(id, choice)).value, more).value;
            && id in t.calls
            && (c.phase.Waiting? && choice == WaitFailed ==> NeverServes(t.calls[id], Some(Unhealthy)))
            && (c.phase.Waiting? && choice == WaitCancelled ==> NeverServes(t.calls[id], None))
            && (c.phase.Listening? && |c.listeners| < c.binds && choice == Refused ==>
                NeverServes(t.calls[id], Some(ListenFailed)))
  {
    var s1 := Next(s, Step(id, choice)).value;
    ReachableInv(s);
    NextKeeps(s, Step(id, choice));
    StepMoves(s, id, choice);
    assert s.calls[id].phase.Waiting? || s.calls[id].phase.Listening? ==> s.calls[id].exit == NotYet by {
      assert CallInv(s, id);
    }
    var r := Answered(s, s.calls[id], choice, s1.calls[id]);
    if r.Some? {
      BoundNeverServes(s1, id, r.value, more);
    } else {
      StaysCalled(s1, id, more);
    }
  }

  // The result that an answer leads to, if it settles one.
  lemma Answered(s: State, c: Call, choice: Choice, c1: Call) returns (r: Option<Outcome>)
    requires OwnMove(s, c, choice, c1) && (c.phase.Waiting? || c.phase.Listening? ==> c.exit == NotYet)
    ensures r.Some? ==> Bound(c1, r.value)
    ensures c.phase.Waiting? && choice == WaitFailed ==> r == Some(Some(Unhealthy))
    ensures c.phase.Waiting? && choice == WaitCancelled ==> r == Some(None)
    ensures c.phase.Listening? && |c.listeners| < c.binds && choice == Refused ==> r == Some(Some(ListenFailed))
  {
    r := if c.phase.Waiting? && choice == WaitFailed then Some(Some(Unhealthy))
         else if c.phase.Waiting? && choice == WaitCancelled then Some(None)
         else if c.phase.Listening? && |c.listeners| < c.binds && choice == Refused then Some(Some(ListenFailed))
         else None;
  }

  lemma {:induction false} StaysCalled(s: State, id: nat, more: seq<Action>)
    requires id in s.calls && Execute(s, more).Some?
    ensures id in Execute(s, more).value.calls
    decreases |more|
  {
    if more != [] {
      CallMoves(s, more[0], id);
      StaysCalled(Next(s, more[0]).value, id, more[1..]);
    }
  }

  // ---- any context that ends before the listeners are published ----

  // The error of the context, unless the wait or a listener failed first; nil
  // only from a wait.
  predicate Excuses(c: Call, cause: Cause, r: Outcome) {
    || r == Some(Context(cause)) || (c.outer.Some? && r == Some(Context(c.outer.value)))
    || r == Some(ListenFailed)
    || (c.wait && (r == Some(Unhealthy) || (r.None? && cause == Canceled)))
  }

  predicate Stopped(c: Call, cause: Cause) {
    && c.ctx == Some(cause) && c.exit == NotYet
    && (Unpublished(c.phase) || (Tail(c.phase) && Excuses(c, cause, ResultOf(c.phase))))
  }

  lemma StoppedMove(s: State, a: Action, id: nat, c: Call, c1: Call, cause: Cause)
    requires Stopped(c, cause) && Local(c) && Moves(s, a, id, c, c1)
    ensures Stopped(c1, cause)
  {
  }

  lemma {:induction false} StaysStopped(s: State, id: nat, cause: Cause, more: seq<Action>)
    requires Inv(s) && id in s.calls && Stopped(s.calls[id], cause) && Execute(s, more).Some?
    ensures id in Execute(s, more).value.calls && Stopped(Execute(s, more).value.calls[id], cause)
    decreases |more|
  {
    if more != [] {
      var s1 := Next(s, more[0]).value;
      CallMoves(s, more[0], id);
      assert CallInv(s, id);
      StoppedMove(s, more[0], id, s.calls[id], s1.calls[id], cause);
      NextKeeps(s, more[0]);
      StaysStopped(s1, id, cause, more[1..]);
    }
  }

  // A Run whose context has ended, whoever ended it, before it published its
  // listeners never publishes them: in every continuation it shows none, and
  // it returns the context's error, or the failure of its wait or of a
  // listener if that came first, or nil from a wait.
  lemma NeverPublishedOnceEnded(s: State, id: nat, cause: Cause, more: seq<Action>)
    requires Reachable(s) && id in s.calls && Execute(s, more).Some?
    requires Unpublished(s.calls[id].phase) && s.calls[id].ctx == Some(cause)
    ensures id in Execute(s, more).value.calls
    ensures var c := Execute(s, more).value.calls[id];
            && !Exposed(c) && c.goroutines == []
            && (c.phase.Returned? ==>
                c.exit == NotYet && All(c.listeners, Shut) && Excuses(c, cause, c.phase.result))
  {
    ReachableInv(s);
    assert CallInv(s, id);
    StaysStopped(s, id, cause, more);
    assert Local(Execute(s, more).value.calls[id]) by {
      AlwaysInv(s, more);
      assert CallInv(Execute(s, more).value, id);
    }
    StoppedShows(Execute(s, more).value.calls[id], cause);
  }

  lemma StoppedShows(c: Call, cause: Cause)
    requires Local(c) && Stopped(c, cause)
    ensures !Exposed(c) && c.goroutines == []
    ensures c.phase.Returned? ==> c.exit == NotYet && All(c.listeners, Shut) && Excuses(c, cause, c.phase.result)
  {
  }

  // ---- the wait for health ----

  // No provider check of this Run succeeds along the way.
  predicate NeverReady(actions: seq<Action>, id: nat) {
    forall i | 0 <= i < |actions| :: actions[i] != Step(id, Ready)
  }

  // Has not got past its wait.
  predicate StillUnready(c: Call) {
    && c.wait && c.listeners == [] && c.goroutines == [] && c.exit == NotYet
    && (c.phase.Guard? || c.phase.CheckContext? || c.phase.Waiting? || Tail(c.phase))
  }

  lemma UnreadyMove(s: State, a: Action, id: nat, c: Call, c1: Call)
    requires StillUnready(c) && a != Step(id, Ready) && Moves(s, a, id, c, c1)
    ensures StillUnready(c1)
  {
  }

  lemma {:induction false} StaysUnready(s: State, id: nat, actions: seq<Action>)
    requires Execute(s, actions).Some? && NeverReady(actions, id)
    requires id in s.calls ==> s.calls[id].wait ==> StillUnready(s.calls[id])
    ensures var t := Execute(s, actions).value; id in t.calls ==> t.calls[id].wait ==> StillUnready(t.calls[id])
    decreases |actions|
  {
    if actions != [] {
      var s1 := Next(s, actions[0]).value;
      if id in s.calls {
        CallMoves(s, actions[0], id);
        WaitStands(s, actions[0], id, s.calls[id], s1.calls[id]);
        if s.calls[id].wait {
          UnreadyMove(s, actions[0], id, s.calls[id], s1.calls[id]);
        }
      } else if id in s1.calls {
        NewCall(s, actions[0], id);
      }
      StaysUnready(s1, id, actions[1..]);
    }
  }

  lemma WaitStands(s: State, a: Action, id: nat, c: Call, c1: Call)
    requires Moves(s, a, id, c, c1)
    ensures c1.wait == c.wait
  {
    if a.Step? && a.id == id && !c.phase.Guard? && !c.phase.Clearing? && !Atomic(c.phase) {
      LocalFrame(c, a.choice);
    }
  }

  // A call is added by CallRun alone, at its guard.
  lemma NewCall(s: State, a: Action, id: nat)
    requires id !in s.calls && Next(s, a).Some? && id in Next(s, a).value.calls
    ensures Next(s, a).value.calls[id] == Fresh.(wait := a.wait, outer := a.outer, ctx := a.outer)
  {
    if a.Step? {
      StepMoves(s, a.id, a.choice);
    }
  }

  // A Run that is to wait for health opens no listener, in any interleaving,
  // unless its providers were found healthy.
  lemma WaitComesFirst(actions: seq<Action>, id: nat)
    requires Execute(Start, actions).Some? && NeverReady(actions, id)
    requires id in Execute(Start, actions).value.calls && Execute(Start, actions).value.calls[id].wait
    ensures var c := Execute(Start, actions).value.calls[id]; c.listeners == [] && !Exposed(c)
  {
    StaysUnready(Start, id, actions);
  }
}
