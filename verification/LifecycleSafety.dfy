// What every interleaving of the server lifecycle keeps.
module LifecycleSafety {
  import opened Common
  import opened Lifecycle
  import opened RunInvariant

  // ---- what the whole system keeps ----

  predicate CallInv(s: State, id: nat)
    requires id in s.calls
  {
    var c := s.calls[id];
    && Local(c)
    && (Active(c) ==> s.server.runCancel == Some(id))
    && (c.byReload ==> id in s.asked)
    && (c.phase.Guard? ==> id !in s.asked)
    && (c.phase.Returned? && c.phase.result.Some? && Refusal(c.phase.result.value) ==> id !in s.asked)
    && (c.exit.ByDrain? ==>
        && (c.exit.flagged ==> id in s.asked)
        && (c.exit.cancelledByReload ==> c.exit.flagged))
  }

  predicate ServerInv(s: State) {
    var sv := s.server;
    && (sv.running <==> sv.runCancel.Some?)
    && (sv.initialized ==> sv.binds > 0)
    && (sv.runCancel.None? ==> !sv.listening && !sv.bound)
    && (sv.runCancel.Some? ==>
        var id := sv.runCancel.value;
        && id in s.calls && Active(s.calls[id])
        && (sv.listening <==> Exposed(s.calls[id]))
        && (sv.bound <==> HasAddress(s.calls[id]))
        && (sv.restartRequested <==> id in s.asked))
  }

  predicate Inv(s: State) {
    && ServerInv(s)
    && (forall id | id in s.calls :: CallInv(s, id))
    && s.asked <= s.calls.Keys
    && (forall rid | rid in s.reloads :: s.reloads[rid] in s.asked)
  }

  // Replacing one call.
  lemma Assemble(s: State, id: nat, c1: Call, sv1: Server)
    requires Inv(s) && id in s.calls
    requires var s1 := s.(server := sv1, calls := s.calls[id := c1]); CallInv(s1, id) && ServerInv(s1)
    requires s.server.runCancel.None? || s.server.runCancel == Some(id) || sv1.runCancel == s.server.runCancel
    ensures Inv(s.(server := sv1, calls := s.calls[id := c1]))
  {
    var s1 := s.(server := sv1, calls := s.calls[id := c1]);
    forall i | i in s1.calls ensures CallInv(s1, i) {
      assert i != id ==> CallInv(s, i);
    }
  }

  // Replacing the active call, and what the server shows of it.
  lemma UpdateKeeps(s: State, id: nat, c1: Call, sv1: Server)
    requires Inv(s) && id in s.calls && Active(s.calls[id])
    requires Active(c1) && Local(c1) && c1.byReload == s.calls[id].byReload
    requires c1.exit.ByDrain? && c1.exit != s.calls[id].exit ==>
               (c1.exit.flagged <==> s.server.restartRequested) && c1.exit.cancelledByReload == c1.byReload
    requires sv1 == s.server.(listening := Exposed(c1), bound := HasAddress(c1))
    ensures Inv(s.(server := sv1, calls := s.calls[id := c1]))
  {
    assert CallInv(s, id);
    Assemble(s, id, c1, sv1);
  }

  lemma GuardRefuses(s: State, id: nat, refused: RunError)
    requires Inv(s) && id in s.calls && s.calls[id].phase.Guard?
    requires Refusal(refused)
    ensures Inv(s.(calls := s.calls[id := s.calls[id].(phase := Returned(Some(refused)))]))
  {
    assert CallInv(s, id);
    var c1 := s.calls[id].(phase := Returned(Some(refused)));
    GuardRefusedLocal(s.calls[id], refused);
    Assemble(s, id, c1, s.server);
    assert s.(server := s.server, calls := s.calls[id := c1]) == s.(calls := s.calls[id := c1]);
  }

  lemma GuardAccepts(s: State, id: nat)
    requires Inv(s) && id in s.calls && s.calls[id].phase.Guard? && !s.server.running && s.server.initialized
    ensures Inv(s.(
              server := s.server.(running := true, runCancel := Some(id), restartRequested := false),
              calls := s.calls[id := s.calls[id].(phase := CheckContext, binds := s.server.binds)]))
  {
    assert CallInv(s, id);
    var c1 := s.calls[id].(phase := CheckContext, binds := s.server.binds);
    GuardAcceptedLocal(s.calls[id], s.server.binds);
    Assemble(s, id, c1, s.server.(running := true, runCancel := Some(id), restartRequested := false));
  }

  lemma GuardKeeps(s: State, id: nat)
    requires Inv(s) && id in s.calls && s.calls[id].phase.Guard?
    ensures Inv(GuardStep(s, id))
  {
    if !s.server.initialized {
      GuardRefuses(s, id, NotInitialized);
    } else if s.server.running {
      GuardRefuses(s, id, AlreadyActive);
    } else if !s.server.hasHandler {
      GuardRefuses(s, id, NoHandler);
    } else {
      GuardAccepts(s, id);
    }
  }

  lemma ClearingKeeps(s: State, id: nat, result: Outcome)
    requires Inv(s) && id in s.calls && s.calls[id].phase == Clearing(result)
    ensures Inv(ClearingStep(s, id, result))
  {
    assert CallInv(s, id);
    var s1 := ClearingStep(s, id, result);
    ClearingLocal(s.calls[id], result);
    NotRefused(s.calls[id], result);
    assert !Exposed(s.calls[id]);
    Assemble(s, id, s1.calls[id], s1.server);
  }

  lemma AtomicStepKeeps(s: State, id: nat, choice: Choice)
    requires Inv(s) && id in s.calls && Atomic(s.calls[id].phase)
    ensures RunStep(s, id, choice).Some? && Inv(RunStep(s, id, choice).value)
  {
    assert CallInv(s, id);
    AtomicStepLocal(s.calls[id], s.server.restartRequested);
    AtomicStepFrame(s.calls[id], s.server.restartRequested);
    ServerAfterShows(s.calls[id], s.server);
    UpdateKeeps(s, id, AfterAtomic(s.calls[id], s.server.restartRequested), ServerAfter(s.calls[id].phase, s.server));
  }

  lemma RunStepKeeps(s: State, id: nat, choice: Choice)
    requires Inv(s) && id in s.calls && RunStep(s, id, choice).Some?
    ensures Inv(RunStep(s, id, choice).value)
  {
    var c := s.calls[id];
    assert CallInv(s, id);
    if c.phase.Guard? {
      GuardKeeps(s, id);
    } else if c.phase.Clearing? {
      ClearingKeeps(s, id, c.phase.result);
    } else if Atomic(c.phase) {
      AtomicStepKeeps(s, id, choice);
    } else {
      LocalStepKeeps(c, choice);
      UpdateKeeps(s, id, LocalStep(c, choice).value, s.server);
    }
  }

  // A change to a call that does not move it.
  lemma ReplaceKeeps(s: State, id: nat, c1: Call)
    requires Inv(s) && id in s.calls && Local(c1)
    requires c1.phase == s.calls[id].phase && c1.exit == s.calls[id].exit && (c1.byReload ==> id in s.asked)
    ensures Inv(s.(calls := s.calls[id := c1]))
  {
    assert CallInv(s, id);
    Assemble(s, id, c1, s.server);
    assert s.(server := s.server, calls := s.calls[id := c1]) == s.(calls := s.calls[id := c1]);
  }

  // A change to server fields that no call depends on.
  lemma SettingsKeep(s: State, sv1: Server)
    requires Inv(s) && (sv1.initialized ==> sv1.binds > 0)
    requires sv1 == s.server.(initialized := sv1.initialized, hasHandler := sv1.hasHandler, binds := sv1.binds,
                              restartRequired := sv1.restartRequired, immediate := sv1.immediate)
    ensures Inv(s.(server := sv1))
  {
    var s1 := s.(server := sv1);
    forall i | i in s1.calls ensures CallInv(s1, i) {
      assert CallInv(s, i);
    }
  }

  lemma CallRunKeeps(s: State, id: nat, wait: bool, outer: Option<Cause>)
    requires Inv(s) && id !in s.calls
    ensures Inv(s.(calls := s.calls[id := Fresh.(wait := wait, outer := outer, ctx := outer)]))
  {
    var s1 := s.(calls := s.calls[id := Fresh.(wait := wait, outer := outer, ctx := outer)]);
    assert Local(s1.calls[id]);
    forall i | i in s1.calls ensures CallInv(s1, i) {
      assert i != id ==> CallInv(s, i);
    }
  }

  lemma ReloadKeeps(s: State, rid: nat, changed: bool, policy: Option<bool>)
    requires Inv(s) && rid !in s.reloads
    ensures Inv(ReloadLocked(s, rid, changed, policy))
  {
    var s1 := ReloadLocked(s, rid, changed, policy);
    if s1.server.restartRequested == s.server.restartRequested && s1.asked == s.asked && s1.reloads == s.reloads {
      SettingsKeep(s, s1.server);
    } else if s.server.runCancel.None? {
      RequestIdle(s, s1.server);
    } else {
      RequestActive(s, s1.server, rid);
    }
  }

  // An immediate reload with no Run active.
  lemma RequestIdle(s: State, sv1: Server)
    requires Inv(s) && s.server.runCancel.None?
    requires sv1 == s.server.(immediate := true, restartRequired := true, restartRequested := true)
    ensures Inv(s.(server := sv1))
  {
    var s1 := s.(server := sv1);
    forall i | i in s1.calls ensures CallInv(s1, i) {
      assert CallInv(s, i);
    }
  }

  // An immediate reload during a Run: the flag and the history agree.
  lemma RequestActive(s: State, sv1: Server, rid: nat)
    requires Inv(s) && s.server.runCancel.Some?
    requires sv1 == s.server.(immediate := true, restartRequired := true, restartRequested := true)
    ensures var id := s.server.runCancel.value;
            Inv(s.(server := sv1, reloads := s.reloads[rid := id], asked := s.asked + {id}))
  {
    var id := s.server.runCancel.value;
    var s1 := s.(server := sv1, reloads := s.reloads[rid := id], asked := s.asked + {id});
    forall i | i in s1.calls ensures CallInv(s1, i) {
      assert CallInv(s, i);
    }
  }

  lemma DropReloadKeeps(s: State, rid: nat)
    requires Inv(s)
    ensures Inv(s.(reloads := s.reloads - {rid}))
  {
    var s1 := s.(reloads := s.reloads - {rid});
    forall i | i in s1.calls ensures CallInv(s1, i) {
      assert CallInv(s, i);
    }
  }

  // A cancellation only adds to what the accounts allow.
  lemma CancelKeepsAccounts(c: Call, outer: Option<Cause>, ctx: Option<Cause>, byReload: bool)
    requires ListenersAccounted(c) && ResultsAccounted(c) && Progress(c)
    requires (c.outer.Some? ==> outer.Some?) && (c.byReload ==> byReload)
    ensures var c1 := c.(outer := outer, ctx := ctx, byReload := byReload);
            ListenersAccounted(c1) && ResultsAccounted(c1) && Progress(c1)
  {
  }

  lemma CancelledLocal(c: Call, cause: Cause)
    requires Local(c)
    ensures Local(Cancel(c, cause).(byReload := true)) && Local(Cancel(c, cause).(outer := Some(cause)))
  {
    CancelKeepsAccounts(c, c.outer, Cancel(c, cause).ctx, true);
    CancelKeepsAccounts(c, Some(cause), Cancel(c, cause).ctx, c.byReload);
  }

  lemma ReloadCancelKeeps(s: State, rid: nat)
    requires Inv(s) && rid in s.reloads && s.reloads[rid] in s.calls
    ensures var id := s.reloads[rid];
            Inv(s.(
              reloads := s.reloads - {rid},
              calls := s.calls[id := Cancel(s.calls[id], Canceled).(byReload := true)]))
  {
    var id := s.reloads[rid];
    var c1 := Cancel(s.calls[id], Canceled).(byReload := true);
    assert CallInv(s, id);
    CancelledLocal(s.calls[id], Canceled);
    ReplaceKeeps(s, id, c1);
    DropReloadKeeps(s.(calls := s.calls[id := c1]), rid);
  }

  // Actions that touch only settings, reloads, or which calls exist.
  lemma OuterActionKeeps(s: State, a: Action)
    requires Inv(s) && Next(s, a).Some? && !a.Step? && !a.ServeReturns? && !a.CancelOuter?
    ensures Inv(Next(s, a).value)
  {
    match a
    case Init(n, immediate) => SettingsKeep(s, Next(s, a).value.server);
    case Stop => SettingsKeep(s, Next(s, a).value.server);
    case SetHandler(_) => SettingsKeep(s, Next(s, a).value.server);
    case CallRun(id, wait, outer) => CallRunKeeps(s, id, wait, outer);
    case Reload(rid, changed, policy) => ReloadKeeps(s, rid, changed, policy);
    case ReloadCancel(rid) => ReloadCancelKeeps(s, rid);
  }

  lemma NextKeeps(s: State, a: Action)
    requires Inv(s) && Next(s, a).Some?
    ensures Inv(Next(s, a).value)
  {
    if a.Step? {
      RunStepKeeps(s, a.id, a.choice);
    } else if a.CancelOuter? {
      assert CallInv(s, a.id);
      CancelledLocal(s.calls[a.id], a.cause);
      ReplaceKeeps(s, a.id, Cancel(s.calls[a.id], a.cause).(outer := Some(a.cause)));
    } else if a.ServeReturns? {
      assert CallInv(s, a.id);
      ServeReturnKeeps(s.calls[a.id], a.g, a.e);
      ReplaceKeeps(s, a.id, Next(s, a).value.calls[a.id]);
    } else {
      OuterActionKeeps(s, a);
    }
  }

  // Every reachable state, whatever the interleaving.
  lemma {:induction false} AlwaysInv(s: State, actions: seq<Action>)
    requires Inv(s) && Execute(s, actions).Some?
    ensures Inv(Execute(s, actions).value)
    decreases |actions|
  {
    if actions != [] {
      NextKeeps(s, actions[0]);
      AlwaysInv(Next(s, actions[0]).value, actions[1..]);
    }
  }

  lemma StartInv()
    ensures Inv(Start)
  {
  }

  // ---- the theorems ----

  ghost predicate Reachable(s: State) {
    exists actions :: Execute(Start, actions) == Some(s)
  }

  lemma ReachableInv(s: State)
    requires Reachable(s)
    ensures Inv(s)
  {
    var actions :| Execute(Start, actions) == Some(s);
    StartInv();
    AlwaysInv(Start, actions);
  }

  // At most one Run body is active, and the stored cancel function is its.
  lemma OneActiveRun(s: State, i: nat, j: nat)
    requires Reachable(s) && i in s.calls && j in s.calls && Active(s.calls[i]) && Active(s.calls[j])
    ensures i == j && s.server.running && s.server.runCancel == Some(i)
  {
    ReachableInv(s);
    assert CallInv(s, i) && CallInv(s, j);
  }

  // Outside the lock: a cancel function is stored exactly while a Run is
  // active, and a server that listens is running and has an address.
  lemma ServerConsistent(s: State)
    requires Reachable(s)
    ensures s.server.running <==> s.server.runCancel.Some?
    ensures s.server.running <==> exists id :: id in s.calls && Active(s.calls[id])
    ensures s.server.listening ==> s.server.running && s.server.bound
  {
    ReachableInv(s);
    forall id | id in s.calls && Active(s.calls[id]) ensures s.server.running {
      assert CallInv(s, id);
    }
  }

  // Health succeeds exactly when, beside Init and SetHandler, a Run is between
  // publishing its listeners and clearing the flag: from Spawning until it
  // begins to drain, or, after a Serve call failed, until its cleanup.
  lemma HealthIff(s: State)
    requires Reachable(s)
    ensures Healthy(s) <==>
              && s.server.initialized && s.server.hasHandler
              && exists id :: id in s.calls && Active(s.calls[id]) && Exposed(s.calls[id])
  {
    ReachableInv(s);
    forall id | id in s.calls && Active(s.calls[id]) ensures s.server.runCancel == Some(id) {
      assert CallInv(s, id);
    }
  }

  // Listener i can take a connection: it is open and not yet handed over, or
  // its Serve call still runs on a server that has not been closed. (Serve
  // closes its listener when it returns, and closing the server closes all.)
  predicate Accepting(c: Call, i: nat)
    requires i < |c.listeners|
  {
    match c.listeners[i]
    case Held => true
    case Shut => false
    case Handed => i < |c.goroutines| && c.goroutines[i].Serving? && !c.closing
  }

  lemma {:induction false} SomeDone(gs: seq<Goroutine>)
    ensures DoneCount(gs) > 0 <==> Done in gs
  {
    if gs != [] {
      var n := |gs| - 1;
      SomeDone(gs[..n]);
      assert gs == gs[..n] + [gs[n]];
    }
  }

  lemma ExposedOwners(c: Call, i: nat)
    requires Local(c) && Exposed(c) && i < |c.listeners|
    ensures c.listeners[i] == if i < |c.goroutines| then Handed else Held
    ensures |c.goroutines| <= |c.listeners|
  {
    if c.phase.Spawning? {
      var n := |c.goroutines|;
      assert i < n ==> c.listeners[..n][i] == c.listeners[i];
      assert i >= n ==> c.listeners[n..][i - n] == c.listeners[i];
    }
  }

  // What readiness means. Some Run has opened every bind and is not draining;
  // but it may have closed its server, which it has exactly on its way out
  // after a Serve call failed. All its listeners accept if and only if no
  // Serve call has returned and the server is not closed.
  lemma HealthMeansServing(s: State) returns (id: nat)
    requires Reachable(s) && Healthy(s)
    ensures s.server.initialized && s.server.hasHandler && s.server.bound && s.server.runCancel == Some(id)
    ensures id in s.calls && Active(s.calls[id]) && Exposed(s.calls[id])
    ensures var c := s.calls[id];
            && |c.listeners| == c.binds > 0
            && !c.phase.ShuttingDown? && !c.phase.Draining?
            && (c.closing <==>
                || c.phase.Failing?
                || ((c.phase.Cancelling? || c.phase.Unmarking?) && c.exit == ByServe))
            && (c.closing ==> Done in c.goroutines)
            && ((forall i: nat | i < |c.listeners| :: Accepting(c, i)) <==> Done !in c.goroutines && !c.closing)
  {
    ReachableInv(s);
    id := s.server.runCancel.value;
    assert CallInv(s, id);
    var c := s.calls[id];
    SomeDone(c.goroutines);
    forall i: nat | i < |c.listeners|
      ensures Accepting(c, i) <==> i >= |c.goroutines| || (c.goroutines[i].Serving? && !c.closing)
    {
      ExposedOwners(c, i);
    }
    ExposedOwners(c, 0);
    if Done in c.goroutines {
      var g :| 0 <= g < |c.goroutines| && c.goroutines[g] == Done;
      assert !Accepting(c, g);
    }
  }

  // Between drain and the next published listener the server is not healthy.
  predicate Publishes(s: State, a: Action) {
    a.Step? && a.id in s.calls && s.calls[a.id].phase.Marking?
  }

  predicate NoneMarks(s: State, actions: seq<Action>)
    decreases |actions|
  {
    actions != [] ==>
      !Publishes(s, actions[0]) && (Next(s, actions[0]).Some? ==> NoneMarks(Next(s, actions[0]).value, actions[1..]))
  }

  lemma OnlyMarkingStepListens(s: State, id: nat, choice: Choice)
    requires id in s.calls && RunStep(s, id, choice).Some?
    requires !s.server.listening && !s.calls[id].phase.Marking?
    ensures !RunStep(s, id, choice).value.server.listening
  {
    assert !ServerAfter(s.calls[id].phase, s.server).listening;
  }

  lemma OnlyMarkingListens(s: State, a: Action)
    requires Next(s, a).Some? && !s.server.listening && !Publishes(s, a)
    ensures !Next(s, a).value.server.listening
  {
    if a.Step? {
      OnlyMarkingStepListens(s, a.id, a.choice);
    }
  }

  lemma {:induction false} StaysUnhealthy(s: State, actions: seq<Action>)
    requires !s.server.listening && Execute(s, actions).Some? && NoneMarks(s, actions)
    ensures !Healthy(Execute(s, actions).value)
    decreases |actions|
  {
    if actions != [] {
      OnlyMarkingListens(s, actions[0]);
      StaysUnhealthy(Next(s, actions[0]).value, actions[1..]);
    }
  }

  // Once a drain has begun Shutdown, Health cannot succeed, through that
  // Run's return and beyond, until some Run publishes listeners of its own.
  lemma DrainIsUnhealthy(s: State, id: nat, actions: seq<Action>)
    requires Reachable(s) && id in s.calls
    requires s.calls[id].phase.ShuttingDown? || s.calls[id].phase.Draining? || s.calls[id].phase.Deciding?
    requires Execute(s, actions).Some? && NoneMarks(s, actions)
    ensures !Healthy(Execute(s, actions).value)
  {
    ReachableInv(s);
    assert CallInv(s, id);
    StaysUnhealthy(s, actions);
  }
}
