// Why a Run goes the way it goes, and what it passes on (server.go): its
// guard, what makes it drain, what its Shutdown and Serve calls answer, and
// when it has to wait for them.
module RunCauses {
  import opened Common
  import opened Lifecycle
  import opened RunInvariant
  import opened LifecycleSafety
  import opened LifecycleResults
  import opened RunVerdicts

  // ---- the guard ----

  ghost predicate Busy(s: State) {
    exists id :: id in s.calls && Active(s.calls[id])
  }

  // Run begins exactly when the server is initialized, no other Run is active,
  // and there is a handler; it then owns the cancel function, a cleared flag
  // and the configured addresses. Otherwise the first of these that is missing
  // is returned, and nothing else changes.
  lemma GuardDecides(s: State, id: nat, choice: Choice)
    requires Reachable(s) && id in s.calls && s.calls[id].phase.Guard?
    ensures var s1 := Next(s, Step(id, choice));
            && s1.Some? && id in s1.value.calls
            && var sv, c, c1 := s.server, s.calls[id], s1.value.calls[id];
               if sv.initialized && !Busy(s) && sv.hasHandler then
                 && s1.value.server == sv.(running := true, runCancel := Some(id), restartRequested := false)
                 && c1 == c.(phase := CheckContext, binds := sv.binds) && sv.binds > 0
               else
                 && s1.value.server == sv
                 && c1 == c.(phase := Returned(Some(
                      if !sv.initialized then NotInitialized
                      else if Busy(s) then AlreadyActive
                      else NoHandler)))
  {
    ReachableInv(s);
    ServerConsistent(s);
  }

  lemma ReturnedMove(s: State, a: Action, id: nat, c: Call, c1: Call)
    requires c.phase.Returned? && Moves(s, a, id, c, c1)
    ensures c1.phase == c.phase && c1.exit == c.exit && c1.listeners == c.listeners
  {
  }

  // What Run has returned stands.
  lemma {:induction false} ResultStands(s: State, id: nat, more: seq<Action>)
    requires id in s.calls && s.calls[id].phase.Returned? && Execute(s, more).Some?
    ensures id in Execute(s, more).value.calls
    ensures var c, c1 := s.calls[id], Execute(s, more).value.calls[id];
            c1.phase == c.phase && c1.exit == c.exit && c1.listeners == c.listeners
    decreases |more|
  {
    if more != [] {
      CallMoves(s, more[0], id);
      ReturnedMove(s, more[0], id, s.calls[id], Next(s, more[0]).value.calls[id]);
      ResultStands(Next(s, more[0]).value, id, more[1..]);
    }
  }

  // ---- why a Run drains, and what it leaves behind ----

  predicate InDrain(p: Phase) {
    p.Unlisting? || p.ShuttingDown? || p.Draining? || p.Deciding?
  }

  // A Run that drains was ended; its context ends as its caller's does, unless
  // a reload has cancelled it; and one past its deferred cancel has released it.
  predicate Accounted(c: Call) {
    && (InDrain(c.phase) || c.exit.ByDrain? ==> Ended(c))
    && (c.byReload || Tail(c.phase) || c.ctx == c.outer)
    && (c.phase.Unmarking? || c.phase.Clearing? ==> c.ctx.Some?)
    && (c.phase.Returned? ==> c.ctx.Some? || (c.phase.result.Some? && Refusal(c.phase.result.value)))
  }

  lemma LocalMoveKeeps(c: Call, choice: Choice)
    requires LocalStep(c, choice).Some?
    ensures var c1 := LocalStep(c, choice).value;
            c1.outer == c.outer && c1.byReload == c.byReload && (c1.exit == c.exit || c1.exit == ByServe)
  {
    LocalFrame(c, choice);
    if Unpublished(c.phase) {
      OpeningFrame(c, choice);
    }
  }

  lemma LocalMoveContext(c: Call, choice: Choice)
    requires LocalStep(c, choice).Some?
    ensures var c1 := LocalStep(c, choice).value; (c.phase.Cancelling? && Tail(c1.phase)) || c1.ctx == c.ctx
    ensures Tail(c.phase) ==> c.phase.Cancelling?
  {
    if Unpublished(c.phase) {
      OpeningFrame(c, choice);
    }
  }

  lemma OpeningDoesNotDrain(c: Call, choice: Choice)
    requires Unpublished(c.phase) && LocalStep(c, choice).Some?
    ensures !InDrain(LocalStep(c, choice).value.phase)
  {
  }

  lemma OnlyCancelledDrains(c: Call, choice: Choice)
    requires !InDrain(c.phase) && !(c.phase.Selecting? && c.ctx.Some?) && LocalStep(c, choice).Some?
    ensures !InDrain(LocalStep(c, choice).value.phase)
  {
    if Unpublished(c.phase) {
      OpeningDoesNotDrain(c, choice);
    }
  }

  predicate PastCancel(p: Phase) {
    p.Unmarking? || p.Clearing? || p.Returned?
  }

  lemma CancellingReleases(c: Call, choice: Choice)
    requires c.phase.Cancelling?
    ensures var c1 := LocalStep(c, choice); c1.Some? && c1.value.phase.Unmarking? && c1.value.ctx.Some?
  {
  }

  lemma OnlyCancellingReleases(c: Call, choice: Choice)
    requires !c.phase.Cancelling? && LocalStep(c, choice).Some?
    ensures !PastCancel(LocalStep(c, choice).value.phase)
  {
    if Unpublished(c.phase) {
      OpeningDoesNotRelease(c, choice);
    }
  }

  lemma OpeningDoesNotRelease(c: Call, choice: Choice)
    requires Unpublished(c.phase) && LocalStep(c, choice).Some?
    ensures !PastCancel(LocalStep(c, choice).value.phase)
  {
  }

  lemma AccountedLocalMove(c: Call, choice: Choice)
    requires Accounted(c) && (c.phase.Selecting? && c.ctx.Some? ==> Ended(c)) && LocalStep(c, choice).Some?
    ensures Accounted(LocalStep(c, choice).value)
  {
    LocalMoveKeeps(c, choice);
    LocalMoveContext(c, choice);
    if c.phase.Cancelling? {
      CancellingReleases(c, choice);
    } else {
      OnlyCancellingReleases(c, choice);
    }
    if !InDrain(c.phase) && !(c.phase.Selecting? && c.ctx.Some?) {
      OnlyCancelledDrains(c, choice);
    }
  }

  lemma AccountedMove(s: State, a: Action, id: nat, c: Call, c1: Call)
    requires Accounted(c) && Local(c) && Moves(s, a, id, c, c1)
    ensures Accounted(c1)
  {
    if a.Step? && a.id == id && !c.phase.Guard? && !c.phase.Clearing? && !Atomic(c.phase) {
      AccountedLocalMove(c, a.choice);
    }
  }

  lemma {:induction false} StaysAccounted(s: State, id: nat, actions: seq<Action>)
    requires Inv(s) && (id in s.calls ==> Accounted(s.calls[id])) && Execute(s, actions).Some?
    ensures var t := Execute(s, actions).value; id in t.calls ==> Accounted(t.calls[id])
    decreases |actions|
  {
    if actions != [] {
      var s1 := Next(s, actions[0]).value;
      NextKeeps(s, actions[0]);
      if id in s.calls {
        CallMoves(s, actions[0], id);
        assert Local(s.calls[id]) by { assert CallInv(s, id); }
        AccountedMove(s, actions[0], id, s.calls[id], s1.calls[id]);
      } else if id in s1.calls {
        NewCall(s, actions[0], id);
      }
      StaysAccounted(s1, id, actions[1..]);
    }
  }

  // A Run drains only because its caller ended its context, or a reload that
  // asked it to restart cancelled it; until then its context has ended as its
  // caller's has, by the same cause, unless such a reload came; and whichever way it came back, unless
  // its guard turned it away, it has cancelled its own context.
  lemma WhyDrained(s: State, id: nat)
    requires Reachable(s) && id in s.calls
    ensures var c := s.calls[id];
            && (InDrain(c.phase) || c.exit.ByDrain? ==> c.outer.Some? || (c.byReload && id in s.asked))
            && (c.ctx == c.outer || (c.byReload && id in s.asked) || Tail(c.phase))
            && (c.phase.Returned? ==> c.ctx.Some? || (c.phase.result.Some? && Refusal(c.phase.result.value)))
  {
    var actions :| Execute(Start, actions) == Some(s);
    StartInv();
    StaysAccounted(Start, id, actions);
    assert CallInv(s, id) by { ReachableInv(s); }
  }

  // ---- what Shutdown answers ----

  predicate Drained(c: Call, clean: bool) {
    match c.phase
    case Draining(shutdown, _) => shutdown.None? == clean
    case Deciding(shutdown, _) => shutdown.None? == clean
    case _ => Tail(c.phase) && c.exit.ByDrain? && c.exit.clean == clean
  }

  lemma DrainedOwnMove(s: State, c: Call, choice: Choice, c1: Call, clean: bool)
    requires Drained(c, clean) && OwnMove(s, c, choice, c1)
    ensures Drained(c1, clean)
  {
    if Tail(c.phase) {
      BoundTailMove(s, c, choice, c1);
    } else if c.phase.Draining? {
      assert LocalStep(c, choice) == Some(c1);
    }
  }

  lemma DrainedMove(s: State, a: Action, id: nat, c: Call, c1: Call, clean: bool)
    requires Drained(c, clean) && Moves(s, a, id, c, c1)
    ensures Drained(c1, clean)
  {
    if a.Step? && a.id == id {
      DrainedOwnMove(s, c, a.choice, c1, clean);
    }
  }

  lemma {:induction false} StaysDrained(s: State, id: nat, clean: bool, more: seq<Action>)
    requires id in s.calls && Drained(s.calls[id], clean) && Execute(s, more).Some?
    ensures id in Execute(s, more).value.calls && Drained(Execute(s, more).value.calls[id], clean)
    decreases |more|
  {
    if more != [] {
      var s1 := Next(s, more[0]).value;
      CallMoves(s, more[0], id);
      DrainedMove(s, more[0], id, s.calls[id], s1.calls[id], clean);
      StaysDrained(s1, id, clean, more[1..]);
    }
  }

  // The server is closed first; then the answer of Shutdown decides: its error
  // is what Run returns, in every continuation, and without one Run returns
  // the restart error, if it was asked, or the last failure of a Serve call.
  lemma ShutdownDecides(s: State, id: nat, choice: Choice, more: seq<Action>)
    requires Reachable(s) && id in s.calls && s.calls[id].phase.ShuttingDown? && s.calls[id].closing
    requires Next(s, Step(id, choice)).Some? && Execute(Next(s, Step(id, choice)).value, more).Some?
    ensures var t := Execute(Next(s, Step(id, choice)).value, more).value;
            && id in t.calls
            && var c := t.calls[id];
               c.phase.Returned? ==>
                 && c.exit.ByDrain? && (c.exit.clean <==> choice == ShutdownOk)
                 && c.phase.result == if choice == ShutdownErr then Some(ShutdownFailed)
                                      else if c.exit.flagged then Some(RestartRequired)
                                      else LastError(c.received)
  {
    var s1 := Next(s, Step(id, choice)).value;
    StepMoves(s, id, choice);
    assert Drained(s1.calls[id], choice == ShutdownOk);
    StaysDrained(s1, id, choice == ShutdownOk, more);
    var t := Execute(s1, more).value;
    assert Local(t.calls[id]) by {
      ReachableInv(s);
      NextKeeps(s, Step(id, choice));
      AlwaysInv(s1, more);
      assert CallInv(t, id);
    }
  }

  // ---- what Serve returns ----

  // The results of a Run's Serve calls, in the order in which they return.
  function Reported(actions: seq<Action>, id: nat): seq<ServeResult> {
    if actions == [] then []
    else
      (if actions[0].ServeReturns? && actions[0].id == id then [actions[0].e] else []) + Reported(actions[1..], id)
  }

  function Collected(s: State, id: nat): seq<ServeResult> {
    if id in s.calls then s.calls[id].received + s.calls[id].errCh else []
  }

  lemma TakesFirst(c: Call, choice: Choice)
    requires (c.phase.Selecting? || Drains(c)) && LocalStep(c, choice).Some?
    ensures var c1 := LocalStep(c, choice).value;
            || (c1.received == c.received && c1.errCh == c.errCh)
            || (c.errCh != [] && c1.received == c.received + [c.errCh[0]] && c1.errCh == c.errCh[1..])
  {
  }

  // A step of Run takes nothing from the channel, or its first element.
  lemma ReceivesOne(c: Call, choice: Choice)
    requires LocalStep(c, choice).Some?
    ensures var c1 := LocalStep(c, choice).value;
            || (c1.received == c.received && c1.errCh == c.errCh)
            || (c.errCh != [] && c1.received == c.received + [c.errCh[0]] && c1.errCh == c.errCh[1..])
  {
    if Unpublished(c.phase) {
      OpeningFrame(c, choice);
    } else if c.phase.Selecting? || Drains(c) {
      TakesFirst(c, choice);
    }
  }

  lemma CollectedByStep(c: Call, choice: Choice)
    requires LocalStep(c, choice).Some?
    ensures var c1 := LocalStep(c, choice).value; c1.received + c1.errCh == c.received + c.errCh
  {
    ReceivesOne(c, choice);
    if c.errCh != [] {
      assert c.received + [c.errCh[0]] + c.errCh[1..] == c.received + c.errCh;
    }
  }

  lemma CollectedOnce(s: State, a: Action, id: nat)
    requires Next(s, a).Some?
    ensures Collected(Next(s, a).value, id)
         == Collected(s, id) + if a.ServeReturns? && a.id == id then [a.e] else []
  {
    var s1 := Next(s, a).value;
    if id in s.calls {
      var c, c1 := s.calls[id], s1.calls[id];
      CallMoves(s, a, id);
      if a.ServeReturns? && a.id == id {
        assert c.received + (c.errCh + [a.e]) == c.received + c.errCh + [a.e];
      } else if a.Step? && a.id == id && !c.phase.Guard? && !c.phase.Clearing? && !Atomic(c.phase) {
        CollectedByStep(c, a.choice);
      }
    } else if id in s1.calls {
      NewCall(s, a, id);
    }
  }

  // No result is lost, doubled, or taken out of turn.
  lemma {:induction false} ResultsInOrder(s: State, actions: seq<Action>, id: nat)
    requires Execute(s, actions).Some?
    ensures Collected(Execute(s, actions).value, id) == Collected(s, id) + Reported(actions, id)
    decreases |actions|
  {
    if actions != [] {
      CollectedOnce(s, actions[0], id);
      ResultsInOrder(Next(s, actions[0]).value, actions[1..], id);
      ConcatAssoc(Collected(s, id), if actions[0].ServeReturns? && actions[0].id == id then [actions[0].e] else [],
        Reported(actions[1..], id));
    }
  }

  // The last failure of all, nil if every call closed cleanly.
  predicate LastFailure(results: seq<ServeResult>, r: Outcome) {
    if forall i | 0 <= i < |results| :: results[i].Closed? then r.None?
    else exists k :: 0 <= k < |results| && results[k].Broke? && r == Some(ServeFailed(results[k].code))
                     && forall j | k < j < |results| :: results[j].Closed?
  }

  lemma LastErrorIsLastFailure(results: seq<ServeResult>)
    ensures LastFailure(results, LastError(results))
  {
    LastErrorIs(results);
  }

  lemma ClosedFirst(results: seq<ServeResult>, r: Outcome)
    requires results != [] && results[0].Closed? && LastFailure(results[1..], r)
    ensures LastFailure(results, r)
  {
    var rest := results[1..];
    if forall i | 0 <= i < |rest| :: rest[i].Closed? {
      assert forall i | 0 < i < |results| :: results[i] == rest[i - 1];
    } else {
      var k :| 0 <= k < |rest| && rest[k].Broke? && r == Some(ServeFailed(rest[k].code))
               && forall j | k < j < |rest| :: rest[j].Closed?;
      assert results[k + 1] == rest[k];
      assert forall j | k + 1 < j < |results| :: results[j] == rest[j - 1];
    }
  }

  // All results a returned Run has received, in order.
  lemma AllReceived(actions: seq<Action>, id: nat, r: Outcome)
    requires Execute(Start, actions).Some?
    requires var s := Execute(Start, actions).value; id in s.calls && s.calls[id].phase == Returned(r)
    ensures var c := Execute(Start, actions).value.calls[id];
            && c.received == Reported(actions, id)
            && (if c.exit == NotYet then c.received == [] else |c.received| == |c.listeners|)
            && (c.exit == ByServe ==> c.received != [])
  {
    var s := Execute(Start, actions).value;
    var c := s.calls[id];
    assert Reachable(s);
    assert Local(c) by {
      ReachableInv(s);
      assert CallInv(s, id);
    }
    ChannelIsEmpty(c, r);
    assert c.received + c.errCh == Reported(actions, id) by {
      ResultsInOrder(Start, actions, id);
      assert [] + Reported(actions, id) == Reported(actions, id);
    }
    assert c.received + [] == c.received;
  }

  lemma ChannelIsEmpty(c: Call, r: Outcome)
    requires Local(c) && c.phase == Returned(r)
    ensures c.errCh == [] && (if c.exit == NotYet then c.received == [] else |c.received| == |c.listeners|)
    ensures c.exit == ByServe ==> c.received != []
  {
    DoneCountBound(c.goroutines);
  }

  // Which failure of its Serve calls Run reports, over any whole history. If a
  // Serve call returned before the drain: that one's, when it was a failure.
  // Otherwise, and at the end of a clean drain that no reload asked for, the
  // last failure of all.
  lemma ServeFailureReturned(actions: seq<Action>, id: nat, r: Outcome)
    requires Execute(Start, actions).Some?
    requires var s := Execute(Start, actions).value; id in s.calls && s.calls[id].phase == Returned(r)
    ensures var c, results := Execute(Start, actions).value.calls[id], Reported(actions, id);
            && (if c.exit == NotYet then results == [] else |results| == |c.listeners|)
            && (c.exit == ByServe ==>
                results != [] &&
                if results[0].Broke? then r == Some(ServeFailed(results[0].code)) else LastFailure(results, r))
            && (c.exit.ByDrain? && c.exit.clean && !c.exit.flagged ==> LastFailure(results, r))
  {
    var s := Execute(Start, actions).value;
    var c, results := s.calls[id], Reported(actions, id);
    assert Reachable(s);
    AllReceived(actions, id, r);
    ServeErrorReported(s, id, r);
    if c.exit == ByServe {
      LastErrorIsLastFailure(results[1..]);
      if results[0].Closed? {
        ClosedFirst(results, r);
      }
    } else {
      LastErrorIsLastFailure(results);
    }
  }

  // ---- when Run has to wait ----

  // Serving, with nothing to receive and its context alive; or collecting
  // results of which some have not come.
  predicate MustWait(c: Call) {
    || (c.phase.Selecting? && c.errCh == [] && c.ctx.None?)
    || (Drains(c) && c.errCh == [] && |c.received| != |c.listeners|)
  }

  // The answer that lets a Run go on.
  function Answer(c: Call): Choice {
    match c.phase
    case Waiting => Ready
    case Listening => Opened
    case Selecting => if c.errCh != [] then Receive else ContextDone
    case ShuttingDown => ShutdownOk
    case _ => Go
  }

  // An active Run can go on, given an answer of its environment, unless it
  // must wait for a Serve call or for its context.
  lemma OnlyWaitsForServe(s: State, id: nat)
    requires Reachable(s) && id in s.calls && (Active(s.calls[id]) || s.calls[id].phase.Guard?)
    ensures (exists choice :: Next(s, Step(id, choice)).Some?) <==> !MustWait(s.calls[id])
  {
    var c := s.calls[id];
    if MustWait(c) {
      forall choice ensures Next(s, Step(id, choice)).None? {
        assert LocalStep(c, choice).None?;
      }
    } else {
      assert Next(s, Step(id, Answer(c))).Some?;
    }
  }
}
