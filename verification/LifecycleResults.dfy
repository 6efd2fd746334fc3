// What callers of Run can rely on, in every interleaving: restarts are neither
// lost nor invented, listeners and goroutines are accounted for, and the
// drain always makes progress.
module LifecycleResults {
  import opened Common
  import opened Lifecycle
  import opened RunInvariant
  import opened LifecycleSafety

  // ---- restarts ----

  // This action is a reload that is accepted during Run id, changes settings,
  // and meets the immediate policy, counting a policy it brings itself.
  predicate Asks(s: State, a: Action, id: nat) {
    && a.Reload? && a.rid !in s.reloads && a.changed
    && s.server.initialized && s.server.runCancel == Some(id)
    && (if a.policy.Some? then a.policy.value else s.server.immediate)
  }

  predicate AskedIn(s: State, actions: seq<Action>, id: nat)
    decreases |actions|
  {
    actions != [] &&
    (Asks(s, actions[0], id) || (Next(s, actions[0]).Some? && AskedIn(Next(s, actions[0]).value, actions[1..], id)))
  }

  lemma AskedStep(s: State, a: Action, id: nat)
    requires Next(s, a).Some?
    ensures id in Next(s, a).value.asked <==> id in s.asked || Asks(s, a, id)
  {
    if a.Step? {
      assert Next(s, a) == RunStep(s, a.id, a.choice);
      assert RunStep(s, a.id, a.choice).value.asked == s.asked;
    }
  }

  lemma {:induction false} AskedMeansAccepted(s: State, actions: seq<Action>, id: nat)
    requires Execute(s, actions).Some?
    ensures id in Execute(s, actions).value.asked <==> id in s.asked || AskedIn(s, actions, id)
    decreases |actions|
  {
    if actions != [] {
      AskedStep(s, actions[0], id);
      AskedMeansAccepted(Next(s, actions[0]).value, actions[1..], id);
    }
  }

  // Run returns ErrServerRestartRequired exactly when it drained, Shutdown
  // succeeded, and the flag was set when it looked.
  lemma RestartIff(s: State, id: nat, r: Outcome)
    requires Reachable(s) && id in s.calls && s.calls[id].phase == Returned(r)
    ensures var x := s.calls[id].exit;
            r == Some(RestartRequired) <==> x.ByDrain? && x.clean && x.flagged
  {
    ReachableInv(s);
    assert CallInv(s, id);
    var c := s.calls[id];
    if c.exit == ByServe {
      LastErrorKind(c.received[1..]);
    } else if c.exit.ByDrain? {
      LastErrorKind(c.received);
    }
  }

  // No spurious restart: some reload accepted during that same Run asked.
  lemma NoSpuriousRestart(actions: seq<Action>, id: nat)
    requires Execute(Start, actions).Some?
    requires var s := Execute(Start, actions).value;
             id in s.calls && s.calls[id].phase == Returned(Some(RestartRequired))
    ensures AskedIn(Start, actions, id)
  {
    var s := Execute(Start, actions).value;
    assert Reachable(s);
    RestartIff(s, id, Some(RestartRequired));
    ReachableInv(s);
    assert CallInv(s, id);
    AskedMeansAccepted(Start, actions, id);
  }

  // No lost restart: a drain whose Run a reload had cancelled sees the flag,
  // and returns it whenever Shutdown succeeds.
  lemma NoLostRestart(s: State, id: nat, r: Outcome)
    requires Reachable(s) && id in s.calls && s.calls[id].phase == Returned(r)
    requires s.calls[id].exit.ByDrain? && s.calls[id].exit.cancelledByReload
    ensures s.calls[id].exit.flagged
    ensures r == if s.calls[id].exit.clean then Some(RestartRequired) else Some(ShutdownFailed)
  {
    ReachableInv(s);
    assert CallInv(s, id);
  }

  // While a Run is active the flag says exactly whether a reload asked it.
  lemma FlagIsCurrent(s: State, id: nat)
    requires Reachable(s) && id in s.calls && Active(s.calls[id])
    ensures s.server.restartRequested <==> id in s.asked
    ensures s.calls[id].byReload ==> s.server.restartRequested
  {
    ReachableInv(s);
    assert CallInv(s, id);
  }

  // A captured cancel function belongs to a Run that was asked to restart,
  // and calling it changes no other Run, however late it is called.
  lemma CapturedCancelIsItsOwn(s: State, rid: nat)
    requires Reachable(s) && rid in s.reloads
    ensures var id := s.reloads[rid];
            && id in s.asked && id in s.calls
            && var s1 := Next(s, ReloadCancel(rid));
            && s1.Some? && s1.value.server == s.server && id in s1.value.calls
            && s1.value.calls == s.calls[id := s1.value.calls[id]]
  {
    var id := s.reloads[rid];
    assert id in s.asked && id in s.calls by {
      ReachableInv(s);
    }
  }

  // A Run's context ends only with its caller's, by a reload that asked this
  // very Run, or in its own cleanup.
  lemma WhyCancelled(s: State, id: nat)
    requires Reachable(s) && id in s.calls && s.calls[id].ctx.Some?
    ensures s.calls[id].outer.Some? || (s.calls[id].byReload && id in s.asked) || Tail(s.calls[id].phase)
  {
    ReachableInv(s);
    assert CallInv(s, id);
  }

  // ---- Runs that never served ----

  // A Run that returns without having served says why: nil only if it was to
  // wait for health, opened nothing, and was cancelled by its caller or by a
  // reload that asked this very Run (server.go:391-394); the context's error
  // only if it was cancelled; and so on.
  lemma WhyUnserved(s: State, id: nat, r: Outcome)
    requires Reachable(s) && id in s.calls && s.calls[id].phase == Returned(r) && s.calls[id].exit == NotYet
    ensures Unserved(s.calls[id], r)
    ensures s.calls[id].byReload ==> id in s.asked
    ensures r.None? ==>
              && s.calls[id].wait && s.calls[id].listeners == []
              && (s.calls[id].outer.Some? || (s.calls[id].byReload && id in s.asked))
  {
    ReachableInv(s);
    assert CallInv(s, id);
  }

  // The guarantee of NoLostRestart stops at the drain. A Run that was asked to
  // restart and never drained returns nil (only from its wait for health), the
  // error of its context, a failure of the wait or of a listen, or, if it
  // served, the failure of a Serve call; never the restart error.
  lemma AskedWithoutDrain(s: State, id: nat, r: Outcome)
    requires Reachable(s) && id in s.asked && id in s.calls && s.calls[id].phase == Returned(r)
    requires !s.calls[id].exit.ByDrain?
    ensures var c := s.calls[id];
            if c.exit == ByServe then
              c.received != [] && r == FirstElseLast(c.received) && (r.Some? ==> r.value.ServeFailed?)
            else
              || (r.None? && c.wait && c.listeners == [])
              || (r.Some? && (r.value.Context? || r.value.Unhealthy? || r.value.ListenFailed?))
  {
    ReachableInv(s);
    assert CallInv(s, id);
    if s.calls[id].exit == ByServe {
      LastErrorKind(s.calls[id].received[1..]);
    }
  }

  // ---- listeners, goroutines, results ----

  // On every way out of Run each listener it opened was closed, or was handed
  // to exactly one Serve whose result has been received; the channel is empty
  // and no goroutine is left to send.
  lemma NothingLeaks(s: State, id: nat, r: Outcome)
    requires Reachable(s) && id in s.calls && s.calls[id].phase == Returned(r)
    ensures var c := s.calls[id];
            if c.exit == NotYet then All(c.listeners, Shut) && c.goroutines == []
            else
              && All(c.listeners, Handed)
              && |c.received| == |c.goroutines| == |c.listeners| && c.errCh == []
              && forall g | 0 <= g < |c.goroutines| :: c.goroutines[g] == Done
  {
    ReachableInv(s);
    assert CallInv(s, id);
    var c := s.calls[id];
    DoneCountBound(c.goroutines);
    if c.exit != NotYet {
      AllDone(c.goroutines);
    }
  }

  lemma {:induction false} AllDone(gs: seq<Goroutine>)
    requires DoneCount(gs) == |gs|
    ensures forall g | 0 <= g < |gs| :: gs[g] == Done
  {
    if gs != [] {
      var n := |gs| - 1;
      DoneCountBound(gs[..n]);
      AllDone(gs[..n]);
      forall g | 0 <= g < |gs| ensures gs[g] == Done {
        assert g < n ==> gs[g] == gs[..n][g];
      }
    }
  }

  // The error Run reports from its Serve calls.
  lemma ServeErrorReported(s: State, id: nat, r: Outcome)
    requires Reachable(s) && id in s.calls && s.calls[id].phase == Returned(r)
    ensures var c := s.calls[id];
            && (c.exit == ByServe ==> c.received != [] && r == FirstElseLast(c.received))
            && (c.exit.ByDrain? && c.exit.clean && !c.exit.flagged ==> r == LastError(c.received))
            && (c.exit.ByDrain? && !c.exit.clean ==> r == Some(ShutdownFailed))
  {
    ReachableInv(s);
    assert CallInv(s, id);
  }

  // The last real failure, or none if every Serve closed cleanly.
  lemma {:induction false} LastErrorIs(results: seq<ServeResult>)
    ensures match LastError(results)
            case None => forall i | 0 <= i < |results| :: results[i].Closed?
            case Some(e) => exists k :: 0 <= k < |results| && Normalize(results[k]) == Some(e)
                                        && forall j | k < j < |results| :: results[j].Closed?
  {
    if results != [] {
      var n := |results| - 1;
      LastErrorIs(results[..n]);
      if results[n].Closed? && LastError(results[..n]).Some? {
        var k :| 0 <= k < n && Normalize(results[..n][k]) == LastError(results)
                 && forall j | k < j < n :: results[..n][j].Closed?;
        assert Normalize(results[k]) == LastError(results);
        assert forall j | k < j < n :: results[j] == results[..n][j];
      } else if results[n].Closed? {
        assert forall i | 0 <= i < n :: results[i] == results[..n][i];
      }
    }
  }

  // The receive loop, and the failing branch that it serves: the first error
  // if it is a real one, else the last real one.
  method DrainServe(errCh: seq<ServeResult>, already: nat) returns (last: Outcome)
    requires already <= |errCh|
    ensures last == LastError(errCh[already..])
  {
    last := None;
    var i := already;
    while i < |errCh|
      invariant already <= i <= |errCh|
      invariant last == LastError(errCh[already..i])
    {
      LastErrorSnoc(errCh[already..i], errCh[i]);
      assert errCh[already..i + 1] == errCh[already..i] + [errCh[i]];
      var e := Normalize(errCh[i]);
      if e.Some? {
        last := e;
      }
      i := i + 1;
    }
    assert errCh[already..i] == errCh[already..];
  }

  method AfterServeReturned(errCh: seq<ServeResult>) returns (r: Outcome)
    requires errCh != []
    ensures r == FirstElseLast(errCh)
  {
    var first := Normalize(errCh[0]);
    var rest := DrainServe(errCh, 1);
    r := if first.Some? then first else rest;
  }

  lemma SpawnedFits(c: Call)
    requires Local(c)
    ensures |c.goroutines| <= |c.listeners|
  {
  }

  // A goroutine that has a result can always send it: the channel has room.
  lemma NoSenderBlocks(s: State, id: nat, g: nat, e: ServeResult)
    requires Reachable(s) && id in s.calls && g < |s.calls[id].goroutines| && s.calls[id].goroutines[g] == Serving
    requires e.Closed? ==> s.calls[id].closing
    ensures Next(s, ServeReturns(id, g, e)).Some?
  {
    ReachableInv(s);
    assert CallInv(s, id);
    var c := s.calls[id];
    DoneCountUpdate(c.goroutines, g);
    DoneCountBound(c.goroutines[g := Done]);
    SpawnedFits(c);
  }

  // What a draining Run still waits for: results to receive and to be sent.
  function Remaining(c: Call): int {
    2 * (|c.listeners| - |c.received|) - |c.errCh|
  }

  predicate Drains(c: Call) {
    c.phase.Failing? || c.phase.Draining?
  }

  lemma ReceiveProgress(c: Call)
    requires Local(c) && Drains(c) && (|c.received| == |c.listeners| || c.errCh != [])
    ensures var c1 := LocalStep(c, Go);
            c1.Some? &&
            if |c.received| == |c.listeners| then c1.value.phase.Cancelling? || c1.value.phase.Deciding?
            else Remaining(c1.value) < Remaining(c)
  {
  }

  lemma StillServing(c: Call) returns (g: nat)
    requires Local(c) && Drains(c) && |c.received| != |c.listeners| && c.errCh == []
    ensures g < |c.goroutines| && c.goroutines[g] == Serving && c.closing
  {
    DoneCountBound(c.goroutines);
    g :| g < |c.goroutines| && c.goroutines[g] == Serving;
  }

  lemma SendProgress(s: State, id: nat, g: nat)
    requires Reachable(s) && id in s.calls && g < |s.calls[id].goroutines| && s.calls[id].goroutines[g] == Serving
    requires s.calls[id].closing
    ensures var s1 := Next(s, ServeReturns(id, g, Closed));
            s1.Some? && id in s1.value.calls && Remaining(s1.value.calls[id]) < Remaining(s.calls[id])
  {
    NoSenderBlocks(s, id, g, Closed);
  }

  // A Run that is draining is never stuck: either it can receive, or some
  // Serve call can return, and each of these brings it nearer to the end.
  lemma DrainProgress(s: State, id: nat) returns (a: Action)
    requires Reachable(s) && id in s.calls && Drains(s.calls[id])
    ensures Next(s, a).Some? && id in Next(s, a).value.calls
    ensures var c, c1 := s.calls[id], Next(s, a).value.calls[id];
            if |c.received| == |c.listeners| then c1.phase.Cancelling? || c1.phase.Deciding?
            else Remaining(c1) < Remaining(c)
  {
    var c := s.calls[id];
    assert Local(c) by {
      ReachableInv(s);
      assert CallInv(s, id);
    }
    if |c.received| == |c.listeners| || c.errCh != [] {
      ReceiveProgress(c);
      a := Step(id, Go);
      assert Next(s, a) == Some(s.(calls := s.calls[id := LocalStep(c, Go).value]));
    } else {
      var g := StillServing(c);
      a := ServeReturns(id, g, Closed);
      SendProgress(s, id, g);
    }
  }

  lemma OwnStep(c: Call, choice: Choice)
    requires Local(c) && Drains(c) && LocalStep(c, choice).Some?
    ensures var c1 := LocalStep(c, choice).value;
            if |c.received| == |c.listeners| then !Drains(c1) else Remaining(c1) < Remaining(c)
  {
  }

  lemma OtherCallsStand(s: State, id: nat, choice: Choice, other: nat)
    requires id in s.calls && other in s.calls && id != other && RunStep(s, id, choice).Some?
    ensures other in RunStep(s, id, choice).value.calls
    ensures RunStep(s, id, choice).value.calls[other] == s.calls[other]
  {
  }

  // Actions other than a step of this Run, or a return of one of its Serves.
  lemma OthersLeaveIt(s: State, id: nat, a: Action)
    requires id in s.calls && Next(s, a).Some? && !((a.Step? || a.ServeReturns?) && a.id == id)
    ensures id in Next(s, a).value.calls
    ensures var c, c1 := s.calls[id], Next(s, a).value.calls[id];
            c1.phase == c.phase && Remaining(c1) == Remaining(c)
  {
    if a.Step? {
      OtherCallsStand(s, a.id, a.choice, id);
    }
  }

  lemma OwnReturn(s: State, id: nat, g: nat, e: ServeResult)
    requires Inv(s) && id in s.calls && Drains(s.calls[id]) && Next(s, ServeReturns(id, g, e)).Some?
    ensures var s1 := Next(s, ServeReturns(id, g, e)).value;
            && id in s1.calls && Remaining(s1.calls[id]) < Remaining(s.calls[id])
            && |s.calls[id].received| != |s.calls[id].listeners|
  {
    assert CallInv(s, id);
    var c := s.calls[id];
    DoneCountUpdate(c.goroutines, g);
    DoneCountBound(c.goroutines[g := Done]);
  }

  // Nor can anything else delay it: every step the draining Run takes, and
  // every return of one of its Serve calls, lowers the measure, until all
  // results are in and the loop is left; no other action touches it.
  lemma EveryDrainStep(s: State, id: nat, a: Action)
    requires Reachable(s) && id in s.calls && Drains(s.calls[id]) && Next(s, a).Some?
    ensures id in Next(s, a).value.calls
    ensures var c, c1 := s.calls[id], Next(s, a).value.calls[id];
            if (a.Step? || a.ServeReturns?) && a.id == id then
              if |c.received| == |c.listeners| then !Drains(c1) else Remaining(c1) < Remaining(c)
            else c1.phase == c.phase && Remaining(c1) == Remaining(c)
  {
    ReachableInv(s);
    if !((a.Step? || a.ServeReturns?) && a.id == id) {
      OthersLeaveIt(s, id, a);
    } else if a.ServeReturns? {
      OwnReturn(s, id, a.g, a.e);
    } else {
      assert CallInv(s, id);
      OwnStep(s.calls[id], a.choice);
    }
  }

  lemma RemainingIsBounded(s: State, id: nat)
    requires Reachable(s) && id in s.calls && Drains(s.calls[id])
    ensures Remaining(s.calls[id]) >= 0
  {
    ReachableInv(s);
    assert CallInv(s, id);
    DoneCountBound(s.calls[id].goroutines);
  }
}
