// Reachable states in which the server does not keep a promise, each with the
// interleaving that leads to it.
module LifecycleTraces {
  import opened Common
  import opened Lifecycle
  import opened LifecycleSafety

  lemma {:induction false} ExecuteOneMore(s: State, actions: seq<Action>, a: Action)
    requires Execute(s, actions).Some?
    ensures Execute(s, actions + [a]) == Next(Execute(s, actions).value, a)
    decreases |actions|
  {
    if actions == [] {
      assert [] + [a] == [a] && [a][1..] == [];
    } else {
      assert (actions + [a])[1..] == actions[1..] + [a];
      ExecuteOneMore(Next(s, actions[0]).value, actions[1..], a);
    }
  }

  lemma ReachableStep(s: State, a: Action)
    requires Reachable(s) && Next(s, a).Some?
    ensures Reachable(Next(s, a).value)
  {
    var actions :| Execute(Start, actions) == Some(s);
    ExecuteOneMore(Start, actions, a);
    assert Execute(Start, actions + [a]) == Some(Next(s, a).value);
  }

  // A system with one Run call.
  function One(sv: Server, c: Call): State {
    State(sv, map[0 := c], map[], {})
  }

  // A step of Run 0 on its own state.
  lemma Move(s: State, choice: Choice)
    requires Reachable(s) && 0 in s.calls && LocalStep(s.calls[0], choice).Some?
    requires var p := s.calls[0].phase; !p.Guard? && !p.Clearing? && !Atomic(p)
    ensures Reachable(s.(calls := s.calls[0 := LocalStep(s.calls[0], choice).value]))
  {
    ReachableStep(s, Step(0, choice));
  }

  lemma LocalMove(sv: Server, c: Call, choice: Choice)
    requires Reachable(One(sv, c)) && LocalStep(c, choice).Some?
    requires !c.phase.Guard? && !c.phase.Clearing? && !Atomic(c.phase)
    ensures Reachable(One(sv, LocalStep(c, choice).value))
  {
    var c1 := LocalStep(c, choice).value;
    Move(One(sv, c), choice);
    assert One(sv, c).(calls := map[0 := c][0 := c1]) == One(sv, c1);
  }

  lemma SharedMove(sv: Server, c: Call)
    requires Reachable(One(sv, c)) && Atomic(c.phase)
    ensures Reachable(One(ServerAfter(c.phase, sv), AfterAtomic(c, sv.restartRequested)))
  {
    var s1 := One(ServerAfter(c.phase, sv), AfterAtomic(c, sv.restartRequested));
    assert Advance(One(sv, c), 0) == s1;
    ReachableStep(One(sv, c), Step(0, Go));
  }

  // One bind, a handler, and one Run past its guard.
  function Ready(immediate: bool): Server {
    Server(true, true, 1, true, Some(0), false, false, false, false, immediate)
  }

  function Begun(wait: bool): Call {
    Fresh.(phase := CheckContext, wait := wait, binds := 1)
  }

  lemma BegunIsReachable(immediate: bool, wait: bool)
    ensures Reachable(One(Ready(immediate), Begun(wait)))
  {
    assert Execute(Start, []) == Some(Start);
    var sv1 := Start.server.(initialized := true, binds := 1, immediate := immediate);
    var sv2 := sv1.(hasHandler := true);
    ReachableStep(Start, Init(1, immediate));
    ReachableStep(Start.(server := sv1), SetHandler(true));
    ReachableStep(Start.(server := sv2), CallRun(0, wait, None));
    var c := Fresh.(wait := wait);
    assert Start.(server := sv2, calls := map[0 := c]) == One(sv2, c);
    ReachableStep(One(sv2, c), Step(0, Go));
    assert GuardStep(One(sv2, c), 0) == One(Ready(immediate), Begun(wait));
  }

  // A Run that serves its one listener.
  function Serving1(): Call {
    Begun(false).(phase := Selecting, listeners := [Handed], goroutines := [Serving])
  }

  function Listening1(): Server {
    Ready(false).(bound := true, listening := true)
  }

  lemma PublishingIsReachable()
    ensures Reachable(One(Ready(false), Begun(false).(phase := Publishing, listeners := [Held])))
  {
    var sv, c := Ready(false), Begun(false);
    BegunIsReachable(false, false);
    LocalMove(sv, c, Go);
    var c1 := c.(phase := Listening);
    LocalMove(sv, c1, Opened);
    assert [] + [Held] == [Held];
    LocalMove(sv, c1.(listeners := [Held]), Go);
    LocalMove(sv, c1.(phase := Listened, listeners := [Held]), Go);
  }

  lemma SpawningIsReachable()
    ensures Reachable(One(Listening1(), Begun(false).(phase := Spawning, listeners := [Held])))
  {
    var c := Begun(false).(listeners := [Held]);
    PublishingIsReachable();
    SharedMove(Ready(false), c.(phase := Publishing));
    SharedMove(Ready(false).(bound := true), c.(phase := Marking));
  }

  lemma ServingIsReachable()
    ensures Reachable(One(Listening1(), Serving1()))
  {
    var c := Begun(false).(phase := Spawning, listeners := [Held]);
    SpawningIsReachable();
    LocalMove(Listening1(), c, Go);
    assert [] + [Serving] == [Serving] && [Held][0 := Handed] == [Handed];
    LocalMove(Listening1(), c.(listeners := [Handed], goroutines := [Serving]), Go);
  }

  // The Serve call of that Run fails.
  function Broken1(): Call {
    Serving1().(goroutines := [Done], errCh := [Broke(1)])
  }

  lemma BrokenIsReachable()
    ensures Reachable(One(Listening1(), Broken1()))
  {
    var sv, c := Listening1(), Serving1();
    ServingIsReachable();
    assert [Serving][0 := Done] == [Done] && [] + [Broke(1)] == [Broke(1)];
    assert One(sv, c).(calls := map[0 := c][0 := Broken1()]) == One(sv, Broken1());
    ReachableStep(One(sv, c), ServeReturns(0, 0, Broke(1)));
  }

  // Its one Serve call failed, Run has closed the server and waits for the
  // results, and all the while Health succeeds although nothing listens.
  lemma HealthyWithoutListener() returns (s: State)
    ensures Reachable(s) && Healthy(s) && 0 in s.calls && Active(s.calls[0])
    ensures var c := s.calls[0];
            c.phase.Failing? && c.closing && |c.listeners| == 1 && !Accepting(c, 0)
  {
    var sv := Listening1();
    BrokenIsReachable();
    LocalMove(sv, Broken1(), Receive);
    var c2 := Broken1().(phase := Closing(Some(ServeFailed(1))), errCh := [], received := [Broke(1)]);
    assert [Broke(1)][1..] == [] && [] + [Broke(1)] == [Broke(1)];
    LocalMove(sv, c2, Go);
    s := One(sv, c2.(phase := Failing(Some(ServeFailed(1)), None), closing := true));
  }

  // A reload under the immediate policy asks a Run to restart while it waits
  // for health: it returns nil, and the restart is lost.
  lemma RestartLostWhileWaiting() returns (s: State)
    ensures Reachable(s) && 0 in s.calls && s.calls[0].phase == Returned(None)
    ensures 0 in s.asked && s.calls[0].byReload && s.server.restartRequested
  {
    var sv, c := Ready(true), Begun(true);
    BegunIsReachable(true, true);
    LocalMove(sv, c, Go);
    var c1 := c.(phase := Waiting);
    var sv1 := sv.(restartRequired := true, restartRequested := true);
    var s1 := State(sv1, map[0 := c1], map[0 := 0], {0});
    assert ReloadLocked(One(sv, c1), 0, true, None) == s1;
    ReachableStep(One(sv, c1), Reload(0, true, None));
    var c2 := c1.(ctx := Some(Canceled), byReload := true);
    var s2 := State(sv1, map[0 := c2], map[], {0});
    assert s1.(reloads := map[0 := 0] - {0}, calls := map[0 := c1][0 := c2]) == s2;
    ReachableStep(s1, ReloadCancel(0));
    s := ReturnsNil(s2);
  }

  lemma StopsWaiting(s: State)
    requires Reachable(s) && 0 in s.calls && s.calls[0].phase.Waiting? && s.calls[0].ctx == Some(Canceled)
    ensures Reachable(s.(calls := s.calls[0 := s.calls[0].(phase := Unmarking(None))]))
  {
    var c := s.calls[0];
    Move(s, WaitCancelled);
    var s1 := s.(calls := s.calls[0 := c.(phase := Cancelling(None))]);
    Move(s1, Go);
    assert s1.calls[0 := c.(phase := Unmarking(None))] == s.calls[0 := c.(phase := Unmarking(None))];
  }

  lemma ReturnsNil(s: State) returns (s4: State)
    requires Reachable(s) && 0 in s.calls && s.calls[0].phase.Waiting? && s.calls[0].ctx == Some(Canceled)
    ensures Reachable(s4) && s4.asked == s.asked && s4.server.restartRequested == s.server.restartRequested
    ensures 0 in s4.calls && s4.calls[0] == s.calls[0].(phase := Returned(None))
  {
    StopsWaiting(s);
    var s2 := s.(calls := s.calls[0 := s.calls[0].(phase := Unmarking(None))]);
    Clears(s2);
    s4 := ClearingStep(Advance(s2, 0), 0, None);
  }

  lemma Clears(s: State)
    requires Reachable(s) && 0 in s.calls && s.calls[0].phase == Unmarking(None)
    ensures Reachable(ClearingStep(Advance(s, 0), 0, None))
  {
    ReachableStep(s, Step(0, Go));
    ReachableStep(Advance(s, 0), Step(0, Go));
  }
}
