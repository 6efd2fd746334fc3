// What a single Run call keeps: who owns its listeners, how many Serve results
// were sent and received, and why it returns what it returns.
module RunInvariant {
  import opened Common
  import opened Lifecycle

  function DoneCount(gs: seq<Goroutine>): nat {
    if gs == [] then 0 else DoneCount(gs[..|gs| - 1]) + if gs[|gs| - 1].Done? then 1 else 0
  }

  // The last real failure among results, None if every Serve closed cleanly.
  function LastError(results: seq<ServeResult>): Outcome {
    if results == [] then None else Later(LastError(results[..|results| - 1]), results[|results| - 1])
  }

  function FirstElseLast(results: seq<ServeResult>): Outcome
    requires results != []
  {
    if Normalize(results[0]).Some? then Normalize(results[0]) else LastError(results[1..])
  }

  predicate All(owners: seq<Owner>, o: Owner) {
    forall i | 0 <= i < |owners| :: owners[i] == o
  }

  predicate Serves(p: Phase) {
    p.Selecting? || p.Closing? || p.Failing? || p.Unlisting? || p.ShuttingDown? || p.Draining? || p.Deciding?
  }

  predicate Tail(p: Phase) {
    p.Cancelling? || p.Unmarking? || p.Clearing? || p.Returned?
  }

  // Who owns the listeners, phase by phase.
  predicate ListenersAccounted(c: Call) {
    if Serves(c.phase) then All(c.listeners, Handed) && |c.goroutines| == |c.listeners|
    else if Tail(c.phase) then
      if c.exit == NotYet then All(c.listeners, Shut) && c.goroutines == []
      else All(c.listeners, Handed) && |c.goroutines| == |c.listeners| == |c.received|
    else if c.phase.Spawning? then
      && |c.goroutines| <= |c.listeners|
      && All(c.listeners[..|c.goroutines|], Handed) && All(c.listeners[|c.goroutines|..], Held)
    else
      && All(c.listeners, Held) && c.goroutines == []
      && (c.phase.Guard? || c.phase.CheckContext? || c.phase.Waiting? ==> c.listeners == [])
  }

  // How many results were sent and received, and what is kept of them.
  predicate ResultsAccounted(c: Call) {
    && |c.errCh| + |c.received| == DoneCount(c.goroutines)
    && (!Tail(c.phase) ==> c.exit == NotYet)
    && (match c.phase
        case Closing(first) => |c.received| == 1 && first == Normalize(c.received[0])
        case Failing(first, last) =>
          && c.received != [] && c.closing
          && first == Normalize(c.received[0]) && last == LastError(c.received[1..])
        case Draining(shutdown, last) =>
          && last == LastError(c.received) && c.closing
          && (shutdown.Some? ==> shutdown == Some(ShutdownFailed))
        case Deciding(shutdown, last) =>
          && last == LastError(c.received) && |c.received| == |c.listeners|
          && (shutdown.Some? ==> shutdown == Some(ShutdownFailed))
        case Cancelling(r) => ResultExplained(c, r)
        case Unmarking(r) => ResultExplained(c, r)
        case Clearing(r) => ResultExplained(c, r)
        case Returned(r) => ResultExplained(c, r)
        case _ => c.received == [])
  }

  // What Run returns, by the branch it came back through.
  predicate ResultExplained(c: Call, r: Outcome) {
    match c.exit
    case NotYet => Unserved(c, r)
    case ByServe => c.received != [] && r == FirstElseLast(c.received)
    case ByDrain(clean, flagged, _) =>
      r == if !clean then Some(ShutdownFailed)
           else if flagged then Some(RestartRequired)
           else LastError(c.received)
  }

  // The caller's context ended, or a reload called the Run's cancel function.
  predicate Ended(c: Call) {
    c.outer.Some? || c.byReload
  }

  predicate Refusal(e: RunError) {
    e.NotInitialized? || e.AlreadyActive? || e.NoHandler?
  }

  // The result of a Run that never served, and what must have happened. The
  // other errors cannot come from such a Run; a missing bind is ruled out by
  // Init.
  predicate Unserved(c: Call, r: Outcome) {
    if r.None? then c.wait && c.listeners == [] && Ended(c)
    else
      match r.value
      case Context(_) => Ended(c)
      case Unhealthy => c.wait && c.listeners == []
      case ListenFailed => |c.listeners| < c.binds
      case NotInitialized => c.phase.Returned? && c.listeners == []
      case AlreadyActive => c.phase.Returned? && c.listeners == []
      case NoHandler => c.phase.Returned? && c.listeners == []
      case _ => false
  }

  // How far the Run has come, and whether it has closed its server.
  predicate Progress(c: Call) {
    && (Active(c) ==> c.binds > 0)
    && (c.phase.Waiting? ==> c.wait)
    && (c.phase.Listening? ==> |c.listeners| <= c.binds)
    && (Opened(c) ==> |c.listeners| == c.binds)
    && (c.phase.Failing? || c.exit == ByServe ==> c.closing)
    && (c.closing ==>
        || c.phase.Failing? || c.phase.ShuttingDown? || c.phase.Draining? || c.phase.Deciding?
        || c.exit != NotYet)
  }

  // Every bind has been opened.
  predicate Opened(c: Call) {
    || c.phase.Listened? || c.phase.Publishing? || c.phase.Marking? || c.phase.Spawning? || Serves(c.phase)
    || (Tail(c.phase) && c.exit != NotYet)
  }

  predicate Local(c: Call) {
    && ListenersAccounted(c) && ResultsAccounted(c) && Progress(c)
    && (c.outer.Some? ==> c.ctx.Some?)
    && (c.ctx.Some? ==> Ended(c) || (Tail(c.phase) && !c.phase.Cancelling?))
  }

  lemma {:induction false} DoneCountUpdate(gs: seq<Goroutine>, g: nat)
    requires g < |gs| && gs[g] == Serving
    ensures DoneCount(gs[g := Done]) == DoneCount(gs) + 1
    decreases |gs|
  {
    var n := |gs| - 1;
    if g == n {
      assert gs[g := Done][..n] == gs[..n];
    } else {
      DoneCountUpdate(gs[..n], g);
      assert gs[g := Done][..n] == gs[..n][g := Done];
    }
  }

  lemma DoneCountSnoc(gs: seq<Goroutine>)
    ensures DoneCount(gs + [Serving]) == DoneCount(gs)
  {
    assert (gs + [Serving])[..|gs|] == gs;
  }

  // Results outnumber goroutines never; if all are in, every one is done.
  lemma {:induction false} DoneCountBound(gs: seq<Goroutine>)
    ensures DoneCount(gs) <= |gs|
    ensures DoneCount(gs) < |gs| ==> exists g: nat :: g < |gs| && gs[g] == Serving
  {
    if gs != [] {
      var n := |gs| - 1;
      DoneCountBound(gs[..n]);
      if DoneCount(gs) < |gs| && gs[n].Done? {
        var g: nat :| g < n && gs[..n][g] == Serving;
        assert gs[g] == Serving;
      } else if DoneCount(gs) < |gs| {
        assert gs[n] == Serving;
      }
    }
  }

  lemma LastErrorSnoc(results: seq<ServeResult>, e: ServeResult)
    ensures LastError(results + [e]) == Later(LastError(results), e)
  {
    assert (results + [e])[..|results|] == results;
  }

  lemma ListeningStepKeeps(c: Call, choice: Choice)
    requires Local(c) && LocalStep(c, choice).Some? && c.phase.Listening?
    ensures Local(LocalStep(c, choice).value)
    ensures SameFrame(c, LocalStep(c, choice).value)
  {
  }

  lemma ListenedStepKeeps(c: Call, choice: Choice)
    requires Local(c) && LocalStep(c, choice).Some? && c.phase.Listened?
    ensures Local(LocalStep(c, choice).value)
    ensures SameFrame(c, LocalStep(c, choice).value)
  {
  }

  lemma OpeningStepKeeps(c: Call, choice: Choice)
    requires Local(c) && LocalStep(c, choice).Some?
    requires c.phase.CheckContext? || c.phase.Waiting?
    ensures Local(LocalStep(c, choice).value)
    ensures SameFrame(c, LocalStep(c, choice).value)
  {
  }

  lemma SpawnOneKeeps(c: Call)
    requires Local(c) && c.phase.Spawning? && |c.goroutines| < |c.listeners|
    ensures var c1 := c.(goroutines := c.goroutines + [Serving], listeners := c.listeners[|c.goroutines| := Handed]);
            Local(c1) && SameFrame(c, c1)
  {
    var n := |c.goroutines|;
    var l1 := c.listeners[n := Handed];
    DoneCountSnoc(c.goroutines);
    assert l1[..n] == c.listeners[..n] && l1[..n + 1] == l1[..n] + [Handed];
    assert l1[n + 1..] == c.listeners[n + 1..] == c.listeners[n..][1..];
  }

  lemma SpawningStepKeeps(c: Call, choice: Choice)
    requires Local(c) && LocalStep(c, choice).Some? && c.phase.Spawning?
    ensures Local(LocalStep(c, choice).value)
    ensures SameFrame(c, LocalStep(c, choice).value)
  {
    if |c.goroutines| < |c.listeners| {
      SpawnOneKeeps(c);
    } else {
      assert c.listeners[..|c.goroutines|] == c.listeners;
    }
  }

  lemma SelectingStepKeeps(c: Call, choice: Choice)
    requires Local(c) && LocalStep(c, choice).Some?
    requires c.phase.Selecting? || c.phase.Closing?
    ensures Local(LocalStep(c, choice).value)
    ensures SameFrame(c, LocalStep(c, choice).value)
  {
  }

  lemma FailingReceiveKeeps(c: Call)
    requires Local(c) && c.phase.Failing? && |c.received| != |c.listeners| && c.errCh != []
    ensures var e, first, last := c.errCh[0], c.phase.first, c.phase.last;
            var c1 := c.(phase := Failing(first, Later(last, e)), errCh := c.errCh[1..], received := c.received + [e]);
            Local(c1) && SameFrame(c, c1)
  {
    LastErrorSnoc(c.received[1..], c.errCh[0]);
    assert (c.received + [c.errCh[0]])[1..] == c.received[1..] + [c.errCh[0]];
  }

  lemma FailingStepKeeps(c: Call, choice: Choice)
    requires Local(c) && LocalStep(c, choice).Some? && c.phase.Failing?
    ensures Local(LocalStep(c, choice).value)
    ensures SameFrame(c, LocalStep(c, choice).value)
  {
    if |c.received| != |c.listeners| {
      FailingReceiveKeeps(c);
    }
  }

  lemma ShuttingStepKeeps(c: Call, choice: Choice)
    requires Local(c) && LocalStep(c, choice).Some? && c.phase.ShuttingDown?
    ensures Local(LocalStep(c, choice).value)
    ensures SameFrame(c, LocalStep(c, choice).value)
  {
  }

  lemma CancellingStepKeeps(c: Call, choice: Choice)
    requires Local(c) && LocalStep(c, choice).Some? && c.phase.Cancelling?
    ensures Local(LocalStep(c, choice).value)
    ensures SameFrame(c, LocalStep(c, choice).value)
  {
  }

  lemma DrainingStepKeeps(c: Call, choice: Choice)
    requires Local(c) && LocalStep(c, choice).Some? && c.phase.Draining?
    ensures Local(LocalStep(c, choice).value)
    ensures SameFrame(c, LocalStep(c, choice).value)
  {
    if |c.received| != |c.listeners| {
      LastErrorSnoc(c.received, c.errCh[0]);
    }
  }

  lemma LocalStepKeeps(c: Call, choice: Choice)
    requires Local(c) && LocalStep(c, choice).Some?
    ensures Local(LocalStep(c, choice).value)
    ensures Active(c) && SameFrame(c, LocalStep(c, choice).value)
  {
    if c.phase.CheckContext? || c.phase.Waiting? {
      OpeningStepKeeps(c, choice);
    } else if c.phase.Listening? {
      ListeningStepKeeps(c, choice);
    } else if c.phase.Listened? {
      ListenedStepKeeps(c, choice);
    } else if c.phase.Spawning? {
      SpawningStepKeeps(c, choice);
    } else if c.phase.Selecting? || c.phase.Closing? {
      SelectingStepKeeps(c, choice);
    } else if c.phase.Failing? {
      FailingStepKeeps(c, choice);
    } else if c.phase.Draining? {
      DrainingStepKeeps(c, choice);
    } else if c.phase.ShuttingDown? {
      ShuttingStepKeeps(c, choice);
    } else {
      CancellingStepKeeps(c, choice);
    }
  }

  // A local step changes nothing the rest of the system can see.
  predicate SameFrame(c: Call, c1: Call) {
    && Active(c1) && c1.byReload == c.byReload
    && (Exposed(c1) <==> Exposed(c)) && (HasAddress(c1) <==> HasAddress(c))
    && (c1.exit == c.exit || c1.exit == ByServe)
  }

  // Whether the server shows a live listener on behalf of this call.
  predicate Exposed(c: Call) {
    || c.phase.Spawning? || c.phase.Selecting? || c.phase.Closing? || c.phase.Failing? || c.phase.Unlisting?
    || ((c.phase.Cancelling? || c.phase.Unmarking?) && c.exit == ByServe)
  }

  predicate HasAddress(c: Call) {
    || c.phase.Marking? || c.phase.Spawning? || Serves(c.phase)
    || (Active(c) && Tail(c.phase) && c.exit != NotYet)
  }

  lemma ServeReturnKeeps(c: Call, g: nat, e: ServeResult)
    requires Local(c) && g < |c.goroutines| && c.goroutines[g] == Serving
    ensures Local(c.(goroutines := c.goroutines[g := Done], errCh := c.errCh + [e]))
  {
    DoneCountUpdate(c.goroutines, g);
    DoneCountBound(c.goroutines[g := Done]);
  }

  lemma GuardRefusedLocal(c: Call, refused: RunError)
    requires Local(c) && c.phase.Guard? && Refusal(refused)
    ensures Local(c.(phase := Returned(Some(refused))))
  {
  }

  lemma GuardAcceptedLocal(c: Call, binds: nat)
    requires Local(c) && c.phase.Guard? && binds > 0
    ensures Local(c.(phase := CheckContext, binds := binds))
  {
  }

  // Serve failures are the only errors that Serve results make.
  lemma {:induction false} LastErrorKind(results: seq<ServeResult>)
    ensures LastError(results).Some? ==> LastError(results).value.ServeFailed?
  {
    if results != [] {
      LastErrorKind(results[..|results| - 1]);
    }
  }

  // A Run past its guard never returns one of the guard's errors.
  lemma NotRefused(c: Call, result: Outcome)
    requires ResultExplained(c, result) && !c.phase.Returned?
    ensures result.Some? ==> !Refusal(result.value)
  {
    if c.exit == ByServe {
      LastErrorKind(c.received[1..]);
    } else if c.exit.ByDrain? {
      LastErrorKind(c.received);
    }
  }

  lemma ClearingLocal(c: Call, result: Outcome)
    requires Local(c) && c.phase == Clearing(result)
    ensures Local(c.(phase := Returned(result)))
  {
  }

  lemma DecidingLocal(c: Call, restartRequested: bool)
    requires c.phase.Deciding? && Local(c)
    ensures Local(AfterAtomic(c, restartRequested))
  {
  }

  lemma UnmarkingLocal(c: Call, restartRequested: bool)
    requires c.phase.Unmarking? && Local(c)
    ensures Local(AfterAtomic(c, restartRequested))
  {
  }

  lemma AtomicStepLocal(c: Call, restartRequested: bool)
    requires Atomic(c.phase) && Local(c)
    ensures Local(AfterAtomic(c, restartRequested))
  {
    if c.phase.Deciding? {
      DecidingLocal(c, restartRequested);
    } else if c.phase.Unmarking? {
      UnmarkingLocal(c, restartRequested);
    } else if c.phase.Marking? {
      assert c.listeners[0..] == c.listeners;
    }
  }

  // What the server shows after an unlocked step of the call.
  lemma ServerAfterShows(c: Call, sv: Server)
    requires Atomic(c.phase) && (!Tail(c.phase) ==> c.exit == NotYet)
    requires sv.listening == Exposed(c) && sv.bound == HasAddress(c)
    ensures var c1 := AfterAtomic(c, sv.restartRequested);
            ServerAfter(c.phase, sv) == sv.(listening := Exposed(c1), bound := HasAddress(c1))
  {
    AtomicStepFrame(c, sv.restartRequested);
  }

  lemma AtomicStepFrame(c: Call, restartRequested: bool)
    requires Atomic(c.phase) && (!Tail(c.phase) ==> c.exit == NotYet)
    ensures var c1 := AfterAtomic(c, restartRequested);
            && Active(c) && Active(c1) && c1.byReload == c.byReload
            && (|| c1.exit == c.exit
                || (c.phase.Deciding? && c1.exit == ByDrain(c.phase.shutdown.None?, restartRequested, c.byReload)))
            && Exposed(c1) == (c.phase.Marking? || (Exposed(c) && !c.phase.Unlisting? && !c.phase.Unmarking?))
            && HasAddress(c1) == (c.phase.Publishing? || HasAddress(c))
  {
  }
}
