// The server lifecycle (server.go, config.go) as a transition system. Any
// number of Run calls, reloads, cancellations, Init, Shutdown and SetHandler
// calls and serving goroutines interleave; each action below is one critical
// section or one atomic operation of the program.
module Lifecycle {
  import opened Common

  // ---- one Run call ----

  datatype Cause = Canceled | DeadlineExceeded

  datatype RunError =
    | NotInitialized | AlreadyActive | NoHandler
    | Context(cause: Cause) | BindRequired | Unhealthy | ListenFailed
    | ServeFailed(code: nat) | ShutdownFailed | RestartRequired

  type Outcome = Option<RunError> // None is a nil error

  // What server.Serve returns: http.ErrServerClosed, or a real failure.
  datatype ServeResult = Closed | Broke(code: nat)

  function Normalize(e: ServeResult): Outcome {
    if e.Closed? then None else Some(ServeFailed(e.code))
  }

  // Run's program counter.
  datatype Phase =
    | Guard
    | CheckContext
    | Waiting
    | Listening
    | Listened
    | Publishing
    | Marking
    | Spawning
    | Selecting
    | Closing(first: Outcome)
    | Failing(first: Outcome, last: Outcome)
    | Unlisting
    | ShuttingDown
    | Draining(shutdown: Outcome, last: Outcome)
    | Deciding(shutdown: Outcome, last: Outcome)
    | Cancelling(result: Outcome) // deferred: runCancel()
    | Unmarking(result: Outcome) // deferred: listening.Store(false)
    | Clearing(result: Outcome) // deferred: the locked section
    | Returned(result: Outcome)

  // A listener is held by Run, closed by Run, or handed to a Serve call.
  datatype Owner = Held | Shut | Handed

  datatype Goroutine = Serving | Done

  // The branch by which a Run that got as far as serving came back.
  datatype Exit = NotYet | ByServe | ByDrain(clean: bool, flagged: bool, cancelledByReload: bool)

  datatype Call = Call(
    phase: Phase,
    wait: bool,
    binds: nat,
    outer: Option<Cause>, // the caller's context
    ctx: Option<Cause>, // runCtx, with its first cause
    byReload: bool, // a reload's captured cancel was called
    listeners: seq<Owner>,
    goroutines: seq<Goroutine>,
    errCh: seq<ServeResult>,
    received: seq<ServeResult>,
    closing: bool, // server.Close or server.Shutdown has begun
    exit: Exit)

  datatype Server = Server(
    initialized: bool,
    hasHandler: bool,
    binds: nat,
    running: bool,
    runCancel: Option<nat>, // the Run whose cancel function is stored
    listening: bool,
    bound: bool, // boundAddress is not empty
    restartRequested: bool,
    restartRequired: bool,
    immediate: bool)

  datatype State = State(
    server: Server,
    calls: map<nat, Call>,
    reloads: map<nat, nat>, // reloads that unlocked and hold a cancel function
    asked: set<nat>) // history: Runs during which an immediate reload changed settings

  // ---- actions ----

  datatype Choice =
    | Go
    | Ready | WaitFailed | WaitCancelled
    | Opened | Refused
    | Receive | ContextDone
    | ShutdownOk | ShutdownErr

  datatype Action =
    | Init(binds: nat, immediate: bool)
    | Stop // Shutdown
    | SetHandler(set_: bool)
    | CallRun(id: nat, wait: bool, outer: Option<Cause>)
    | CancelOuter(id: nat, cause: Cause)
    | Reload(rid: nat, changed: bool, policy: Option<bool>)
    | ReloadCancel(rid: nat)
    | Step(id: nat, choice: Choice)
    | ServeReturns(id: nat, g: nat, e: ServeResult)

  function Cancel(c: Call, cause: Cause): Call {
    if c.ctx.Some? then c else c.(ctx := Some(cause))
  }

  function Later(last: Outcome, e: ServeResult): Outcome {
    if Normalize(e).Some? then Normalize(e) else last
  }

  function Repeat(n: nat, o: Owner): seq<Owner> {
    seq(n, i => o)
  }

  // Steps that touch only the call's own state.
  function LocalStep(c: Call, choice: Choice): Option<Call> {
    match c.phase
    case CheckContext =>
      Some(c.(phase :=
        if c.outer.Some? then Cancelling(Some(Context(c.outer.value)))
        else if c.binds == 0 then Cancelling(Some(BindRequired))
        else if c.wait then Waiting else Listening))
    case Waiting =>
      (match choice
       case Ready => Some(c.(phase := Listening))
       case WaitFailed => Some(c.(phase := Cancelling(Some(Unhealthy))))
       case WaitCancelled => if c.ctx == Some(Canceled) then Some(c.(phase := Cancelling(None))) else None
       case _ => None)
    case Listening =>
      if |c.listeners| == c.binds then Some(c.(phase := Listened))
      else if choice == Opened then Some(c.(listeners := c.listeners + [Held]))
      else if choice == Refused then
        Some(c.(phase := Cancelling(Some(ListenFailed)), listeners := Repeat(|c.listeners|, Shut)))
      else None
    case Listened =>
      if c.ctx.Some? then
        Some(c.(phase := Cancelling(Some(Context(c.ctx.value))), listeners := Repeat(|c.listeners|, Shut)))
      else Some(c.(phase := Publishing))
    case Spawning =>
      if |c.goroutines| < |c.listeners| then
        Some(c.(goroutines := c.goroutines + [Serving],
                listeners := c.listeners[|c.goroutines| := Handed]))
      else Some(c.(phase := Selecting))
    case Selecting =>
      if choice == Receive && c.errCh != [] then
        Some(c.(phase := Closing(Normalize(c.errCh[0])), errCh := c.errCh[1..], received := c.received + [c.errCh[0]]))
      else if choice == ContextDone && c.ctx.Some? then Some(c.(phase := Unlisting))
      else None
    case Closing(first) => Some(c.(phase := Failing(first, None), closing := true))
    case Failing(first, last) =>
      if |c.received| == |c.listeners| then
        Some(c.(phase := Cancelling(if first.Some? then first else last), exit := ByServe))
      else if c.errCh != [] then
        Some(c.(phase := Failing(first, Later(last, c.errCh[0])),
                errCh := c.errCh[1..], received := c.received + [c.errCh[0]]))
      else None
    case ShuttingDown =>
      if !c.closing then Some(c.(closing := true))
      else if choice == ShutdownOk then Some(c.(phase := Draining(None, None)))
      else if choice == ShutdownErr then Some(c.(phase := Draining(Some(ShutdownFailed), None)))
      else None
    case Draining(shutdown, last) =>
      if |c.received| == |c.listeners| then Some(c.(phase := Deciding(shutdown, last)))
      else if c.errCh != [] then
        Some(c.(phase := Draining(shutdown, Later(last, c.errCh[0])),
                errCh := c.errCh[1..], received := c.received + [c.errCh[0]]))
      else None
    case Cancelling(result) => Some(Cancel(c, Canceled).(phase := Unmarking(result)))
    case _ => None
  }

  // The unlocked steps that read or write the server's atomics and address.
  predicate Atomic(p: Phase) {
    p.Publishing? || p.Marking? || p.Unlisting? || p.Deciding? || p.Unmarking?
  }

  // The call after one of its unlocked steps on the shared server.
  function AfterAtomic(c: Call, restartRequested: bool): Call {
    match c.phase
    case Publishing => c.(phase := Marking)
    case Marking => c.(phase := Spawning)
    case Unlisting => c.(phase := ShuttingDown)
    case Deciding(shutdown, last) =>
      var result :=
        if shutdown.Some? then shutdown
        else if restartRequested then Some(RestartRequired)
        else last;
      c.(phase := Cancelling(result), exit := ByDrain(shutdown.None?, restartRequested, c.byReload))
    case Unmarking(result) => c.(phase := Clearing(result))
    case _ => c
  }

  function ServerAfter(p: Phase, sv: Server): Server {
    match p
    case Publishing => sv.(bound := true)
    case Marking => sv.(listening := true)
    case Unlisting => sv.(listening := false)
    case Unmarking(_) => sv.(listening := false)
    case _ => sv
  }

  function Advance(s: State, id: nat): State
    requires id in s.calls
  {
    var c := s.calls[id];
    s.(server := ServerAfter(c.phase, s.server), calls := s.calls[id := AfterAtomic(c, s.server.restartRequested)])
  }

  // The locked guard at the top of Run.
  function GuardStep(s: State, id: nat): State
    requires id in s.calls
  {
    var c, sv := s.calls[id], s.server;
    var refused :=
      if !sv.initialized then Some(NotInitialized)
      else if sv.running then Some(AlreadyActive)
      else if !sv.hasHandler then Some(NoHandler)
      else None;
    if refused.Some? then s.(calls := s.calls[id := c.(phase := Returned(refused))])
    else s.(
      server := sv.(running := true, runCancel := Some(id), restartRequested := false),
      calls := s.calls[id := c.(phase := CheckContext, binds := sv.binds)])
  }

  // The locked end of Run's deferred cleanup.
  function ClearingStep(s: State, id: nat, result: Outcome): State
    requires id in s.calls
  {
    s.(server := s.server.(running := false, runCancel := None, bound := false),
       calls := s.calls[id := s.calls[id].(phase := Returned(result))])
  }

  // Steps of a Run call that read or write the shared server.
  function RunStep(s: State, id: nat, choice: Choice): Option<State>
    requires id in s.calls
  {
    var c := s.calls[id];
    if c.phase.Guard? then Some(GuardStep(s, id))
    else if c.phase.Clearing? then Some(ClearingStep(s, id, c.phase.result))
    else if Atomic(c.phase) then Some(Advance(s, id))
    else
      var c1 := LocalStep(c, choice);
      if c1.None? then None else Some(s.(calls := s.calls[id := c1.value]))
  }

  const Fresh := Call(Guard, false, 0, None, None, false, [], [], [], [], false, NotYet)

  // The locked part of OnConfigReload. The new policy applies at once; an
  // immediate one marks the running server and takes its cancel function.
  function ReloadLocked(s: State, rid: nat, changed: bool, policy: Option<bool>): State {
    var sv := s.server;
    if !sv.initialized then s else
    var immediate := if policy.Some? then policy.value else sv.immediate;
    if !changed then s.(server := sv.(immediate := immediate))
    else if !immediate then s.(server := sv.(immediate := immediate, restartRequired := true))
    else
      var sv1 := sv.(immediate := immediate, restartRequired := true, restartRequested := true);
      if sv.runCancel.None? then s.(server := sv1)
      else s.(server := sv1, reloads := s.reloads[rid := sv.runCancel.value], asked := s.asked + {sv.runCancel.value})
  }

  // The state after an action, or None when the action cannot happen.
  function Next(s: State, a: Action): Option<State> {
    match a
    case Init(n, immediate) =>
      if s.server.initialized || n == 0 then Some(s)
      else Some(s.(server := s.server.(initialized := true, binds := n, immediate := immediate)))
    case Stop => Some(s.(server := s.server.(initialized := false)))
    case SetHandler(b) => Some(s.(server := s.server.(hasHandler := b)))
    case CallRun(id, wait, outer) =>
      if id in s.calls then None
      else Some(s.(calls := s.calls[id := Fresh.(wait := wait, outer := outer, ctx := outer)]))
    case CancelOuter(id, cause) =>
      if id !in s.calls || s.calls[id].outer.Some? then None
      else Some(s.(calls := s.calls[id := Cancel(s.calls[id], cause).(outer := Some(cause))]))
    case Reload(rid, changed, policy) =>
      if rid in s.reloads then None else Some(ReloadLocked(s, rid, changed, policy))
    case ReloadCancel(rid) =>
      if rid !in s.reloads || s.reloads[rid] !in s.calls then None
      else
        var id := s.reloads[rid];
        Some(s.(reloads := s.reloads - {rid},
                calls := s.calls[id := Cancel(s.calls[id], Canceled).(byReload := true)]))
    case Step(id, choice) => if id !in s.calls then None else RunStep(s, id, choice)
    case ServeReturns(id, g, e) =>
      if id !in s.calls then None else
      var c := s.calls[id];
      // Serve reports Closed only once the server is closing; the send needs
      // room in the channel, whose capacity is the number of listeners.
      if g < |c.goroutines| && c.goroutines[g] == Serving && (e.Closed? ==> c.closing) && |c.errCh| < |c.listeners| then
        Some(s.(calls := s.calls[id := c.(goroutines := c.goroutines[g := Done], errCh := c.errCh + [e])]))
      else None
  }

  function Execute(s: State, actions: seq<Action>): Option<State>
    decreases |actions|
  {
    if actions == [] then Some(s)
    else
      var s1 := Next(s, actions[0]);
      if s1.None? then None else Execute(s1.value, actions[1..])
  }

  const Start := State(
    Server(false, false, 0, false, None, false, false, false, false, false), map[], map[], {})

  predicate Healthy(s: State) {
    s.server.initialized && s.server.hasHandler && s.server.listening
  }

  // Between passing the guard and the end of the deferred cleanup.
  predicate Active(c: Call) {
    !c.phase.Guard? && !c.phase.Returned?
  }
}
