// The lifecycle's view of settings and reloads is that of the server's fields:
// a reload is the lifecycle action whose `changed` is what
// serverSettingsChanged computes (config.go).
module ReloadRefinement {
  import opened Common
  import opened Reload
  import Lifecycle
  import LifecycleResults
  import LifecycleSafety
  import LifecycleTraces

  // The lifecycle's server shows the same as the fields. Before Init it knows
  // nothing of binds and policy.
  predicate Agrees(t: State, sv: Lifecycle.Server) {
    && sv.initialized == t.initialized && sv.hasHandler == t.hasHandler && sv.runCancel == t.runCancel
    && sv.restartRequested == t.restartRequested && sv.restartRequired == t.restartRequired
    && (t.initialized ==>
        sv.binds == |t.settings.binds| && sv.immediate == (t.restartPolicy == IMMEDIATE))
  }

  // The action that a reload with this configuration is.
  function ReloadAction(ns: Conversion, t: State, rid: nat, cfg: Config): Lifecycle.Action {
    Lifecycle.Reload(rid, Applied(ns, t.settings, cfg) != t.settings,
      if cfg.restartPolicy == "" then None else Some(cfg.restartPolicy == IMMEDIATE))
  }

  // A reload of the configuration, of whatever state it finds, is that action.
  lemma ReloadRefines(ns: Conversion, source: string, t: State, s: Lifecycle.State, rid: nat, cfg: Config)
    requires Agrees(t, s.server) && rid !in s.reloads
    ensures var s1 := Lifecycle.Next(s, ReloadAction(ns, t, rid, cfg));
            && s1.Some?
            && Agrees(Step(ns, source, 0, t, ReloadCall(source, Loaded(cfg))), s1.value.server)
            && s1.value.calls == s.calls
  {
  }

  // It asks a Run to restart exactly when OnConfigReload calls the cancel
  // function of that Run: settings that differ, under the immediate policy.
  lemma AskIsCancel(ns: Conversion, t: State, s: Lifecycle.State, rid: nat, cfg: Config, id: nat)
    requires Agrees(t, s.server) && rid !in s.reloads
    ensures LifecycleResults.Asks(s, ReloadAction(ns, t, rid, cfg), id) <==>
              && t.initialized && Applied(ns, t.settings, cfg) != t.settings
              && PolicyAfter(cfg, t.restartPolicy) == IMMEDIATE && t.runCancel == Some(id)
    ensures LifecycleResults.Asks(s, ReloadAction(ns, t, rid, cfg), id) ==>
              var s1 := Lifecycle.Next(s, ReloadAction(ns, t, rid, cfg));
              s1.Some? && rid in s1.value.reloads && s1.value.reloads[rid] == id
  {
  }

  // ---- joint histories ----

  // The fields and the whole system, side by side.
  datatype Joint = Joint(fields: State, system: Lifecycle.State)

  // A call on the server, or a step that is not one: of a Run, of a serving
  // goroutine, of a cancellation.
  datatype Move =
    | Configure(expired: bool, held: Option<Config>)
    | Reconfigure(rid: nat, from: string, incoming: Incoming)
    | Stop
    | Handle(present: bool)
    | Internal(action: Lifecycle.Action)

  // The locked sections in which a Run begins and ends, as events.
  function Locked(s: Lifecycle.State, a: Lifecycle.Action): Option<Event> {
    if !a.Step? || a.id !in s.calls then None
    else if s.calls[a.id].phase.Guard? && s.server.initialized && !s.server.running && s.server.hasHandler then
      Some(RunBegins(a.id))
    else if s.calls[a.id].phase.Clearing? then Some(RunEnds)
    else None
  }

  // Init with this configuration, whether or not the server is initialized.
  function InitAction(ns: Conversion, source: string, t: State, held: Option<Config>): Lifecycle.Action {
    if source == "" || held.None? then Lifecycle.Init(|t.settings.binds|, t.restartPolicy == IMMEDIATE)
    else
      Lifecycle.Init(|Applied(ns, t.settings, held.value).binds|, PolicyAfter(held.value, t.restartPolicy) == IMMEDIATE)
  }

  function Both(ns: Conversion, source: string, wait: int, j: Joint, m: Move): Option<Joint> {
    var t, s := j.fields, j.system;
    match m
    case Configure(expired, held) =>
      var t1 := Step(ns, source, wait, t, InitCall(expired, held));
      if !t1.initialized then Some(Joint(t1, s)) else With(t1, Lifecycle.Next(s, InitAction(ns, source, t, held)))
    case Reconfigure(rid, from, incoming) =>
      var t1 := Step(ns, source, wait, t, ReloadCall(from, incoming));
      if from != source || !incoming.Loaded? then Some(Joint(t1, s))
      else With(t1, Lifecycle.Next(s, ReloadAction(ns, t, rid, incoming.cfg)))
    case Stop => With(Step(ns, source, wait, t, ShutdownCall), Lifecycle.Next(s, Lifecycle.Stop))
    case Handle(present) =>
      With(Step(ns, source, wait, t, HandlerCall(present)), Lifecycle.Next(s, Lifecycle.SetHandler(present)))
    case Internal(a) =>
      if a.Init? || a.Reload? || a.Stop? || a.SetHandler? then None
      else
        var e := Locked(s, a);
        With(if e.Some? then Step(ns, source, wait, t, e.value) else t, Lifecycle.Next(s, a))
  }

  function With(t: State, s: Option<Lifecycle.State>): Option<Joint> {
    if s.Some? then Some(Joint(t, s.value)) else None
  }

  function Moves(ns: Conversion, source: string, wait: int, j: Joint, moves: seq<Move>): Option<Joint>
    decreases |moves|
  {
    if moves == [] then Some(j)
    else
      var j1 := Both(ns, source, wait, j, moves[0]);
      if j1.None? then None else Moves(ns, source, wait, j1.value, moves[1..])
  }

  // This move is a reload of the server's configuration source, with settings
  // other than those in force, under the immediate policy, during Run id.
  predicate Changes(ns: Conversion, source: string, j: Joint, m: Move, id: nat) {
    && m.Reconfigure? && m.from == source && m.incoming.Loaded? && j.fields.initialized
    && Applied(ns, j.fields.settings, m.incoming.cfg) != j.fields.settings
    && PolicyAfter(m.incoming.cfg, j.fields.restartPolicy) == IMMEDIATE
    && j.fields.runCancel == Some(id)
  }

  predicate SomeChange(ns: Conversion, source: string, wait: int, j: Joint, moves: seq<Move>, id: nat)
    decreases |moves|
  {
    moves != [] &&
    var j1 := Both(ns, source, wait, j, moves[0]);
    j1.Some? && (Changes(ns, source, j, moves[0], id) || SomeChange(ns, source, wait, j1.value, moves[1..], id))
  }

  // What the fields show of the server.
  predicate SameShown(a: Lifecycle.Server, b: Lifecycle.Server) {
    b == a.(running := b.running, listening := b.listening, bound := b.bound)
  }

  lemma GuardShows(s: Lifecycle.State, id: nat)
    requires id in s.calls && s.calls[id].phase.Guard?
    ensures var sv, e := s.server, Locked(s, Lifecycle.Step(id, Lifecycle.Go));
            SameShown(if e.Some? then sv.(runCancel := Some(id), restartRequested := false) else sv,
                      Lifecycle.GuardStep(s, id).server)
  {
  }

  lemma QuietShows(s: Lifecycle.State, id: nat, choice: Lifecycle.Choice)
    requires id in s.calls && Lifecycle.RunStep(s, id, choice).Some?
    requires !s.calls[id].phase.Guard? && !s.calls[id].phase.Clearing?
    ensures SameShown(s.server, Lifecycle.RunStep(s, id, choice).value.server)
  {
    var p := s.calls[id].phase;
    if Lifecycle.Atomic(p) {
      assert SameShown(s.server, Lifecycle.ServerAfter(p, s.server));
    }
  }

  // A step of a Run other than those sections shows nothing new.
  lemma StepShows(s: Lifecycle.State, id: nat, choice: Lifecycle.Choice)
    requires id in s.calls && Lifecycle.RunStep(s, id, choice).Some?
    ensures var sv, e := s.server, Locked(s, Lifecycle.Step(id, choice));
            var sv1 :=
              if e.None? then sv
              else if s.calls[id].phase.Guard? then sv.(runCancel := Some(id), restartRequested := false)
              else sv.(runCancel := None);
            SameShown(sv1, Lifecycle.RunStep(s, id, choice).value.server)
  {
    if s.calls[id].phase.Guard? {
      GuardShows(s, id);
    } else if !s.calls[id].phase.Clearing? {
      QuietShows(s, id, choice);
    }
  }

  lemma OtherShows(s: Lifecycle.State, a: Lifecycle.Action)
    requires a.CallRun? || a.CancelOuter? || a.ReloadCancel? || a.ServeReturns?
    requires Lifecycle.Next(s, a).Some?
    ensures Lifecycle.Next(s, a).value.server == s.server
  {
  }

  lemma InternalAgrees(ns: Conversion, source: string, wait: int, j: Joint, a: Lifecycle.Action)
    requires Agrees(j.fields, j.system.server) && Both(ns, source, wait, j, Internal(a)).Some?
    ensures var j1 := Both(ns, source, wait, j, Internal(a)).value; Agrees(j1.fields, j1.system.server)
  {
    if a.Step? {
      StepShows(j.system, a.id, a.choice);
    } else {
      OtherShows(j.system, a);
    }
  }

  // Init, whether or not it succeeds, and whether or not it is the first.
  lemma InitRefines(
    ns: Conversion, source: string, wait: int, t: State, s: Lifecycle.State, expired: bool, held: Option<Config>)
    requires Agrees(t, s.server)
    ensures var t1 := Step(ns, source, wait, t, InitCall(expired, held));
            var s1 := Lifecycle.Next(s, InitAction(ns, source, t, held));
            && s1.Some? && Agrees(t1, if t1.initialized then s1.value.server else s.server)
            && (t.initialized ==> s1.value == s)
  {
  }

  lemma MoveAgrees(ns: Conversion, source: string, wait: int, j: Joint, m: Move)
    requires Agrees(j.fields, j.system.server) && Both(ns, source, wait, j, m).Some?
    ensures var j1 := Both(ns, source, wait, j, m).value; Agrees(j1.fields, j1.system.server)
  {
    match m
    case Configure(expired, held) => InitRefines(ns, source, wait, j.fields, j.system, expired, held);
    case Reconfigure(rid, from, incoming) =>
      if from == source && incoming.Loaded? {
        ReloadRefines(ns, source, j.fields, j.system, rid, incoming.cfg);
      }
    case Stop =>
    case Handle(_) =>
    case Internal(a) => InternalAgrees(ns, source, wait, j, a);
  }

  lemma MoveAsks(ns: Conversion, source: string, wait: int, j: Joint, m: Move, id: nat)
    requires Agrees(j.fields, j.system.server) && Both(ns, source, wait, j, m).Some?
    ensures id in Both(ns, source, wait, j, m).value.system.asked
            <==> id in j.system.asked || Changes(ns, source, j, m, id)
  {
    match m
    case Configure(_, _) =>
    case Reconfigure(rid, from, incoming) =>
      if from == source && incoming.Loaded? {
        LifecycleResults.AskedStep(j.system, ReloadAction(ns, j.fields, rid, incoming.cfg), id);
        AskIsCancel(ns, j.fields, j.system, rid, incoming.cfg, id);
      }
    case Stop =>
    case Handle(_) =>
    case Internal(a) => LifecycleResults.AskedStep(j.system, a, id);
  }

  lemma MoveReaches(ns: Conversion, source: string, wait: int, j: Joint, m: Move)
    requires LifecycleSafety.Reachable(j.system) && Both(ns, source, wait, j, m).Some?
    ensures LifecycleSafety.Reachable(Both(ns, source, wait, j, m).value.system)
  {
    var s := j.system;
    match m
    case Configure(expired, held) =>
      if Step(ns, source, wait, j.fields, InitCall(expired, held)).initialized {
        LifecycleTraces.ReachableStep(s, InitAction(ns, source, j.fields, held));
      }
    case Reconfigure(rid, from, incoming) =>
      if from == source && incoming.Loaded? {
        LifecycleTraces.ReachableStep(s, ReloadAction(ns, j.fields, rid, incoming.cfg));
      }
    case Stop => LifecycleTraces.ReachableStep(s, Lifecycle.Stop);
    case Handle(present) => LifecycleTraces.ReachableStep(s, Lifecycle.SetHandler(present));
    case Internal(a) => LifecycleTraces.ReachableStep(s, a);
  }

  // Along every joint history the two views agree, and a Run has been asked
  // exactly by the reloads that changed settings during it.
  lemma {:induction false} MovesAgree(ns: Conversion, source: string, wait: int, j: Joint, moves: seq<Move>, id: nat)
    requires Agrees(j.fields, j.system.server) && LifecycleSafety.Reachable(j.system)
    requires Moves(ns, source, wait, j, moves).Some?
    ensures var j1 := Moves(ns, source, wait, j, moves).value;
            && Agrees(j1.fields, j1.system.server) && LifecycleSafety.Reachable(j1.system)
            && (id in j1.system.asked <==> id in j.system.asked || SomeChange(ns, source, wait, j, moves, id))
    decreases |moves|
  {
    if moves != [] {
      MoveAgrees(ns, source, wait, j, moves[0]);
      MoveAsks(ns, source, wait, j, moves[0], id);
      MoveReaches(ns, source, wait, j, moves[0]);
      MovesAgree(ns, source, wait, Both(ns, source, wait, j, moves[0]).value, moves[1..], id);
    }
  }

  // No spurious restart, in the server's own terms: in every interleaving from
  // a new server, a Run that returns the restart error saw, while it was
  // active, a reload for which serverSettingsChanged was true under the
  // immediate policy.
  lemma RestartMeansSettingsChanged(
    ns: Conversion, source: string, wait: int, t: State, moves: seq<Move>, id: nat)
    requires !t.initialized && !t.hasHandler && t.runCancel.None? && !t.restartRequested && !t.restartRequired
    requires var j := Moves(ns, source, wait, Joint(t, Lifecycle.Start), moves);
             && j.Some? && id in j.value.system.calls
             && j.value.system.calls[id].phase == Lifecycle.Returned(Some(Lifecycle.RestartRequired))
    ensures SomeChange(ns, source, wait, Joint(t, Lifecycle.Start), moves, id)
  {
    var s := Moves(ns, source, wait, Joint(t, Lifecycle.Start), moves).value.system;
    assert Lifecycle.Execute(Lifecycle.Start, []) == Some(Lifecycle.Start);
    MovesAgree(ns, source, wait, Joint(t, Lifecycle.Start), moves, id);
    LifecycleResults.RestartIff(s, id, Some(Lifecycle.RestartRequired));
    LifecycleSafety.ReachableInv(s);
    assert LifecycleSafety.CallInv(s, id);
  }
}
