// The server's settings over its life (config.go, server.go): Init applies a
// configuration, reloads change only what is live, and a server whose
// settings no longer match its configuration says so.
module Reload {
  import opened Common

  const HANDLED := "handled"
  const IMMEDIATE := "immediate"

  // What the listener was, or will be, built from. Durations are nanoseconds.
  datatype Settings = Settings(
    binds: seq<string>,
    readTimeout: int,
    writeTimeout: int,
    idleTimeout: int,
    readHeaderTimeout: int,
    shutdownTimeout: int,
    maxHeaderBytes: int)

  // A loaded configuration; an absent field is None, or empty.
  datatype Config = Config(
    bind: seq<string>,
    readTimeoutSec: Option<real>,
    writeTimeoutSec: Option<real>,
    idleTimeoutSec: Option<real>,
    readHeaderTimeoutSec: Option<real>,
    shutdownTimeoutSec: Option<real>,
    maxHeaderBytes: Option<int>,
    metricsEnabled: Option<bool>,
    restartPolicy: string)

  // The conversion of seconds to a duration, floating point included.
  type Conversion = real -> int

  function Chosen<T>(o: Option<T>, current: T): T {
    if o.Some? then o.value else current
  }

  function ChosenTime(ns: Conversion, o: Option<real>, current: int): int {
    if o.Some? then ns(o.value) else current
  }

  // The settings a fresh process would have after loading cfg over s.
  function Applied(ns: Conversion, s: Settings, cfg: Config): Settings {
    Settings(
      if |cfg.bind| > 0 then cfg.bind else s.binds,
      ChosenTime(ns, cfg.readTimeoutSec, s.readTimeout),
      ChosenTime(ns, cfg.writeTimeoutSec, s.writeTimeout),
      ChosenTime(ns, cfg.idleTimeoutSec, s.idleTimeout),
      ChosenTime(ns, cfg.readHeaderTimeoutSec, s.readHeaderTimeout),
      ChosenTime(ns, cfg.shutdownTimeoutSec, s.shutdownTimeout),
      Chosen(cfg.maxHeaderBytes, s.maxHeaderBytes))
  }

  // Whether a supplied value, if there is one, differs from the one in force.
  predicate Differs<T(==)>(supplied: Option<T>, current: T) {
    supplied.Some? && supplied.value != current
  }

  predicate DiffersTime(ns: Conversion, supplied: Option<real>, current: int) {
    supplied.Some? && ns(supplied.value) != current
  }

  // Each field on its own: supplied, it is taken; not supplied, it stands. So
  // the whole changes exactly when some supplied field differs, and applying
  // the same configuration again changes nothing.
  lemma AppliedFieldByField(ns: Conversion, s: Settings, cfg: Config)
    ensures var t := Applied(ns, s, cfg);
            && t.binds == (if cfg.bind != [] then cfg.bind else s.binds)
            && t.maxHeaderBytes == (match cfg.maxHeaderBytes case Some(n) => n case None => s.maxHeaderBytes)
            && t.readTimeout == (match cfg.readTimeoutSec case Some(x) => ns(x) case None => s.readTimeout)
            && t.writeTimeout == (match cfg.writeTimeoutSec case Some(x) => ns(x) case None => s.writeTimeout)
            && t.idleTimeout == (match cfg.idleTimeoutSec case Some(x) => ns(x) case None => s.idleTimeout)
            && t.readHeaderTimeout
               == (match cfg.readHeaderTimeoutSec case Some(x) => ns(x) case None => s.readHeaderTimeout)
            && t.shutdownTimeout == (match cfg.shutdownTimeoutSec case Some(x) => ns(x) case None => s.shutdownTimeout)
    ensures Applied(ns, s, cfg) != s <==>
              || (cfg.bind != [] && cfg.bind != s.binds)
              || Differs(cfg.maxHeaderBytes, s.maxHeaderBytes)
              || DiffersTime(ns, cfg.readTimeoutSec, s.readTimeout)
              || DiffersTime(ns, cfg.writeTimeoutSec, s.writeTimeout)
              || DiffersTime(ns, cfg.idleTimeoutSec, s.idleTimeout)
              || DiffersTime(ns, cfg.readHeaderTimeoutSec, s.readHeaderTimeout)
              || DiffersTime(ns, cfg.shutdownTimeoutSec, s.shutdownTimeout)
    ensures Applied(ns, Applied(ns, s, cfg), cfg) == Applied(ns, s, cfg)
  {
  }

  function PolicyAfter(cfg: Config, current: string): string {
    if cfg.restartPolicy != "" then cfg.restartPolicy else current
  }

  // validateActiveSettings, without the policy and the health wait.
  predicate ValidSettings(s: Settings) {
    && s.binds != []
    && s.readTimeout >= 0 && s.writeTimeout >= 0 && s.idleTimeout >= 0 && s.readHeaderTimeout >= 0
    && s.maxHeaderBytes > 0 && s.shutdownTimeout > 0
  }

  predicate KnownPolicy(policy: string) {
    policy == "" || policy == HANDLED || policy == IMMEDIATE
  }

  datatype State = State(
    settings: Settings,
    metricsEnabled: bool,
    restartPolicy: string,
    initialized: bool,
    restartRequired: bool,
    restartRequested: bool,
    runCancel: Option<nat>, // the active Run, if any
    hasHandler: bool,
    reloads: nat)

  // What OnConfigReload is handed: a ServerConfig, or something else.
  datatype Incoming = Loaded(cfg: Config) | OtherType

  datatype InitError = ContextDone | SourceMissing | InvalidSettings

  datatype HealthError = Expired | NotInitialized | NoHandler | NotListening

  // ---- the locked part of one reload ----

  predicate Accepts(source: string, s: State, from: string, incoming: Incoming) {
    from == source && incoming.Loaded? && s.initialized
  }

  function Reloaded(ns: Conversion, s: State, cfg: Config): State {
    var policy := PolicyAfter(cfg, s.restartPolicy);
    var drifted := Applied(ns, s.settings, cfg) != s.settings;
    s.(metricsEnabled := Chosen(cfg.metricsEnabled, s.metricsEnabled),
       restartPolicy := policy,
       restartRequired := s.restartRequired || drifted,
       restartRequested := s.restartRequested || (drifted && policy == IMMEDIATE),
       reloads := (s.reloads + 1) % UINT64)
  }

  // ---- the server ----

  method BindsEqual(a: seq<string>, b: seq<string>) returns (equal: bool)
    ensures equal <==> a == b
  {
    if |a| != |b| {
      return false;
    }
    var i := 0;
    while i < |a|
      invariant 0 <= i <= |a| && a[..i] == b[..i]
    {
      if a[i] != b[i] {
        return false;
      }
      i := i + 1;
    }
    equal := true;
  }

  class Server {
    const configSource: string
    const waitForHealth: int
    var binds: seq<string>
    var readTimeout: int
    var writeTimeout: int
    var idleTimeout: int
    var readHeaderTimeout: int
    var shutdownTimeout: int
    var maxHeaderBytes: int
    var metricsEnabled: bool
    var restartPolicy: string
    var initialized: bool
    var restartRequired: bool
    var restartRequested: bool
    var runCancel: Option<nat>
    var hasHandler: bool
    var listening: bool
    var boundAddress: string
    var reloads: nat

    constructor (configSource: string, s: Settings, metricsEnabled: bool, restartPolicy: string, waitForHealth: int)
      ensures this.configSource == configSource && this.waitForHealth == waitForHealth
      ensures Abs() == State(s, metricsEnabled, restartPolicy, false, false, false, None, false, 0)
      ensures !listening && boundAddress == ""
    {
      this.configSource, this.waitForHealth := configSource, waitForHealth;
      binds, maxHeaderBytes := s.binds, s.maxHeaderBytes;
      readTimeout, writeTimeout, idleTimeout := s.readTimeout, s.writeTimeout, s.idleTimeout;
      readHeaderTimeout, shutdownTimeout := s.readHeaderTimeout, s.shutdownTimeout;
      this.metricsEnabled, this.restartPolicy := metricsEnabled, restartPolicy;
      initialized, restartRequired, restartRequested := false, false, false;
      runCancel, hasHandler, listening, boundAddress, reloads := None, false, false, "", 0;
    }

    function Current(): Settings
      reads this
    {
      Settings(binds, readTimeout, writeTimeout, idleTimeout, readHeaderTimeout, shutdownTimeout, maxHeaderBytes)
    }

    function Abs(): State
      reads this
    {
      State(Current(), metricsEnabled, restartPolicy, initialized, restartRequired, restartRequested,
            runCancel, hasHandler, reloads)
    }

    method ApplyConfig(ns: Conversion, cfg: Config)
      modifies `binds, `readTimeout, `writeTimeout, `idleTimeout, `readHeaderTimeout, `shutdownTimeout
      modifies `maxHeaderBytes, `metricsEnabled, `restartPolicy
      ensures Current() == Applied(ns, old(Current()), cfg)
      ensures metricsEnabled == Chosen(cfg.metricsEnabled, old(metricsEnabled))
      ensures restartPolicy == PolicyAfter(cfg, old(restartPolicy))
    {
      if |cfg.bind| > 0 {
        binds := cfg.bind;
      }
      ApplyTimeouts(ns, cfg);
      if cfg.maxHeaderBytes.Some? {
        maxHeaderBytes := cfg.maxHeaderBytes.value;
      }
      if cfg.metricsEnabled.Some? {
        metricsEnabled := cfg.metricsEnabled.value;
      }
      if cfg.restartPolicy != "" {
        restartPolicy := cfg.restartPolicy;
      }
    }

    method ApplyTimeouts(ns: Conversion, cfg: Config)
      modifies `readTimeout, `writeTimeout, `idleTimeout, `readHeaderTimeout, `shutdownTimeout
      ensures readTimeout == ChosenTime(ns, cfg.readTimeoutSec, old(readTimeout))
      ensures writeTimeout == ChosenTime(ns, cfg.writeTimeoutSec, old(writeTimeout))
      ensures idleTimeout == ChosenTime(ns, cfg.idleTimeoutSec, old(idleTimeout))
      ensures readHeaderTimeout == ChosenTime(ns, cfg.readHeaderTimeoutSec, old(readHeaderTimeout))
      ensures shutdownTimeout == ChosenTime(ns, cfg.shutdownTimeoutSec, old(shutdownTimeout))
    {
      if cfg.readTimeoutSec.Some? {
        readTimeout := ns(cfg.readTimeoutSec.value);
      }
      if cfg.writeTimeoutSec.Some? {
        writeTimeout := ns(cfg.writeTimeoutSec.value);
      }
      if cfg.idleTimeoutSec.Some? {
        idleTimeout := ns(cfg.idleTimeoutSec.value);
      }
      if cfg.readHeaderTimeoutSec.Some? {
        readHeaderTimeout := ns(cfg.readHeaderTimeoutSec.value);
      }
      if cfg.shutdownTimeoutSec.Some? {
        shutdownTimeout := ns(cfg.shutdownTimeoutSec.value);
      }
    }

    // The comparison reports a change exactly when applying the configuration
    // would make one.
    method ServerSettingsChanged(ns: Conversion, cfg: Config) returns (changed: bool)
      ensures changed <==> Applied(ns, Current(), cfg) != Current()
    {
      if |cfg.bind| > 0 {
        var same := BindsEqual(cfg.bind, binds);
        if !same {
          return true;
        }
      }
      if cfg.readTimeoutSec.Some? && ns(cfg.readTimeoutSec.value) != readTimeout {
        return true;
      }
      if cfg.writeTimeoutSec.Some? && ns(cfg.writeTimeoutSec.value) != writeTimeout {
        return true;
      }
      if cfg.idleTimeoutSec.Some? && ns(cfg.idleTimeoutSec.value) != idleTimeout {
        return true;
      }
      if cfg.readHeaderTimeoutSec.Some? && ns(cfg.readHeaderTimeoutSec.value) != readHeaderTimeout {
        return true;
      }
      if cfg.maxHeaderBytes.Some? && cfg.maxHeaderBytes.value != maxHeaderBytes {
        return true;
      }
      if cfg.shutdownTimeoutSec.Some? && ns(cfg.shutdownTimeoutSec.value) != shutdownTimeout {
        return true;
      }
      changed := false;
    }

    // One reload; `cancelled` is the Run whose cancel function was called.
    method OnConfigReload(ns: Conversion, source: string, incoming: Incoming) returns (cancelled: Option<nat>)
      modifies this
      ensures Accepts(configSource, old(Abs()), source, incoming) ==>
                && Abs() == Reloaded(ns, old(Abs()), incoming.cfg)
                && cancelled == if Applied(ns, old(Current()), incoming.cfg) != old(Current())
                                   && PolicyAfter(incoming.cfg, old(restartPolicy)) == IMMEDIATE
                                then old(runCancel) else None
      ensures !Accepts(configSource, old(Abs()), source, incoming) ==> Abs() == old(Abs()) && cancelled == None
      ensures listening == old(listening) && boundAddress == old(boundAddress)
    {
      cancelled := None;
      if source != configSource || incoming.OtherType? || !initialized {
        return;
      }
      var loaded := incoming.cfg;
      var settingsChanged := ServerSettingsChanged(ns, loaded);
      if loaded.metricsEnabled.Some? {
        metricsEnabled := loaded.metricsEnabled.value;
      }
      if loaded.restartPolicy != "" {
        restartPolicy := loaded.restartPolicy;
      }
      if settingsChanged {
        restartRequired := true;
        if restartPolicy == IMMEDIATE {
          restartRequested := true;
          cancelled := runCancel;
        }
      }
      reloads := (reloads + 1) % UINT64;
    }

    // Init. `expired` is the caller's context; `source` is what the
    // configuration component holds, None when it cannot be found.
    method Init(ns: Conversion, expired: bool, source: Option<Config>) returns (err: Option<InitError>)
      modifies this
      ensures Abs() == Initialized(ns, configSource != "", waitForHealth, old(Abs()), expired, source)
      ensures err.None? <==> initialized
      ensures err == Some(ContextDone) || err == Some(SourceMissing) ==> Abs() == old(Abs())
      ensures err == Some(InvalidSettings) <==>
                !initialized && !expired && (configSource == "" || source.Some?)
      ensures err == Some(ContextDone) <==> !old(initialized) && expired
      ensures err == Some(SourceMissing) <==> !old(initialized) && !expired && configSource != "" && source.None?
      ensures !old(initialized) && !expired && (configSource == "" || source.Some?) ==>
                (err.None? <==>
                  && binds != [] && maxHeaderBytes > 0 && shutdownTimeout > 0 && waitForHealth >= 0
                  && readTimeout >= 0 && writeTimeout >= 0 && idleTimeout >= 0 && readHeaderTimeout >= 0
                  && (restartPolicy == "" || restartPolicy == "handled" || restartPolicy == "immediate"))
      ensures listening == old(listening) && boundAddress == old(boundAddress)
    {
      if initialized {
        return None;
      }
      if expired {
        return Some(ContextDone);
      }
      if configSource != "" {
        if source.None? {
          return Some(SourceMissing);
        }
        ApplyConfig(ns, source.value);
      }
      if !ValidSettings(Current()) || waitForHealth < 0 || !KnownPolicy(restartPolicy) {
        return Some(InvalidSettings);
      }
      initialized := true;
      err := None;
    }

    method Shutdown()
      modifies this
      ensures Abs() == old(Abs()).(initialized := false)
      ensures listening == old(listening) && boundAddress == old(boundAddress)
    {
      initialized := false;
    }

    method SetHandler(present: bool)
      modifies this
      ensures Abs() == old(Abs()).(hasHandler := present)
      ensures listening == old(listening) && boundAddress == old(boundAddress)
    {
      hasHandler := present;
    }

    // Ready exactly when initialized, given a handler, and listening; the
    // error names the first of these that is missing.
    method Health(expired: bool) returns (err: Option<HealthError>)
      ensures err.None? <==> !expired && initialized && hasHandler && listening
      ensures err == Some(NotListening) <==> !expired && initialized && hasHandler && !listening
      ensures err == Some(NoHandler) <==> !expired && initialized && !hasHandler
      ensures err == Some(NotInitialized) <==> !expired && !initialized
    {
      if expired {
        return Some(Expired);
      }
      if !initialized {
        return Some(NotInitialized);
      }
      if !hasHandler {
        return Some(NoHandler);
      }
      if !listening {
        return Some(NotListening);
      }
      err := None;
    }

    method Addr() returns (addr: string)
      ensures boundAddress != "" ==> addr == boundAddress
      ensures boundAddress == "" ==> addr == if binds == [] then "" else binds[0]
    {
      if boundAddress != "" {
        return boundAddress;
      }
      if |binds| == 0 {
        return "";
      }
      addr := binds[0];
    }
  }

  function Initialized(
    ns: Conversion, sourced: bool, waitForHealth: int, s: State, expired: bool, source: Option<Config>): State
  {
    if s.initialized || expired || (sourced && source.None?) then s
    else
      var s1 :=
        if !sourced then s
        else s.(settings := Applied(ns, s.settings, source.value),
                metricsEnabled := Chosen(source.value.metricsEnabled, s.metricsEnabled),
                restartPolicy := PolicyAfter(source.value, s.restartPolicy));
      s1.(initialized := ValidSettings(s1.settings) && waitForHealth >= 0 && KnownPolicy(s1.restartPolicy))
  }

  // ---- histories ----

  // Everything that can befall the server, in the order of its lock.
  datatype Event =
    | InitCall(expired: bool, source: Option<Config>)
    | ReloadCall(from: string, incoming: Incoming)
    | ShutdownCall
    | HandlerCall(present: bool)
    | RunBegins(id: nat)
    | RunEnds

  function Step(ns: Conversion, source: string, wait: int, s: State, e: Event): State {
    match e
    case InitCall(expired, held) => Initialized(ns, source != "", wait, s, expired, held)
    case ReloadCall(from, incoming) =>
      if Accepts(source, s, from, incoming) then Reloaded(ns, s, incoming.cfg) else s
    case ShutdownCall => s.(initialized := false)
    case HandlerCall(present) => s.(hasHandler := present)
    case RunBegins(id) => s.(runCancel := Some(id), restartRequested := false)
    case RunEnds => s.(runCancel := None)
  }

  function History(ns: Conversion, source: string, wait: int, s: State, events: seq<Event>): State {
    if events == [] then s
    else Step(ns, source, wait, History(ns, source, wait, s, events[..|events| - 1]), events[|events| - 1])
  }

  // An accepted reload, in a history without Shutdown of an initialized server.
  predicate Takes(source: string, e: Event) {
    e.ReloadCall? && e.from == source && e.incoming.Loaded?
  }

  predicate NoShutdown(events: seq<Event>) {
    forall i | 0 <= i < |events| :: !events[i].ShutdownCall?
  }

  function Taken(source: string, events: seq<Event>): nat {
    if events == [] then 0
    else Taken(source, events[..|events| - 1]) + if Takes(source, events[|events| - 1]) then 1 else 0
  }

  // What an event supplies, if it is an accepted reload that supplies it.
  function Supplied<T>(source: string, e: Event, field: Config -> Option<T>): Option<T> {
    if Takes(source, e) then field(e.incoming.cfg) else None
  }

  // v is what the last accepted reload to supply a value supplied, or else
  // the value before.
  ghost predicate LastSupplied<T(!new)>(
    source: string, events: seq<Event>, field: Config -> Option<T>, before: T, v: T)
  {
    if forall i | 0 <= i < |events| :: Supplied(source, events[i], field).None? then v == before
    else exists k :: 0 <= k < |events| && Supplied(source, events[k], field) == Some(v)
                     && forall j | k < j < |events| :: Supplied(source, events[j], field).None?
  }

  function Metrics(cfg: Config): Option<bool> {
    cfg.metricsEnabled
  }

  function Policy(cfg: Config): Option<string> {
    if cfg.restartPolicy == "" then None else Some(cfg.restartPolicy)
  }

  lemma LastSuppliedStep<T(!new)>(
    source: string, before: seq<Event>, e: Event, field: Config -> Option<T>, v0: T, v: T)
    requires LastSupplied(source, before, field, v0, v)
    ensures LastSupplied(source, before + [e], field, v0, Chosen(Supplied(source, e, field), v))
  {
    var events := before + [e];
    var n := |before|;
    assert events[n] == e && forall i | 0 <= i < n :: events[i] == before[i];
    if Supplied(source, e, field).None? && !(forall i | 0 <= i < n :: Supplied(source, before[i], field).None?) {
      var k :| 0 <= k < n && Supplied(source, before[k], field) == Some(v)
               && forall j | k < j < n :: Supplied(source, before[j], field).None?;
      assert Supplied(source, events[k], field) == Some(v);
    }
  }

  // Some accepted reload of the history asked for other settings.
  predicate Drifted(ns: Conversion, source: string, settings: Settings, events: seq<Event>) {
    exists i :: 0 <= i < |events| && Takes(source, events[i])
                && Applied(ns, settings, events[i].incoming.cfg) != settings
  }

  lemma DriftedStep(ns: Conversion, source: string, settings: Settings, before: seq<Event>, e: Event)
    ensures Drifted(ns, source, settings, before + [e]) <==>
              || Drifted(ns, source, settings, before)
              || (Takes(source, e) && Applied(ns, settings, e.incoming.cfg) != settings)
  {
    var events := before + [e];
    assert events[|before|] == e;
    if Drifted(ns, source, settings, before) {
      var i :| 0 <= i < |before| && Takes(source, before[i])
               && Applied(ns, settings, before[i].incoming.cfg) != settings;
      assert events[i] == before[i];
    }
  }

  // Between Init and Shutdown no listener setting moves.
  lemma {:induction false} SettingsStand(ns: Conversion, source: string, wait: int, s: State, events: seq<Event>)
    requires s.initialized && NoShutdown(events)
    ensures var t := History(ns, source, wait, s, events); t.initialized && t.settings == s.settings
  {
    if events != [] {
      SettingsStand(ns, source, wait, s, events[..|events| - 1]);
    }
  }

  // A restart is required, for good, exactly when it was already or some
  // accepted reload asked for other settings.
  lemma {:induction false} RestartIsSticky(ns: Conversion, source: string, wait: int, s: State, events: seq<Event>)
    requires s.initialized && NoShutdown(events)
    ensures History(ns, source, wait, s, events).restartRequired
            <==> s.restartRequired || Drifted(ns, source, s.settings, events)
  {
    if events != [] {
      var before, e := events[..|events| - 1], events[|events| - 1];
      RestartIsSticky(ns, source, wait, s, before);
      SettingsStand(ns, source, wait, s, before);
      DriftedStep(ns, source, s.settings, before, e);
      assert events == before + [e];
    }
  }

  // What one event does to the live settings.
  lemma LiveStep(ns: Conversion, source: string, wait: int, t: State, e: Event)
    requires t.initialized
    ensures var t1 := Step(ns, source, wait, t, e);
            && t1.metricsEnabled == Chosen(Supplied(source, e, Metrics), t.metricsEnabled)
            && t1.restartPolicy == Chosen(Supplied(source, e, Policy), t.restartPolicy)
  {
  }

  // Metrics and policy are live: they are what was last supplied.
  lemma {:induction false} MetricsAreLive(ns: Conversion, source: string, wait: int, s: State, events: seq<Event>)
    requires s.initialized && NoShutdown(events)
    ensures LastSupplied(source, events, Metrics, s.metricsEnabled, History(ns, source, wait, s, events).metricsEnabled)
  {
    if events != [] {
      var before, e := events[..|events| - 1], events[|events| - 1];
      var t := History(ns, source, wait, s, before);
      MetricsAreLive(ns, source, wait, s, before);
      SettingsStand(ns, source, wait, s, before);
      LiveStep(ns, source, wait, t, e);
      LastSuppliedStep(source, before, e, Metrics, s.metricsEnabled, t.metricsEnabled);
      assert events == before + [e];
    }
  }

  lemma {:induction false} PolicyIsLive(ns: Conversion, source: string, wait: int, s: State, events: seq<Event>)
    requires s.initialized && NoShutdown(events)
    ensures LastSupplied(source, events, Policy, s.restartPolicy, History(ns, source, wait, s, events).restartPolicy)
  {
    if events != [] {
      var before, e := events[..|events| - 1], events[|events| - 1];
      var t := History(ns, source, wait, s, before);
      PolicyIsLive(ns, source, wait, s, before);
      SettingsStand(ns, source, wait, s, before);
      LiveStep(ns, source, wait, t, e);
      LastSuppliedStep(source, before, e, Policy, s.restartPolicy, t.restartPolicy);
      assert events == before + [e];
    }
  }

  // Every accepted reload is counted, modulo 2^64.
  lemma {:induction false} ReloadsCounted(ns: Conversion, source: string, wait: int, s: State, events: seq<Event>)
    requires s.initialized && NoShutdown(events) && s.reloads < UINT64
    ensures History(ns, source, wait, s, events).reloads == (s.reloads + Taken(source, events)) % UINT64
  {
    if events != [] {
      var before := events[..|events| - 1];
      ReloadsCounted(ns, source, wait, s, before);
      SettingsStand(ns, source, wait, s, before);
      CountStep(s.reloads, Taken(source, before));
    }
  }

  lemma CountStep(a: nat, n: nat)
    ensures ((a + n) % UINT64 + 1) % UINT64 == (a + (n + 1)) % UINT64
  {
    var q, r := (a + n) / UINT64, (a + n) % UINT64;
    assert a + n == q * UINT64 + r;
    assert a + (n + 1) == q * UINT64 + (r + 1);
    ModShift(q, r + 1);
  }

  // A server that is initialized has valid settings, whatever happened before.
  lemma {:induction false} InitializedIsValid(ns: Conversion, source: string, wait: int, s: State, events: seq<Event>)
    requires s.initialized ==> ValidSettings(s.settings) && wait >= 0
    ensures var t := History(ns, source, wait, s, events); t.initialized ==> ValidSettings(t.settings) && wait >= 0
    ensures var t := History(ns, source, wait, s, events).settings;
            History(ns, source, wait, s, events).initialized ==>
              && t.binds != [] && t.maxHeaderBytes > 0 && t.shutdownTimeout > 0
              && t.readTimeout >= 0 && t.writeTimeout >= 0 && t.idleTimeout >= 0 && t.readHeaderTimeout >= 0
  {
    if events != [] {
      InitializedIsValid(ns, source, wait, s, events[..|events| - 1]);
    }
  }

  // Restarting with the configuration that required it settles the matter:
  // reloading the same configuration into the fresh process, any number of
  // times, requires no further restart.
  lemma RestartSettles(ns: Conversion, source: string, wait: int, s: State, cfg: Config, events: seq<Event>)
    requires source != "" && !s.initialized && !s.restartRequired
    requires forall i | 0 <= i < |events| :: events[i] == ReloadCall(source, Loaded(cfg))
    ensures var t := Initialized(ns, true, wait, s, false, Some(cfg));
            t.initialized ==> !History(ns, source, wait, t, events).restartRequired
  {
    var t := Initialized(ns, true, wait, s, false, Some(cfg));
    if t.initialized {
      RestartIsSticky(ns, source, wait, t, events);
      assert Applied(ns, t.settings, cfg) == t.settings;
    }
  }
}
