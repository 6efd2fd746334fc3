// GraphQL operation metrics (graphql/metrics.go): which requests are counted,
// under which names, and what happens to the body on the way.
module GraphQL {
  import opened Common
  import opened Streams
  import opened Meters
  import opened Recording
  import Bodies

  const DEFAULT_PEEK_WINDOW := 8192

  datatype Config = Config(allowed: set<string>, trackOther: bool, trackAll: bool, peekWindow: Option<int>)

  predicate TrackingEnabled(cfg: Config) {
    cfg.trackAll || cfg.trackOther || cfg.allowed != {}
  }

  // The peek window, or None for a full read.
  function ResolvePeekWindow(cfg: Config): Option<int> {
    match cfg.peekWindow
    case None => Some(DEFAULT_PEEK_WINDOW)
    case Some(n) => if n == 0 then None else Some(n)
  }

  datatype Verb = Get | Post | OtherVerb

  // A request line and the headers that matter; the body is a stream.
  datatype Head = Head(verb: Verb, query: string, operationName: string, graphqlType: bool, contentLength: int)

  // Whether the body is read at all, and then how far.
  function PeekPlan(h: Head, window: Option<int>): Bodies.Layer {
    if h.verb != Post || !h.graphqlType || h.contentLength == 0 then Bodies.Untouched
    else match window
      case None => Bodies.ReadFull
      case Some(n) => Bodies.Peek(if n <= 0 then DEFAULT_PEEK_WINDOW else n)
  }

  // The bytes inspected: a prefix of the body, within the window, and all of
  // the body when it fits.
  predicate Inspected(seen: bytes, plan: Bodies.Layer, body: bytes) {
    match plan
    case Untouched => seen == []
    case ReadFull => seen == body
    case Peek(n) => seen <= body && |seen| <= n && (|seen| == n || seen == body)
  }

  // No more than the window has left the source, and all of it is put back in
  // front of the rest.
  predicate Peeked(before: Reader, after: Reader, window: int) {
    && after.Prepended? && |after.prefix| <= window
    && after.prefix + Bytes(after.rest) == Bytes(before)
    && (|after.prefix| == window || after.prefix == Bytes(before))
  }

  // The name found in inspected bytes is left abstract.
  method ExtractOperationName(r: Bodies.Request, h: Head, window: Option<int>, nameIn: bytes -> string)
    returns (op: string, ghost seen: bytes)
    modifies r
    ensures old(Ending(r.body)) == EOF ==>
              && Bytes(r.body) == old(Bytes(r.body)) && Ending(r.body) == EOF
              && Inspected(seen, PeekPlan(h, window), Bytes(r.body))
    ensures PeekPlan(h, window) == Bodies.Untouched ==> r.body == old(r.body)
    ensures old(Ending(r.body)) == EOF && PeekPlan(h, window) == Bodies.ReadFull ==>
              r.body == Buffer(old(Bytes(r.body)))
    ensures old(Ending(r.body)) == EOF && PeekPlan(h, window).Peek? ==>
              Peeked(old(r.body), r.body, PeekPlan(h, window).window)
    ensures h.verb == Get ==> op == if h.query == "" && h.operationName == "" then "" else h.operationName
    ensures h.verb != Get ==> op == if seen == [] then "" else nameIn(seen)
  {
    seen := [];
    if h.verb == Get {
      if h.query == "" && h.operationName == "" {
        return "", [];
      }
      return h.operationName, [];
    }
    if h.verb != Post || !h.graphqlType || h.contentLength == 0 {
      return "", [];
    }
    var buf: bytes;
    var err: Option<End>;
    if window.None? {
      buf, err := r.ReadFullRequestBody();
    } else {
      var n := window.value;
      if n <= 0 {
        n := DEFAULT_PEEK_WINDOW;
      }
      buf, err := r.PeekRequestBody(n);
    }
    if err.Some? || |buf| == 0 {
      return "", [];
    }
    seen := buf;
    op := nameIn(buf);
  }

  // ---- what is counted ----

  function Normalized(op: string): string {
    if op == "" then "anonymous" else op
  }

  // The label a request is counted under, None if it is not counted.
  function MetricName(cfg: Config, op: string): Option<string> {
    var name := Normalized(op);
    if name in cfg.allowed then Some(name)
    else if cfg.trackAll then Some(name)
    else if cfg.trackOther then Some("other")
    else None
  }

  function PeekSeries(op: string): Series {
    OperationSeries(op, "http_peek")
  }

  function PeekKey(op: string): string {
    SeriesKey(Named(PeekSeries(op)))
  }

  // A request as the metrics handler sees it: the extracted name, and how the
  // inner handler ended. A panicking handler is not counted.
  datatype Visit = Visit(op: string, returned: bool, status: int, duration: int)

  function CallsOf(cfg: Config, v: Visit): seq<Call> {
    if !TrackingEnabled(cfg) || !v.returned then []
    else match MetricName(cfg, v.op)
      case None => []
      case Some(name) => [CallFor(Entry(PeekSeries(name), v.status, v.duration))]
  }

  function AllCalls(cfg: Config, visits: seq<Visit>): seq<Call> {
    if visits == [] then [] else AllCalls(cfg, visits[..|visits| - 1]) + CallsOf(cfg, visits[|visits| - 1])
  }

  // The handler: extract, let the inner handler run on the restored body,
  // then count. Without tracking, or for a request that is no GraphQL POST with
  // a body, the body is left alone; otherwise at most the configured window,
  // 8 KiB by default, has left the source when the handler runs, and all of it
  // only if the window was configured as 0.
  method ServeHTTP(cfg: Config, meter: RequestMeter, r: Bodies.Request, h: Head, nameIn: bytes -> string,
                   returned: bool, status: int, duration: int)
    returns (op: string, handed: Reader)
    modifies meter, r
    ensures !TrackingEnabled(cfg) ==> handed == old(r.body) && meter.Abs() == old(meter.Abs())
    ensures old(Ending(r.body)) == EOF ==> Bytes(handed) == old(Bytes(r.body)) && Ending(handed) == EOF
    ensures var tracks := cfg.trackAll || cfg.trackOther || |cfg.allowed| > 0;
            var window := if cfg.peekWindow.Some? && cfg.peekWindow.value > 0 then cfg.peekWindow.value else 8192;
            if !tracks || h.verb != Post || !h.graphqlType || h.contentLength == 0 then handed == old(r.body)
            else old(Ending(r.body)) == EOF ==>
              if cfg.peekWindow == Some(0) then handed == Buffer(old(Bytes(r.body)))
              else Peeked(old(r.body), handed, window)
    ensures var calls := CallsOf(cfg, Visit(op, returned, status, duration));
            meter.Abs() == if calls == [] then old(meter.Abs()) else Record(old(meter.Abs()), calls[0])
  {
    if !TrackingEnabled(cfg) {
      return "", r.body;
    }
    var window := ResolvePeekWindow(cfg);
    ghost var seen;
    op, seen := ExtractOperationName(r, h, window, nameIn);
    handed := r.body;
    var name := MetricName(cfg, op);
    if returned && name.Some? {
      RecordGraphQLOp(meter, name.value, status, duration, "http_peek");
    }
  }

  // ---- bounded cardinality ----

  function KeysFor(ops: set<string>): set<string> {
    set op | op in ops :: PeekKey(op)
  }

  lemma {:induction false} ImageIsNotLarger(ops: set<string>)
    ensures |KeysFor(ops)| <= |ops|
    decreases |ops|
  {
    if ops != {} {
      var op :| op in ops;
      ImageIsNotLarger(ops - {op});
      assert KeysFor(ops) <= KeysFor(ops - {op}) + {PeekKey(op)};
      SubsetIsNotLarger(KeysFor(ops), KeysFor(ops - {op}) + {PeekKey(op)});
    }
  }

  lemma {:induction false} SubsetIsNotLarger(a: set<string>, b: set<string>)
    requires a <= b
    ensures |a| <= |b|
  {
    assert b == a + (b - a);
  }

  lemma {:induction false} CallKeysAllowed(cfg: Config, visits: seq<Visit>, key: string)
    requires !cfg.trackAll && Times(AllCalls(cfg, visits), key) > 0
    ensures key in KeysFor(cfg.allowed + {"other"})
  {
    var n := |visits| - 1;
    if visits != [] {
      var calls := CallsOf(cfg, visits[n]);
      var before := AllCalls(cfg, visits[..n]);
      if calls == [] {
        assert before + calls == before;
        CallKeysAllowed(cfg, visits[..n], key);
      } else {
        TalliesStep(before, calls[0], key, "");
        assert before + calls == before + [calls[0]];
        if Times(before, key) > 0 {
          CallKeysAllowed(cfg, visits[..n], key);
        } else {
          var name := MetricName(cfg, visits[n].op).value;
          assert KeyOf(calls[0]) == key == PeekKey(name);
        }
      }
    }
  }

  // With AllOperations off, whatever clients send, the metered keys are the
  // allowlist's and "other": at most one more than the allowlist has.
  lemma BoundedCardinality(cfg: Config, visits: seq<Visit>)
    requires !cfg.trackAll
    ensures var keys := Replay(AllCalls(cfg, visits)).total.Keys;
            keys <= KeysFor(cfg.allowed + {"other"}) && |keys| <= |cfg.allowed| + 1
  {
    var calls := AllCalls(cfg, visits);
    var keys := Replay(calls).total.Keys;
    ReplayAccounts(calls);
    forall k | k in keys ensures k in KeysFor(cfg.allowed + {"other"}) {
      CallKeysAllowed(cfg, visits, k);
    }
    ImageIsNotLarger(cfg.allowed + {"other"});
    SubsetIsNotLarger(keys, KeysFor(cfg.allowed + {"other"}));
  }

  function Returned(visits: seq<Visit>): nat {
    if visits == [] then 0 else Returned(visits[..|visits| - 1]) + if visits[|visits| - 1].returned then 1 else 0
  }

  // With the other bucket on, every request whose handler returns is counted,
  // under exactly one key: the counts over any listing of the keys add up to
  // the number of such requests, modulo 2^64.
  lemma {:induction false} EveryReturnCounted(cfg: Config, visits: seq<Visit>)
    requires cfg.trackOther
    ensures |AllCalls(cfg, visits)| == Returned(visits)
  {
    if visits != [] {
      EveryReturnCounted(cfg, visits[..|visits| - 1]);
    }
  }

  lemma OtherBucketConserves(cfg: Config, visits: seq<Visit>, keys: seq<string>)
    requires cfg.trackOther && Distinct(keys)
    requires forall k :: k in keys <==> k in Replay(AllCalls(cfg, visits)).count
    ensures SumBy(keys, k => Meters.Get(Replay(AllCalls(cfg, visits)).count, k, 0)) % UINT64
         == Returned(visits) % UINT64
  {
    var calls := AllCalls(cfg, visits);
    var m := Replay(calls);
    EveryReturnCounted(cfg, visits);
    ReplayAccounts(calls);
    KeysDivide(calls, keys);
    SumByMod(keys, k => Times(calls, k), k => Meters.Get(m.count, k, 0));
  }

  // A request that returned counts under a name if it asked for it, under
  // "anonymous" if it asked for none, and the name is listed or all are; or
  // under "other", when that is on and the name is not listed.
  predicate CountsAs(cfg: Config, v: Visit, name: string) {
    var asked := if v.op == "" then "anonymous" else v.op;
    && v.returned
    && (|| (asked == name && (name in cfg.allowed || cfg.trackAll))
        || (name == "other" && asked !in cfg.allowed && cfg.trackOther && !cfg.trackAll))
  }

  function CountedAs(cfg: Config, visits: seq<Visit>, name: string): nat {
    if visits == [] then 0
    else CountedAs(cfg, visits[..|visits| - 1], name) + if CountsAs(cfg, visits[|visits| - 1], name) then 1 else 0
  }

  lemma PeekKeysDiffer(a: string, b: string)
    requires a != "" && b != ""
    ensures PeekKey(a) == PeekKey(b) <==> a == b
  {
    var tail := [SEP] + "http_peek";
    assert PeekKey(a) == a + tail && PeekKey(b) == b + tail;
    assert a == PeekKey(a)[..|PeekKey(a)| - |tail|] && b == PeekKey(b)[..|PeekKey(b)| - |tail|];
  }

  lemma OneCall(counted: string, status: int, duration: int, name: string)
    requires counted != "" && name != ""
    ensures Times([CallFor(Entry(PeekSeries(counted), status, duration))], PeekKey(name))
         == if counted == name then 1 else 0
  {
    var c := CallFor(Entry(PeekSeries(counted), status, duration));
    assert [c][..0] == [] && Times([], PeekKey(name)) == 0;
    assert SEP in PeekKey(counted);
    assert KeyOf(c) == PeekKey(counted);
    PeekKeysDiffer(counted, name);
  }

  lemma CountsUnderItsName(cfg: Config, v: Visit, name: string)
    ensures CountsAs(cfg, v, name) <==> CallsOf(cfg, v) != [] && MetricName(cfg, v.op) == Some(name)
    ensures MetricName(cfg, v.op) != Some("")
  {
  }

  lemma VisitCounts(cfg: Config, v: Visit, name: string)
    requires name != ""
    ensures Times(CallsOf(cfg, v), PeekKey(name)) == if CountsAs(cfg, v, name) then 1 else 0
  {
    CountsUnderItsName(cfg, v, name);
    if CallsOf(cfg, v) != [] {
      OneCall(MetricName(cfg, v.op).value, v.status, v.duration, name);
    }
  }

  lemma {:induction false} TimesAppend(a: seq<Call>, b: seq<Call>, key: string)
    requires |b| <= 1
    ensures Times(a + b, key) == Times(a, key) + Times(b, key)
  {
    if b == [] {
      assert a + b == a;
    } else {
      assert b == [] + [b[0]];
      TalliesStep(a, b[0], key, "");
      TalliesStep([], b[0], key, "");
    }
  }

  // Every name has its own count: the requests that returned and count as it.
  lemma {:induction false} EachNameCounted(cfg: Config, visits: seq<Visit>, name: string)
    requires name != ""
    ensures Times(AllCalls(cfg, visits), PeekKey(name)) == CountedAs(cfg, visits, name)
  {
    if visits != [] {
      var n := |visits| - 1;
      EachNameCounted(cfg, visits[..n], name);
      VisitCounts(cfg, visits[n], name);
      TimesAppend(AllCalls(cfg, visits[..n]), CallsOf(cfg, visits[n]), PeekKey(name));
    }
  }

  // AllOperations gives up the bound: every name a client chooses has a key
  // of its own.
  lemma AllOperationsIsUnbounded(cfg: Config, a: string, b: string)
    requires cfg.trackAll && a != "" && b != ""
    ensures MetricName(cfg, a) == Some(a) && MetricName(cfg, b) == Some(b)
    ensures PeekKey(a) == PeekKey(b) <==> a == b
  {
    PeekKeysDiffer(a, b);
  }
}
