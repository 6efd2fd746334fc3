// What the record functions (metrics.go, server.go) put into a meter: the
// parts of a series are normalised, joined into one key by a separator, and
// counted under it.
module Recording {
  import opened Meters

  datatype Kind = Http | Operation | Resolver

  datatype Series =
    | HttpSeries(route: string, instrumentation: string)
    | OperationSeries(operation: string, instrumentation: string)
    | ResolverSeries(operation: string, resolver: string, instrumentation: string)

  function KindOf(s: Series): Kind {
    match s
    case HttpSeries(_, _) => Http
    case OperationSeries(_, _) => Operation
    case ResolverSeries(_, _, _) => Resolver
  }

  function SeriesKey(s: Series): string {
    match s
    case HttpSeries(r, i) => r + [SEP] + i
    case OperationSeries(o, i) => o + [SEP] + i
    case ResolverSeries(o, r, i) => o + [SEP] + (r + [SEP] + i)
  }

  predicate SeparatorFree(s: Series) {
    match s
    case HttpSeries(r, _) => SEP !in r
    case OperationSeries(o, _) => SEP !in o
    case ResolverSeries(o, r, _) => SEP !in o && SEP !in r
  }

  predicate Clean(s: Series) {
    SeparatorFree(s) && SEP !in s.instrumentation
  }

  function OrElse(s: string, default: string): string {
    if s == "" then default else s
  }

  // The series a call is recorded as.
  function Named(s: Series): Series {
    match s
    case HttpSeries(r, i) => HttpSeries(OrElse(r, "unknown"), OrElse(i, "app"))
    case OperationSeries(o, i) => OperationSeries(OrElse(o, "unknown"), OrElse(i, "app"))
    case ResolverSeries(o, r, i) => ResolverSeries(OrElse(o, "unknown"), OrElse(r, "unknown"), OrElse(i, "app"))
  }

  datatype Entry = Entry(series: Series, status: int, duration: int)

  function CallFor(e: Entry): Call {
    Call(SeriesKey(Named(e.series)), e.status, e.duration)
  }

  method RecordHTTP(meter: RequestMeter, route: string, status: int, duration: int, instrumentation: string)
    modifies meter
    ensures var series := HttpSeries(route, instrumentation);
            meter.Abs() == Record(old(meter.Abs()), CallFor(Entry(series, status, duration)))
  {
    var r := if route == "" then "unknown" else route;
    var i := if instrumentation == "" then "app" else instrumentation;
    meter.RecordMeter(r + [SEP] + i, status, duration);
  }

  method RecordGraphQLOp(meter: RequestMeter, operation: string, status: int, duration: int, instrumentation: string)
    modifies meter
    ensures var series := OperationSeries(operation, instrumentation);
            meter.Abs() == Record(old(meter.Abs()), CallFor(Entry(series, status, duration)))
  {
    var o := if operation == "" then "unknown" else operation;
    var i := if instrumentation == "" then "app" else instrumentation;
    meter.RecordMeter(o + [SEP] + i, status, duration);
  }

  method RecordGraphQLResolverMetric(
    meter: RequestMeter, operation: string, resolver: string, status: int, duration: int)
    modifies meter
    ensures var series := ResolverSeries(operation, resolver, "app");
            meter.Abs() == Record(old(meter.Abs()), CallFor(Entry(series, status, duration)))
  {
    var o := if operation == "" then "unknown" else operation;
    var r := if resolver == "" then "unknown" else resolver;
    meter.RecordMeter(o + [SEP] + (r + [SEP] + "app"), status, duration);
  }

  // ---- histories ----

  function CallsFor(entries: seq<Entry>): seq<Call> {
    if entries == [] then [] else CallsFor(entries[..|entries| - 1]) + [CallFor(entries[|entries| - 1])]
  }

  // How often a series was recorded, and with a class; how long in all.
  function Occurrences(entries: seq<Entry>, s: Series): nat {
    if entries == [] then 0
    else Occurrences(entries[..|entries| - 1], s) + if Named(entries[|entries| - 1].series) == s then 1 else 0
  }

  function OccurrencesAs(entries: seq<Entry>, s: Series, class_: string): nat {
    if entries == [] then 0
    else
      var e := entries[|entries| - 1];
      OccurrencesAs(entries[..|entries| - 1], s, class_)
      + if Named(e.series) == s && StatusClass(e.status) == class_ then 1 else 0
  }

  function Spent(entries: seq<Entry>, s: Series): nat {
    if entries == [] then 0
    else
      var e := entries[|entries| - 1];
      Spent(entries[..|entries| - 1], s) + if Named(e.series) == s && e.duration > 0 then e.duration else 0
  }

  // Separator-free names, all of one kind.
  predicate Uniform(entries: seq<Entry>, kind: Kind) {
    forall i | 0 <= i < |entries| :: KindOf(entries[i].series) == kind && Clean(Named(entries[i].series))
  }
}
