// Rendering the meters into metric samples (metrics.go): sorted keys, labels
// recovered from the key, one total per status class, one sum and one count.
module Rendering {
  import opened Common
  import opened Strings
  import opened Meters
  import opened Recording

  // ---- sorted order ----

  predicate Less(a: string, b: string) {
    b != [] && (a == [] || a[0] < b[0] || (a[0] == b[0] && Less(a[1..], b[1..])))
  }

  lemma {:induction false} LessTotal(a: string, b: string)
    ensures a == b || Less(a, b) || Less(b, a)
  {
    if a != [] && b != [] && a[0] == b[0] {
      LessTotal(a[1..], b[1..]);
      if a[1..] == b[1..] {
        assert a == [a[0]] + a[1..] && b == [b[0]] + b[1..];
      }
    }
  }

  lemma {:induction false} LessAsymmetric(a: string, b: string)
    requires Less(a, b)
    ensures !Less(b, a)
  {
    if a != [] && a[0] == b[0] {
      LessAsymmetric(a[1..], b[1..]);
    }
  }

  lemma {:induction false} LessTransitive(a: string, b: string, c: string)
    requires Less(a, b) && Less(b, c)
    ensures Less(a, c)
  {
    if a != [] && a[0] == b[0] && b[0] == c[0] {
      LessTransitive(a[1..], b[1..], c[1..]);
    }
  }

  // Dictionary order: at the first difference the smaller character, or no
  // character at all, comes first.
  lemma {:induction false} LessIsLexicographic(a: string, b: string)
    ensures Less(a, b) <==>
              exists k :: 0 <= k <= |a| && k < |b| && a[..k] == b[..k] && (k < |a| ==> a[k] < b[k])
  {
    if b != [] && (a == [] || a[0] != b[0]) {
      assert a[..0] == b[..0];
    } else if a != [] && b != [] {
      LessIsLexicographic(a[1..], b[1..]);
      if Less(a[1..], b[1..]) {
        var k :| 0 <= k <= |a[1..]| && k < |b[1..]| && a[1..][..k] == b[1..][..k]
                 && (k < |a[1..]| ==> a[1..][k] < b[1..][k]);
        assert a[..k + 1] == [a[0]] + a[1..][..k] && b[..k + 1] == [b[0]] + b[1..][..k];
      }
      if k :| 0 <= k <= |a| && k < |b| && a[..k] == b[..k] && (k < |a| ==> a[k] < b[k]) {
        assert k > 0;
        assert a[1..][..k - 1] == a[..k][1..] && b[1..][..k - 1] == b[..k][1..];
      }
    }
  }

  predicate Sorted(xs: seq<string>) {
    forall i, j | 0 <= i < j < |xs| :: Less(xs[i], xs[j])
  }

  ghost predicate Lists(xs: seq<string>, s: set<string>) {
    forall x :: x in xs <==> x in s
  }

  function Insert(xs: seq<string>, x: string): seq<string> {
    if xs == [] then [x]
    else if Less(x, xs[0]) then [x] + xs
    else [xs[0]] + Insert(xs[1..], x)
  }

  // sort.Strings
  function Sort(xs: seq<string>): seq<string> {
    if xs == [] then [] else Insert(Sort(xs[1..]), xs[0])
  }

  lemma {:induction false} InsertKeepsSorted(xs: seq<string>, x: string)
    requires Sorted(xs) && x !in xs
    ensures Sorted(Insert(xs, x)) && forall y :: y in Insert(xs, x) <==> y in xs || y == x
  {
    if xs != [] {
      if Less(x, xs[0]) {
        forall j | 0 <= j < |xs| ensures Less(x, xs[j]) {
          if j > 0 {
            LessTransitive(x, xs[0], xs[j]);
          }
        }
      } else {
        LessTotal(x, xs[0]);
        InsertKeepsSorted(xs[1..], x);
        var rest := Insert(xs[1..], x);
        forall j | 0 <= j < |rest| ensures Less(xs[0], rest[j]) {
          assert rest[j] in rest;
          if rest[j] != x {
            var k :| 0 <= k < |xs[1..]| && xs[1..][k] == rest[j];
            assert xs[k + 1] == rest[j];
          }
        }
      }
    }
  }

  lemma {:induction false} SortSorts(xs: seq<string>)
    requires Distinct(xs)
    ensures Sorted(Sort(xs)) && forall y :: y in Sort(xs) <==> y in xs
  {
    if xs != [] {
      SortSorts(xs[1..]);
      InsertKeepsSorted(Sort(xs[1..]), xs[0]);
    }
  }

  lemma SortedIsDistinct(xs: seq<string>)
    requires Sorted(xs)
    ensures Distinct(xs)
  {
    forall i, j | 0 <= i < j < |xs| ensures xs[i] != xs[j] {
      if xs[i] == xs[j] {
        LessAsymmetric(xs[i], xs[j]);
      }
    }
  }

  lemma SameElementsBothEmpty(a: seq<string>, b: seq<string>)
    requires forall x :: x in a <==> x in b
    ensures a == [] <==> b == []
  {
    if a != [] {
      assert a[0] in b;
    }
    if b != [] {
      assert b[0] in a;
    }
  }

  // There is only one way to list a set in order.
  lemma {:induction false} SortedIsUnique(a: seq<string>, b: seq<string>)
    requires Sorted(a) && Sorted(b) && forall x :: x in a <==> x in b
    ensures a == b
    decreases |a|
  {
    SameElementsBothEmpty(a, b);
    if a != [] {
      assert a[0] in b && b[0] in a;
      var i :| 0 <= i < |b| && b[i] == a[0];
      var j :| 0 <= j < |a| && a[j] == b[0];
      if i > 0 && j > 0 {
        LessAsymmetric(a[0], b[0]);
      }
      assert a[0] == b[0];
      SortedIsDistinct(a);
      SortedIsDistinct(b);
      forall x ensures x in a[1..] <==> x in b[1..] {
        assert x in a <==> x == a[0] || x in a[1..];
        assert x in b <==> x == b[0] || x in b[1..];
      }
      SortedIsUnique(a[1..], b[1..]);
    }
  }

  lemma {:induction false} SortedExists(s: set<string>) returns (xs: seq<string>)
    ensures Sorted(xs) && Lists(xs, s)
    decreases |s|
  {
    if s == {} {
      xs := [];
    } else {
      var x :| x in s;
      xs := SortedExists(s - {x});
      InsertKeepsSorted(xs, x);
      xs := Insert(xs, x);
    }
  }

  ghost function SortedOf(s: set<string>): (xs: seq<string>)
    ensures Sorted(xs) && Lists(xs, s)
  {
    assert exists xs :: Sorted(xs) && Lists(xs, s) by {
      var xs := SortedExists(s);
    }
    var xs :| Sorted(xs) && Lists(xs, s);
    xs
  }

  // A Go map is iterated in some order; sorting makes it irrelevant.
  method SortedKeys(keys: set<string>) returns (xs: seq<string>)
    ensures xs == SortedOf(keys)
  {
    xs := [];
    var rest := keys;
    while rest != {}
      invariant rest <= keys && Distinct(xs)
      invariant forall x :: x in xs <==> x in keys && x !in rest
      decreases |rest|
    {
      var k :| k in rest;
      xs := xs + [k];
      rest := rest - {k};
    }
    SortSorts(xs);
    xs := Sort(xs);
    SortedIsUnique(xs, SortedOf(keys));
  }

  // ---- labels ----

  datatype Label =
    | Component | Route | HttpInstrumentation | StatusClassLabel
    | OperationLabel | ResolverLabel | GraphQLInstrumentation

  type Labels = map<Label, string>

  // The labels a renderer reads off a key; keys with too few parts fall back.
  function LabelsOf(kind: Kind, component: string, key: string): Labels {
    var parts := Split(key, SEP);
    match kind
    case Http =>
      var i := Index(key, SEP);
      if i < 0 then map[Component := component, Route := key, HttpInstrumentation := "app"]
      else map[Component := component, Route := key[..i], HttpInstrumentation := key[i + 1..]]
    case Operation =>
      if |parts| >= 2 then
        map[Component := component, OperationLabel := parts[0], GraphQLInstrumentation := parts[1]]
      else map[Component := component, OperationLabel := key, GraphQLInstrumentation := "app"]
    case Resolver =>
      if |parts| >= 3 then
        map[Component := component, OperationLabel := parts[0], ResolverLabel := parts[1],
            GraphQLInstrumentation := parts[2]]
      else if |parts| == 2 then
        map[Component := component, OperationLabel := parts[0], ResolverLabel := parts[1],
            GraphQLInstrumentation := "app"]
      else
        map[Component := component, OperationLabel := key, ResolverLabel := "unknown", GraphQLInstrumentation := "app"]
  }

  // What the labels of a recorded series ought to be.
  function MeantLabels(s: Series, component: string): Labels {
    match s
    case HttpSeries(r, i) => map[Component := component, Route := r, HttpInstrumentation := i]
    case OperationSeries(o, i) => map[Component := component, OperationLabel := o, GraphQLInstrumentation := i]
    case ResolverSeries(o, r, i) =>
      map[Component := component, OperationLabel := o, ResolverLabel := r, GraphQLInstrumentation := i]
  }

  lemma SplitFree(s: string)
    requires SEP !in s
    ensures Split(s, SEP) == [s]
  {
  }

  lemma FirstPartIsFree(s: string)
    ensures SEP !in Split(s, SEP)[0]
  {
  }

  // Rendering recovers exactly what was recorded if and only if the recorded
  // names contain no separator. (The instrumentation is one of the fixed
  // values, all free of it.)
  lemma LabelsRecoverSeries(s: Series, component: string)
    requires SEP !in s.instrumentation
    ensures LabelsOf(KindOf(s), component, SeriesKey(s)) == MeantLabels(s, component) <==> SeparatorFree(s)
  {
    match s
    case HttpSeries(r, i) => HttpRecovers(r, i, component);
    case OperationSeries(o, i) =>
      SplitJoined(o, i, SEP);
      SplitFree(i);
      PartsRecover(o, [i]);
      assert LabelsOf(Operation, component, SeriesKey(s))[OperationLabel] == Split(o, SEP)[0];
    case ResolverSeries(o, r, i) => ResolverRecovers(o, r, i, component);
  }

  lemma HttpRecovers(r: string, i: string, component: string)
    ensures var s := HttpSeries(r, i);
            LabelsOf(Http, component, SeriesKey(s)) == MeantLabels(s, component) <==> SEP !in r
  {
    var key := r + [SEP] + i;
    assert key[|r|] == SEP;
    if SEP !in r {
      IndexOf(r, SEP, i);
      assert key[..|r|] == r && key[|r| + 1..] == i;
    } else {
      var k := Index(key, SEP);
      assert LabelsOf(Http, component, key)[Route] == key[..k];
    }
  }

  // A key with too few parts is all name, and says "app" and "unknown".
  lemma ShortKeys(component: string, key: string)
    requires SEP !in key
    ensures LabelsOf(Http, component, key) == MeantLabels(HttpSeries(key, "app"), component)
    ensures LabelsOf(Operation, component, key) == MeantLabels(OperationSeries(key, "app"), component)
    ensures LabelsOf(Resolver, component, key) == MeantLabels(ResolverSeries(key, "unknown", "app"), component)
  {
    SplitFree(key);
  }

  lemma LegacyResolverKey(component: string, o: string, r: string)
    requires SEP !in o && SEP !in r
    ensures LabelsOf(Resolver, component, o + [SEP] + r) == MeantLabels(ResolverSeries(o, r, "app"), component)
  {
    SplitJoined(o, r, SEP);
    SplitFree(o);
    SplitFree(r);
  }

  lemma PartsRecover(o: string, rest: seq<string>)
    ensures SEP !in o ==> Split(o, SEP) + rest == [o] + rest
    ensures SEP in o ==> (Split(o, SEP) + rest)[0] != o
  {
    FirstPartIsFree(o);
    if SEP !in o {
      SplitFree(o);
    }
  }

  lemma ResolverRecovers(o: string, r: string, i: string, component: string)
    requires SEP !in i
    ensures var s := ResolverSeries(o, r, i);
            LabelsOf(Resolver, component, SeriesKey(s)) == MeantLabels(s, component) <==> SeparatorFree(s)
  {
    var s := ResolverSeries(o, r, i);
    SplitJoined(o, r + [SEP] + i, SEP);
    SplitJoined(r, i, SEP);
    SplitFree(i);
    var parts := Split(SeriesKey(s), SEP);
    assert parts == Split(o, SEP) + (Split(r, SEP) + [i]);
    assert |parts| >= 3;
    var labels := LabelsOf(Resolver, component, SeriesKey(s));
    assert labels[OperationLabel] == parts[0] && labels[ResolverLabel] == parts[1];
    PartsRecover(o, Split(r, SEP) + [i]);
    if SEP !in o {
      PartsRecover(r, [i]);
      assert parts == [o] + (Split(r, SEP) + [i]);
    }
  }

  // Two different recordings can share a key, and then one series: this is
  // what a separator inside a name does.
  lemma SeparatorsCollide()
    ensures var a := ResolverSeries("q" + [SEP] + "r", "s", "app");
            var b := ResolverSeries("q", "r" + [SEP] + "s", "app");
            a != b && SeriesKey(a) == SeriesKey(b)
  {
    assert "q" + [SEP] + "r" != "q" by { assert |"q" + [SEP] + "r"| == 3; }
  }

  // ---- samples ----

  datatype Name = Total | DurationSum | DurationCount

  datatype Sample = Sample(name: Name, labels: Labels, value: nat)

  function Totals(labels: Labels, counts: map<string, nat>, classes: seq<string>): seq<Sample> {
    if classes == [] then []
    else [Sample(Total, labels[StatusClassLabel := classes[0]], Get(counts, classes[0], 0))]
         + Totals(labels, counts, classes[1..])
  }

  ghost function RenderKey(kind: Kind, component: string, m: State, key: string): seq<Sample> {
    var labels := LabelsOf(kind, component, key);
    var counts := Get(m.total, key, map[]);
    Totals(labels, counts, SortedOf(counts.Keys))
    + [Sample(DurationSum, labels, Get(m.sumNs, key, 0)), Sample(DurationCount, labels, Get(m.count, key, 0))]
  }

  ghost function RenderKeys(kind: Kind, component: string, m: State, keys: seq<string>): seq<Sample> {
    if keys == [] then [] else RenderKey(kind, component, m, keys[0]) + RenderKeys(kind, component, m, keys[1..])
  }

  ghost function Render(kind: Kind, component: string, m: State): seq<Sample> {
    RenderKeys(kind, component, m, SortedOf(m.total.Keys))
  }

  lemma RenderNext(kind: Kind, component: string, m: State, keys: seq<string>, i: nat, ms: seq<Sample>)
    requires i < |keys|
    ensures ms + RenderKeys(kind, component, m, keys[i..])
         == ms + RenderKey(kind, component, m, keys[i]) + RenderKeys(kind, component, m, keys[i + 1..])
  {
    assert keys[i..][0] == keys[i] && keys[i..][1..] == keys[i + 1..];
    ConcatAssoc(ms, RenderKey(kind, component, m, keys[i]), RenderKeys(kind, component, m, keys[i + 1..]));
  }

  // The renderer. Its output is a function of the meter alone: in whatever
  // order the maps are walked, the samples and their order are the same.
  method RenderMeter(kind: Kind, component: string, m: State) returns (ms: seq<Sample>)
    ensures ms == Render(kind, component, m)
  {
    ms := [];
    var keys := SortedKeys(m.total.Keys);
    var i := 0;
    while i < |keys|
      invariant 0 <= i <= |keys|
      invariant RenderKeys(kind, component, m, keys) == ms + RenderKeys(kind, component, m, keys[i..])
    {
      var samples := RenderOne(kind, component, m, keys[i]);
      RenderNext(kind, component, m, keys, i, ms);
      ms := ms + samples;
      i := i + 1;
    }
    assert ms + [] == ms;
  }

  method RenderOne(kind: Kind, component: string, m: State, key: string) returns (ms: seq<Sample>)
    ensures ms == RenderKey(kind, component, m, key)
  {
    var labels := LabelsOf(kind, component, key);
    var counts := Get(m.total, key, map[]);
    var classes := SortedKeys(counts.Keys);
    ms := RenderTotals(labels, counts, classes);
    ms := ms + [
      Sample(DurationSum, labels, Get(m.sumNs, key, 0)),
      Sample(DurationCount, labels, Get(m.count, key, 0))];
  }

  method RenderTotals(labels: Labels, counts: map<string, nat>, classes: seq<string>) returns (ms: seq<Sample>)
    ensures ms == Totals(labels, counts, classes)
  {
    ms := [];
    var i := 0;
    while i < |classes|
      invariant 0 <= i <= |classes|
      invariant Totals(labels, counts, classes) == ms + Totals(labels, counts, classes[i..])
    {
      var sample := Sample(Total, labels[StatusClassLabel := classes[i]], Get(counts, classes[i], 0));
      assert classes[i..][1..] == classes[i + 1..];
      ConcatAssoc(ms, [sample], Totals(labels, counts, classes[i + 1..]));
      ms := ms + [sample];
      i := i + 1;
    }
    assert ms + [] == ms;
  }

  // ---- no duplicates ----

  // A key from which the labels lose nothing.
  predicate WellFormed(kind: Kind, key: string) {
    match kind
    case Http => SEP in key
    case Operation => |Split(key, SEP)| == 2
    case Resolver => |Split(key, SEP)| == 3
  }

  // The key, read back from the labels.
  function KeyOfLabels(kind: Kind, labels: Labels): string {
    match kind
    case Http => Get(labels, Route, "") + [SEP] + Get(labels, HttpInstrumentation, "")
    case Operation => Get(labels, OperationLabel, "") + [SEP] + Get(labels, GraphQLInstrumentation, "")
    case Resolver =>
      Get(labels, OperationLabel, "") + [SEP]
      + (Get(labels, ResolverLabel, "") + [SEP] + Get(labels, GraphQLInstrumentation, ""))
  }

  lemma SeriesAreWellFormed(s: Series)
    requires SeparatorFree(s) && SEP !in s.instrumentation
    ensures WellFormed(KindOf(s), SeriesKey(s))
  {
    SplitFree(s.instrumentation);
    match s
    case HttpSeries(r, i) => assert SeriesKey(s)[|r|] == SEP;
    case OperationSeries(o, i) =>
      SplitJoined(o, i, SEP);
      SplitFree(o);
    case ResolverSeries(o, r, i) =>
      SplitJoined(o, r + [SEP] + i, SEP);
      SplitJoined(r, i, SEP);
      SplitFree(o);
      SplitFree(r);
  }

  lemma SplitOnce(s: string)
    requires |Split(s, SEP)| > 1
    ensures var i := Index(s, SEP);
            i >= 0 && s == s[..i] + [SEP] + s[i + 1..] && Split(s, SEP) == [s[..i]] + Split(s[i + 1..], SEP)
  {
  }

  lemma SplitAlone(s: string)
    requires |Split(s, SEP)| == 1
    ensures Split(s, SEP) == [s]
  {
  }

  lemma HttpKeyReadBack(component: string, key: string)
    requires SEP in key
    ensures KeyOfLabels(Http, LabelsOf(Http, component, key)) == key
  {
    var i := Index(key, SEP);
    assert key == key[..i] + [SEP] + key[i + 1..];
  }

  lemma TwoParts(s: string)
    requires |Split(s, SEP)| == 2
    ensures var p := Split(s, SEP); s == p[0] + [SEP] + p[1]
  {
    SplitOnce(s);
    SplitAlone(s[Index(s, SEP) + 1..]);
  }

  lemma ThreeParts(s: string)
    requires |Split(s, SEP)| == 3
    ensures var p := Split(s, SEP); s == p[0] + [SEP] + (p[1] + [SEP] + p[2])
  {
    var rest := s[Index(s, SEP) + 1..];
    SplitOnce(s);
    assert Split(rest, SEP) == Split(s, SEP)[1..];
    TwoParts(rest);
  }

  lemma OperationKeyReadBack(component: string, key: string)
    requires |Split(key, SEP)| == 2
    ensures KeyOfLabels(Operation, LabelsOf(Operation, component, key)) == key
  {
    TwoParts(key);
  }

  lemma ResolverKeyReadBack(component: string, key: string)
    requires |Split(key, SEP)| == 3
    ensures KeyOfLabels(Resolver, LabelsOf(Resolver, component, key)) == key
  {
    ThreeParts(key);
  }

  lemma KeyReadBack(kind: Kind, component: string, key: string)
    requires WellFormed(kind, key)
    ensures KeyOfLabels(kind, LabelsOf(kind, component, key)) == key
  {
    match kind
    case Http => HttpKeyReadBack(component, key);
    case Operation => OperationKeyReadBack(component, key);
    case Resolver => ResolverKeyReadBack(component, key);
  }

  lemma ClassLabelKeepsKey(kind: Kind, labels: Labels, class_: string)
    ensures KeyOfLabels(kind, labels[StatusClassLabel := class_]) == KeyOfLabels(kind, labels)
  {
  }

  predicate SameSeries(a: Sample, b: Sample) {
    a.name == b.name && a.labels == b.labels
  }

  predicate NoDuplicates(ms: seq<Sample>) {
    forall i, j | 0 <= i < j < |ms| :: !SameSeries(ms[i], ms[j])
  }

  // All samples of one key name that key.
  predicate AllNamed(kind: Kind, ms: seq<Sample>, key: string) {
    forall i | 0 <= i < |ms| :: KeyOfLabels(kind, ms[i].labels) == key
  }

  lemma {:induction false} TotalsAreUnique(labels: Labels, counts: map<string, nat>, classes: seq<string>)
    requires Distinct(classes)
    ensures var ms := Totals(labels, counts, classes);
            && |ms| == |classes| && NoDuplicates(ms)
            && forall i | 0 <= i < |ms| ::
                 ms[i] == Sample(Total, labels[StatusClassLabel := classes[i]], Get(counts, classes[i], 0))
  {
    if classes != [] {
      TotalsAreUnique(labels, counts, classes[1..]);
      var ms := Totals(labels, counts, classes);
      forall i | 0 <= i < |ms|
        ensures ms[i] == Sample(Total, labels[StatusClassLabel := classes[i]], Get(counts, classes[i], 0))
      {
        if i > 0 {
          assert ms[i] == Totals(labels, counts, classes[1..])[i - 1] && classes[i] == classes[1..][i - 1];
        }
      }
      forall i, j | 0 <= i < j < |ms| ensures !SameSeries(ms[i], ms[j]) {
        assert ms[i].labels[StatusClassLabel] == classes[i] && ms[j].labels[StatusClassLabel] == classes[j];
      }
    }
  }

  lemma KeyIsUnique(kind: Kind, component: string, m: State, key: string)
    requires WellFormed(kind, key)
    ensures NoDuplicates(RenderKey(kind, component, m, key)) && AllNamed(kind, RenderKey(kind, component, m, key), key)
  {
    var labels := LabelsOf(kind, component, key);
    var counts := Get(m.total, key, map[]);
    var classes := SortedOf(counts.Keys);
    SortedIsDistinct(classes);
    TotalsAreUnique(labels, counts, classes);
    KeyReadBack(kind, component, key);
    var totals := Totals(labels, counts, classes);
    var ms := RenderKey(kind, component, m, key);
    forall i | 0 <= i < |ms| ensures KeyOfLabels(kind, ms[i].labels) == key {
      if i < |totals| {
        ClassLabelKeepsKey(kind, labels, classes[i]);
      }
    }
    forall i | 0 <= i < |totals| ensures ms[i].name == Total {
      assert ms[i] == totals[i];
    }
  }

  lemma {:induction false} KeysAreUnique(kind: Kind, component: string, m: State, keys: seq<string>)
    requires Distinct(keys) && forall k | k in keys :: WellFormed(kind, k)
    ensures var ms := RenderKeys(kind, component, m, keys);
            NoDuplicates(ms) && forall i | 0 <= i < |ms| :: KeyOfLabels(kind, ms[i].labels) in keys
  {
    if keys != [] {
      var first, rest := RenderKey(kind, component, m, keys[0]), RenderKeys(kind, component, m, keys[1..]);
      KeyIsUnique(kind, component, m, keys[0]);
      KeysAreUnique(kind, component, m, keys[1..]);
      forall i, j | 0 <= i < j < |first + rest| ensures !SameSeries((first + rest)[i], (first + rest)[j]) {
        if i < |first| <= j {
          assert KeyOfLabels(kind, rest[j - |first|].labels) in keys[1..];
        }
      }
    }
  }

  // No two samples of a rendered meter have the same name and labels, when
  // its keys were recorded from separator-free names.
  lemma RenderedOnce(kind: Kind, component: string, m: State)
    requires forall k | k in m.total :: WellFormed(kind, k)
    ensures NoDuplicates(Render(kind, component, m))
  {
    var keys := SortedOf(m.total.Keys);
    SortedIsDistinct(keys);
    forall k | k in keys ensures WellFormed(kind, k) {
      assert k in m.total;
    }
    KeysAreUnique(kind, component, m, keys);
  }

  // ---- rendering inverts recording ----

  lemma {:induction false} RenderContains(
    kind: Kind, component: string, m: State, keys: seq<string>, key: string, sample: Sample)
    requires key in keys && sample in RenderKey(kind, component, m, key)
    ensures sample in RenderKeys(kind, component, m, keys)
  {
    if keys[0] != key {
      RenderContains(kind, component, m, keys[1..], key, sample);
    }
  }

  // Clean series of one kind do not share a key.
  lemma KeysAreInjective(a: Series, b: Series)
    requires Clean(a) && Clean(b) && KindOf(a) == KindOf(b)
    ensures SeriesKey(a) == SeriesKey(b) <==> a == b
  {
    LabelsRecoverSeries(a, "");
    LabelsRecoverSeries(b, "");
    if SeriesKey(a) == SeriesKey(b) {
      assert MeantLabels(a, "") == MeantLabels(b, "");
      SameMeaning(a, b);
    }
  }

  lemma SameMeaning(a: Series, b: Series)
    requires KindOf(a) == KindOf(b) && MeantLabels(a, "") == MeantLabels(b, "")
    ensures a == b
  {
    var la, lb := MeantLabels(a, ""), MeantLabels(b, "");
    match a
    case HttpSeries(_, _) => assert la[Route] == lb[Route] && la[HttpInstrumentation] == lb[HttpInstrumentation];
    case OperationSeries(_, _) =>
      assert la[OperationLabel] == lb[OperationLabel] && la[GraphQLInstrumentation] == lb[GraphQLInstrumentation];
    case ResolverSeries(_, _, _) =>
      assert la[OperationLabel] == lb[OperationLabel] && la[ResolverLabel] == lb[ResolverLabel];
      assert la[GraphQLInstrumentation] == lb[GraphQLInstrumentation];
  }

  // The meter's tallies for a key are those of the series recorded under it.
  lemma {:induction false} EntriesTally(entries: seq<Entry>, kind: Kind, s: Series)
    requires Uniform(entries, kind) && Clean(s) && KindOf(s) == kind
    ensures Times(CallsFor(entries), SeriesKey(s)) == Occurrences(entries, s)
    ensures Elapsed(CallsFor(entries), SeriesKey(s)) == Spent(entries, s)
  {
    if entries != [] {
      var before, e := entries[..|entries| - 1], entries[|entries| - 1];
      EntriesTally(before, kind, s);
      TalliesStep(CallsFor(before), CallFor(e), SeriesKey(s), "");
      EntryTally(e, s);
    }
  }

  lemma {:induction false} EntriesTallyAs(entries: seq<Entry>, kind: Kind, s: Series, class_: string)
    requires Uniform(entries, kind) && Clean(s) && KindOf(s) == kind
    ensures TimesAs(CallsFor(entries), SeriesKey(s), class_) == OccurrencesAs(entries, s, class_)
  {
    if entries != [] {
      var before, e := entries[..|entries| - 1], entries[|entries| - 1];
      EntriesTallyAs(before, kind, s, class_);
      TalliesStep(CallsFor(before), CallFor(e), SeriesKey(s), class_);
      EntryTally(e, s);
    }
  }

  lemma {:induction false} OccurrencesBound(entries: seq<Entry>, s: Series, class_: string)
    ensures OccurrencesAs(entries, s, class_) <= Occurrences(entries, s)
  {
    if entries != [] {
      OccurrencesBound(entries[..|entries| - 1], s, class_);
    }
  }

  lemma EntryTally(e: Entry, s: Series)
    requires Clean(Named(e.series)) && Clean(s) && KindOf(e.series) == KindOf(s)
    ensures KeyOf(CallFor(e)) == SeriesKey(s) <==> Named(e.series) == s
    ensures ClassOf(CallFor(e)) == StatusClass(e.status)
    ensures Nanos(CallFor(e)) == if e.duration > 0 then e.duration else 0
  {
    KeysAreInjective(Named(e.series), s);
    KeyIsNotEmpty(Named(e.series));
  }

  lemma KeyIsNotEmpty(s: Series)
    ensures SeriesKey(s) != ""
  {
    assert SEP in SeriesKey(s);
  }

  lemma {:induction false} EntriesAreWellFormed(entries: seq<Entry>, kind: Kind, key: string)
    requires Uniform(entries, kind) && Times(CallsFor(entries), key) > 0
    ensures WellFormed(kind, key)
  {
    if entries != [] {
      var before, e := entries[..|entries| - 1], entries[|entries| - 1];
      TalliesStep(CallsFor(before), CallFor(e), key, "");
      EntryIsWellFormed(e, kind);
      if Times(CallsFor(before), key) > 0 {
        EntriesAreWellFormed(before, kind, key);
      }
    }
  }

  lemma EntryIsWellFormed(e: Entry, kind: Kind)
    requires KindOf(e.series) == kind && Clean(Named(e.series))
    ensures WellFormed(kind, KeyOf(CallFor(e)))
  {
    SeriesAreWellFormed(Named(e.series));
    KeyIsNotEmpty(Named(e.series));
  }

  lemma RecordedKeysAreWellFormed(entries: seq<Entry>, kind: Kind)
    requires Uniform(entries, kind)
    ensures forall k | k in Replay(CallsFor(entries)).total :: WellFormed(kind, k)
  {
    ReplayAccounts(CallsFor(entries));
    forall k | k in Replay(CallsFor(entries)).total ensures WellFormed(kind, k) {
      EntriesAreWellFormed(entries, kind, k);
    }
  }

  // The samples of one key, by name.
  lemma SamplesOfKey(kind: Kind, component: string, m: State, key: string, class_: string)
    requires key in m.total
    ensures var labels, ms := LabelsOf(kind, component, key), RenderKey(kind, component, m, key);
            && (class_ in m.total[key] ==>
                Sample(Total, labels[StatusClassLabel := class_], m.total[key][class_]) in ms)
            && Sample(DurationSum, labels, Get(m.sumNs, key, 0)) in ms
            && Sample(DurationCount, labels, Get(m.count, key, 0)) in ms
  {
    var labels, ms := LabelsOf(kind, component, key), RenderKey(kind, component, m, key);
    var classes := SortedOf(m.total[key].Keys);
    var totals := Totals(labels, m.total[key], classes);
    SortedIsDistinct(classes);
    TotalsAreUnique(labels, m.total[key], classes);
    if class_ in m.total[key] {
      assert class_ in classes;
      var i :| 0 <= i < |classes| && classes[i] == class_;
      assert ms[i] == totals[i];
    }
    assert ms[|totals|] == Sample(DurationSum, labels, Get(m.sumNs, key, 0));
    assert ms[|totals| + 1] == Sample(DurationCount, labels, Get(m.count, key, 0));
  }

  // What the rendered meter says of a series that was recorded.
  predicate Reports(ms: seq<Sample>, labels: Labels, class_: string, calls: nat, all: nat, spent: nat) {
    && Sample(Total, labels[StatusClassLabel := class_], calls % UINT64) in ms
    && Sample(DurationSum, labels, spent % UINT64) in ms
    && Sample(DurationCount, labels, all % UINT64) in ms
  }

  lemma KeyReports(kind: Kind, component: string, entries: seq<Entry>, s: Series, class_: string)
    requires Uniform(entries, kind) && Clean(s) && KindOf(s) == kind && OccurrencesAs(entries, s, class_) > 0
    ensures SeriesKey(s) in Replay(CallsFor(entries)).total
    ensures Reports(RenderKey(kind, component, Replay(CallsFor(entries)), SeriesKey(s)),
                    MeantLabels(s, component), class_,
                    OccurrencesAs(entries, s, class_), Occurrences(entries, s), Spent(entries, s))
  {
    var m := Replay(CallsFor(entries));
    ReplayAccounts(CallsFor(entries));
    EntriesTally(entries, kind, s);
    EntriesTallyAs(entries, kind, s, class_);
    OccurrencesBound(entries, s, class_);
    LabelsRecoverSeries(s, component);
    SamplesOfKey(kind, component, m, SeriesKey(s), class_);
  }

  // Rendering inverts recording. For every history of separator-free
  // recordings of one kind: no two samples have the same name and labels, and
  // each recorded series and status class has its total, carrying the
  // recorded names and the number of such calls, beside the number and summed
  // duration of all calls of the series, modulo 2^64.
  lemma RecordedIsRendered(kind: Kind, component: string, entries: seq<Entry>, s: Series, class_: string)
    requires Uniform(entries, kind) && Clean(s) && KindOf(s) == kind && OccurrencesAs(entries, s, class_) > 0
    ensures var ms := Render(kind, component, Replay(CallsFor(entries)));
            && NoDuplicates(ms)
            && Reports(ms, MeantLabels(s, component), class_,
                       OccurrencesAs(entries, s, class_), Occurrences(entries, s), Spent(entries, s))
  {
    var m, key, labels := Replay(CallsFor(entries)), SeriesKey(s), MeantLabels(s, component);
    KeyReports(kind, component, entries, s, class_);
    RecordedKeysAreWellFormed(entries, kind);
    RenderedOnce(kind, component, m);
    var keys := SortedOf(m.total.Keys);
    RenderContains(kind, component, m, keys, key,
      Sample(Total, labels[StatusClassLabel := class_], OccurrencesAs(entries, s, class_) % UINT64));
    RenderContains(kind, component, m, keys, key, Sample(DurationSum, labels, Spent(entries, s) % UINT64));
    RenderContains(kind, component, m, keys, key, Sample(DurationCount, labels, Occurrences(entries, s) % UINT64));
  }

  lemma {:induction false} EntryOccurs(entries: seq<Entry>, i: nat)
    requires i < |entries|
    ensures OccurrencesAs(entries, Named(entries[i].series), StatusClass(entries[i].status)) > 0
  {
    var n := |entries| - 1;
    if i < n {
      EntryOccurs(entries[..n], i);
    }
  }

  // The labels of a recording, from its arguments: an empty name is "unknown",
  // an empty instrumentation "app", and the class is the status's hundreds.
  function RecordedLabels(e: Entry, component: string): Labels {
    var class_ := if 100 <= e.status <= 599 then [('0' as int + e.status / 100) as char] + "xx" else "unknown";
    match e.series
    case HttpSeries(r, i) =>
      map[Component := component, Route := if r == "" then "unknown" else r,
          HttpInstrumentation := if i == "" then "app" else i, StatusClassLabel := class_]
    case OperationSeries(o, i) =>
      map[Component := component, OperationLabel := if o == "" then "unknown" else o,
          GraphQLInstrumentation := if i == "" then "app" else i, StatusClassLabel := class_]
    case ResolverSeries(o, r, i) =>
      map[Component := component, OperationLabel := if o == "" then "unknown" else o,
          ResolverLabel := if r == "" then "unknown" else r,
          GraphQLInstrumentation := if i == "" then "app" else i, StatusClassLabel := class_]
  }

  // How many recordings bear the same labels.
  function Alike(entries: seq<Entry>, labels: Labels): nat {
    if entries == [] then 0
    else
      var n := |entries| - 1;
      Alike(entries[..n], labels) + if RecordedLabels(entries[n], "") == labels then 1 else 0
  }

  lemma LabelsOfEntry(e: Entry, component: string)
    ensures RecordedLabels(e, component)
         == MeantLabels(Named(e.series), component)[StatusClassLabel := StatusClass(e.status)]
  {
    ClassIsHundreds(e.status);
  }

  lemma SameLabels(a: Entry, b: Entry)
    requires KindOf(a.series) == KindOf(b.series)
    ensures RecordedLabels(a, "") == RecordedLabels(b, "")
            <==> Named(a.series) == Named(b.series) && StatusClass(a.status) == StatusClass(b.status)
  {
    LabelsOfEntry(a, "");
    LabelsOfEntry(b, "");
    var la, lb := RecordedLabels(a, ""), RecordedLabels(b, "");
    if la == lb {
      assert la[StatusClassLabel] == lb[StatusClassLabel];
      var ma, mb := MeantLabels(Named(a.series), ""), MeantLabels(Named(b.series), "");
      assert StatusClassLabel !in ma && StatusClassLabel !in mb;
      assert ma == la - {StatusClassLabel} && mb == lb - {StatusClassLabel};
      SameMeaning(Named(a.series), Named(b.series));
    }
  }

  lemma {:induction false} AlikeOccur(entries: seq<Entry>, kind: Kind, e: Entry)
    requires Uniform(entries, kind) && KindOf(e.series) == kind
    ensures Alike(entries, RecordedLabels(e, ""))
         == OccurrencesAs(entries, Named(e.series), StatusClass(e.status))
  {
    if entries != [] {
      var n := |entries| - 1;
      AlikeOccur(entries[..n], kind, e);
      SameLabels(entries[n], e);
    }
  }

  // Every recording shows up under its own labels, with the number of
  // recordings that share them.
  lemma EntryIsRendered(kind: Kind, component: string, entries: seq<Entry>, i: nat)
    requires Uniform(entries, kind) && i < |entries|
    ensures var ms := Render(kind, component, Replay(CallsFor(entries)));
            Sample(Total, RecordedLabels(entries[i], component),
                   Alike(entries, RecordedLabels(entries[i], "")) % UINT64) in ms
  {
    var e := entries[i];
    EntryOccurs(entries, i);
    LabelsOfEntry(e, component);
    AlikeOccur(entries, kind, e);
    RecordedIsRendered(kind, component, entries, Named(e.series), StatusClass(e.status));
  }

  // A sample of the whole meter is a sample of one of its keys.
  lemma {:induction false} RenderedFrom(
    kind: Kind, component: string, m: State, keys: seq<string>, sample: Sample)
    returns (key: string)
    requires sample in RenderKeys(kind, component, m, keys)
    ensures key in keys && sample in RenderKey(kind, component, m, key)
  {
    if sample in RenderKey(kind, component, m, keys[0]) {
      key := keys[0];
    } else {
      key := RenderedFrom(kind, component, m, keys[1..], sample);
    }
  }

  lemma KeyOfEntry(e: Entry)
    ensures KeyOf(CallFor(e)) == SeriesKey(Named(e.series)) && KindOf(Named(e.series)) == KindOf(e.series)
  {
    KeyIsNotEmpty(Named(e.series));
  }

  // A key that was recorded is the key of some series that was.
  lemma {:induction false} SeriesBehind(entries: seq<Entry>, kind: Kind, key: string) returns (s: Series)
    requires Uniform(entries, kind) && Times(CallsFor(entries), key) > 0
    ensures Clean(s) && KindOf(s) == kind && SeriesKey(s) == key
  {
    var n := |entries| - 1;
    var before, c := CallsFor(entries[..n]), CallFor(entries[n]);
    KeyOfEntry(entries[n]);
    assert Times(before + [c], key) == Times(before, key) + if KeyOf(c) == key then 1 else 0 by {
      TalliesStep(before, c, key, "");
    }
    if Times(before, key) > 0 {
      s := SeriesBehind(entries[..n], kind, key);
    } else {
      s := Named(entries[n].series);
    }
  }

  // The one class a total of a key can be of.
  lemma SampleOfKey(kind: Kind, component: string, m: State, key: string, sample: Sample) returns (class_: string)
    requires key in m.total && sample in RenderKey(kind, component, m, key)
    ensures var labels := LabelsOf(kind, component, key);
            match sample.name
            case Total =>
              class_ in m.total[key]
              && sample == Sample(Total, labels[StatusClassLabel := class_], m.total[key][class_])
            case DurationSum => sample == Sample(DurationSum, labels, Get(m.sumNs, key, 0))
            case DurationCount => sample == Sample(DurationCount, labels, Get(m.count, key, 0))
  {
    var labels, ms := LabelsOf(kind, component, key), RenderKey(kind, component, m, key);
    var classes := SortedOf(m.total[key].Keys);
    var totals := Totals(labels, m.total[key], classes);
    SortedIsDistinct(classes);
    TotalsAreUnique(labels, m.total[key], classes);
    var i :| 0 <= i < |ms| && ms[i] == sample;
    class_ := "";
    if i < |totals| {
      class_ := classes[i];
      assert class_ in classes && ms[i] == totals[i];
    }
  }

  // What a rendered sample says, given the series it is about.
  predicate Reported(sample: Sample, labels: Labels, class_: string, calls: nat, all: nat, spent: nat) {
    match sample.name
    case Total => calls > 0 && sample == Sample(Total, labels[StatusClassLabel := class_], calls % UINT64)
    case DurationSum => sample == Sample(DurationSum, labels, spent % UINT64)
    case DurationCount => sample == Sample(DurationCount, labels, all % UINT64)
  }

  lemma KeyReported(
    kind: Kind, component: string, entries: seq<Entry>, s: Series, sample: Sample)
    returns (class_: string)
    requires Uniform(entries, kind) && Clean(s) && KindOf(s) == kind
    requires SeriesKey(s) in Replay(CallsFor(entries)).total
    requires sample in RenderKey(kind, component, Replay(CallsFor(entries)), SeriesKey(s))
    ensures Reported(sample, MeantLabels(s, component), class_,
                     OccurrencesAs(entries, s, class_), Occurrences(entries, s), Spent(entries, s))
  {
    var m := Replay(CallsFor(entries));
    class_ := SampleOfKey(kind, component, m, SeriesKey(s), sample);
    ReplayAccounts(CallsFor(entries));
    EntriesTally(entries, kind, s);
    EntriesTallyAs(entries, kind, s, class_);
    LabelsRecoverSeries(s, component);
  }

  // The other half: nothing is rendered that was not recorded. Every sample is
  // about a series that was recorded, and a total about a class it was
  // recorded with, with the recorded names and numbers.
  lemma RenderedWasRecorded(kind: Kind, component: string, entries: seq<Entry>, sample: Sample)
    returns (s: Series, class_: string)
    requires Uniform(entries, kind) && sample in Render(kind, component, Replay(CallsFor(entries)))
    ensures Clean(s) && KindOf(s) == kind && Occurrences(entries, s) > 0
    ensures Reported(sample, MeantLabels(s, component), class_,
                     OccurrencesAs(entries, s, class_), Occurrences(entries, s), Spent(entries, s))
  {
    var m := Replay(CallsFor(entries));
    var key := RenderedFrom(kind, component, m, SortedOf(m.total.Keys), sample);
    assert key in m.total && Times(CallsFor(entries), key) > 0 by {
      ReplayAccounts(CallsFor(entries));
    }
    s := SeriesBehind(entries, kind, key);
    EntriesTally(entries, kind, s);
    class_ := KeyReported(kind, component, entries, s, sample);
  }

  // ---- conservation survives rendering ----

  function SumTotals(ms: seq<Sample>): nat {
    if ms == [] then 0 else (if ms[0].name == Total then ms[0].value else 0) + SumTotals(ms[1..])
  }

  lemma {:induction false} SumTotalsAppend(a: seq<Sample>, b: seq<Sample>)
    ensures SumTotals(a + b) == SumTotals(a) + SumTotals(b)
  {
    if a == [] {
      assert a + b == b;
    } else {
      assert (a + b)[1..] == a[1..] + b;
      SumTotalsAppend(a[1..], b);
    }
  }

  lemma {:induction false} SumOfTotals(labels: Labels, counts: map<string, nat>, classes: seq<string>)
    ensures SumTotals(Totals(labels, counts, classes)) == SumBy(classes, c => Get(counts, c, 0))
  {
    if classes != [] {
      SumOfTotals(labels, counts, classes[1..]);
    }
  }

  lemma DurationsAddNothing(a: Sample, b: Sample)
    requires a.name != Total && b.name != Total
    ensures SumTotals([a, b]) == 0
  {
    assert [a, b][1..] == [b] && [b][1..] == [];
    assert SumTotals([b]) == 0;
  }

  lemma ClassCountsSum(m: State, history: seq<Call>, key: string, classes: seq<string>)
    requires Accounts(m, history) && key in m.total && Distinct(classes) && Lists(classes, m.total[key].Keys)
    ensures SumBy(classes, c => Get(m.total[key], c, 0)) % UINT64 == Get(m.count, key, 0) % UINT64
  {
    ClassesDivide(history, key, classes);
    SumByMod(classes, c => TimesAs(history, key, c), c => Get(m.total[key], c, 0));
  }

  lemma RenderKeySum(kind: Kind, component: string, m: State, key: string)
    requires key in m.total
    ensures SumTotals(RenderKey(kind, component, m, key))
         == SumBy(SortedOf(m.total[key].Keys), c => Get(m.total[key], c, 0))
  {
    var labels := LabelsOf(kind, component, key);
    var totals := Totals(labels, m.total[key], SortedOf(m.total[key].Keys));
    var sum := Sample(DurationSum, labels, Get(m.sumNs, key, 0));
    var count := Sample(DurationCount, labels, Get(m.count, key, 0));
    assert RenderKey(kind, component, m, key) == totals + [sum, count];
    SumTotalsAppend(totals, [sum, count]);
    DurationsAddNothing(sum, count);
    SumOfTotals(labels, m.total[key], SortedOf(m.total[key].Keys));
  }

  lemma SumOfKey(kind: Kind, component: string, m: State, history: seq<Call>, key: string)
    requires Accounts(m, history) && key in m.total
    ensures SumTotals(RenderKey(kind, component, m, key)) % UINT64 == Get(m.count, key, 0) % UINT64
  {
    RenderKeySum(kind, component, m, key);
    SortedIsDistinct(SortedOf(m.total[key].Keys));
    ClassCountsSum(m, history, key, SortedOf(m.total[key].Keys));
  }

  function CountIn(m: State): string -> nat {
    k => Get(m.count, k, 0)
  }

  // The totals of a key add up to its count.
  ghost predicate TotalsMatch(kind: Kind, component: string, m: State, key: string) {
    SumTotals(RenderKey(kind, component, m, key)) % UINT64 == Get(m.count, key, 0) % UINT64
  }

  lemma SumStep(first: seq<Sample>, rest: seq<Sample>, x: nat, y: nat)
    requires SumTotals(first) % UINT64 == x % UINT64 && SumTotals(rest) % UINT64 == y % UINT64
    ensures SumTotals(first + rest) % UINT64 == (x + y) % UINT64
  {
    SumTotalsAppend(first, rest);
    AddCongruent(SumTotals(first), SumTotals(rest), x, y);
  }

  lemma {:induction false} SumOfKeys(kind: Kind, component: string, m: State, keys: seq<string>)
    requires forall k | k in keys :: TotalsMatch(kind, component, m, k)
    ensures SumTotals(RenderKeys(kind, component, m, keys)) % UINT64 == SumBy(keys, CountIn(m)) % UINT64
  {
    if keys != [] {
      var first, rest := RenderKey(kind, component, m, keys[0]), RenderKeys(kind, component, m, keys[1..]);
      assert TotalsMatch(kind, component, m, keys[0]);
      SumOfKeys(kind, component, m, keys[1..]);
      SumStep(first, rest, CountIn(m)(keys[0]), SumBy(keys[1..], CountIn(m)));
    }
  }

  // The rendered totals add up to the number of record calls, modulo 2^64.
  lemma RenderedTotalsConserve(kind: Kind, component: string, history: seq<Call>)
    ensures SumTotals(Render(kind, component, Replay(history))) % UINT64 == |history| % UINT64
  {
    var m := Replay(history);
    var keys := SortedOf(m.total.Keys);
    ReplayAccounts(history);
    SortedIsDistinct(keys);
    forall k | k in keys ensures TotalsMatch(kind, component, m, k) {
      SumOfKey(kind, component, m, history, k);
    }
    SumOfKeys(kind, component, m, keys);
    KeysDivide(history, keys);
    SumByMod(keys, k => Times(history, k), CountIn(m));
  }
}
