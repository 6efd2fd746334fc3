// The request meters (metrics.go, server.go): nested maps of counters, updated
// by every record call.
module Meters {
  import opened Common

  const SEP := '\U{1F}'

  function StatusClass(status: int): string {
    if status < 100 || status > 599 then "unknown"
    else if status < 200 then "1xx"
    else if status < 300 then "2xx"
    else if status < 400 then "3xx"
    else if status < 500 then "4xx"
    else "5xx"
  }

  // The class of a status is its hundreds digit and "xx", for the statuses that
  // HTTP has; any other is "unknown".
  lemma ClassIsHundreds(status: int)
    ensures StatusClass(status) ==
              if 100 <= status <= 599 then [('0' as int + status / 100) as char] + "xx" else "unknown"
  {
    assert 100 <= status <= 599 ==> 1 <= status / 100 <= 5;
  }

  datatype State = State(
    total: map<string, map<string, nat>>,
    sumNs: map<string, nat>,
    count: map<string, nat>)

  // One call of recordMeter or recordHTTP.
  datatype Call = Call(key: string, status: int, duration: int)

  function KeyOf(c: Call): string {
    if c.key == "" then "unknown" else c.key
  }

  function ClassOf(c: Call): string {
    StatusClass(c.status)
  }

  function Nanos(c: Call): nat {
    if c.duration < 0 then 0 else c.duration
  }

  function Get<K, V>(m: map<K, V>, k: K, default: V): V {
    if k in m then m[k] else default
  }

  function Add(a: nat, b: nat): nat {
    (a + b) % UINT64
  }

  function Record(m: State, c: Call): State {
    var key := KeyOf(c);
    var classes := Get(m.total, key, map[]);
    State(
      m.total[key := classes[ClassOf(c) := Add(Get(classes, ClassOf(c), 0), 1)]],
      m.sumNs[key := Add(Get(m.sumNs, key, 0), Nanos(c))],
      m.count[key := Add(Get(m.count, key, 0), 1)])
  }

  // What one record call counts, under what, and that it changes nothing else.
  lemma RecordCounts(m: State, c: Call)
    ensures var m1 := Record(m, c);
            var k := if c.key == "" then "unknown" else c.key;
            var class_ := if 100 <= c.status <= 599 then [('0' as int + c.status / 100) as char] + "xx" else "unknown";
            && k in m1.total && class_ in m1.total[k] && k in m1.sumNs && k in m1.count
            && m1.total[k][class_] == (Get(Get(m.total, k, map[]), class_, 0) + 1) % UINT64
            && m1.sumNs[k] == (Get(m.sumNs, k, 0) + if c.duration > 0 then c.duration else 0) % UINT64
            && m1.count[k] == (Get(m.count, k, 0) + 1) % UINT64
            && m1.total.Keys == m.total.Keys + {k}
            && m1.total[k].Keys == Get(m.total, k, map[]).Keys + {class_}
            && (forall x | x in m1.total[k] && x != class_ :: m1.total[k][x] == Get(Get(m.total, k, map[]), x, 0))
            && (forall x | x in m.total && x != k :: m1.total[x] == m.total[x])
            && m1.sumNs - {k} == m.sumNs - {k} && m1.count - {k} == m.count - {k}
  {
    ClassIsHundreds(c.status);
  }

  class RequestMeter {
    var total: map<string, map<string, nat>>
    var sumNs: map<string, nat>
    var count: map<string, nat>

    constructor ()
      ensures Abs() == State(map[], map[], map[])
    {
      total, sumNs, count := map[], map[], map[];
    }

    function Abs(): State
      reads this
    {
      State(total, sumNs, count)
    }

    method RecordMeter(key: string, status: int, duration: int)
      modifies this
      ensures Abs() == Record(old(Abs()), Call(key, status, duration))
    {
      var k := if key == "" then "unknown" else key;
      var d := if duration < 0 then 0 else duration;
      var class_ := StatusClass(status);
      var classes: map<string, nat> := if k in total then total[k] else map[];
      classes := classes[class_ := Add(if class_ in classes then classes[class_] else 0, 1)];
      total := total[k := classes];
      sumNs := sumNs[k := Add(if k in sumNs then sumNs[k] else 0, d)];
      count := count[k := Add(if k in count then count[k] else 0, 1)];
    }
  }

  // ---- every reachable state ----

  // The meter after a history of calls.
  function Replay(history: seq<Call>): State {
    if history == [] then State(map[], map[], map[])
    else Record(Replay(history[..|history| - 1]), history[|history| - 1])
  }

  // How often a key was recorded, and how often with a class; how long in all.
  function Times(history: seq<Call>, key: string): nat {
    if history == [] then 0
    else Times(history[..|history| - 1], key) + if KeyOf(history[|history| - 1]) == key then 1 else 0
  }

  function TimesAs(history: seq<Call>, key: string, class_: string): nat {
    if history == [] then 0
    else
      var c := history[|history| - 1];
      TimesAs(history[..|history| - 1], key, class_) + if KeyOf(c) == key && ClassOf(c) == class_ then 1 else 0
  }

  function Elapsed(history: seq<Call>, key: string): nat {
    if history == [] then 0
    else
      var c := history[|history| - 1];
      Elapsed(history[..|history| - 1], key) + if KeyOf(c) == key then Nanos(c) else 0
  }

  // The maps say exactly what the history says, modulo 2^64.
  ghost predicate Accounts(m: State, history: seq<Call>) {
    && m.total.Keys == m.sumNs.Keys == m.count.Keys
    && (forall k :: k in m.total <==> Times(history, k) > 0)
    && (forall k | k in m.total :: m.count[k] == Times(history, k) % UINT64)
    && (forall k | k in m.total :: m.sumNs[k] == Elapsed(history, k) % UINT64)
    && (forall k, c | k in m.total :: c in m.total[k] <==> TimesAs(history, k, c) > 0)
    && (forall k, c | k in m.total && c in m.total[k] :: m.total[k][c] == TimesAs(history, k, c) % UINT64)
  }

  lemma {:induction false} Untouched(history: seq<Call>, key: string)
    requires Times(history, key) == 0
    ensures Elapsed(history, key) == 0 && forall c :: TimesAs(history, key, c) == 0
  {
    if history != [] {
      Untouched(history[..|history| - 1], key);
    }
  }

  lemma {:induction false} ReplayAccounts(history: seq<Call>)
    ensures Accounts(Replay(history), history)
  {
    if history != [] {
      var before := history[..|history| - 1];
      ReplayAccounts(before);
      RecordAccounts(Replay(before), before, history[|history| - 1]);
      assert history == before + [history[|history| - 1]];
    }
  }

  // What one more call adds to each tally.
  lemma TalliesStep(before: seq<Call>, c: Call, k: string, x: string)
    ensures Times(before + [c], k) == Times(before, k) + if KeyOf(c) == k then 1 else 0
    ensures Elapsed(before + [c], k) == Elapsed(before, k) + if KeyOf(c) == k then Nanos(c) else 0
    ensures TimesAs(before + [c], k, x) == TimesAs(before, k, x) + if KeyOf(c) == k && ClassOf(c) == x then 1 else 0
  {
    assert (before + [c])[..|before|] == before;
  }

  lemma AddMod(a: nat, b: nat)
    ensures Add(a % UINT64, b) == (a + b) % UINT64
  {
    var q := a / UINT64;
    assert a == q * UINT64 + a % UINT64;
    assert a + b == q * UINT64 + (a % UINT64 + b);
    ModShift(q, a % UINT64 + b);
  }

  // What Accounts says of one key, and of one class under it.
  predicate CountersFor(m: State, history: seq<Call>, k: string) {
    && (k in m.total <==> Times(history, k) > 0)
    && (k in m.total <==> k in m.count) && (k in m.total <==> k in m.sumNs)
    && (k in m.total ==>
        m.count[k] == Times(history, k) % UINT64 && m.sumNs[k] == Elapsed(history, k) % UINT64)
  }

  predicate ClassesFor(m: State, history: seq<Call>, k: string, x: string) {
    k in m.total ==>
      && (x in m.total[k] <==> TimesAs(history, k, x) > 0)
      && (x in m.total[k] ==> m.total[k][x] == TimesAs(history, k, x) % UINT64)
  }

  lemma AddCongruent(a: nat, b: nat, c: nat, d: nat)
    requires a % UINT64 == c % UINT64 && b % UINT64 == d % UINT64
    ensures (a + b) % UINT64 == (c + d) % UINT64
  {
    AddMod(a, b);
    AddMod(b, c % UINT64);
    AddMod(c, d);
    AddMod(d, c % UINT64);
  }

  // What a call changes of the counters of one key.
  lemma RecordAt(m: State, c: Call, k: string)
    ensures var m1 := Record(m, c);
            && (k in m1.total <==> k in m.total || k == KeyOf(c))
            && (k in m1.count <==> k in m.count || k == KeyOf(c))
            && (k in m1.sumNs <==> k in m.sumNs || k == KeyOf(c))
            && Get(m1.count, k, 0) == (if k == KeyOf(c) then Add(Get(m.count, k, 0), 1) else Get(m.count, k, 0))
            && Get(m1.sumNs, k, 0) == (if k == KeyOf(c) then Add(Get(m.sumNs, k, 0), Nanos(c)) else Get(m.sumNs, k, 0))
  {
  }

  // A key without calls has zero counters.
  lemma CountersRead(m: State, history: seq<Call>, k: string)
    requires CountersFor(m, history, k)
    ensures Get(m.count, k, 0) == Times(history, k) % UINT64 && Get(m.sumNs, k, 0) == Elapsed(history, k) % UINT64
  {
    if k !in m.total {
      Untouched(history, k);
    }
  }

  lemma CountersStep(m: State, before: seq<Call>, c: Call, k: string)
    requires CountersFor(m, before, k)
    ensures CountersFor(Record(m, c), before + [c], k)
  {
    TalliesStep(before, c, k, "");
    RecordAt(m, c, k);
    CountersRead(m, before, k);
    if k == KeyOf(c) {
      AddMod(Times(before, k), 1);
      AddMod(Elapsed(before, k), Nanos(c));
    }
  }

  lemma ClassesStep(m: State, before: seq<Call>, c: Call, k: string, x: string)
    requires CountersFor(m, before, k) && ClassesFor(m, before, k, x)
    ensures ClassesFor(Record(m, c), before + [c], k, x)
  {
    TalliesStep(before, c, k, x);
    if k == KeyOf(c) {
      if k !in m.total {
        Untouched(before, k);
      }
      AddMod(TimesAs(before, k, x), 1);
    }
  }

  lemma RecordAccounts(m: State, before: seq<Call>, c: Call)
    requires Accounts(m, before)
    ensures Accounts(Record(m, c), before + [c])
  {
    var m1, history := Record(m, c), before + [c];
    forall k ensures CountersFor(m1, history, k) {
      assert CountersFor(m, before, k);
      CountersStep(m, before, c, k);
    }
    forall k, x ensures ClassesFor(m1, history, k, x) {
      assert CountersFor(m, before, k) && ClassesFor(m, before, k, x);
      ClassesStep(m, before, c, k, x);
    }
    AccountsKeyByKey(m1, history);
  }

  lemma AccountsKeyByKey(m: State, history: seq<Call>)
    requires forall k :: CountersFor(m, history, k)
    requires forall k, x :: ClassesFor(m, history, k, x)
    ensures Accounts(m, history)
  {
    forall k ensures k in m.total <==> Times(history, k) > 0 {
      assert CountersFor(m, history, k);
    }
    forall k ensures k in m.total <==> k in m.count {
      assert CountersFor(m, history, k);
    }
    forall k ensures k in m.total <==> k in m.sumNs {
      assert CountersFor(m, history, k);
    }
    forall k | k in m.total
      ensures m.count[k] == Times(history, k) % UINT64 && m.sumNs[k] == Elapsed(history, k) % UINT64
    {
      assert CountersFor(m, history, k);
    }
    forall k, x | k in m.total
      ensures x in m.total[k] <==> TimesAs(history, k, x) > 0
      ensures x in m.total[k] ==> m.total[k][x] == TimesAs(history, k, x) % UINT64
    {
      assert ClassesFor(m, history, k, x);
    }
  }

  // ---- conservation ----

  function SumBy(xs: seq<string>, f: string -> nat): nat {
    if xs == [] then 0 else f(xs[0]) + SumBy(xs[1..], f)
  }

  lemma {:induction false} SumBySame(xs: seq<string>, f: string -> nat, g: string -> nat)
    requires forall x | x in xs :: f(x) == g(x)
    ensures SumBy(xs, f) == SumBy(xs, g)
  {
    if xs != [] {
      SumBySame(xs[1..], f, g);
    }
  }

  // Raising one summand by one raises the sum by one.
  lemma {:induction false} SumByBump(xs: seq<string>, f: string -> nat, g: string -> nat, x0: string)
    requires Distinct(xs) && x0 in xs
    requires forall x | x in xs :: g(x) == f(x) + if x == x0 then 1 else 0
    ensures SumBy(xs, g) == SumBy(xs, f) + 1
  {
    if xs[0] == x0 {
      assert forall x | x in xs[1..] :: x != x0;
      SumBySame(xs[1..], f, g);
    } else {
      assert x0 in xs[1..];
      SumByBump(xs[1..], f, g, x0);
    }
  }

  lemma {:induction false} SumByMod(xs: seq<string>, f: string -> nat, g: string -> nat)
    requires forall x | x in xs :: g(x) == f(x) % UINT64
    ensures SumBy(xs, g) % UINT64 == SumBy(xs, f) % UINT64
  {
    if xs != [] {
      SumByMod(xs[1..], f, g);
      AddCongruent(g(xs[0]), SumBy(xs[1..], g), f(xs[0]), SumBy(xs[1..], f));
    }
  }

  // The classes of a key divide its calls.
  lemma {:induction false} ClassesDivide(history: seq<Call>, key: string, classes: seq<string>)
    requires Distinct(classes)
    requires forall c | TimesAs(history, key, c) > 0 :: c in classes
    ensures SumBy(classes, c => TimesAs(history, key, c)) == Times(history, key)
  {
    var f := c => TimesAs(history, key, c);
    if history == [] {
      SumBySame(classes, f, c => 0);
      Zero(classes);
    } else {
      var before, last := history[..|history| - 1], history[|history| - 1];
      var g := c => TimesAs(before, key, c);
      forall c | TimesAs(before, key, c) > 0 ensures c in classes {
        assert TimesAs(history, key, c) > 0;
      }
      ClassesDivide(before, key, classes);
      if KeyOf(last) == key {
        assert TimesAs(history, key, ClassOf(last)) > 0;
        SumByBump(classes, g, f, ClassOf(last));
      } else {
        SumBySame(classes, g, f);
      }
    }
  }

  lemma {:induction false} Zero(xs: seq<string>)
    ensures SumBy(xs, x => 0) == 0
  {
    if xs != [] {
      Zero(xs[1..]);
    }
  }

  // The keys divide all calls.
  lemma {:induction false} KeysDivide(history: seq<Call>, keys: seq<string>)
    requires Distinct(keys)
    requires forall k | Times(history, k) > 0 :: k in keys
    ensures SumBy(keys, k => Times(history, k)) == |history|
  {
    var f := k => Times(history, k);
    if history == [] {
      SumBySame(keys, f, k => 0);
      Zero(keys);
    } else {
      var before, last := history[..|history| - 1], history[|history| - 1];
      forall k | Times(before, k) > 0 ensures k in keys {
        assert Times(history, k) > 0;
      }
      KeysDivide(before, keys);
      assert Times(history, KeyOf(last)) > 0;
      SumByBump(keys, k => Times(before, k), f, KeyOf(last));
    }
  }

  // Conservation in every reachable state, whichever way the keys and classes
  // are listed: for each key the class counts sum to the count, and over all
  // keys the counts sum to the number of calls, modulo 2^64.
  lemma MeterConserves(history: seq<Call>, keys: seq<string>, key: string, classes: seq<string>)
    requires var m := Replay(history);
             && Distinct(keys) && (forall k :: k in keys <==> k in m.count)
             && key in m.total && Distinct(classes) && (forall c :: c in classes <==> c in m.total[key])
    ensures var m := Replay(history);
            && m.total.Keys == m.sumNs.Keys == m.count.Keys
            && SumBy(classes, c => Get(m.total[key], c, 0)) % UINT64 == m.count[key]
            && SumBy(keys, k => Get(m.count, k, 0)) % UINT64 == |history| % UINT64
            && m.sumNs[key] == Elapsed(history, key) % UINT64
  {
    var m := Replay(history);
    ReplayAccounts(history);
    ClassesDivide(history, key, classes);
    SumByMod(classes, c => TimesAs(history, key, c), c => Get(m.total[key], c, 0));
    KeysDivide(history, keys);
    SumByMod(keys, k => Times(history, k), k => Get(m.count, k, 0));
  }
}
