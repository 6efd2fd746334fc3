// Listen addresses (bind.go): parsing to a canonical list, the JSON form, and
// opening the listeners.
module Binds {
  import opened Common
  import opened Strings
  import opened Addresses

  datatype BindError =
    | EmptyList | EmptyEntry | NotHostPort(cause: SplitError) | PortRequired | Duplicate(bind: string)
    | NotABind

  // One entry in canonical form.
  function Canon(raw: string): Result<string, BindError> {
    var s := TrimSpace(raw);
    if s == "" then Err(EmptyEntry)
    else
      match SplitHostPort(s)
      case Err(e) => Err(NotHostPort(e))
      case Ok(hp) => if hp.port == "" then Err(PortRequired) else Ok(JoinHostPort(hp.host, hp.port))
  }

  type Form = Result<string, BindError>

  function Forms(raws: seq<string>): (forms: seq<Form>)
    ensures |forms| == |raws| && forall i | 0 <= i < |raws| :: forms[i] == Canon(raws[i])
  {
    seq(|raws|, i requires 0 <= i < |raws| => Canon(raws[i]))
  }

  // The canonical entries appended to those already accepted, up to the first
  // that is an error or repeats one.
  function Gather(out: seq<string>, forms: seq<Form>): Result<seq<string>, BindError>
    decreases |forms|
  {
    if forms == [] then Ok(out)
    else
      match forms[0]
      case Err(e) => Err(e)
      case Ok(c) => if c in out then Err(Duplicate(c)) else Gather(out + [c], forms[1..])
  }

  function Parse(raws: seq<string>): Result<seq<string>, BindError> {
    if raws == [] then Err(EmptyList) else Gather([], Forms(raws))
  }

  lemma GatherUnfolds(out: seq<string>, forms: seq<Form>, i: nat)
    requires i < |forms|
    ensures Gather(out, forms[i..]) ==
              if forms[i].Err? then Err(forms[i].error)
              else if forms[i].value in out then Err(Duplicate(forms[i].value))
              else Gather(out + [forms[i].value], forms[i + 1..])
  {
    assert forms[i..][1..] == forms[i + 1..];
  }

  method ParseBindList(ss: seq<string>) returns (r: Result<seq<string>, BindError>)
    ensures r == Parse(ss)
  {
    if |ss| == 0 {
      return Err(EmptyList);
    }
    var seen: set<string> := {};
    var out: seq<string> := [];
    var i := 0;
    while i < |ss|
      invariant 0 <= i <= |ss|
      invariant forall c :: c in seen <==> c in out
      invariant Parse(ss) == Gather(out, Forms(ss)[i..])
    {
      GatherUnfolds(out, Forms(ss), i);
      var s := TrimSpace(ss[i]);
      if s == "" {
        return Err(EmptyEntry);
      }
      var hp := SplitHostPort(s);
      if hp.Err? {
        return Err(NotHostPort(hp.error));
      }
      if hp.value.port == "" {
        return Err(PortRequired);
      }
      var canon := JoinHostPort(hp.value.host, hp.value.port);
      if canon in seen {
        return Err(Duplicate(canon));
      }
      seen := seen + {canon};
      out := out + [canon];
      i := i + 1;
    }
    r := Ok(out);
  }

  // An entry is accepted exactly when, blanks at its ends aside, it spells a
  // host, which may be empty, and a port, which may not; its canonical form
  // brackets the host exactly if it has a colon.
  lemma CanonAccepts(raw: string, host: string, port: string)
    ensures Spells(TrimSpace(raw), host, port) ==>
              Canon(raw) == if port == "" then Err(PortRequired)
                            else Ok(if ':' in host then "[" + host + "]:" + port else host + ":" + port)
    ensures Canon(raw).Ok? ==> exists h, p :: Spells(TrimSpace(raw), h, p) && p != ""
    ensures TrimSpace(raw) == "" <==> Canon(raw) == Err(EmptyEntry)
  {
    var s := TrimSpace(raw);
    SplitReads(s, host, port);
    if SplitHostPort(s).Ok? {
      SplitReads(s, SplitHostPort(s).value.host, SplitHostPort(s).value.port);
    }
  }

  // ---- lists of canonical forms ----

  predicate Compatible(out: seq<string>, forms: seq<Form>) {
    && (forall i | 0 <= i < |forms| :: forms[i].Ok? && forms[i].value !in out)
    && (forall i, j | 0 <= i < j < |forms| :: forms[i] != forms[j])
  }

  predicate Extends(out: seq<string>, forms: seq<Form>, all: seq<string>) {
    && |all| == |out| + |forms| && out <= all && Distinct(all)
    && forall i | 0 <= i < |forms| :: forms[i] == Ok(all[|out| + i])
  }

  lemma ExtendsByOne(out: seq<string>, forms: seq<Form>, c: string, all: seq<string>)
    requires forms != [] && forms[0] == Ok(c) && Extends(out + [c], forms[1..], all)
    ensures Extends(out, forms, all)
  {
    assert all[|out|] == (out + [c])[|out|] == c;
    forall i | 0 <= i < |forms| ensures forms[i] == Ok(all[|out| + i]) {
      if i > 0 {
        assert forms[i] == forms[1..][i - 1];
      }
    }
  }

  lemma CompatibleSplits(out: seq<string>, forms: seq<Form>, c: string)
    requires forms != [] && forms[0] == Ok(c) && c !in out
    ensures Compatible(out, forms) <==> Compatible(out + [c], forms[1..])
  {
    assert forall i | 0 < i < |forms| :: forms[i] == forms[1..][i - 1];
    assert forall x :: x in out + [c] <==> x in out || x == c;
    assert forall i | 0 < i < |forms| :: forms[i].Ok? ==> (forms[i] == forms[0] <==> forms[i].value == c);
  }

  lemma {:induction false} GatherAccepts(out: seq<string>, forms: seq<Form>)
    requires Distinct(out)
    ensures Gather(out, forms).Ok? <==> Compatible(out, forms)
    ensures Gather(out, forms).Ok? ==> Extends(out, forms, Gather(out, forms).value)
    decreases |forms|
  {
    if forms != [] && forms[0].Ok? && forms[0].value !in out {
      var c := forms[0].value;
      GatherAccepts(out + [c], forms[1..]);
      CompatibleSplits(out, forms, c);
      if Gather(out, forms).Ok? {
        ExtendsByOne(out, forms, c, Gather(out, forms).value);
      }
    }
  }

  // The first k forms are accepted after out.
  predicate Good(forms: seq<Form>, out: seq<string>, k: nat)
    requires k <= |forms|
  {
    Compatible(out, forms[..k])
  }

  // Form k is an error, or repeats one of out or an earlier form.
  predicate Offends(forms: seq<Form>, out: seq<string>, k: nat, e: BindError)
    requires k < |forms|
  {
    match forms[k]
    case Err(x) => e == x
    case Ok(c) => e == Duplicate(c) && (c in out || forms[k] in forms[..k])
  }

  lemma {:induction false} GatherRejects(out: seq<string>, forms: seq<Form>) returns (k: nat)
    requires Gather(out, forms).Err?
    ensures k < |forms| && Offends(forms, out, k, Gather(out, forms).error) && Good(forms, out, k)
    decreases |forms|
  {
    k := 0;
    if forms[0].Ok? && forms[0].value !in out {
      var c := forms[0].value;
      var n := GatherRejects(out + [c], forms[1..]);
      k := n + 1;
      assert forms[..k][1..] == forms[1..][..n] && forms[..k][0] == forms[0];
      CompatibleSplits(out, forms[..k], c);
      assert forms[k] == forms[1..][n];
      assert forall x :: x in forms[..k] <==> x == forms[0] || x in forms[1..][..n];
    }
  }

  // A list is accepted exactly when it is not empty, every entry has a
  // canonical form, and no two entries have the same one; the result is those
  // forms, in order.
  lemma ParseAccepts(ss: seq<string>)
    ensures Parse(ss).Ok? <==>
              && ss != []
              && (forall i | 0 <= i < |ss| :: Canon(ss[i]).Ok?)
              && (forall i, j | 0 <= i < j < |ss| :: Canon(ss[i]) != Canon(ss[j]))
    ensures Parse(ss).Ok? ==>
              && |Parse(ss).value| == |ss| && Distinct(Parse(ss).value)
              && forall i | 0 <= i < |ss| :: Canon(ss[i]) == Ok(Parse(ss).value[i])
  {
    var forms := Forms(ss);
    GatherAccepts([], forms);
    assert (forall i | 0 <= i < |ss| :: forms[i].Ok?) <==> (forall i | 0 <= i < |ss| :: Canon(ss[i]).Ok?);
    if ss != [] && Gather([], forms).Ok? {
      ExtendsNothing(forms, Gather([], forms).value);
    }
  }

  lemma ExtendsNothing(forms: seq<Form>, all: seq<string>)
    requires Extends([], forms, all)
    ensures |all| == |forms| && Distinct(all) && forall i | 0 <= i < |forms| :: forms[i] == Ok(all[i])
  {
    var none: seq<string> := [];
    forall i | 0 <= i < |forms| ensures forms[i] == Ok(all[i]) {
      assert forms[i] == Ok(all[|none| + i]);
    }
  }

  // A rejected list is empty, or the error is that of the first entry that has
  // no canonical form, or repeats that of an earlier one.
  lemma ParseRejects(ss: seq<string>) returns (k: nat)
    requires Parse(ss).Err?
    ensures ss == [] ==> Parse(ss).error == EmptyList
    ensures ss != [] ==>
              && k < |ss|
              && (Canon(ss[k]).Err? ==> Parse(ss).error == Canon(ss[k]).error)
              && (Canon(ss[k]).Ok? ==>
                  && Parse(ss).error == Duplicate(Canon(ss[k]).value)
                  && exists j :: 0 <= j < k && Canon(ss[j]) == Canon(ss[k]))
              && (forall j | 0 <= j < k :: Canon(ss[j]).Ok?)
              && (forall i, j | 0 <= i < j < k :: Canon(ss[i]) != Canon(ss[j]))
  {
    k := 0;
    if ss != [] {
      var forms := Forms(ss);
      k := GatherRejects([], forms);
      assert forall i | 0 <= i < |ss| :: Canon(ss[i]) == forms[i];
      assert forall i | 0 <= i < k :: forms[i] == forms[..k][i];
      if forms[k].Ok? {
        var j :| 0 <= j < k && forms[..k][j] == forms[k];
        assert Canon(ss[j]) == forms[j];
      }
    }
  }

  // ---- canonical forms ----

  // A bracketed host without a colon loses its brackets when it is rejoined;
  // if it begins with white space, that space is then exposed to TrimSpace.
  predicate HidesSpace(raw: string) {
    var s := TrimSpace(raw);
    && s != "" && s[0] == '[' && SplitHostPort(s).Ok?
    && var host := SplitHostPort(s).value.host;
       ':' !in host && host != "" && IsSpace(host[0])
  }

  // A canonical entry is a fixpoint of split-then-join, and of the whole
  // canonicalisation unless the original hid a leading space in brackets.
  lemma CanonIsCanonical(raw: string)
    requires Canon(raw).Ok?
    ensures var c := Canon(raw).value;
            && SplitHostPort(c).Ok?
            && JoinHostPort(SplitHostPort(c).value.host, SplitHostPort(c).value.port) == c
            && (Canon(c) == Ok(c) <==> !HidesSpace(raw))
  {
    var s := TrimSpace(raw);
    var hp := SplitHostPort(s).value;
    SplitParts(s);
    SplitJoin(hp.host, hp.port);
    TrimSpaceTrims(raw);
    JoinedIsTrimmed(s, hp.host, hp.port);
    if HidesSpace(raw) {
      LeadingSpaceIsLost(hp.host, hp.port);
    } else {
      JoinedIsCanonical(hp.host, hp.port);
    }
  }

  // Joining again shows white space at an end only if brackets hid it.
  lemma JoinedIsTrimmed(s: string, host: string, port: string)
    requires Spells(s, host, port) && port != "" && Trimmed(s)
    ensures Trimmed(JoinHostPort(host, port)) <==>
              !(s[0] == '[' && ':' !in host && host != "" && IsSpace(host[0]))
  {
    var c := JoinHostPort(host, port);
    assert s[|s| - 1] == port[|port| - 1] == c[|c| - 1];
    if ':' in host {
      assert c[0] == '[';
    } else {
      assert c[0] == if host == "" then ':' else host[0];
    }
  }

  lemma JoinedIsCanonical(host: string, port: string)
    requires Bare(host) && Bare(port) && ':' !in port && port != "" && Trimmed(JoinHostPort(host, port))
    ensures Canon(JoinHostPort(host, port)) == Ok(JoinHostPort(host, port))
  {
    TrimSpaceFixpoint(JoinHostPort(host, port));
    SplitJoin(host, port);
  }

  // Canonicalising again drops the exposed space, so the entry changes.
  lemma LeadingSpaceIsLost(host: string, port: string)
    requires ':' !in host && host != "" && IsSpace(host[0])
    ensures Canon(host + ":" + port) != Ok(host + ":" + port)
  {
    var c := host + ":" + port;
    if Canon(c).Ok? {
      var t := TrimSpace(c);
      var hp := SplitHostPort(t).value;
      SplitParts(t);
      TrimLeftShortens(c);
      TrimRightTrims(TrimLeft(c));
      assert |JoinHostPort(hp.host, hp.port)| <= |t| < |c|;
    }
  }

  lemma {:induction false} TrimLeftShortens(s: string)
    ensures |TrimLeft(s)| <= |s| && (s != [] && IsSpace(s[0]) ==> |TrimLeft(s)| < |s|)
  {
    if s != [] && IsSpace(s[0]) {
      TrimLeftShortens(s[1..]);
    }
  }

  // Parsing a parsed list again gives the same list, exactly when no entry
  // hid a leading space.
  lemma ParseIsIdempotent(ss: seq<string>)
    requires Parse(ss).Ok?
    ensures Parse(Parse(ss).value) == Ok(Parse(ss).value) <==> forall i | 0 <= i < |ss| :: !HidesSpace(ss[i])
  {
    var out := Parse(ss).value;
    ParseAccepts(ss);
    ParseAccepts(out);
    forall i | 0 <= i < |ss| ensures Canon(out[i]) == Ok(out[i]) <==> !HidesSpace(ss[i]) {
      CanonIsCanonical(ss[i]);
      assert Canon(ss[i]) == Ok(out[i]);
    }
    if forall i | 0 <= i < |ss| :: !HidesSpace(ss[i]) {
      assert forall i | 0 <= i < |out| :: Canon(out[i]) == Ok(out[i]);
      assert Parse(out).value == out;
    }
    if Parse(out) == Ok(out) {
      forall i | 0 <= i < |ss| ensures !HidesSpace(ss[i]) {
        assert Canon(out[i]) == Ok(out[i]);
      }
    }
  }

  // ---- the JSON form ----

  datatype Json = Null | Str(s: string) | Arr(ss: seq<string>) | Other

  function MarshalJSON(b: seq<string>): Json {
    if |b| == 0 then Null else if |b| == 1 then Str(b[0]) else Arr(b)
  }

  function UnmarshalJSON(j: Json): Result<seq<string>, BindError> {
    match j
    case Null => Ok([])
    case Str(s) => Parse([s])
    case Arr(ss) => Parse(ss)
    case Other => Err(NotABind)
  }

  // Every list that parsing or unmarshalling produced survives a round trip
  // through JSON, in the single-string form too, under the same condition.
  lemma JsonRoundTrip(ss: seq<string>)
    requires Parse(ss).Ok?
    ensures UnmarshalJSON(MarshalJSON(Parse(ss).value)) == Ok(Parse(ss).value)
            <==> forall i | 0 <= i < |ss| :: !HidesSpace(ss[i])
    ensures UnmarshalJSON(MarshalJSON([])) == Ok([])
    ensures MarshalJSON(Parse(ss).value).Str? <==> |ss| == 1
  {
    ParseIsIdempotent(ss);
    ParseAccepts(ss);
    var b := Parse(ss).value;
    if |b| == 1 {
      assert b == [b[0]];
    }
  }

  // What the JSON forms mean: null is no list, a string is a list of one, an
  // array is the list it holds, which may not be empty, and nothing else will do.
  lemma JsonAccepts(j: Json)
    ensures match j
            case Null => UnmarshalJSON(j) == Ok([])
            case Str(s) =>
              if Canon(s).Ok? then UnmarshalJSON(j) == Ok([Canon(s).value])
              else UnmarshalJSON(j) == Err(Canon(s).error)
            case Arr(ss) => UnmarshalJSON(j).Ok? ==> |UnmarshalJSON(j).value| == |ss| > 0
            case Other => UnmarshalJSON(j) == Err(NotABind)
  {
    match j
    case Str(s) =>
      GatherUnfolds([], Forms([s]), 0);
      assert Forms([s])[0..] == Forms([s]) && Forms([s])[0] == Canon(s) && Forms([s])[1..] == [];
      if Canon(s).Ok? {
        assert [] + [Canon(s).value] == [Canon(s).value];
      }
    case Arr(ss) => ParseAccepts(ss);
    case _ =>
  }

  // The whole failing family: a bracketed host that begins with a blank is
  // accepted, loses its brackets, and does not survive a second parse.
  lemma HiddenSpaceIsLost(host: string, port: string)
    requires Bare(host) && ':' !in host && host != "" && IsSpace(host[0])
    requires Bare(port) && ':' !in port && port != "" && !IsSpace(port[|port| - 1])
    ensures var raw := "[" + host + "]:" + port;
            HidesSpace(raw) && Canon(raw) == Ok(host + ":" + port) && Canon(host + ":" + port) != Ok(host + ":" + port)
  {
    var raw := "[" + host + "]:" + port;
    assert raw[|raw| - 1] == port[|port| - 1];
    TrimSpaceFixpoint(raw);
    SplitBracketed(host, port);
    LeadingSpaceIsLost(host, port);
  }

  // "[ a]:80" is accepted as " a:80", which parses as "a:80".
  lemma HiddenSpaceExample()
    ensures Canon("[" + " a" + "]:" + "80") == Ok(" a" + ":" + "80")
    ensures Canon(" a" + ":" + "80") != Ok(" a" + ":" + "80")
  {
    HiddenSpaceIsLost(" a", "80");
  }

  // ---- opening listeners ----

  // The listening sockets, by handle. Some addresses can be bound at all, and
  // some pairs cannot be bound at once: a fixed port conflicts with itself,
  // port 0 with nothing.
  class Network {
    var open: map<nat, string>
    var next: nat
    const bindable: set<string>
    const conflicts: (string, string) -> bool

    constructor (bindable: set<string>, conflicts: (string, string) -> bool)
      ensures Valid() && open == map[] && this.bindable == bindable && this.conflicts == conflicts
    {
      open, next := map[], 0;
      this.bindable, this.conflicts := bindable, conflicts;
    }

    ghost predicate Valid()
      reads this
    {
      forall h | h in open :: h < next
    }

    predicate Free(addr: string)
      reads this
    {
      addr in bindable && forall h | h in open :: !conflicts(addr, open[h])
    }

    method Listen(addr: string) returns (ln: Option<nat>)
      requires Valid()
      modifies this
      ensures Valid()
      ensures if old(Free(addr)) then ln.Some? && ln.value !in old(open) && open == old(open)[ln.value := addr]
              else ln.None? && open == old(open)
    {
      if Free(addr) {
        open := open[next := addr];
        ln := Some(next);
        next := next + 1;
      } else {
        ln := None;
      }
    }

    method Close(ln: nat)
      requires Valid()
      modifies this
      ensures Valid() && open == old(open) - {ln}
    {
      open := open - {ln};
    }
  }

  // Whether address k can be opened after those before it in the list.
  predicate Opens(net: Network, addrs: seq<string>, k: nat)
    requires k < |addrs|
    reads net
  {
    net.Free(addrs[k]) && forall j | 0 <= j < k :: !net.conflicts(addrs[k], addrs[j])
  }

  // The sockets of `was`, and listener i on address i for each address so far.
  ghost predicate Adds(was: map<nat, string>, lns: seq<nat>, addrs: seq<string>, now: map<nat, string>) {
    && |lns| <= |addrs| && Distinct(lns)
    && now.Keys == was.Keys + (set h | h in lns)
    && (forall h | h in was :: h !in lns && now[h] == was[h])
    && (forall i | 0 <= i < |lns| :: now[lns[i]] == addrs[i])
  }

  lemma AddsOneMore(was: map<nat, string>, lns: seq<nat>, addrs: seq<string>, now: map<nat, string>, h: nat)
    requires Adds(was, lns, addrs, now) && |lns| < |addrs| && h !in now
    ensures Adds(was, lns + [h], addrs, now[h := addrs[|lns|]])
  {
    assert forall i | 0 <= i < |lns| :: lns[i] in lns && lns[i] in now;
  }

  // listenAll is all or nothing: either every address has its own new
  // listener, or the first address that cannot be opened is reported and the
  // open sockets are what they were.
  method ListenAll(net: Network, addrs: seq<string>) returns (r: Result<seq<nat>, string>)
    requires net.Valid()
    modifies net
    ensures net.Valid()
    ensures r.Ok? <==> forall k | 0 <= k < |addrs| :: old(Opens(net, addrs, k))
    ensures r.Ok? ==> |r.value| == |addrs| && Adds(old(net.open), r.value, addrs, net.open)
    ensures r.Err? ==> net.open == old(net.open)
    ensures r.Err? ==> exists k :: 0 <= k < |addrs| && r.error == addrs[k] && !old(Opens(net, addrs, k))
                                   && forall j | 0 <= j < k :: old(Opens(net, addrs, j))
  {
    var lns: seq<nat> := [];
    var i := 0;
    while i < |addrs|
      invariant 0 <= i <= |addrs| && |lns| == i && net.Valid()
      invariant forall k | 0 <= k < i :: old(Opens(net, addrs, k))
      invariant Adds(old(net.open), lns, addrs, net.open)
    {
      var a := addrs[i];
      FreeAfter(net, old(net.open), lns, addrs);
      assert net.Free(a) <==> old(Opens(net, addrs, i));
      var ln := net.Listen(a);
      if ln.None? {
        CloseAll(net, lns);
        assert net.open == old(net.open);
        return Err(a);
      }
      AddsOneMore(old(net.open), lns, addrs, net.open - {ln.value}, ln.value);
      lns := lns + [ln.value];
      i := i + 1;
    }
    r := Ok(lns);
  }

  // An address is free now if it was before and conflicts with none opened
  // since.
  lemma FreeAfter(net: Network, was: map<nat, string>, lns: seq<nat>, addrs: seq<string>)
    requires Adds(was, lns, addrs, net.open) && |lns| < |addrs|
    ensures var a := addrs[|lns|];
            net.Free(a) <==>
              && a in net.bindable && (forall h | h in was :: !net.conflicts(a, was[h]))
              && forall j | 0 <= j < |lns| :: !net.conflicts(a, addrs[j])
  {
    var a := addrs[|lns|];
    if net.Free(a) {
      forall j | 0 <= j < |lns| ensures !net.conflicts(a, addrs[j]) {
        assert lns[j] in lns && lns[j] in net.open;
      }
      forall h | h in was ensures !net.conflicts(a, was[h]) {
        assert h in net.open;
      }
    } else if a in net.bindable {
      var h :| h in net.open && net.conflicts(a, net.open[h]);
      if h in lns {
        var j :| 0 <= j < |lns| && lns[j] == h;
        assert net.conflicts(a, addrs[j]);
      }
    }
  }

  method CloseAll(net: Network, lns: seq<nat>)
    requires net.Valid()
    modifies net
    ensures net.Valid() && net.open == old(net.open) - set h | h in lns
  {
    var i := 0;
    while i < |lns|
      invariant 0 <= i <= |lns| && net.Valid()
      invariant net.open == old(net.open) - set h | h in lns[..i]
    {
      net.Close(lns[i]);
      assert lns[..i + 1] == lns[..i] + [lns[i]];
      i := i + 1;
    }
    assert lns[..i] == lns;
  }

  // ---- the address to report ----

  // The listener's host is a loopback IP; parsing IPs is left abstract.
  predicate OnLoopback(loopback: string -> bool, addr: string) {
    SplitHostPort(addr).Ok? && loopback(SplitHostPort(addr).value.host)
  }

  // The index of the first loopback, or non-empty, address; the length if
  // there is none.
  function FirstLoopback(loopback: string -> bool, addrs: seq<string>): (k: nat)
    ensures k <= |addrs| && forall j | 0 <= j < k :: !OnLoopback(loopback, addrs[j])
    ensures k < |addrs| ==> OnLoopback(loopback, addrs[k])
  {
    if addrs == [] || OnLoopback(loopback, addrs[0]) then 0 else 1 + FirstLoopback(loopback, addrs[1..])
  }

  function FirstNonEmpty(addrs: seq<string>): (k: nat)
    ensures k <= |addrs| && forall j | 0 <= j < k :: addrs[j] == ""
    ensures k < |addrs| ==> addrs[k] != ""
  {
    if addrs == [] || addrs[0] != "" then 0 else 1 + FirstNonEmpty(addrs[1..])
  }

  // What one more address tells of these indices.
  lemma LoopbackStep(loopback: string -> bool, addrs: seq<string>, i: nat)
    requires i < |addrs| && i <= FirstLoopback(loopback, addrs)
    ensures if OnLoopback(loopback, addrs[i]) then FirstLoopback(loopback, addrs) == i
            else i < FirstLoopback(loopback, addrs)
  {
  }

  lemma NonEmptyStep(addrs: seq<string>, i: nat)
    requires i < |addrs|
    ensures FirstNonEmpty(addrs) >= i && addrs[i] != "" ==> FirstNonEmpty(addrs) == i
    ensures FirstNonEmpty(addrs) >= i && addrs[i] == "" ==> FirstNonEmpty(addrs) > i
    ensures FirstNonEmpty(addrs) < i ==> addrs[FirstNonEmpty(addrs)] != ""
  {
  }

  // The first loopback address if there is one, else the first non-empty one.
  method PickBoundAddr(loopback: string -> bool, addrs: seq<string>) returns (r: string)
    ensures var k, m := FirstLoopback(loopback, addrs), FirstNonEmpty(addrs);
            r == if k < |addrs| then addrs[k] else if m < |addrs| then addrs[m] else ""
  {
    var first := "";
    var i := 0;
    while i < |addrs|
      invariant 0 <= i <= |addrs| && i <= FirstLoopback(loopback, addrs)
      invariant first == if FirstNonEmpty(addrs) < i then addrs[FirstNonEmpty(addrs)] else ""
    {
      var s := addrs[i];
      LoopbackStep(loopback, addrs, i);
      NonEmptyStep(addrs, i);
      if first == "" {
        first := s;
      }
      var hp := SplitHostPort(s);
      if hp.Ok? && loopback(hp.value.host) {
        return s;
      }
      i := i + 1;
    }
    r := first;
  }
}
