// The client address behind trusted proxies (clientip.go).
module ClientIP {
  import opened Common
  import opened Strings
  import opened Addresses

  // net.ParseIP and the loopback, private and link-local tables.
  datatype IPTable = IPTable(parses: string -> bool, trusted: string -> bool)

  // clientTrustedProxy: an address that parses and is in a trusted range.
  predicate TrustedProxy(t: IPTable, addr: string) {
    t.parses(addr) && t.trusted(addr)
  }

  function ClientHost(raw: string): string {
    var addr := TrimSpace(raw);
    if addr == "" then ""
    else match SplitHostPort(addr)
      case Ok(hp) => hp.host
      case Err(_) => addr
  }

  function HopsOf(t: IPTable, parts: seq<string>): seq<string> {
    if parts == [] then []
    else (if t.parses(ClientHost(parts[0])) then [ClientHost(parts[0])] else []) + HopsOf(t, parts[1..])
  }

  // The parseable hops of all field lines, left to right.
  function Hops(t: IPTable, values: seq<string>): seq<string> {
    if values == [] then [] else HopsOf(t, Split(values[0], ',')) + Hops(t, values[1..])
  }

  // The rightmost hop that is not a trusted proxy.
  function Rightmost(t: IPTable, hops: seq<string>): Option<string> {
    if hops == [] then None
    else if !TrustedProxy(t, hops[|hops| - 1]) then Some(hops[|hops| - 1])
    else Rightmost(t, hops[..|hops| - 1])
  }

  function Walk(t: IPTable, hops: seq<string>): string {
    if hops == [] then ""
    else if Rightmost(t, hops).Some? then Rightmost(t, hops).value
    else hops[0]
  }

  lemma HopsUnfold(t: IPTable, values: seq<string>, v: nat, hops: seq<string>)
    requires v < |values|
    ensures hops + Hops(t, values[v..]) == hops + HopsOf(t, Split(values[v], ',')) + Hops(t, values[v + 1..])
  {
    assert values[v..][1..] == values[v + 1..];
    ConcatAssoc(hops, HopsOf(t, Split(values[v], ',')), Hops(t, values[v + 1..]));
  }

  method ClientFromForwarded(t: IPTable, values: seq<string>) returns (r: string)
    ensures r == Walk(t, Hops(t, values))
  {
    var hops: seq<string> := [];
    var v := 0;
    while v < |values|
      invariant 0 <= v <= |values|
      invariant Hops(t, values) == hops + Hops(t, values[v..])
    {
      var line := AppendHops(t, Split(values[v], ','));
      HopsUnfold(t, values, v, hops);
      hops := hops + line;
      v := v + 1;
    }
    assert hops + [] == hops;
    r := WalkBack(t, hops);
  }

  lemma PartsUnfold(t: IPTable, parts: seq<string>, p: nat, hops: seq<string>)
    requires p < |parts|
    ensures var ip := ClientHost(parts[p]);
            hops + HopsOf(t, parts[p..]) == (if t.parses(ip) then hops + [ip] else hops) + HopsOf(t, parts[p + 1..])
  {
    var ip, rest := ClientHost(parts[p]), HopsOf(t, parts[p + 1..]);
    assert parts[p..][1..] == parts[p + 1..];
    assert HopsOf(t, parts[p..]) == (if t.parses(ip) then [ip] else []) + rest;
    ConcatAssoc(hops, [ip], rest);
    ConcatAssoc(hops, [], rest);
    assert hops + [] == hops;
  }

  method AppendHops(t: IPTable, parts: seq<string>) returns (hops: seq<string>)
    ensures hops == HopsOf(t, parts)
  {
    hops := [];
    var p := 0;
    while p < |parts|
      invariant 0 <= p <= |parts|
      invariant HopsOf(t, parts) == hops + HopsOf(t, parts[p..])
    {
      var ip := ClientHost(parts[p]);
      PartsUnfold(t, parts, p, hops);
      if t.parses(ip) {
        hops := hops + [ip];
      }
      p := p + 1;
    }
  }

  method WalkBack(t: IPTable, hops: seq<string>) returns (r: string)
    ensures r == Walk(t, hops)
  {
    if |hops| == 0 {
      return "";
    }
    var i := |hops| - 1;
    assert hops[..i + 1] == hops;
    while i >= 0
      invariant -1 <= i < |hops|
      invariant Rightmost(t, hops) == Rightmost(t, hops[..i + 1])
    {
      if !TrustedProxy(t, hops[i]) {
        return hops[i];
      }
      assert hops[..i + 1][..i] == hops[..i];
      i := i - 1;
    }
    r := hops[0];
  }

  // The answer is the rightmost untrusted hop, else the leftmost hop.
  lemma WalkFindsRightmost(t: IPTable, hops: seq<string>)
    ensures var r := Walk(t, hops);
            if hops == [] then r == ""
            else if forall i | 0 <= i < |hops| :: TrustedProxy(t, hops[i]) then r == hops[0]
            else exists k :: 0 <= k < |hops| && r == hops[k] && !TrustedProxy(t, hops[k])
                             && forall j | k < j < |hops| :: TrustedProxy(t, hops[j])
  {
    RightmostIs(t, hops);
  }

  lemma {:induction false} RightmostIs(t: IPTable, hops: seq<string>)
    ensures match Rightmost(t, hops)
            case None => forall i | 0 <= i < |hops| :: TrustedProxy(t, hops[i])
            case Some(r) => exists k :: 0 <= k < |hops| && r == hops[k] && !TrustedProxy(t, hops[k])
                                        && forall j | k < j < |hops| :: TrustedProxy(t, hops[j])
  {
    if hops != [] && TrustedProxy(t, hops[|hops| - 1]) {
      var init := hops[..|hops| - 1];
      RightmostIs(t, init);
      if Rightmost(t, init).Some? {
        var k :| 0 <= k < |init| && Rightmost(t, init).value == init[k] && !TrustedProxy(t, init[k])
                 && forall j | k < j < |init| :: TrustedProxy(t, init[j]);
        assert hops[k] == init[k];
        forall j | k < j < |hops| ensures TrustedProxy(t, hops[j]) {
          assert j < |init| ==> hops[j] == init[j];
        }
      } else {
        forall i | 0 <= i < |hops| ensures TrustedProxy(t, hops[i]) {
          assert i < |init| ==> hops[i] == init[i];
        }
      }
    }
  }

  // ---- forged prefixes ----

  // Whatever is prepended is irrelevant once an untrusted hop exists.
  lemma {:induction false} PrefixIsIrrelevant(t: IPTable, forged: seq<string>, hops: seq<string>)
    requires exists i :: 0 <= i < |hops| && !TrustedProxy(t, hops[i])
    ensures Walk(t, forged + hops) == Walk(t, hops)
  {
    RightmostIs(t, hops);
    RightmostAppend(t, forged, hops);
  }

  lemma {:induction false} RightmostAppend(t: IPTable, a: seq<string>, b: seq<string>)
    ensures Rightmost(t, a + b) == if Rightmost(t, b).Some? then Rightmost(t, b) else Rightmost(t, a)
    decreases |b|
  {
    if b == [] {
      assert a + b == a;
    } else {
      assert (a + b)[..|a + b| - 1] == a + b[..|b| - 1];
      RightmostAppend(t, a, b[..|b| - 1]);
    }
  }

  // ---- field lines ----

  lemma {:induction false} HopsOfAppend(t: IPTable, a: seq<string>, b: seq<string>)
    ensures HopsOf(t, a + b) == HopsOf(t, a) + HopsOf(t, b)
  {
    if a == [] {
      assert a + b == b;
    } else {
      assert (a + b)[1..] == a[1..] + b;
      HopsOfAppend(t, a[1..], b);
    }
  }

  lemma {:induction false} HopsAppend(t: IPTable, a: seq<string>, b: seq<string>)
    ensures Hops(t, a + b) == Hops(t, a) + Hops(t, b)
  {
    if a == [] {
      assert a + b == b;
    } else {
      assert (a + b)[1..] == a[1..] + b;
      HopsAppend(t, a[1..], b);
    }
  }

  lemma SplitBlank(b: string)
    ensures Split(" " + b, ',') == [" " + Split(b, ',')[0]] + Split(b, ',')[1..]
  {
    var s := " " + b;
    var i := Index(b, ',');
    if i < 0 {
      assert Index(s, ',') < 0 by { assert forall k | 0 < k < |s| :: s[k] == b[k - 1]; }
    } else {
      assert s == " " + b[..i] + [','] + b[i + 1..];
      IndexOf(" " + b[..i], ',', b[i + 1..]);
      assert s[..i + 1] == " " + b[..i] && s[i + 2..] == b[i + 1..];
    }
  }

  lemma HostOfBlank(s: string)
    ensures ClientHost(" " + s) == ClientHost(s)
  {
    assert (" " + s)[1..] == s;
    assert TrimLeft(" " + s) == TrimLeft(s);
  }

  // A blank before a list element is trimmed away.
  lemma BlankBeforePart(t: IPTable, b: string)
    ensures HopsOf(t, Split(" " + b, ',')) == HopsOf(t, Split(b, ','))
  {
    var parts := Split(b, ',');
    SplitBlank(b);
    HostOfBlank(parts[0]);
    assert ([" " + parts[0]] + parts[1..])[1..] == parts[1..];
  }

  lemma HopsOfOne(t: IPTable, a: string)
    ensures Hops(t, [a]) == HopsOf(t, Split(a, ','))
  {
    assert [a][1..] == [];
  }

  lemma CutLine(t: IPTable, pre: seq<string>, a: string, b: string, post: seq<string>, line: string)
    requires HopsOf(t, Split(line, ',')) == HopsOf(t, Split(a, ',')) + HopsOf(t, Split(b, ','))
    ensures Hops(t, pre + [line] + post) == Hops(t, pre + [a, b] + post)
  {
    HopsAppend(t, pre + [line], post);
    HopsAppend(t, pre, [line]);
    HopsAppend(t, pre + [a, b], post);
    HopsAppend(t, pre, [a, b]);
    assert [a, b] == [a] + [b];
    HopsAppend(t, [a], [b]);
    HopsOfOne(t, a);
    HopsOfOne(t, b);
    HopsOfOne(t, line);
  }

  // Cutting one X-Forwarded-For line in two at a comma, or joining two with a
  // comma and an optional blank (section 5.3 of RFC 9110), never changes the
  // hops, and so never changes the client.
  lemma FieldLinesDoNotMatter(t: IPTable, pre: seq<string>, a: string, b: string, post: seq<string>)
    ensures Hops(t, pre + [a + [','] + b] + post) == Hops(t, pre + [a, b] + post)
    ensures Hops(t, pre + [a + [','] + (" " + b)] + post) == Hops(t, pre + [a, b] + post)
  {
    SplitJoined(a, b, ',');
    HopsOfAppend(t, Split(a, ','), Split(b, ','));
    CutLine(t, pre, a, b, post, a + [','] + b);
    SplitJoined(a, " " + b, ',');
    HopsOfAppend(t, Split(a, ','), Split(" " + b, ','));
    BlankBeforePart(t, b);
    CutLine(t, pre, a, b, post, a + [','] + (" " + b));
  }

  // ---- requests ----

  datatype Request = Request(remote: string, envoy: seq<string>, forwarded: seq<string>)

  function First(values: seq<string>): string {
    if values == [] then "" else values[0]
  }

  function EnvoyExternal(t: IPTable, r: Request): string {
    var ip := ClientHost(First(r.envoy));
    if t.parses(ip) then ip else ""
  }

  function TrustedIngressClientIP(t: IPTable, r: Request): string {
    var remote := ClientHost(r.remote);
    if !TrustedProxy(t, remote) then remote
    else if EnvoyExternal(t, r) != "" then EnvoyExternal(t, r)
    else if Walk(t, Hops(t, r.forwarded)) != "" then Walk(t, Hops(t, r.forwarded))
    else remote
  }

  function ForwardedClientIP(t: IPTable, r: Request): string {
    var ip := TrustedIngressClientIP(t, r);
    if ip == "" || ip == ClientHost(r.remote) then "" else ip
  }

  function SetForwarded(t: IPTable, r: Request, raw: string): Request {
    var ip := ClientHost(raw);
    if !t.parses(ip) then r else r.(envoy := [ip], forwarded := [ip])
  }

  // Who may be believed: a peer that is no trusted proxy is its own client,
  // whatever headers it sends; for a trusted one the first Envoy value, when
  // it parses, makes every X-Forwarded-For value irrelevant.
  lemma HeadersOfStrangersAreIgnored(t: IPTable, r: Request, envoy: seq<string>, forwarded: seq<string>)
    ensures !TrustedProxy(t, ClientHost(r.remote)) ==>
              && TrustedIngressClientIP(t, r.(envoy := envoy, forwarded := forwarded)) == ClientHost(r.remote)
              && ForwardedClientIP(t, r.(envoy := envoy, forwarded := forwarded)) == ""
    ensures TrustedProxy(t, ClientHost(r.remote)) && EnvoyExternal(t, r) != "" ==>
              TrustedIngressClientIP(t, r.(forwarded := forwarded)) == EnvoyExternal(t, r)
  {
  }

  // A request from a peer that may speak for others, whose Envoy header names
  // nobody.
  predicate Walked(t: IPTable, r: Request) {
    && t.parses(ClientHost(r.remote)) && t.trusted(ClientHost(r.remote))
    && (r.envoy == [] || !t.parses(ClientHost(r.envoy[0])))
  }

  // Hop k is the client the walk settles on: not a trusted proxy, and only
  // trusted ones come after it.
  predicate IsClient(t: IPTable, hops: seq<string>, k: nat)
    requires k < |hops|
  {
    && !(t.parses(hops[k]) && t.trusted(hops[k]))
    && forall j | k < j < |hops| :: t.parses(hops[j]) && t.trusted(hops[j])
  }

  // Whom the server takes for the client, for every request: the peer, unless
  // it is a trusted proxy; then the address in the first Envoy value; failing
  // that the rightmost forwarded hop that is no trusted proxy, or, if all are,
  // the leftmost; and the peer again when nobody is named.
  lemma ClientIsResolved(t: IPTable, r: Request)
    requires !t.parses("")
    ensures var peer, client, hops := ClientHost(r.remote), TrustedIngressClientIP(t, r), Hops(t, r.forwarded);
            if !(t.parses(peer) && t.trusted(peer)) then client == peer
            else if !Walked(t, r) then client == ClientHost(r.envoy[0])
            else if hops == [] then client == peer
            else if forall i | 0 <= i < |hops| :: t.parses(hops[i]) && t.trusted(hops[i]) then client == hops[0]
            else exists k :: 0 <= k < |hops| && client == hops[k] && IsClient(t, hops, k)
  {
    var hops := Hops(t, r.forwarded);
    HopsParse(t, r.forwarded);
    WalkFindsRightmost(t, hops);
    assert hops != [] ==> t.parses(hops[0]);
    if k :| 0 <= k < |hops| && Walk(t, hops) == hops[k] && !TrustedProxy(t, hops[k])
            && forall j | k < j < |hops| :: TrustedProxy(t, hops[j]) {
      assert IsClient(t, hops, k) && t.parses(hops[k]);
    }
  }

  // A field line without a comma names one hop, or none.
  lemma OneHop(t: IPTable, line: string)
    requires ',' !in line
    ensures Hops(t, [line]) == if t.parses(ClientHost(line)) then [ClientHost(line)] else []
  {
    HopsOfOne(t, line);
    assert Split(line, ',') == [line] && [line][1..] == [];
  }

  // What is read off "host:port" or "[host]:port", blanks around it or not.
  lemma HostIsRead(raw: string, host: string, port: string)
    requires Bare(host) && Bare(port) && ':' !in port
    requires TrimSpace(raw) == "[" + host + "]:" + port || (':' !in host && TrimSpace(raw) == host + ":" + port)
    ensures ClientHost(raw) == host
  {
    assert TrimSpace(raw)[|TrimSpace(raw)| - |port| - 1] == ':';
    if TrimSpace(raw) == "[" + host + "]:" + port {
      SplitBracketed(host, port);
    } else {
      SplitPlain(host, port);
    }
  }

  // Field lines that a caller puts in front change nothing once a hop behind
  // them is not a trusted proxy.
  lemma ForgedLinesAreIgnored(t: IPTable, r: Request, forged: seq<string>)
    requires var hops := Hops(t, r.forwarded); exists i :: 0 <= i < |hops| && !TrustedProxy(t, hops[i])
    ensures TrustedIngressClientIP(t, r.(forwarded := forged + r.forwarded)) == TrustedIngressClientIP(t, r)
    ensures ForwardedClientIP(t, r.(forwarded := forged + r.forwarded)) == ForwardedClientIP(t, r)
  {
    assert Walk(t, Hops(t, forged + r.forwarded)) == Walk(t, Hops(t, r.forwarded)) by {
      HopsAppend(t, forged, r.forwarded);
      PrefixIsIrrelevant(t, Hops(t, forged), Hops(t, r.forwarded));
    }
    SameWalk(t, r, forged + r.forwarded);
  }

  // Only the outcome of the walk counts.
  lemma SameWalk(t: IPTable, r: Request, forwarded: seq<string>)
    requires Walk(t, Hops(t, forwarded)) == Walk(t, Hops(t, r.forwarded))
    ensures TrustedIngressClientIP(t, r.(forwarded := forwarded)) == TrustedIngressClientIP(t, r)
    ensures ForwardedClientIP(t, r.(forwarded := forwarded)) == ForwardedClientIP(t, r)
  {
  }

  // Nor does cutting a field line at a comma, or joining two.
  lemma CuttingKeepsClient(t: IPTable, r: Request, pre: seq<string>, a: string, b: string, post: seq<string>)
    ensures var cut := r.(forwarded := pre + [a, b] + post);
            && TrustedIngressClientIP(t, r.(forwarded := pre + [a + [','] + b] + post))
               == TrustedIngressClientIP(t, cut)
            && TrustedIngressClientIP(t, r.(forwarded := pre + [a + [','] + (" " + b)] + post))
               == TrustedIngressClientIP(t, cut)
  {
    FieldLinesDoNotMatter(t, pre, a, b, post);
  }

  // An outgoing request whose headers are rewritten in place.
  class Outgoing {
    var envoy: seq<string>
    var forwarded: seq<string>

    constructor (envoy: seq<string>, forwarded: seq<string>)
      ensures this.envoy == envoy && this.forwarded == forwarded
    {
      this.envoy, this.forwarded := envoy, forwarded;
    }

    // The request as the peer that accepts it from `remote` sees it.
    function Seen(remote: string): Request
      reads this
    {
      Request(remote, envoy, forwarded)
    }

    method SetForwardedClientIP(t: IPTable, raw: string)
      modifies this
      ensures forall remote :: Seen(remote) == SetForwarded(t, old(Seen(remote)), raw)
      ensures var ip := ClientHost(raw);
              if t.parses(ip) then envoy == [ip] && forwarded == [ip]
              else envoy == old(envoy) && forwarded == old(forwarded)
    {
      var ip := ClientHost(raw);
      if !t.parses(ip) {
        return;
      }
      envoy := [ip];
      forwarded := [ip];
    }
  }

  // What net.ParseIP accepts looks like an address literal: no blanks around
  // it, no brackets, and either no colon or at least two.
  ghost predicate AddressLiterals(t: IPTable) {
    forall s | t.parses(s) ::
      s != "" && Trimmed(s) && Bare(s) && (':' in s ==> Index(s, ':') < LastIndex(s, ':'))
  }

  // A literal is its own host.
  lemma LiteralIsHost(t: IPTable, ip: string)
    requires AddressLiterals(t) && t.parses(ip)
    ensures ClientHost(ip) == ip
  {
    TrimSpaceFixpoint(ip);
    var i := LastIndex(ip, ':');
    if i >= 0 {
      assert ip[..i][Index(ip, ':')] == ':';
    }
  }

  lemma {:induction false} WalkParses(t: IPTable, parts: seq<string>)
    ensures forall i | 0 <= i < |HopsOf(t, parts)| :: t.parses(HopsOf(t, parts)[i])
  {
    if parts != [] {
      WalkParses(t, parts[1..]);
    }
  }

  lemma {:induction false} HopsParse(t: IPTable, values: seq<string>)
    ensures forall i | 0 <= i < |Hops(t, values)| :: t.parses(Hops(t, values)[i])
  {
    if values != [] {
      WalkParses(t, Split(values[0], ','));
      HopsParse(t, values[1..]);
    }
  }

  // What an in-cluster caller may copy onward is always a parseable address.
  lemma ForwardedParses(t: IPTable, r: Request)
    requires ForwardedClientIP(t, r) != ""
    ensures t.parses(ForwardedClientIP(t, r)) && ForwardedClientIP(t, r) == TrustedIngressClientIP(t, r)
  {
    HopsParse(t, r.forwarded);
    WalkFindsRightmost(t, Hops(t, r.forwarded));
  }

  // The request that peer `remote` receives after the caller, serving r,
  // copied its resolved client onto an outgoing request with any headers.
  function Onward(t: IPTable, r: Request, remote: string, envoy: seq<string>, forwarded: seq<string>): Request {
    SetForwarded(t, Request(remote, envoy, forwarded), ForwardedClientIP(t, r))
  }
}
