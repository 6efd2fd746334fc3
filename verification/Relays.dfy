// A request handed on from service to service (clientip.go): each caller
// copies the client it resolved onto its outgoing request.
module Relays {
  import opened ClientIP

  // A service that hands the request on, and the headers its outgoing request
  // had before the client was copied onto it.
  datatype Peer = Peer(remote: string, envoy: seq<string>, forwarded: seq<string>)

  function Relay(t: IPTable, r: Request, peers: seq<Peer>): Request
    decreases |peers|
  {
    if peers == [] then r
    else Relay(t, Onward(t, r, peers[0].remote, peers[0].envoy, peers[0].forwarded), peers[1..])
  }

  function Host(p: Peer): string {
    ClientHost(p.remote)
  }

  predicate AllTrusted(t: IPTable, peers: seq<Peer>) {
    peers != [] ==> TrustedProxy(t, Host(peers[0])) && AllTrusted(t, peers[1..])
  }

  // What the relays need to know of a client's address.
  predicate Stable(t: IPTable, client: string) {
    t.parses(client) && ClientHost(client) == client && client != "" && !t.parses("")
  }

  lemma ClientIsStable(t: IPTable, r: Request)
    requires AddressLiterals(t) && ForwardedClientIP(t, r) != ""
    ensures Stable(t, ForwardedClientIP(t, r)) && ForwardedClientIP(t, r) == TrustedIngressClientIP(t, r)
  {
    ForwardedParses(t, r);
    LiteralIsHost(t, ForwardedClientIP(t, r));
    assert !t.parses("");
  }

  // One hop: the next service resolves the same client, and can name it to
  // the one after unless the hop came from the client itself.
  lemma Hop(t: IPTable, r: Request, p: Peer, client: string)
    requires Stable(t, client) && ForwardedClientIP(t, r) == client && TrustedProxy(t, Host(p))
    ensures var r1 := Onward(t, r, p.remote, p.envoy, p.forwarded);
            && TrustedIngressClientIP(t, r1) == client
            && ForwardedClientIP(t, r1) == if Host(p) == client then "" else client
  {
  }

  // A service that can name nobody sends its own headers; when it has none,
  // the next one takes it for the client and can name nobody either.
  lemma BlankHop(t: IPTable, r: Request, remote: string)
    requires !t.parses("") && ForwardedClientIP(t, r) == ""
    ensures var r1 := Onward(t, r, remote, [], []);
            TrustedIngressClientIP(t, r1) == ClientHost(remote) && ForwardedClientIP(t, r1) == ""
  {
  }

  // No service but the last is the client.
  predicate NoneRelays(client: string, peers: seq<Peer>) {
    |peers| > 1 ==> Host(peers[0]) != client && NoneRelays(client, peers[1..])
  }

  lemma {:induction false} Kept(t: IPTable, r: Request, peers: seq<Peer>, client: string)
    requires Stable(t, client) && ForwardedClientIP(t, r) == client == TrustedIngressClientIP(t, r)
    requires AllTrusted(t, peers) && NoneRelays(client, peers)
    ensures TrustedIngressClientIP(t, Relay(t, r, peers)) == client
    decreases |peers|
  {
    if peers != [] {
      Hop(t, r, peers[0], client);
      if |peers| > 1 {
        Kept(t, Onward(t, r, peers[0].remote, peers[0].envoy, peers[0].forwarded), peers[1..], client);
      }
    }
  }

  // Across any number of trusted services, whatever headers their requests
  // carried, the resolved client stays fixed as long as no service that
  // relays it is itself that client.
  lemma RelayKeepsClient(t: IPTable, r: Request, peers: seq<Peer>)
    requires AddressLiterals(t) && ForwardedClientIP(t, r) != "" && AllTrusted(t, peers)
    requires NoneRelays(TrustedIngressClientIP(t, r), peers)
    ensures TrustedIngressClientIP(t, Relay(t, r, peers)) == TrustedIngressClientIP(t, r)
  {
    ClientIsStable(t, r);
    Kept(t, r, peers, TrustedIngressClientIP(t, r));
  }

  // ---- exactly when ----

  predicate Blank(peers: seq<Peer>) {
    peers != [] ==> peers[0].envoy == [] && peers[0].forwarded == [] && Blank(peers[1..])
  }

  function LastHost(peers: seq<Peer>): string
    requires peers != []
  {
    Host(peers[|peers| - 1])
  }

  lemma {:induction false} Lost(t: IPTable, r: Request, peers: seq<Peer>)
    requires !t.parses("") && ForwardedClientIP(t, r) == "" && peers != [] && Blank(peers)
    ensures TrustedIngressClientIP(t, Relay(t, r, peers)) == LastHost(peers)
    decreases |peers|
  {
    BlankHop(t, r, peers[0].remote);
    if |peers| > 1 {
      Lost(t, Onward(t, r, peers[0].remote, [], []), peers[1..]);
    }
  }

  lemma {:induction false} KeptIff(t: IPTable, r: Request, peers: seq<Peer>, client: string)
    requires Stable(t, client) && ForwardedClientIP(t, r) == client
    requires AllTrusted(t, peers) && Blank(peers) && peers != []
    ensures TrustedIngressClientIP(t, Relay(t, r, peers)) == client
            <==> NoneRelays(client, peers) || LastHost(peers) == client
    decreases |peers|
  {
    var r1 := Onward(t, r, peers[0].remote, peers[0].envoy, peers[0].forwarded);
    Hop(t, r, peers[0], client);
    if |peers| > 1 {
      if Host(peers[0]) == client {
        Lost(t, r1, peers[1..]);
      } else {
        KeptIff(t, r1, peers[1..], client);
      }
    }
  }

  // Among trusted services whose own requests carry no such headers, the
  // client survives if and only if no service that relays it is itself that
  // client, or the last one is.
  lemma RelayKeepsClientIff(t: IPTable, r: Request, peers: seq<Peer>)
    requires AddressLiterals(t) && ForwardedClientIP(t, r) != ""
    requires AllTrusted(t, peers) && Blank(peers) && peers != []
    ensures TrustedIngressClientIP(t, Relay(t, r, peers)) == TrustedIngressClientIP(t, r)
            <==> NoneRelays(TrustedIngressClientIP(t, r), peers) || LastHost(peers) == TrustedIngressClientIP(t, r)
  {
    ClientIsStable(t, r);
    KeptIff(t, r, peers, TrustedIngressClientIP(t, r));
  }

  // A service that is itself the client: it hands the request on without
  // naming anyone, and the next service takes it, not the client, for the
  // origin of the request.
  lemma ClientRelaysItself(t: IPTable, r: Request, first: string, last: string)
    requires AddressLiterals(t) && ForwardedClientIP(t, r) != ""
    requires ClientHost(first) == TrustedIngressClientIP(t, r) != ClientHost(last)
    requires TrustedProxy(t, ClientHost(first)) && TrustedProxy(t, ClientHost(last))
    ensures var peers := [Peer(first, [], []), Peer(last, [], [])];
            TrustedIngressClientIP(t, Relay(t, r, peers)) == ClientHost(last)
  {
    var peers := [Peer(first, [], []), Peer(last, [], [])];
    assert peers[1..] == [Peer(last, [], [])] && peers[1..][1..] == [];
    ClientIsStable(t, r);
    Hop(t, r, peers[0], TrustedIngressClientIP(t, r));
    Lost(t, Onward(t, r, first, [], []), peers[1..]);
  }

  // Such a request and such services exist.
  lemma LostClientExample()
    ensures var t := IPTable(s => s in {"1", "2", "7"}, s => true);
            var r := Request("1", ["7"], []);
            && TrustedIngressClientIP(t, r) == "7"
            && TrustedIngressClientIP(t, Relay(t, r, [Peer("7", [], []), Peer("2", [], [])])) == "2"
  {
    var t := IPTable(s => s in {"1", "2", "7"}, s => true);
    var r := Request("1", ["7"], []);
    assert AddressLiterals(t);
    assert t.parses("1") && t.parses("2") && t.parses("7");
    LiteralIsHost(t, "1");
    LiteralIsHost(t, "2");
    LiteralIsHost(t, "7");
    ClientRelaysItself(t, r, "7", "2");
  }
}
