// host:port strings, as net.SplitHostPort and net.JoinHostPort treat them.
module Addresses {
  import opened Common
  import opened Strings

  datatype HostPort = HostPort(host: string, port: string)

  datatype SplitError = MissingPort | TooManyColons | MissingBracket | UnexpectedBracket

  // net.SplitHostPort: "host:port" or "[host]:port".
  function SplitHostPort(s: string): Result<HostPort, SplitError> {
    var i := LastIndex(s, ':');
    if i < 0 then Err(MissingPort)
    else if s[0] == '[' then
      var end := Index(s, ']');
      if end < 0 then Err(MissingBracket)
      else if end + 1 == |s| then Err(MissingPort)
      else if end + 1 != i then Err(if s[end + 1] == ':' then TooManyColons else MissingPort)
      else if '[' in s[1..] || ']' in s[end + 1..] then Err(UnexpectedBracket)
      else Ok(HostPort(s[1..end], s[i + 1..]))
    else if ':' in s[..i] then Err(TooManyColons)
    else if '[' in s || ']' in s then Err(UnexpectedBracket)
    else Ok(HostPort(s[..i], s[i + 1..]))
  }

  // net.JoinHostPort: a host with a colon is bracketed.
  function JoinHostPort(host: string, port: string): string {
    if ':' in host then "[" + host + "]:" + port else host + ":" + port
  }

  predicate Bare(s: string) {
    '[' !in s && ']' !in s
  }

  // What a successful split yields.
  lemma SplitParts(s: string)
    requires SplitHostPort(s).Ok?
    ensures var hp := SplitHostPort(s).value;
            && Bare(hp.host) && Bare(hp.port) && ':' !in hp.port
            && (s[0] != '[' ==> ':' !in hp.host && s == hp.host + ":" + hp.port)
            && (s[0] == '[' ==> s == "[" + hp.host + "]:" + hp.port)
  {
    var i := LastIndex(s, ':');
    if s[0] == '[' {
      var end := Index(s, ']');
      assert s == [s[0]] + s[1..end] + [s[end]] + [s[end + 1]] + s[end + 2..];
      assert s[i + 1..] == s[end + 1..][1..];
      assert s[1..end] == s[..end][1..];
      forall k | 1 <= k < |s| ensures s[k] != '[' {
        assert s[k] == s[1..][k - 1];
      }
    } else {
      assert s == s[..i] + [s[i]] + s[i + 1..];
    }
  }

  lemma SplitBracketed(host: string, port: string)
    requires Bare(host) && Bare(port) && ':' !in port
    ensures SplitHostPort("[" + host + "]:" + port) == Ok(HostPort(host, port))
  {
    var s := "[" + host + "]:" + port;
    var end := |host| + 1;
    assert s == ("[" + host + "]") + [':'] + port;
    LastIndexOf("[" + host + "]", ':', port);
    assert s == ("[" + host) + [']'] + (":" + port);
    IndexOf("[" + host, ']', ":" + port);
    assert s[1..] == host + "]:" + port;
    assert s[end + 1..] == ":" + port;
    assert s[1..end] == host;
    assert s[end + 2..] == port;
  }

  lemma SplitPlain(host: string, port: string)
    requires Bare(host) && Bare(port) && ':' !in port && ':' !in host
    ensures SplitHostPort(host + ":" + port) == Ok(HostPort(host, port))
  {
    var s := host + ":" + port;
    assert s == host + [':'] + port;
    LastIndexOf(host, ':', port);
    assert s[..|host|] == host;
    assert s[|host| + 1..] == port;
    assert s[0] == if host == [] then ':' else host[0];
  }

  // The string spells host and port: "host:port", or "[host]:port" for any host.
  predicate Spells(s: string, host: string, port: string) {
    && Bare(host) && Bare(port) && ':' !in port
    && (s == "[" + host + "]:" + port || (':' !in host && s == host + ":" + port))
  }

  // A split succeeds on just the strings that spell a pair, and yields it.
  lemma SplitReads(s: string, host: string, port: string)
    ensures Spells(s, host, port) <==> SplitHostPort(s) == Ok(HostPort(host, port))
  {
    if Spells(s, host, port) {
      if s == "[" + host + "]:" + port {
        SplitBracketed(host, port);
      } else {
        SplitPlain(host, port);
      }
    }
    if SplitHostPort(s) == Ok(HostPort(host, port)) {
      SplitParts(s);
    }
  }

  // Why a split fails, for the plain form and the bracketed one.
  lemma SplitRefuses(s: string)
    requires SplitHostPort(s).Err?
    ensures var e, first, last := SplitHostPort(s).error, Index(s, ':'), LastIndex(s, ':');
            && (first < 0 ==> e == MissingPort)
            && (first >= 0 && s[0] != '[' ==>
                e == if first < last then TooManyColons else UnexpectedBracket)
            && (first >= 0 && s[0] == '[' && ']' !in s ==> e == MissingBracket)
            && (first >= 0 && s[0] == '[' && ']' in s ==> e != MissingBracket)
  {
    var i, k := LastIndex(s, ':'), Index(s, ':');
    if i >= 0 && s[0] != '[' {
      assert k < i ==> s[..i][k] == ':';
      assert k == i ==> ':' !in s[..i];
    }
  }

  // Splitting undoes joining, for every pair that a split can produce.
  lemma SplitJoin(host: string, port: string)
    requires Bare(host) && Bare(port) && ':' !in port
    ensures SplitHostPort(JoinHostPort(host, port)) == Ok(HostPort(host, port))
  {
    if ':' in host {
      SplitBracketed(host, port);
    } else {
      SplitPlain(host, port);
    }
  }
}
