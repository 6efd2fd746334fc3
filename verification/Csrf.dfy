// CSRF protection (security.go) as a protocol between one browser and the
// server.
module Csrf {
  import opened Common
  import opened Strings

  datatype Mode = Synchronizer | DoubleSubmit | OriginOnly

  datatype Config = Config(mode: Mode, secure: bool, trusted: seq<string>, exposeToken: bool)

  // An Origin or Referer header as url.Parse sees it.
  datatype Source = Absent | Unparseable | Url(https: bool, host: string)

  datatype Method = Get | Head | Options | Post | Put | Patch | OtherMethod

  // Methods that are not checked, and those whose form net/http reads.
  predicate Safe(m: Method) {
    m.Get? || m.Head? || m.Options?
  }

  predicate HasForm(m: Method) {
    m.Post? || m.Put? || m.Patch?
  }

  // A request body as its content type names it, with the token field, "" if
  // there is none.
  datatype Form = NoForm | UrlEncoded(token: string) | Multipart(token: string)

  datatype Request = Request(
    verb: Method,
    origin: Source,
    referer: Source,
    host: string,
    cookie: Option<string>,
    header: string, // the token header, "" if absent
    form: Form)

  datatype Rejection = Internal | OriginFailed | TokenMissing | TokenMismatch

  // What the middleware does with a request: the inner handler runs with a
  // context token, or the request is rejected; a cookie may be set.
  datatype Verdict =
    | Reached(token: string, setCookie: Option<string>, exposed: Option<string>)
    | Rejected(code: Rejection)

  // ---- origins ----

  predicate HostAllowed(got: string, requestHost: string, trusted: seq<string>) {
    if trusted == [] then Lower(got) == Lower(requestHost)
    else exists i :: 0 <= i < |trusted| && Lower(got) == Lower(trusted[i])
  }

  lemma HostAllowedIs(got: string, requestHost: string, trusted: seq<string>)
    ensures HostAllowed(got, requestHost, trusted) <==>
              if |trusted| == 0 then EqualFold(got, requestHost)
              else exists i :: 0 <= i < |trusted| && EqualFold(got, trusted[i])
  {
    LowerIsFold(got, requestHost);
    forall i | 0 <= i < |trusted| ensures Lower(got) == Lower(trusted[i]) <==> EqualFold(got, trusted[i]) {
      LowerIsFold(got, trusted[i]);
    }
  }

  method OriginHostAllowed(got: string, requestHost: string, trusted: seq<string>) returns (ok: bool)
    ensures ok <==> HostAllowed(got, requestHost, trusted)
    ensures ok <==> if |trusted| == 0 then EqualFold(got, requestHost)
                    else exists i :: 0 <= i < |trusted| && EqualFold(got, trusted[i])
  {
    HostAllowedIs(got, requestHost, trusted);
    if |trusted| == 0 {
      return Lower(got) == Lower(requestHost);
    }
    var i := 0;
    while i < |trusted|
      invariant 0 <= i <= |trusted|
      invariant forall j | 0 <= j < i :: Lower(got) != Lower(trusted[j])
    {
      if Lower(got) == Lower(trusted[i]) {
        return true;
      }
      i := i + 1;
    }
    ok := false;
  }

  predicate SourceAllowed(s: Source, cfg: Config, host: string) {
    s.Url? && (cfg.secure ==> s.https) && HostAllowed(s.host, host, cfg.trusted)
  }

  // Origin decides; Referer only when there is no Origin; neither fails.
  predicate OriginAllowed(cfg: Config, r: Request) {
    if r.origin != Absent then SourceAllowed(r.origin, cfg, r.host)
    else SourceAllowed(r.referer, cfg, r.host)
  }

  // The request comes from a page of an allowed host: its Origin, or in the
  // absence of one its Referer, is a URL, over https if cookies are secure,
  // and its host is, but for case, in the allowlist, or, when that is empty,
  // the host the request is for.
  predicate FromAllowedPage(cfg: Config, r: Request) {
    var page := if r.origin.Absent? then r.referer else r.origin;
    && page.Url? && (cfg.secure ==> page.https)
    && if |cfg.trusted| == 0 then EqualFold(page.host, r.host)
       else exists i :: 0 <= i < |cfg.trusted| && EqualFold(page.host, cfg.trusted[i])
  }

  lemma OriginAllowedIs(cfg: Config, r: Request)
    ensures OriginAllowed(cfg, r) <==> FromAllowedPage(cfg, r)
  {
    if r.origin.Url? {
      HostAllowedIs(r.origin.host, r.host, cfg.trusted);
    }
    if r.referer.Url? {
      HostAllowedIs(r.referer.host, r.host, cfg.trusted);
    }
  }

  // ---- tokens ----

  // Where a client can put its token.
  function Placed(r: Request): string {
    if r.header != "" then r.header
    else if r.form.NoForm? then ""
    else r.form.token
  }

  // The part of that the server finds. It parses the form before it asks for
  // the field, which leaves a multipart body unread, as it does every body of
  // a method without a form.
  function Submitted(r: Request): string {
    if r.header != "" then r.header
    else if r.form.UrlEncoded? && HasForm(r.verb) then r.form.token
    else ""
  }

  predicate Readable(r: Request) {
    r.header != "" || (r.form.UrlEncoded? && HasForm(r.verb))
  }

  method SubmittedCSRFToken(r: Request) returns (token: string)
    ensures token == if Readable(r) then Placed(r) else ""
    ensures token == Submitted(r)
  {
    if r.header != "" {
      return r.header;
    }
    if r.form.NoForm? {
      return "";
    }
    var parsed: map<string, string> := map[]; // PostForm after ParseForm, by field
    if HasForm(r.verb) && r.form.UrlEncoded? {
      parsed := parsed["field" := r.form.token];
    }
    token := if "field" in parsed then parsed["field"] else "";
  }

  // One exchange. `random` is what the token generator would yield now, None
  // when it fails; a configured length above zero makes it non-empty.
  function Handle(cfg: Config, r: Request, random: Option<string>): Verdict {
    if Safe(r.verb) then
      if cfg.mode == OriginOnly then Reached("", None, None)
      else if r.cookie.Some? && r.cookie.value != "" then
        Reached(r.cookie.value, None, Expose(cfg, r, r.cookie.value))
      else if random.None? then Rejected(Internal)
      else Reached(random.value, random, Expose(cfg, r, random.value))
    else if !OriginAllowed(cfg, r) then Rejected(OriginFailed)
    else if cfg.mode == OriginOnly then Reached("", None, None)
    else if r.cookie.None? || Submitted(r) == "" then Rejected(TokenMissing)
    else if r.cookie.value != Submitted(r) then Rejected(TokenMismatch)
    else Reached(r.cookie.value, None, None)
  }

  function Expose(cfg: Config, r: Request, token: string): Option<string> {
    if cfg.exposeToken && (r.verb == Get || r.verb == Head) then Some(token) else None
  }

  // The cookie the inner handler finds on its request: a minting exchange adds
  // one when the browser sent none at all.
  function InnerCookie(cfg: Config, r: Request, token: string): Option<string> {
    if Safe(r.verb) && cfg.mode != OriginOnly && r.cookie.None? then Some(token) else r.cookie
  }

  // The middleware's view of one exchange, filled in step by step.
  class Exchange {
    const request: Request
    var cookie: Option<string> // on the request as the inner handler sees it
    var setCookie: Option<string>
    var exposed: Option<string>

    constructor (request: Request)
      ensures this.request == request && cookie == request.cookie && setCookie == None && exposed == None
    {
      this.request, cookie, setCookie, exposed := request, request.cookie, None, None;
    }

    // csrfEnsureToken
    method EnsureToken(random: Option<string>) returns (token: Option<string>)
      modifies this`setCookie
      ensures request.cookie.Some? && request.cookie.value != "" ==>
                token == request.cookie && setCookie == old(setCookie)
      ensures request.cookie.None? || request.cookie.value == "" ==>
                token == random && setCookie == if random.Some? then random else old(setCookie)
    {
      if request.cookie.Some? && request.cookie.value != "" {
        return request.cookie;
      }
      if random.None? {
        return None;
      }
      setCookie := random;
      token := random;
    }

    method Serve(cfg: Config, random: Option<string>) returns (v: Verdict)
      requires cookie == request.cookie && setCookie == None && exposed == None
      modifies this
      ensures v == Handle(cfg, request, random)
      ensures v.Reached? ==>
                setCookie == v.setCookie && exposed == v.exposed && cookie == InnerCookie(cfg, request, v.token)
    {
      if request.verb == Get || request.verb == Head || request.verb == Options {
        if cfg.mode == OriginOnly {
          return Reached("", None, None);
        }
        var token := EnsureToken(random);
        if token.None? {
          return Rejected(Internal);
        }
        if cfg.exposeToken && (request.verb == Get || request.verb == Head) {
          exposed := token;
        }
        if request.cookie.None? {
          cookie := token;
        }
        return Reached(token.value, setCookie, exposed);
      }
      var allowed := ValidateOrigin(cfg, request);
      if !allowed {
        return Rejected(OriginFailed);
      }
      if cfg.mode == OriginOnly {
        return Reached("", None, None);
      }
      if request.cookie.None? {
        return Rejected(TokenMissing);
      }
      var submitted := SubmittedCSRFToken(request);
      if submitted == "" {
        return Rejected(TokenMissing);
      }
      if request.cookie.value != submitted {
        return Rejected(TokenMismatch);
      }
      v := Reached(request.cookie.value, None, None);
    }
  }

  // Cookie and context token agree in every handler that is reached, except
  // when the browser sent an empty cookie: a token is minted and put in the
  // context, and the empty cookie stays on the request.
  lemma InnerCookieIsToken(cfg: Config, r: Request, random: Option<string>)
    requires cfg.mode != OriginOnly && Handle(cfg, r, random).Reached? && (random.Some? ==> random.value != "")
    ensures var token := Handle(cfg, r, random).token;
            && token != ""
            && (InnerCookie(cfg, r, token) == Some(token) <==> r.cookie != Some(""))
  {
  }

  method ValidateOrigin(cfg: Config, r: Request) returns (ok: bool)
    ensures ok <==> OriginAllowed(cfg, r)
    ensures ok <==> FromAllowedPage(cfg, r)
  {
    OriginAllowedIs(cfg, r);
    var s := if r.origin != Absent then r.origin else r.referer;
    if !s.Url? || (cfg.secure && !s.https) {
      return false;
    }
    ok := OriginHostAllowed(s.host, r.host, cfg.trusted);
  }

  // ---- one browser, any sequence of requests ----

  // A visit is a request without its cookie, which the browser supplies.
  datatype Visit = Visit(request: Request, random: Option<string>)

  // The browser's cookie, the tokens its pages were given by CSRFTokenFrom,
  // and how often the server minted one.
  datatype Session = Session(jar: Option<string>, known: set<string>, minted: nat)

  function Send(s: Session, v: Visit): Request {
    v.request.(cookie := s.jar)
  }

  function Browse(cfg: Config, s: Session, v: Visit): Session {
    match Handle(cfg, Send(s, v), v.random)
    case Rejected(_) => s
    case Reached(token, setCookie, _) =>
      Session(
        if setCookie.Some? then setCookie else s.jar,
        s.known + {token},
        s.minted + if setCookie.Some? then 1 else 0)
  }

  function BrowseAll(cfg: Config, s: Session, visits: seq<Visit>): Session
    decreases |visits|
  {
    if visits == [] then s else BrowseAll(cfg, Browse(cfg, s, visits[0]), visits[1..])
  }

  predicate Generates(visits: seq<Visit>) {
    forall i | 0 <= i < |visits| :: visits[i].random.Some? ==> visits[i].random.value != ""
  }

  // At most one token is minted, and once there is one the jar holds it and
  // every page was given just that.
  predicate Stable(s: Session) {
    && s.minted <= 1
    && (s.minted == 1 ==> s.jar.Some? && s.jar.value != "")
    && (forall token | token in s.known :: s.jar == Some(token) && token != "")
  }

  lemma BrowseStaysStable(cfg: Config, s: Session, v: Visit)
    requires cfg.mode != OriginOnly && Stable(s) && (v.random.Some? ==> v.random.value != "")
    ensures Stable(Browse(cfg, s, v))
    ensures s.known != {} ==> Browse(cfg, s, v).jar == s.jar
  {
    if s.known != {} {
      var token :| token in s.known;
      assert s.jar == Some(token);
    }
  }

  // Session stability, for every sequence of requests from a browser whose
  // pages know no token yet, whatever is in its jar.
  lemma {:induction false} SessionIsStable(cfg: Config, s: Session, visits: seq<Visit>)
    requires cfg.mode != OriginOnly && Stable(s) && Generates(visits)
    ensures Stable(BrowseAll(cfg, s, visits))
    ensures s.known != {} ==> BrowseAll(cfg, s, visits).jar == s.jar
    decreases |visits|
  {
    if visits != [] {
      var s1 := Browse(cfg, s, visits[0]);
      BrowseStaysStable(cfg, s, visits[0]);
      assert s.known <= s1.known;
      SessionIsStable(cfg, s1, visits[1..]);
    }
  }

  // In every handler the middleware lets through, CSRFTokenFrom is the cookie
  // the browser holds afterwards.
  lemma ContextTokenIsCookie(cfg: Config, jar: Option<string>, visits: seq<Visit>, v: Visit)
    requires cfg.mode != OriginOnly && Generates(visits) && (v.random.Some? ==> v.random.value != "")
    ensures var s := BrowseAll(cfg, Session(jar, {}, 0), visits);
            var verdict := Handle(cfg, Send(s, v), v.random);
            verdict.Reached? ==> Browse(cfg, s, v).jar == Some(verdict.token) && verdict.token != ""
                                 && Browse(cfg, s, v).minted <= 1
  {
    SessionIsStable(cfg, Session(jar, {}, 0), visits);
    var s := BrowseAll(cfg, Session(jar, {}, 0), visits);
    BrowseStaysStable(cfg, s, v);
    if Handle(cfg, Send(s, v), v.random).Reached? {
      assert Handle(cfg, Send(s, v), v.random).token in Browse(cfg, s, v).known;
    }
  }

  // An unsafe request that carries, in its header or form, a token some page
  // was given, however long ago, is accepted exactly when its Origin is
  // allowed and the server reads the place where the token is.
  lemma EchoIsAccepted(cfg: Config, jar: Option<string>, visits: seq<Visit>, v: Visit)
    requires cfg.mode != OriginOnly && Generates(visits) && !Safe(v.request.verb)
    requires Placed(v.request) in BrowseAll(cfg, Session(jar, {}, 0), visits).known
    ensures var s := BrowseAll(cfg, Session(jar, {}, 0), visits);
            Handle(cfg, Send(s, v), v.random).Reached? <==> OriginAllowed(cfg, v.request) && Readable(v.request)
  {
    SessionIsStable(cfg, Session(jar, {}, 0), visits);
    var s := BrowseAll(cfg, Session(jar, {}, 0), visits);
    assert Submitted(Send(s, v)) == Submitted(v.request);
    assert s.jar == Some(Placed(v.request)) && Placed(v.request) != "";
  }

  // A multipart form with the right token and an allowed origin is turned
  // away, and so is a form that is sent with DELETE.
  lemma MultipartEchoIsRejected(cfg: Config, r: Request, token: string, random: Option<string>)
    requires cfg.mode != OriginOnly && !Safe(r.verb) && OriginAllowed(cfg, r)
    requires r.cookie == Some(token) && r.header == ""
    requires r.form == Multipart(token) || (r.form == UrlEncoded(token) && r.verb == OtherMethod)
    ensures Handle(cfg, r, random) == Rejected(TokenMissing)
  {
  }

  // What an unsafe request must bring: an allowed origin and, in the token
  // modes, a non-empty token in a header or form field equal to its cookie.
  lemma UnsafeReaches(cfg: Config, r: Request, random: Option<string>)
    requires !Safe(r.verb)
    ensures Handle(cfg, r, random).Reached? <==>
              && OriginAllowed(cfg, r)
              && (cfg.mode != OriginOnly ==> Submitted(r) != "" && r.cookie == Some(Submitted(r)))
    ensures Handle(cfg, r, random).Reached? ==> Handle(cfg, r, random).setCookie.None?
  {
  }

  // ---- which requests are rejected, and as what ----

  // Everything but GET, HEAD and OPTIONS is checked.
  predicate Checked(r: Request) {
    r.verb == Post || r.verb == Put || r.verb == Patch || r.verb == OtherMethod
  }

  // The token header, or the field of a URL-encoded form that a POST, PUT or
  // PATCH carries; "" if there is neither.
  function TokenSent(r: Request): string {
    if r.header != "" then r.header
    else if r.form.UrlEncoded? && (r.verb == Post || r.verb == Put || r.verb == Patch) then r.form.token
    else ""
  }

  // Each rejection, in every mode, exactly when. In particular a request that
  // is checked and has neither Origin nor Referer is rejected, and so is one
  // whose Origin is foreign, whatever its Referer and its token.
  lemma RejectionTells(cfg: Config, r: Request, random: Option<string>)
    ensures var v, token := Handle(cfg, r, random), TokenSent(r);
            var pageOk, tokens := FromAllowedPage(cfg, r), cfg.mode != OriginOnly;
            && (v == Rejected(OriginFailed) <==> Checked(r) && !pageOk)
            && (v == Rejected(TokenMissing) <==> Checked(r) && pageOk && tokens && (r.cookie.None? || token == ""))
            && (v == Rejected(TokenMismatch) <==>
                Checked(r) && pageOk && tokens && r.cookie.Some? && token != "" && token != r.cookie.value)
            && (v == Rejected(Internal) <==>
                !Checked(r) && tokens && (r.cookie.None? || r.cookie.value == "") && random.None?)
  {
    OriginAllowedIs(cfg, r);
  }

  // A cookie is set exactly when a request that is not checked brings none, or
  // an empty one, in a token mode; and the token is shown in the header exactly
  // to GET and HEAD, when configured, and never without such a mode.
  lemma WhatIsHandedOut(cfg: Config, r: Request, random: Option<string>)
    requires Handle(cfg, r, random).Reached?
    ensures var v, tokens := Handle(cfg, r, random), cfg.mode != OriginOnly;
            && (v.setCookie.Some? <==> !Checked(r) && tokens && (r.cookie.None? || r.cookie.value == ""))
            && (v.setCookie.Some? ==> v.setCookie == random == Some(v.token))
            && (v.setCookie.None? && tokens ==> r.cookie == Some(v.token))
            && (v.exposed.Some? <==> cfg.exposeToken && tokens && (r.verb == Get || r.verb == Head))
            && (v.exposed.Some? ==> v.exposed == Some(v.token))
            && (!tokens ==> v.token == "")
  {
    OriginAllowedIs(cfg, r);
  }

  // An Origin, allowed or not, leaves the Referer without a say.
  lemma OriginOutranksReferer(cfg: Config, r: Request, referer: Source, random: Option<string>)
    requires !r.origin.Absent?
    ensures Handle(cfg, r.(referer := referer), random) == Handle(cfg, r, random)
  {
    assert OriginAllowed(cfg, r.(referer := referer)) == OriginAllowed(cfg, r);
  }

  // With an allowlist the Host header, which a client can choose, is ignored.
  lemma AllowlistIgnoresHost(cfg: Config, r: Request, host: string, random: Option<string>)
    requires cfg.trusted != []
    ensures Handle(cfg, r.(host := host), random) == Handle(cfg, r, random)
  {
    assert OriginAllowed(cfg, r.(host := host)) == OriginAllowed(cfg, r);
  }
}
