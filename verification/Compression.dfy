// gzipResponseWriter (security.go): a buffering writer that decides late
// whether the body is compressed. This module gives its state machine and an
// independent description of what the client receives.
module Compression {
  import opened Common
  import opened Strings
  import opened Writers

  // ---- which bodies are compressed ----

  const CompressibleTypes := {
    "application/json", "application/ld+json", "application/problem+json",
    "application/javascript", "application/xml", "application/xhtml+xml"
  }

  predicate Compressible(ct: ContentType) {
    match ct
    case Unset => true
    case Unparseable => false
    case Media(m) =>
      var media := Lower(m);
      media != "text/event-stream" && ("text/" <= media || media in CompressibleTypes)
  }

  // ---- the writer ----

  // The gzip.Writer field: nil, in use, or closed.
  datatype Stream = NoStream | Open | Finished

  datatype Gzip = Gzip(
    minSize: int,
    levelOk: bool, // gzip.NewWriterLevel accepts the configured level
    buf: bytes,
    status: int, // 0 until the handler chooses one
    committed: bool,
    gzipping: bool,
    passthrough: bool,
    stream: Stream,
    inner: Chain)

  function New(minSize: int, levelOk: bool, inner: Chain): Gzip {
    Gzip(minSize, levelOk, [], 0, false, false, false, NoStream, inner)
  }

  function OrOK(status: int): int {
    if status == 0 then StatusOK else status
  }

  function Live(g: Gzip): Header {
    Bottom(g.inner).header
  }

  function CommitUncompressed(g: Gzip): Gzip {
    if g.committed then g else
    var sent := Step(g.inner, WriteHeader(OrOK(g.status)));
    g.(status := OrOK(g.status), committed := true, buf := [],
       inner := if g.buf == [] then sent else Step(sent, Write(g.buf)))
  }

  function GzipHeader(h: Header): Header {
    h.(length := None, encoding := "gzip", vary := h.vary + ["Accept-Encoding"])
  }

  function StartGzip(g: Gzip): Gzip {
    if g.committed then g else
    var labelled := Step(g.inner, SetHeader(GzipHeader(Live(g))));
    var sent := Step(labelled, WriteHeader(OrOK(g.status)));
    var g1 := g.(status := OrOK(g.status), committed := true, gzipping := true, inner := sent);
    if !g.levelOk then g1
    else g1.(stream := Open, buf := [], inner := Step(sent, Deflate(g.buf)))
  }

  // Whether the writer below has a Hijack method; a recorder always does.
  predicate Hijackable(c: Chain) {
    c.Recorder? || c.response.hijacker
  }

  function GzipWrite(g: Gzip, p: bytes): Gzip {
    if g.passthrough || !Compressible(Live(g).ctype) then
      var g1 := CommitUncompressed(g.(passthrough := true));
      g1.(inner := Step(g1.inner, Write(p)))
    else if g.gzipping then
      // Without an open stream the call fails and nothing is sent.
      if g.stream == Open then g.(inner := Step(g.inner, Deflate(p))) else g
    else
      var g1 := g.(buf := g.buf + p);
      if |g1.buf| < g.minSize then g1 else StartGzip(g1)
  }

  function GzipFlush(g: Gzip): Gzip {
    var g1 := if g.stream == NoStream && !g.committed then CommitUncompressed(g.(passthrough := true)) else g;
    g1.(inner := Step(g1.inner, Flush))
  }

  function GzipHijack(g: Gzip): Gzip {
    if !Hijackable(g.inner) then g else
    var g1 :=
      match g.stream
      case Open => g.(stream := NoStream, inner := Step(g.inner, EndGzip))
      case Finished => g.(stream := NoStream)
      case NoStream => CommitUncompressed(g);
    g1.(inner := Step(g1.inner, Hijack))
  }

  function GzipStep(g: Gzip, op: HandlerOp): Gzip {
    match op
    case SetHeader(h) => g.(inner := Step(g.inner, op))
    case WriteHeader(c) =>
      if g.committed then g
      else if Compressible(Live(g).ctype) then g.(status := c)
      else CommitUncompressed(g.(status := c, passthrough := true))
    case Write(p) => GzipWrite(g, p)
    case Flush => GzipFlush(g)
    case Hijack => GzipHijack(g)
  }

  function Close(g: Gzip): Gzip {
    match g.stream
    case Open => g.(stream := Finished, inner := Step(g.inner, EndGzip))
    case Finished => g
    case NoStream => CommitUncompressed(g)
  }

  // A write meant for a gzip.Writer that is not there: the call panics.
  predicate Panics(g: Gzip, op: HandlerOp) {
    op.Write? && !g.passthrough && Compressible(Live(g).ctype) && g.gzipping && g.stream == NoStream
  }

  // A handler's calls, to the end or to the one that panics.
  function GzipRun(g: Gzip, ops: seq<HandlerOp>): Gzip
    decreases |ops|
  {
    if ops == [] || Panics(g, ops[0]) then g else GzipRun(GzipStep(g, ops[0]), ops[1..])
  }

  // A whole response: the handler's calls, the deferred Close, and what
  // net/http adds.
  function Respond(g: Gzip, ops: seq<HandlerOp>): seq<Event> {
    Finish(Bottom(Close(GzipRun(g, ops)).inner)).wire
  }

  // ---- what the client makes of the wire ----

  // The body bytes carried by events, compressed or not.
  function Content(events: seq<Event>): bytes {
    if events == [] then [] else
    var last := events[|events| - 1];
    Content(events[..|events| - 1]) + if last.Raw? || last.Deflated? then last.data else []
  }

  predicate AllRaw(events: seq<Event>) {
    forall i | 0 <= i < |events| :: events[i].Raw?
  }

  predicate AllDeflated(events: seq<Event>) {
    forall i | 0 <= i < |events| :: events[i].Deflated?
  }

  datatype Received = Garbled | Received(coding: string, body: bytes)

  // Decoding by the committed Content-Encoding (section 8.4 of RFC 9110): a
  // gzip body must be one complete gzip stream with nothing in or after it,
  // and must not declare a length, which could only be that of the plain bytes.
  // A body of plain bytes is in whatever coding the header names.
  function Receive(wire: seq<Event>): Received {
    if wire == [] || !wire[0].Head? then Garbled else
    var h, body := wire[0].header, wire[1..];
    if AllRaw(body) then Received(h.encoding, Content(body))
    else if h.encoding == "gzip" && h.length.None? && body[|body| - 1].GzipEnd? && AllDeflated(body[..|body| - 1]) then
      Received("", Content(body))
    else Garbled
  }

  // ---- what the handler meant, read off the trace ----

  function LastHeader(h: Header, ops: seq<Op>): Header
    decreases |ops|
  {
    if ops == [] then h
    else LastHeader(if ops[0].SetHeader? then ops[0].header else h, ops[1..])
  }

  function DataOf(op: Op): bytes {
    if op.Write? then op.data else []
  }

  function Payload(ops: seq<Op>): bytes {
    if ops == [] then [] else DataOf(ops[0]) + Payload(ops[1..])
  }

  predicate NoWrites(ops: seq<Op>) {
    forall i | 0 <= i < |ops| :: !ops[i].Write?
  }

  predicate NoHijack(ops: seq<Op>) {
    forall i | 0 <= i < |ops| :: !ops[i].Hijack?
  }

  // The call that settles a response: a write, a status under a type that is
  // not compressible, a flush, a hijack, or the handler's return.
  datatype Cause = ByBytes | ByStatus | ByFlush | ByHijack | ByReturn

  // Where and how a trace settles the response: the status and header in
  // force, whether the body is compressed, by what, the bytes written so far,
  // and what follows.
  datatype Decision =
    Decision(status: int, header: Header, gzip: bool, cause: Cause, held: bytes, rest: seq<HandlerOp>)

  // `claims` is whether the writer below has a Hijack method.
  function Decide(minSize: int, claims: bool, h: Header, held: bytes, status: int, ops: seq<HandlerOp>): Decision
    decreases |ops|
  {
    if ops == [] then Decision(OrOK(status), h, false, ByReturn, held, [])
    else
      match ops[0]
      case SetHeader(h1) => Decide(minSize, claims, h1, held, status, ops[1..])
      case WriteHeader(c) =>
        if Compressible(h.ctype) then Decide(minSize, claims, h, held, c, ops[1..])
        else Decision(OrOK(c), h, false, ByStatus, held, ops[1..])
      case Write(p) =>
        if !Compressible(h.ctype) then Decision(OrOK(status), h, false, ByBytes, held + p, ops[1..])
        else if |held| + |p| < minSize then Decide(minSize, claims, h, held + p, status, ops[1..])
        else Decision(OrOK(status), h, true, ByBytes, held + p, ops[1..])
      case Flush => Decision(OrOK(status), h, false, ByFlush, held, ops[1..])
      case Hijack =>
        if claims then Decision(OrOK(status), h, false, ByHijack, held, ops[1..])
        else Decide(minSize, claims, h, held, status, ops[1..])
  }

  // How the writer treats the bytes of a settled response: sends them as they
  // are; buffers compressible ones for good, after a hijack that was refused;
  // compresses them; has no gzip.Writer to compress them with; or has given
  // the connection away.
  datatype Mode = Through | Swallowing | Streaming | Broken | Gone

  function ModeOf(levelOk: bool, grants: bool, d: Decision): Mode {
    if d.gzip then if levelOk then Streaming else Broken
    else if d.cause == ByHijack then if grants then Gone else Swallowing
    else Through
  }

  // The bytes sent uncompressed after the response is settled. A write under
  // a type that is not compressible makes all later ones go through; a write
  // without a gzip.Writer ends the handler; a hijack ends the gzip stream, and
  // the response if it is granted.
  function Strays(claims: bool, grants: bool, mode: Mode, h: Header, ops: seq<HandlerOp>): bytes
    decreases |ops|
  {
    if ops == [] || mode.Gone? then []
    else
      match ops[0]
      case SetHeader(h1) => Strays(claims, grants, mode, h1, ops[1..])
      case Write(p) =>
        if mode.Through? || !Compressible(h.ctype) then p + Strays(claims, grants, Through, h, ops[1..])
        else if mode.Broken? then []
        else Strays(claims, grants, mode, h, ops[1..])
      case WriteHeader(_) => Strays(claims, grants, mode, h, ops[1..])
      case Flush => Strays(claims, grants, mode, h, ops[1..])
      case Hijack =>
        if !claims then Strays(claims, grants, mode, h, ops[1..])
        else if grants then []
        else Strays(claims, grants, if mode.Streaming? then Broken else mode, h, ops[1..])
  }

  // The calls ahead of the first hijack, when hijacks matter.
  function Ahead(claims: bool, ops: seq<HandlerOp>): seq<HandlerOp> {
    if ops == [] || (claims && ops[0].Hijack?) then [] else [ops[0]] + Ahead(claims, ops[1..])
  }

  // ---- the header ----

  // The response was settled with an informational status and nothing to
  // send, so its header is still to come.
  predicate Hints(levelOk: bool, d: Decision) {
    Informational(d.status) && if d.gzip then !levelOk else d.held == [] && d.cause != ByBytes && d.cause != ByFlush
  }

  // The header in force when it comes, with the first byte or flush, or at
  // the end; none if the connection is given away before that.
  function HeaderThen(claims: bool, grants: bool, mode: Mode, h: Header, ops: seq<HandlerOp>): Option<Header>
    decreases |ops|
  {
    if mode.Gone? then None
    else if ops == [] then Some(h)
    else
      match ops[0]
      case SetHeader(h1) => HeaderThen(claims, grants, mode, h1, ops[1..])
      case Write(p) =>
        if mode.Swallowing? && Compressible(h.ctype) then HeaderThen(claims, grants, mode, h, ops[1..]) else Some(h)
      case WriteHeader(_) => HeaderThen(claims, grants, mode, h, ops[1..])
      case Flush => Some(h)
      case Hijack => if claims && grants then None else HeaderThen(claims, grants, mode, h, ops[1..])
  }

  function Labelled(d: Decision): Header {
    if d.gzip then GzipHeader(d.header) else d.header
  }

  function HeaderOf(levelOk: bool, claims: bool, grants: bool, d: Decision): Option<Header> {
    if Hints(levelOk, d) then HeaderThen(claims, grants, ModeOf(levelOk, grants, d), Labelled(d), d.rest)
    else Some(Labelled(d))
  }

  // What the client makes of a settled response under header h.
  function Outcome(levelOk: bool, claims: bool, grants: bool, d: Decision, h: Header): Received {
    var strays := Strays(claims, grants, ModeOf(levelOk, grants, d), d.header, d.rest);
    if !d.gzip then Received(h.encoding, d.held + strays)
    else if !levelOk then Received(h.encoding, strays)
    else if strays != [] then Garbled
    else Received("", d.held + Payload(Ahead(claims, d.rest)))
  }

  // One header, the decided one, ahead of the body; or nothing at all.
  predicate Delivers(levelOk: bool, claims: bool, grants: bool, d: Decision, wire: seq<Event>) {
    match HeaderOf(levelOk, claims, grants, d)
    case None => wire == []
    case Some(h) =>
      && OneHead(wire) && wire[0] == Head(Final(d.status), h)
      && Receive(wire) == Outcome(levelOk, claims, grants, d, h)
  }

  // Compression, at a level gzip accepts, does no harm to the decided
  // response: a header goes out; when it compresses, the handler named no
  // coding, no byte goes around the gzip stream, and none comes after a
  // hijack; when it does not, every byte goes through.
  predicate Harmless(claims: bool, grants: bool, d: Decision) {
    var strays := Strays(claims, grants, ModeOf(true, grants, d), d.header, d.rest);
    && HeaderOf(true, claims, grants, d).Some?
    && if d.gzip then
         d.header.encoding == "" && strays == [] && Payload(Ahead(claims, d.rest)) == Payload(d.rest)
       else strays == Payload(d.rest)
  }

  // The coding the handler named for the decided response.
  function Coding(claims: bool, grants: bool, d: Decision): string {
    if d.gzip then d.header.encoding
    else
      var h := HeaderOf(true, claims, grants, d);
      if h.Some? then h.value.encoding else ""
  }

  // ---- which requests are compressed at all ----

  predicate Contains(s: string, part: string) {
    exists i {:trigger s[i..]} :: 0 <= i <= |s| && part <= s[i..]
  }

  // What the middleware reads off a request.
  datatype Asked = Asked(acceptEncoding: string, upgrade: string)

  predicate Engages(asked: Asked, h: Header) {
    && Contains(asked.acceptEncoding, "gzip")
    && h.encoding == ""
    && Lower(asked.upgrade) != "websocket"
  }
}
