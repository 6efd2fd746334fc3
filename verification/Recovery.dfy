// Compression together with Recover (middleware.go): what a panicking handler
// leaves on the wire depends on which of the two is outermost.
module Recovery {
  import opened Common
  import opened Writers
  import opened Compression
  import opened Transparency
  import opened Silence
  import Settling
  import WriterObjects

  // ---- a recorder above the compressor ----

  // The recorder drops repeated statuses and nothing else.
  lemma {:induction false} HeardKeeps(committed: bool, ops: seq<HandlerOp>)
    requires NoHijack(ops)
    ensures Payload(Heard(committed, ops)) == Payload(ops) && NoHijack(Heard(committed, ops))
    decreases |ops|
  {
    if ops != [] {
      var committed1 := committed || Commits(ops[0]);
      var rest := Heard(committed1, ops[1..]);
      HeardKeeps(committed1, ops[1..]);
      assert ([ops[0]] + rest)[1..] == rest;
      assert [] + Payload(ops[1..]) == Payload(ops[1..]);
    }
  }

  predicate NoStatus(ops: seq<Op>) {
    forall i | 0 <= i < |ops| :: !ops[i].WriteHeader?
  }

  lemma {:induction false} HeardNoStatus(ops: seq<HandlerOp>)
    ensures NoStatus(Heard(true, ops))
    decreases |ops|
  {
    if ops != [] {
      HeardNoStatus(ops[1..]);
    }
  }

  lemma {:induction false} StatusStands(
    minSize: int, claims: bool, h: Header, held: bytes, status: int, ops: seq<HandlerOp>)
    requires NoStatus(ops)
    ensures Decide(minSize, claims, h, held, status, ops).status == OrOK(status)
    decreases |ops|
  {
    if ops != [] {
      var op := ops[0];
      assert held + [] == held;
      StatusStands(minSize, claims, if op.SetHeader? then op.header else h, held + DataOf(op), status, ops[1..]);
    }
  }

  // The status that a handler behind a recorder, over a compressor, gets: its
  // first, unless it wrote or flushed before; 200 for an informational one.
  function RecordedStatus(ops: seq<Op>): int {
    if ops == [] then StatusOK
    else
      match ops[0]
      case WriteHeader(c) => Final(OrOK(c))
      case Write(_) => StatusOK
      case Flush => StatusOK
      case _ => RecordedStatus(ops[1..])
  }

  // Once the recorder has committed, no later status gets through it, so the
  // pending status of the compressor can no longer change.
  lemma {:induction false} StatusBehindRecorder(
    minSize: int, claims: bool, h: Header, ops: seq<HandlerOp>)
    requires NoHijack(ops)
    ensures Final(Decide(minSize, claims, h, [], 0, Heard(false, ops)).status) == RecordedStatus(ops)
    decreases |ops|
  {
    if ops != [] {
      var op, rest := ops[0], Heard(Commits(ops[0]), ops[1..]);
      assert ([op] + rest)[1..] == rest;
      HeardNoStatus(ops[1..]);
      match op
      case SetHeader(h1) => StatusBehindRecorder(minSize, claims, h1, ops[1..]);
      case WriteHeader(c) => StatusStands(minSize, claims, h, [], c, rest);
      case Write(p) => StatusStands(minSize, claims, h, [] + p, 0, rest);
      case Flush =>
    }
  }

  // ---- against a server without compression ----

  predicate NamesNoCoding(ops: seq<Op>) {
    forall i | 0 <= i < |ops| :: ops[i].SetHeader? ==> ops[i].header.encoding == ""
  }

  // net/http panics on a status below 100.
  predicate ValidStatuses(ops: seq<Op>) {
    forall i | 0 <= i < |ops| :: ops[i].WriteHeader? ==> ops[i].status >= 100
  }

  // The status a plain net/http server sends: the first final one, unless the
  // handler wrote or flushed before.
  function PlainStatus(ops: seq<Op>): int {
    if ops == [] then StatusOK
    else
      match ops[0]
      case WriteHeader(c) => if Informational(c) then PlainStatus(ops[1..]) else c
      case Write(_) => StatusOK
      case Flush => StatusOK
      case _ => PlainStatus(ops[1..])
  }

  // After an informational status the handler chooses another than 200.
  predicate HintThenOther(ops: seq<Op>, hinted: bool) {
    ops != [] &&
    match ops[0]
    case WriteHeader(c) =>
      if Informational(c) then HintThenOther(ops[1..], true) else hinted && c != StatusOK
    case Write(_) => false
    case Flush => false
    case _ => HintThenOther(ops[1..], hinted)
  }

  lemma {:induction false} HintedStatus(ops: seq<Op>)
    ensures PlainStatus(ops) == StatusOK <==> !HintThenOther(ops, true)
  {
    if ops != [] {
      HintedStatus(ops[1..]);
    }
  }

  lemma {:induction false} StatusesDiffer(ops: seq<Op>)
    requires ValidStatuses(ops)
    ensures RecordedStatus(ops) == PlainStatus(ops) <==> !HintThenOther(ops, false)
  {
    if ops != [] {
      HintedStatus(ops[1..]);
      if !ops[0].WriteHeader? {
        StatusesDiffer(ops[1..]);
      }
    }
  }

  predicate SendsPlain(b: Response, head: Event, body: bytes) {
    && b.wroteHeader && !b.hijacked && b.wire != [] && b.wire[0] == head && head.Head?
    && AllRaw(b.wire[1..]) && Content(b.wire[1..]) == body
  }

  lemma SendsPlainStep(b: Response, op: HandlerOp, head: Event, body: bytes)
    requires SendsPlain(b, head, body) && !op.Hijack?
    ensures SendsPlain(ResponseStep(b, op), head, body + DataOf(op))
  {
    assert DataOf(op) == [] ==> body + DataOf(op) == body;
    if op.Write? {
      Settling.Extend(b.wire, Raw(op.data));
    }
  }

  lemma {:induction false} UncompressedBody(b: Response, ops: seq<HandlerOp>, head: Event, body: bytes)
    requires SendsPlain(b, head, body) && NoHijack(ops)
    ensures SendsPlain(ResponseRun(b, ops), head, body + Payload(ops))
    decreases |ops|
  {
    if ops == [] {
      assert body + Payload(ops) == body;
    } else {
      SendsPlainStep(b, ops[0], head, body);
      UncompressedBody(ResponseStep(b, ops[0]), ops[1..], head, body + DataOf(ops[0]));
      ConcatAssoc(body, DataOf(ops[0]), Payload(ops[1..]));
    }
  }

  // The call that begins a response.
  lemma Begun(b: Response, op: HandlerOp, ops: seq<HandlerOp>)
    requires Fresh(b) && !op.Hijack? && !IsOpen(ResponseStep(b, op))
    ensures SendsPlain(ResponseStep(b, op), Head(PlainStatus([op] + ops), b.header), DataOf(op))
  {
    var head := Head(PlainStatus([op] + ops), b.header);
    assert [] + [head] == [head];
    Settling.CommitWire(head, DataOf(op));
  }

  // What net/http sends without any middleware.
  lemma {:induction false} Uncompressed(b: Response, ops: seq<HandlerOp>)
    requires Fresh(b) && NoHijack(ops) && NamesNoCoding(ops) && b.header.encoding == ""
    ensures var wire := Finish(ResponseRun(b, ops)).wire;
            && wire != [] && wire[0].Head? && wire[0].status == PlainStatus(ops)
            && Receive(wire) == Received("", Payload(ops))
    decreases |ops|
  {
    if ops == [] {
      var head := Head(StatusOK, b.header);
      assert [] + [head] == [head];
      Settling.CommitWire(head, []);
    } else {
      var op, b1 := ops[0], ResponseStep(b, ops[0]);
      assert !op.Hijack? && [] + Payload(ops[1..]) == Payload(ops[1..]);
      if IsOpen(b1) {
        Uncompressed(b1, ops[1..]);
      } else {
        assert ops == [op] + ops[1..];
        Begun(b, op, ops[1..]);
        UncompressedBody(b1, ops[1..], Head(PlainStatus(ops), b.header), DataOf(op));
      }
    }
  }

  lemma {:induction false} NoCodingSettled(
    minSize: int, claims: bool, h: Header, held: bytes, status: int, ops: seq<HandlerOp>)
    requires NamesNoCoding(ops) && h.encoding == ""
    ensures var d := Decide(minSize, claims, h, held, status, ops);
            d.header.encoding == "" && NamesNoCoding(d.rest)
    decreases |ops|
  {
    if ops != [] {
      var op := ops[0];
      assert held + [] == held;
      NoCodingSettled(minSize, claims, if op.SetHeader? then op.header else h, held + DataOf(op),
        if op.WriteHeader? then op.status else status, ops[1..]);
    }
  }

  lemma {:induction false} NoCodingThen(claims: bool, grants: bool, mode: Mode, h: Header, ops: seq<HandlerOp>)
    requires NamesNoCoding(ops) && h.encoding == ""
    ensures var h1 := HeaderThen(claims, grants, mode, h, ops); h1.Some? ==> h1.value.encoding == ""
    decreases |ops|
  {
    if ops != [] {
      NoCodingThen(claims, grants, mode, if ops[0].SetHeader? then ops[0].header else h, ops[1..]);
    }
  }

  lemma NoCoding(minSize: int, claims: bool, grants: bool, h: Header, ops: seq<HandlerOp>)
    requires NamesNoCoding(ops) && h.encoding == ""
    ensures Coding(claims, grants, Decide(minSize, claims, h, [], 0, ops)) == ""
  {
    var d := Decide(minSize, claims, h, [], 0, ops);
    NoCodingSettled(minSize, claims, h, [], 0, ops);
    if !d.gzip {
      NoCodingThen(claims, grants, ModeOf(true, grants, d), d.header, d.rest);
    }
  }

  lemma {:induction false} HeardNamesNoCoding(committed: bool, ops: seq<HandlerOp>)
    requires NamesNoCoding(ops)
    ensures NamesNoCoding(Heard(committed, ops))
    decreases |ops|
  {
    if ops != [] {
      HeardNamesNoCoding(committed || Commits(ops[0]), ops[1..]);
    }
  }

  // Compression behind any recorder (Recover, Metrics, RequestLog) preserves
  // meaning: for every handler that names no coding of its own and hijacks
  // nothing, the status is that of a server without it unless the handler
  // chose one other than 200 after an informational one, and the body is
  // unless bytes stray around the gzip stream.
  lemma SameAsUncompressed(minSize: int, b: Response, ops: seq<HandlerOp>)
    requires Fresh(b) && b.header.encoding == "" && NoHijack(ops) && ValidStatuses(ops) && NamesNoCoding(ops)
    ensures var kept := Heard(false, ops);
            var d := Decided(minSize, Base(b), kept);
            var compressed := Respond(New(minSize, true, Base(b)), kept);
            var plain := Finish(ResponseRun(b, ops)).wire;
            && OneHead(compressed) && plain != [] && plain[0].Head?
            && (compressed[0].status == plain[0].status <==> !HintThenOther(ops, false))
            && (Receive(compressed) == Receive(plain) <==>
                (d.gzip ==> Strays(b.hijacker, CanHijack(b), Streaming, d.header, d.rest) == []))
  {
    var kept := Heard(false, ops);
    HeardKeeps(false, ops);
    HeardNamesNoCoding(false, ops);
    NoCodingSettled(minSize, b.hijacker, b.header, [], 0, kept);
    NoCoding(minSize, b.hijacker, CanHijack(b), b.header, kept);
    StatusBehindRecorder(minSize, b.hijacker, b.header, ops);
    HarmlessWithoutHijack(minSize, b.hijacker, CanHijack(b), b.header, kept);
    OneHeaderAsDecided(minSize, true, Base(b), kept);
    Transparent(minSize, Base(b), kept);
    Uncompressed(b, ops);
    StatusesDiffer(ops);
  }

  // ---- error pages through the compressor ----

  lemma {:induction false} DecideUntouched(
    minSize: int, claims: bool, h: Header, ops: seq<HandlerOp>, tail: seq<HandlerOp>)
    requires !Touched(ops) && NoHijack(ops)
    ensures var d := Decide(minSize, claims, h, [], 0, ops + tail);
            if Flushed(ops) then d.status == StatusOK && !d.gzip
            else d == Decide(minSize, claims, LastHeader(h, ops), [], 0, tail)
    decreases |ops|
  {
    if ops == [] {
      assert ops + tail == tail;
    } else {
      assert (ops + tail)[1..] == ops[1..] + tail;
      assert !ops[0].Hijack?;
      TouchedUnfolds(ops);
      FlushedUnfolds(ops);
      DecideUntouched(minSize, claims, if ops[0].SetHeader? then ops[0].header else h, ops[1..], tail);
    }
  }

  lemma {:induction false} PayloadAppend(a: seq<Op>, b: seq<Op>)
    ensures Payload(a + b) == Payload(a) + Payload(b)
  {
    if a == [] {
      assert a + b == b && [] + Payload(b) == Payload(b);
    } else {
      PayloadAppend(a[1..], b);
      assert (a + b)[1..] == a[1..] + b;
      ConcatAssoc(DataOf(a[0]), Payload(a[1..]), Payload(b));
    }
  }

  lemma PageDecision(minSize: int, claims: bool, h: Header, page: Page)
    requires page.status != 0
    ensures var d := Decide(minSize, claims, h, [], 0, PageOps(page));
            && d.status == page.status && d.header == page.header && (d.gzip ==> d.rest == [])
            && (d.gzip <==> Compressible(page.header.ctype) && |page.body| >= minSize)
    ensures Payload(PageOps(page)) == page.body
  {
    var ops, h1 := PageOps(page), page.header;
    var t1: seq<HandlerOp> := [WriteHeader(page.status), Write(page.body)];
    var t2: seq<HandlerOp> := [Write(page.body)];
    assert ops[1..] == t1 && t1[1..] == t2 && t2[1..] == [];
    assert Decide(minSize, claims, h, [], 0, ops) == Decide(minSize, claims, h1, [], 0, t1);
    if Compressible(h1.ctype) {
      assert Decide(minSize, claims, h1, [], 0, t1) == Decide(minSize, claims, h1, [], page.status, t2);
      if |page.body| < minSize {
        assert Decide(minSize, claims, h1, [], page.status, t2)
            == Decide(minSize, claims, h1, [] + page.body, page.status, t2[1..]);
      }
    }
    assert Payload(ops) == [] + Payload(t1) && Payload(t1) == [] + Payload(t2);
    assert Payload(t2) == page.body + Payload([]) && page.body + [] == page.body;
  }

  lemma {:induction false} UntouchedPayload(ops: seq<HandlerOp>)
    requires !Touched(ops)
    ensures Payload(ops) == []
  {
    if ops != [] {
      TouchedUnfolds(ops);
      UntouchedPayload(ops[1..]);
    }
  }

  lemma NoHijackAppends(ops: seq<HandlerOp>, page: Page)
    requires NoHijack(ops)
    ensures NoHijack(ops + PageOps(page))
  {
  }

  // A silent handler, then an error page, all through the compressor: the
  // client gets the page and nothing else, under the 200 of a flush if there
  // was one. The page is compressed if it is compressible and long enough; a
  // coding left in its header spoils it only then.
  lemma PageCompressed(minSize: int, inner: Chain, ops: seq<HandlerOp>, page: Page)
    requires Unused(inner) && NoHijack(ops) && !Touched(ops)
    requires page.status != 0 && !Informational(page.status)
    ensures var wire := Respond(New(minSize, true, inner), ops + PageOps(page));
            var zip := Compressible(page.header.ctype) && |page.body| >= minSize;
            && OneHead(wire)
            && (if Flushed(ops)
                then wire[0].status == 200 && Receive(wire) == Received(wire[0].header.encoding, page.body)
                else
                  && wire[0] == Head(page.status, if zip then GzipHeader(page.header) else page.header)
                  && (Receive(wire) == Received(page.header.encoding, page.body)
                      <==> page.header.encoding == "" || !zip))
  {
    var all := ops + PageOps(page);
    var claims, grants, h := Hijackable(inner), GrantsBelow(inner), Bottom(inner).header;
    NoHijackAppends(ops, page);
    DecideUntouched(minSize, claims, h, ops, PageOps(page));
    PageDecision(minSize, claims, LastHeader(h, ops), page);
    PayloadAppend(ops, PageOps(page));
    UntouchedPayload(ops);
    assert [] + page.body == page.body;
    HarmlessWithoutHijack(minSize, claims, grants, h, all);
    OneHeaderAsDecided(minSize, true, inner, all);
    Transparent(minSize, inner, all);
  }

  // ---- the two orders ----

  // What Recover's ErrorWriter sends: its own content type, 500, and a body.
  datatype ErrorPage = ErrorPage(ctype: ContentType, body: bytes)

  function PageFor(page: ErrorPage, h: Header): Page {
    Page(500, h.(ctype := page.ctype, length := None), page.body)
  }

  // Compression around Recover around a handler that panics after ops: the
  // page is written, unless the recorder has committed, before Close.
  function RecoverInside(minSize: int, inner: Chain, ops: seq<HandlerOp>, page: ErrorPage): seq<Event> {
    var h := LastHeader(Bottom(inner).header, ops);
    Respond(New(minSize, true, inner),
      Heard(false, ops) + if Touched(ops) then [] else PageOps(PageFor(page, h)))
  }

  // Recover around Compression, on a request that engages compression or not.
  // If it does, the deferred Close runs first, through the recorder, and only
  // then is the recorder asked whether it has committed.
  function RecoverOutside(
    asked: Asked, minSize: int, inner: Chain, ops: seq<HandlerOp>, page: ErrorPage): seq<Event>
  {
    var below := Recorder(NewRecorder, inner);
    var c :=
      if Engages(asked, Bottom(inner).header) then Close(GzipRun(New(minSize, true, below), ops)).inner
      else Run(below, ops);
    var c1 :=
      if c.Recorder? && !c.state.committed then Run(c.inner, PageOps(PageFor(page, Bottom(c).header))) else c;
    Finish(Bottom(c1)).wire
  }

  // Recover inside Compression, handler panics without having written:
  // the client gets the 500 page and nothing else, unless the handler had
  // flushed, in which case the page arrives under the 200 already sent. A
  // coding the handler left in the header spoils only a page that is itself
  // compressed.
  lemma PanicBeforeWriting(minSize: int, inner: Chain, ops: seq<HandlerOp>, page: ErrorPage)
    requires Unused(inner) && NoHijack(ops) && !Touched(ops)
    ensures var wire := RecoverInside(minSize, inner, ops, page);
            && OneHead(wire)
            && wire[0].status == (if Flushed(ops) then 200 else 500)
            && (!Flushed(ops) ==>
                var coding := LastHeader(Bottom(inner).header, ops).encoding;
                Receive(wire) == Received(coding, page.body)
                <==> coding == "" || !Compressible(page.ctype) || |page.body| < minSize)
            && (Flushed(ops) ==> Receive(wire) == Received(wire[0].header.encoding, page.body))
  {
    SilentIsHeard(false, ops);
    PageCompressed(minSize, inner, ops, PageFor(page, LastHeader(Bottom(inner).header, ops)));
  }

  // Recover inside Compression, handler panics after writing: the client gets
  // exactly the prefix written, under the recorded status, and no trace of the
  // page.
  lemma PanicAfterWriting(minSize: int, inner: Chain, ops: seq<HandlerOp>, page: ErrorPage)
    requires Unused(inner) && NoHijack(ops) && Touched(ops)
    ensures var wire := RecoverInside(minSize, inner, ops, page);
            var d := Decided(minSize, inner, Heard(false, ops));
            var claims, grants := Hijackable(inner), GrantsBelow(inner);
            && OneHead(wire) && wire[0].status == RecordedStatus(ops)
            && (Receive(wire) == Received(Coding(claims, grants, d), Payload(ops)) <==>
                (d.gzip ==> d.header.encoding == "" && Strays(claims, grants, Streaming, d.header, d.rest) == []))
  {
    var kept := Heard(false, ops);
    HeardKeeps(false, ops);
    assert kept + [] == kept;
    StatusBehindRecorder(minSize, Hijackable(inner), Bottom(inner).header, ops);
    HarmlessWithoutHijack(minSize, Hijackable(inner), GrantsBelow(inner), Bottom(inner).header, kept);
    OneHeaderAsDecided(minSize, true, inner, kept);
    Transparent(minSize, inner, kept);
  }

  // A compressor that has committed has committed the recorder below it.
  predicate CommitsBelow(g: Gzip) {
    && g.inner.Recorder?
    && (g.committed ==> g.inner.state.committed)
    && (g.stream != NoStream ==> g.committed)
  }

  lemma CommitsBelowStep(g: Gzip, op: HandlerOp)
    requires CommitsBelow(g)
    ensures CommitsBelow(GzipStep(g, op))
  {
  }

  lemma {:induction false} CloseCommits(g: Gzip, ops: seq<HandlerOp>)
    requires CommitsBelow(g)
    ensures var c := Close(GzipRun(g, ops)).inner; c.Recorder? && c.state.committed
    decreases |ops|
  {
    if ops != [] && !Panics(g, ops[0]) {
      CommitsBelowStep(g, ops[0]);
      CloseCommits(GzipStep(g, ops[0]), ops[1..]);
    }
  }

  lemma {:induction false} UntouchedStatus(
    minSize: int, claims: bool, h: Header, held: bytes, ops: seq<HandlerOp>)
    requires !Touched(ops)
    ensures Decide(minSize, claims, h, held, 0, ops).status == StatusOK
    decreases |ops|
  {
    if ops != [] {
      TouchedUnfolds(ops);
      UntouchedStatus(minSize, claims, if ops[0].SetHeader? then ops[0].header else h, held, ops[1..]);
    }
  }

  // Recover outside Compression never reaches the page on a request that
  // engages compression: Close has committed the pending status, 200 by
  // default, with every byte held back.
  lemma PanicUnderCompression(asked: Asked, minSize: int, inner: Chain, ops: seq<HandlerOp>, page: ErrorPage)
    requires Unused(inner) && Engages(asked, Bottom(inner).header)
    ensures var wire := RecoverOutside(asked, minSize, inner, ops, page);
            var d, claims, grants := Decide(minSize, true, Bottom(inner).header, [], 0, ops), true, GrantsBelow(inner);
            && Delivers(true, claims, grants, d, wire)
            && (Receive(wire) == Received(Coding(claims, grants, d), Payload(ops)) <==> Harmless(claims, grants, d))
            && (!Touched(ops) ==> wire == [] || wire[0].status == StatusOK)
  {
    var below := Recorder(NewRecorder, inner);
    CloseCommits(New(minSize, true, below), ops);
    OneHeaderAsDecided(minSize, true, below, ops);
    Transparent(minSize, below, ops);
    if !Touched(ops) {
      UntouchedStatus(minSize, true, Bottom(inner).header, [], ops);
    }
  }

  // On any other request the handler runs on the recorder itself. If it wrote
  // or chose a status, the client gets just that; if not, the page, unless the
  // handler flushed or took the connection.
  lemma PanicUncompressed(asked: Asked, minSize: int, inner: Chain, ops: seq<HandlerOp>, page: ErrorPage)
    requires Unused(inner) && !Engages(asked, Bottom(inner).header)
    ensures var wire, b := RecoverOutside(asked, minSize, inner, ops, page), Bottom(inner);
            if Touched(ops) then wire == Finish(ResponseRun(b, Heard(false, ops))).wire
            else if CanHijack(b) && Hijacks(ops) then
              if FlushesFirst(CanHijack(b), ops) then Started(wire) else wire == []
            else if FlushesFirst(CanHijack(b), ops) then
              && wire != [] && Started(wire[..1])
              && wire[1..] == if page.body == [] then [] else [Raw(page.body)]
            else IsPage(wire, PageFor(page, ResponseRun(b, ops).header))
  {
    var below := Recorder(NewRecorder, inner);
    var c := Run(below, ops);
    RecorderCommits(NewRecorder, inner, ops);
    ChainRunHears(below, ops);
    if !Touched(ops) {
      SilentChain(inner, ops);
      PageOnSilence(c.inner, PageFor(page, Bottom(c).header));
    }
  }

  // The middleware itself, on the response: a recorder around the handler, and
  // the page straight to the response if the handler panicked and the recorder
  // has not committed. A handler that returns has its response left alone but
  // for a status the recorder keeps; after a panic, what reaches the client is
  // what the lemma above says of it.
  method Recover(w: WriterObjects.ResponseWriter, ops: seq<HandlerOp>, panics: bool, page: ErrorPage)
    requires Fresh(w.State())
    modifies w
    ensures !panics || Touched(ops) ==> w.State() == ResponseRun(old(w.State()), Heard(false, ops))
    ensures forall asked, minSize | panics && !Engages(asked, old(w.header)) ::
              Finish(w.State()).wire == RecoverOutside(asked, minSize, Base(old(w.State())), ops, page)
    ensures panics && !Touched(ops) && !Flushed(ops) && !Hijacks(ops) ==>
              && OneHead(w.wire) && w.wire[0].status == 500 && w.wire[0].header.ctype == page.ctype
              && w.wire[0].header.length.None?
              && w.wire[1..] == if page.body == [] then [] else [Raw(page.body)]
  {
    ghost var b := w.State();
    var rec := new WriterObjects.StatusRecorder(w, null);
    ghost var c0 := rec.Abs();
    var i := 0;
    while i < |ops|
      invariant 0 <= i <= |ops|
      invariant rec.Valid() && fresh(rec.Repr - {w}) && rec.base == w && rec.next == null
      invariant Run(c0, ops) == Run(rec.Abs(), ops[i..])
    {
      rec.Call(ops[i]);
      assert ops[i..][1..] == ops[i + 1..];
      i := i + 1;
    }
    ghost var c := rec.Abs();
    assert ops[i..] == [] && c == Run(Recorder(NewRecorder, Base(b)), ops);
    assert c.inner == Base(w.State()) && Bottom(c) == w.State();
    ChainRunHears(Recorder(NewRecorder, Base(b)), ops);
    RecorderCommits(NewRecorder, Base(b), ops);
    if panics && !rec.committed {
      var p := PageFor(page, w.header);
      w.SetHeader(p.header);
      w.WriteHeader(p.status);
      var n := w.Write(p.body);
      PageRun(c.inner, p);
      assert Base(w.State()) == Run(c.inner, PageOps(p));
      SilentChain(Base(b), ops);
      PageOnSilence(c.inner, p);
      QuietRun(b, ops);
    }
  }

  lemma {:induction false} QuietRun(b: Response, ops: seq<HandlerOp>)
    ensures FlushesFirst(CanHijack(b), ops) ==> Flushed(ops)
    decreases |ops|
  {
    if ops != [] {
      FlushedUnfolds(ops);
      HijacksUnfolds(ops);
      QuietRun(b, ops[1..]);
    }
  }

  // So Recover outside Compression sends its page, for a handler that answered
  // nothing, if and only if the request does not engage compression and the
  // handler neither flushed nor took the connection.
  lemma PageOutsideIff(asked: Asked, minSize: int, inner: Chain, ops: seq<HandlerOp>, page: ErrorPage)
    requires Unused(inner) && !Touched(ops)
    ensures var b := Bottom(inner);
            IsPage(RecoverOutside(asked, minSize, inner, ops, page), PageFor(page, ResponseRun(b, ops).header)) <==>
              && !Engages(asked, b.header)
              && !FlushesFirst(CanHijack(b), ops) && !(CanHijack(b) && Hijacks(ops))
  {
    var wire := RecoverOutside(asked, minSize, inner, ops, page);
    assert wire != [] ==> wire[..1][0] == wire[0];
    if Engages(asked, Bottom(inner).header) {
      PanicUnderCompression(asked, minSize, inner, ops, page);
    } else {
      PanicUncompressed(asked, minSize, inner, ops, page);
    }
  }

  // The order of the two middlewares is visible to the client.
  lemma OrderMatters(asked: Asked, minSize: int, b: Response, page: ErrorPage)
    requires Fresh(b) && Engages(asked, b.header)
    ensures RecoverInside(minSize, Base(b), [], page) != RecoverOutside(asked, minSize, Base(b), [], page)
  {
    PanicBeforeWriting(minSize, Base(b), [], page);
    PanicUnderCompression(asked, minSize, Base(b), [], page);
  }
}
