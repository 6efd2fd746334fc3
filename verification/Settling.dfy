// What becomes of a response once the compressor has settled it, in each of
// the ways it can be: sent as it is, announced but not begun, compressed, or
// given away with the connection.
module Settling {
  import opened Common
  import opened Writers
  import opened Compression

  // ---- wires ----

  lemma Extend(wire: seq<Event>, e: Event)
    requires wire != []
    ensures (wire + [e])[1..] == wire[1..] + [e]
    ensures Content((wire + [e])[1..]) == Content(wire[1..]) + if e.Raw? || e.Deflated? then e.data else []
  {
    assert (wire + [e])[1..] == wire[1..] + [e];
    assert (wire[1..] + [e])[..|wire| - 1] == wire[1..];
  }

  // A header and plain bytes.
  predicate RawWire(wire: seq<Event>, head: Event, body: bytes) {
    wire != [] && wire[0] == head && head.Head? && AllRaw(wire[1..]) && Content(wire[1..]) == body
  }

  lemma RawWireReceived(wire: seq<Event>, head: Event, body: bytes)
    requires RawWire(wire, head, body)
    ensures OneHead(wire) && Receive(wire) == Received(head.header.encoding, body)
  {
    forall i | 1 <= i < |wire| ensures !wire[i].Head? {
      assert wire[i] == wire[1..][i - 1];
    }
  }

  // A header and part of a gzip stream.
  predicate ZipWire(wire: seq<Event>, head: Event, body: bytes) {
    && |wire| > 1 && wire[0] == head && head.Head? && head.header.encoding == "gzip" && head.header.length.None?
    && AllDeflated(wire[1..]) && Content(wire[1..]) == body
  }

  lemma EndOfStream(wire: seq<Event>, head: Event, body: bytes)
    requires ZipWire(wire, head, body)
    ensures OneHead(wire + [GzipEnd])
    ensures Receive(wire + [GzipEnd]) == Received("", body)
  {
    Extend(wire, GzipEnd);
    var tail := (wire + [GzipEnd])[1..];
    assert tail[|tail| - 1] == GzipEnd;
    assert tail[..|tail| - 1] == wire[1..];
    forall i | 1 <= i < |wire| ensures !wire[i].Head? {
      assert wire[i] == wire[1..][i - 1];
    }
  }

  // Plain bytes have entered, or followed, the gzip stream.
  predicate Mixed(wire: seq<Event>, head: Event) {
    && |wire| > 2 && wire[0] == head && head.Head? && wire[1].Deflated?
    && OneHead(wire) && exists i :: 1 <= i < |wire| && wire[i].Raw?
  }

  lemma MixedIsGarbled(wire: seq<Event>, head: Event)
    requires Mixed(wire, head)
    ensures Receive(wire) == Garbled
  {
    var body := wire[1..];
    assert body[0].Deflated?;
    var i :| 1 <= i < |wire| && wire[i].Raw?;
    assert body[i - 1].Raw?;
    if body[|body| - 1].GzipEnd? {
      assert body[..|body| - 1][i - 1].Raw?;
    }
  }

  lemma MixedGrows(wire: seq<Event>, head: Event, e: Event)
    requires Mixed(wire, head) && !e.Head?
    ensures Mixed(wire + [e], head)
  {
    var i :| 1 <= i < |wire| && wire[i].Raw?;
    assert (wire + [e])[i].Raw?;
  }

  lemma BecomesMixed(wire: seq<Event>, head: Event, p: bytes)
    requires |wire| > 1 && wire[0] == head && OneHead(wire) && wire[1].Deflated?
    ensures Mixed(wire + [Raw(p)], head)
  {
    assert (wire + [Raw(p)])[|wire|].Raw?;
  }

  lemma ZipWireIsOne(wire: seq<Event>, head: Event, body: bytes)
    requires ZipWire(wire, head, body)
    ensures OneHead(wire) && wire[1].Deflated?
  {
    forall i | 1 <= i < |wire| ensures wire[i].Deflated? {
      assert wire[i] == wire[1..][i - 1];
    }
  }

  // ---- runs ----

  lemma RespondUnfolds(g: Gzip, ops: seq<HandlerOp>)
    requires ops != [] && !Panics(g, ops[0])
    ensures Respond(g, ops) == Respond(GzipStep(g, ops[0]), ops[1..])
  {
  }

  lemma PayloadUnfolds(body: bytes, ops: seq<HandlerOp>)
    requires ops != []
    ensures body + Payload(ops) == body + DataOf(ops[0]) + Payload(ops[1..])
  {
    ConcatAssoc(body, DataOf(ops[0]), Payload(ops[1..]));
  }

  // A writer on the response itself.
  predicate Settled(g: Gzip) {
    g.inner.Base? && g.committed
  }

  // The wire of the response below.
  function Wire(g: Gzip): seq<Event> {
    Bottom(g.inner).wire
  }

  predicate Claims(g: Gzip) {
    Bottom(g.inner).hijacker
  }

  predicate Grants(g: Gzip) {
    Bottom(g.inner).grants
  }

  // Once the connection is given away nothing more is sent.
  lemma {:induction false} FinishGone(g: Gzip, ops: seq<HandlerOp>)
    requires g.inner.Base? && Bottom(g.inner).hijacked
    ensures Respond(g, ops) == Wire(g)
    decreases |ops|
  {
    if ops != [] && !Panics(g, ops[0]) {
      GoneStep(g, ops[0]);
      FinishGone(GzipStep(g, ops[0]), ops[1..]);
    }
  }

  predicate Taken(g: Gzip, wire: seq<Event>) {
    g.inner.Base? && Bottom(g.inner).hijacked && Wire(g) == wire
  }

  lemma GoneCommit(g: Gzip, wire: seq<Event>)
    requires Taken(g, wire)
    ensures Taken(CommitUncompressed(g), wire) && Taken(StartGzip(g), wire)
  {
  }

  lemma GoneWrite(g: Gzip, p: bytes, wire: seq<Event>)
    requires Taken(g, wire)
    ensures Taken(GzipWrite(g, p), wire)
  {
    GoneCommit(g.(passthrough := true), wire);
    GoneCommit(g.(buf := g.buf + p), wire);
  }

  lemma GoneBelow(g: Gzip, op: Op, wire: seq<Event>)
    requires Taken(g, wire)
    ensures Taken(g.(inner := Step(g.inner, op)), wire)
  {
  }

  lemma GoneHijack(g: Gzip, wire: seq<Event>)
    requires Taken(g, wire)
    ensures Taken(GzipHijack(g), wire)
  {
    match g.stream
    case Open =>
      GoneBelow(g, EndGzip, wire);
      GoneBelow(g.(stream := NoStream, inner := Step(g.inner, EndGzip)), Hijack, wire);
    case Finished => GoneBelow(g.(stream := NoStream), Hijack, wire);
    case NoStream =>
      GoneCommit(g, wire);
      GoneBelow(CommitUncompressed(g), Hijack, wire);
  }

  lemma GoneFlush(g: Gzip, wire: seq<Event>)
    requires Taken(g, wire)
    ensures Taken(GzipFlush(g), wire)
  {
    GoneCommit(g.(passthrough := true), wire);
  }

  lemma GoneStatus(g: Gzip, status: int, wire: seq<Event>)
    requires Taken(g, wire)
    ensures Taken(GzipStep(g, WriteHeader(status)), wire)
  {
    GoneCommit(g.(status := status, passthrough := true), wire);
  }

  lemma GoneStep(g: Gzip, op: HandlerOp)
    requires Taken(g, Wire(g))
    ensures Taken(GzipStep(g, op), Wire(g))
  {
    match op
    case SetHeader(_) =>
    case WriteHeader(c) => GoneStatus(g, c, Wire(g));
    case Write(p) => GoneWrite(g, p, Wire(g));
    case Flush => GoneFlush(g, Wire(g));
    case Hijack => GoneHijack(g, Wire(g));
  }

  // ---- settled without a gzip stream ----

  // The modes in which there is no stream.
  predicate InMode(g: Gzip, mode: Mode) {
    && Settled(g) && g.stream == NoStream && !Bottom(g.inner).hijacked
    && match mode
       case Through => g.passthrough
       case Swallowing => !g.passthrough && !g.gzipping
       case Broken => !g.passthrough && g.gzipping
       case Streaming => false
       case Gone => false
  }

  predicate Around(g: Gzip, op: HandlerOp) {
    op.Write? && (g.passthrough || !Compressible(Live(g).ctype))
  }

  // One call without a stream.
  lemma ModeStep(g: Gzip, mode: Mode, op: HandlerOp)
    requires InMode(g, mode) && !Panics(g, op) && !(op.Hijack? && Claims(g) && Grants(g))
    ensures var g1 := GzipStep(g, op);
            && InMode(g1, if Around(g, op) then Through else mode)
            && Claims(g1) == Claims(g) && Grants(g1) == Grants(g)
            && Live(g1) == (if op.SetHeader? then op.header else Live(g))
            && Bottom(g1.inner) ==
                 if Around(g, op) || op.SetHeader? || op.Flush? then ResponseStep(Bottom(g.inner), op)
                 else Bottom(g.inner)
  {
    match op
    case SetHeader(_) =>
    case WriteHeader(_) =>
    case Write(p) => SwallowOrSend(g, mode, p);
    case Flush =>
    case Hijack =>
  }

  lemma SwallowOrSend(g: Gzip, mode: Mode, p: bytes)
    requires InMode(g, mode) && !Panics(g, Write(p))
    ensures var g1 := GzipStep(g, Write(p));
            if Around(g, Write(p)) then
              g1 == g.(passthrough := true, inner := Base(ResponseStep(g.inner.response, Write(p))))
            else g1 == g.(buf := g.buf + p)
  {
  }

  lemma TakenAway(g: Gzip, mode: Mode)
    requires InMode(g, mode) && Claims(g) && Grants(g)
    ensures var g1 := GzipStep(g, Hijack); g1.inner.Base? && Bottom(g1.inner).hijacked && Wire(g1) == Wire(g)
  {
  }

  lemma EndsHere(g: Gzip, mode: Mode)
    requires InMode(g, mode)
    ensures Respond(g, []) == Finish(Bottom(g.inner)).wire
  {
  }

  lemma PanicEnds(g: Gzip, ops: seq<HandlerOp>)
    requires ops != [] && Panics(g, ops[0])
    ensures Respond(g, ops) == Respond(g, [])
  {
  }

  // The handler takes the connection: the wire stays as it is.
  lemma FinishTaken(g: Gzip, mode: Mode, ops: seq<HandlerOp>)
    requires InMode(g, mode) && ops != [] && ops[0].Hijack? && Claims(g) && Grants(g)
    ensures Respond(g, ops) == Wire(g)
  {
    RespondUnfolds(g, ops);
    TakenAway(g, mode);
    FinishGone(GzipStep(g, ops[0]), ops[1..]);
  }

  // A response whose header is out: from now on exactly the strays are sent.
  lemma {:induction false} FinishRaw(g: Gzip, mode: Mode, ops: seq<HandlerOp>, head: Event, body: bytes)
    requires InMode(g, mode) && Bottom(g.inner).wroteHeader && RawWire(Wire(g), head, body)
    ensures RawWire(Respond(g, ops), head, body + Strays(Claims(g), Grants(g), mode, Live(g), ops))
    decreases |ops|
  {
    assert body + [] == body;
    if ops == [] || Panics(g, ops[0]) {
      EndsHere(g, mode);
    } else if ops[0].Hijack? && Claims(g) && Grants(g) {
      FinishTaken(g, mode, ops);
    } else {
      var op, g1 := ops[0], GzipStep(g, ops[0]);
      RespondUnfolds(g, ops);
      ModeStep(g, mode, op);
      if Around(g, op) {
        SentRaw(g, op.data, head, body);
        FinishRaw(g1, Through, ops[1..], head, body + op.data);
        ConcatAssoc(body, op.data, Strays(Claims(g), Grants(g), Through, Live(g), ops[1..]));
      } else {
        FinishRaw(g1, mode, ops[1..], head, body);
      }
    }
  }

  lemma SentRaw(g: Gzip, p: bytes, head: Event, body: bytes)
    requires Bottom(g.inner).wroteHeader && !Bottom(g.inner).hijacked && RawWire(Wire(g), head, body)
    ensures RawWire(ResponseStep(Bottom(g.inner), Write(p)).wire, head, body + p)
  {
    Extend(Wire(g), Raw(p));
    assert p == [] ==> body + p == body;
  }

  lemma FirstBytes(b: Response, p: bytes)
    requires IsOpen(b) && b.wire == []
    ensures RawWire(ResponseStep(b, Write(p)).wire, Head(StatusOK, b.header), p)
    ensures RawWire(ResponseStep(b, Flush).wire, Head(StatusOK, b.header), [])
    ensures RawWire(Finish(b).wire, Head(StatusOK, b.header), [])
  {
    var head := Head(StatusOK, b.header);
    assert [] + [head] == [head] && [head][1..] == [];
    CommitWire(head, p);
  }

  lemma CommitWire(head: Event, p: bytes)
    requires head.Head?
    ensures RawWire([head], head, [])
    ensures RawWire([head] + [Raw(p)], head, p)
  {
    assert ([head] + [Raw(p)])[1..] == [Raw(p)] && [Raw(p)][..0] == [] && [] + p == p;
  }

  // A response settled with an informational status and nothing else to send:
  // its header comes with the first byte or flush, or at the end.
  lemma {:induction false} FinishHinted(g: Gzip, mode: Mode, ops: seq<HandlerOp>)
    requires InMode(g, mode) && !Bottom(g.inner).wroteHeader && Wire(g) == []
    ensures var h := HeaderThen(Claims(g), Grants(g), mode, Live(g), ops);
            if h.None? then Respond(g, ops) == []
            else RawWire(Respond(g, ops), Head(StatusOK, h.value), Strays(Claims(g), Grants(g), mode, Live(g), ops))
    decreases |ops|
  {
    if ops == [] || Panics(g, ops[0]) {
      EndsHere(g, mode);
      FirstBytes(Bottom(g.inner), []);
    } else if ops[0].Hijack? && Claims(g) && Grants(g) {
      FinishTaken(g, mode, ops);
    } else if Around(g, ops[0]) {
      HintedBytes(g, mode, ops);
    } else {
      var op, g1 := ops[0], GzipStep(g, ops[0]);
      RespondUnfolds(g, ops);
      ModeStep(g, mode, op);
      if op.Flush? {
        FirstBytes(Bottom(g.inner), []);
        FinishRaw(g1, mode, ops[1..], Head(StatusOK, Live(g)), []);
        var strays := Strays(Claims(g), Grants(g), mode, Live(g), ops[1..]);
        assert [] + strays == strays;
      } else {
        FinishHinted(g1, mode, ops[1..]);
      }
    }
  }

  // The header comes with the first bytes.
  lemma HintedBytes(g: Gzip, mode: Mode, ops: seq<HandlerOp>)
    requires InMode(g, mode) && !Bottom(g.inner).wroteHeader && Wire(g) == [] && ops != [] && Around(g, ops[0])
    ensures HeaderThen(Claims(g), Grants(g), mode, Live(g), ops) == Some(Live(g))
    ensures RawWire(Respond(g, ops), Head(StatusOK, Live(g)), Strays(Claims(g), Grants(g), mode, Live(g), ops))
  {
    RespondUnfolds(g, ops);
    ModeStep(g, mode, ops[0]);
    FirstBytes(Bottom(g.inner), ops[0].data);
    FinishRaw(GzipStep(g, ops[0]), Through, ops[1..], Head(StatusOK, Live(g)), ops[0].data);
  }

  // ---- settled with a gzip stream ----

  predicate Zipping(g: Gzip, head: Event, body: bytes) {
    && Settled(g) && Bottom(g.inner).wroteHeader && !Bottom(g.inner).hijacked
    && g.gzipping && g.stream == Stream.Open && g.buf == [] && ZipWire(Wire(g), head, body)
  }

  // The stream has ended, without the connection having been given away.
  predicate Ended(g: Gzip, head: Event) {
    && Settled(g) && Bottom(g.inner).wroteHeader && !Bottom(g.inner).hijacked
    && g.gzipping && g.stream == NoStream
    && |Wire(g)| > 1 && Wire(g)[0] == head && OneHead(Wire(g)) && Wire(g)[1].Deflated?
  }

  predicate Spoilt(g: Gzip, head: Event) {
    Settled(g) && Bottom(g.inner).wroteHeader && Mixed(Wire(g), head)
  }

  lemma SpoiltWrite(g: Gzip, p: bytes, head: Event)
    requires Spoilt(g, head)
    ensures Spoilt(GzipStep(g, Write(p)), head)
  {
    MixedGrows(Wire(g), head, Raw(p));
    MixedGrows(Wire(g), head, Deflated(p));
  }

  lemma SpoiltStep(g: Gzip, op: HandlerOp, head: Event)
    requires Spoilt(g, head)
    ensures Spoilt(GzipStep(g, op), head)
  {
    if op.Write? {
      SpoiltWrite(g, op.data, head);
    } else if op.Hijack? {
      MixedGrows(Wire(g), head, GzipEnd);
    }
  }

  // Once spoiled, a response stays spoiled.
  lemma {:induction false} FinishSpoilt(g: Gzip, ops: seq<HandlerOp>, head: Event)
    requires Spoilt(g, head)
    ensures Mixed(Respond(g, ops), head)
    decreases |ops|
  {
    if ops == [] || Panics(g, ops[0]) {
      MixedGrows(Wire(g), head, GzipEnd);
    } else {
      RespondUnfolds(g, ops);
      SpoiltStep(g, ops[0], head);
      FinishSpoilt(GzipStep(g, ops[0]), ops[1..], head);
    }
  }

  function EndedMode(g: Gzip): Mode {
    if g.passthrough then Through else Broken
  }

  // After the end of the stream any stray byte spoils the response.
  lemma {:induction false} FinishEnded(g: Gzip, ops: seq<HandlerOp>, head: Event)
    requires Ended(g, head)
    ensures if Strays(Claims(g), Grants(g), EndedMode(g), Live(g), ops) == [] then Respond(g, ops) == Wire(g)
            else Mixed(Respond(g, ops), head)
    decreases |ops|
  {
    var mode := EndedMode(g);
    if ops == [] || Panics(g, ops[0]) {
      EndsHere(g, mode);
    } else if ops[0].Hijack? && Claims(g) && Grants(g) {
      FinishTaken(g, mode, ops);
    } else if Around(g, ops[0]) && ops[0].data != [] {
      EndedStray(g, ops, head);
    } else {
      RespondUnfolds(g, ops);
      ModeStep(g, mode, ops[0]);
      FinishEnded(GzipStep(g, ops[0]), ops[1..], head);
    }
  }

  lemma EndedStray(g: Gzip, ops: seq<HandlerOp>, head: Event)
    requires Ended(g, head) && ops != [] && Around(g, ops[0]) && ops[0].data != []
    ensures Strays(Claims(g), Grants(g), EndedMode(g), Live(g), ops) != [] && Mixed(Respond(g, ops), head)
  {
    RespondUnfolds(g, ops);
    ModeStep(g, EndedMode(g), ops[0]);
    BecomesMixed(Wire(g), head, ops[0].data);
    FinishSpoilt(GzipStep(g, ops[0]), ops[1..], head);
  }

  lemma ZippingWrite(g: Gzip, p: bytes, head: Event, body: bytes)
    requires Zipping(g, head, body) && !Around(g, Write(p))
    ensures GzipStep(g, Write(p)) == g.(inner := Base(Sent(g.inner.response, Deflated(p))))
    ensures Zipping(GzipStep(g, Write(p)), head, body + p)
  {
    Extend(Wire(g), Deflated(p));
  }

  lemma ZippingAround(g: Gzip, p: bytes, head: Event, body: bytes)
    requires Zipping(g, head, body) && Around(g, Write(p))
    ensures var g1, b := GzipStep(g, Write(p)), g.inner.response;
            g1 == g.(passthrough := true, inner := Base(if p == [] then b else Sent(b, Raw(p))))
    ensures p != [] ==> Spoilt(GzipStep(g, Write(p)), head)
  {
    ZipWireIsOne(Wire(g), head, body);
    BecomesMixed(Wire(g), head, p);
  }

  lemma ZippingQuiet(g: Gzip, op: HandlerOp, head: Event, body: bytes)
    requires Zipping(g, head, body) && !op.Write? && !(op.Hijack? && Claims(g))
    ensures GzipStep(g, op) ==
              g.(inner := if op.SetHeader? then Base(g.inner.response.(header := op.header)) else g.inner)
  {
  }

  lemma ZippingHijack(g: Gzip, head: Event, body: bytes)
    requires Zipping(g, head, body) && Claims(g)
    ensures var g1 := GzipStep(g, Hijack);
            && Wire(g1) == Wire(g) + [GzipEnd] && g1.inner.Base? && Live(g1) == Live(g)
            && g1.passthrough == g.passthrough && Claims(g1) == Claims(g) && Grants(g1) == Grants(g)
            && if Grants(g) then Bottom(g1.inner).hijacked else Ended(g1, head)
  {
    ZipWireIsOne(Wire(g), head, body);
  }

  function ZipMode(g: Gzip): Mode {
    if g.passthrough then Through else Streaming
  }

  lemma ZipHijacked(g: Gzip, ops: seq<HandlerOp>, head: Event, body: bytes)
    requires Zipping(g, head, body) && ops != [] && ops[0].Hijack? && Claims(g)
    ensures var wire := Respond(g, ops);
            && OneHead(wire) && wire[0] == head
            && Receive(wire) ==
                 if Strays(Claims(g), Grants(g), ZipMode(g), Live(g), ops) != [] then Garbled
                 else Received("", body + Payload(Ahead(Claims(g), ops)))
  {
    RespondUnfolds(g, ops);
    ZippingHijack(g, head, body);
    EndOfStream(Wire(g), head, body);
    FinishAfterHijack(GzipStep(g, ops[0]), ops[1..], head);
    assert body + [] == body;
  }

  lemma ZipStray(g: Gzip, ops: seq<HandlerOp>, head: Event, body: bytes)
    requires Zipping(g, head, body) && ops != [] && Around(g, ops[0]) && ops[0].data != []
    ensures var wire := Respond(g, ops);
            OneHead(wire) && wire[0] == head && Receive(wire) == Garbled
    ensures Strays(Claims(g), Grants(g), ZipMode(g), Live(g), ops) != []
  {
    RespondUnfolds(g, ops);
    ZippingAround(g, ops[0].data, head, body);
    FinishSpoilt(GzipStep(g, ops[0]), ops[1..], head);
    MixedIsGarbled(Respond(g, ops), head);
  }

  // The states a compressed response moves through while nothing strays.
  lemma ZipStep(g: Gzip, op: HandlerOp, head: Event, body: bytes)
    requires Zipping(g, head, body) && !(op.Hijack? && Claims(g)) && (Around(g, op) ==> op.data == [])
    ensures var g1 := GzipStep(g, op);
            && Zipping(g1, head, body + DataOf(op)) && Claims(g1) == Claims(g) && Grants(g1) == Grants(g)
            && Live(g1) == (if op.SetHeader? then op.header else Live(g))
            && g1.passthrough == (g.passthrough || Around(g, op))
  {
    assert body + [] == body;
    if Around(g, op) {
      ZippingAround(g, op.data, head, body);
    } else if op.Write? {
      ZippingWrite(g, op.data, head, body);
    } else {
      ZippingQuiet(g, op, head, body);
    }
  }

  lemma StraysUnfold(claims: bool, grants: bool, mode: Mode, h: Header, ops: seq<HandlerOp>)
    requires ops != [] && (mode.Through? || mode.Streaming?) && !(ops[0].Hijack? && claims)
    requires ops[0].Write? && (mode.Through? || !Compressible(h.ctype)) ==> ops[0].data == []
    ensures var around := ops[0].Write? && (mode.Through? || !Compressible(h.ctype));
            Strays(claims, grants, mode, h, ops)
            == Strays(claims, grants, if around then Through else mode,
                 if ops[0].SetHeader? then ops[0].header else h, ops[1..])
  {
    if ops[0].Write? {
      assert [] + Strays(claims, grants, Through, h, ops[1..]) == Strays(claims, grants, Through, h, ops[1..]);
    }
  }

  // A compressed response decodes to what was written ahead of the first
  // hijack, or is garbled if any byte strays.
  lemma {:induction false} FinishZipping(g: Gzip, ops: seq<HandlerOp>, head: Event, body: bytes)
    requires Zipping(g, head, body)
    ensures var wire := Respond(g, ops);
            && OneHead(wire) && wire[0] == head
            && Receive(wire) ==
                 if Strays(Claims(g), Grants(g), ZipMode(g), Live(g), ops) != [] then Garbled
                 else Received("", body + Payload(Ahead(Claims(g), ops)))
    decreases |ops|
  {
    if ops == [] {
      EndOfStream(Wire(g), head, body);
      assert body + [] == body;
    } else if ops[0].Hijack? && Claims(g) {
      ZipHijacked(g, ops, head, body);
    } else if Around(g, ops[0]) && ops[0].data != [] {
      ZipStray(g, ops, head, body);
    } else {
      RespondUnfolds(g, ops);
      AheadUnfolds(Claims(g), ops, body);
      StraysUnfold(Claims(g), Grants(g), ZipMode(g), Live(g), ops);
      ZipStep(g, ops[0], head, body);
      FinishZipping(GzipStep(g, ops[0]), ops[1..], head, body + DataOf(ops[0]));
    }
  }

  lemma AheadUnfolds(claims: bool, ops: seq<HandlerOp>, body: bytes)
    requires ops != [] && !(claims && ops[0].Hijack?)
    ensures body + Payload(Ahead(claims, ops)) == body + DataOf(ops[0]) + Payload(Ahead(claims, ops[1..]))
    ensures DataOf(ops[0]) == [] ==> body + DataOf(ops[0]) == body
  {
    var rest := Ahead(claims, ops[1..]);
    assert ([ops[0]] + rest)[1..] == rest;
    ConcatAssoc(body, DataOf(ops[0]), Payload(rest));
  }

  lemma FinishAfterHijack(g: Gzip, ops: seq<HandlerOp>, head: Event)
    requires (g.inner.Base? && Bottom(g.inner).hijacked && OneHead(Wire(g)) && Wire(g)[0] == head) || Ended(g, head)
    ensures var wire := Respond(g, ops);
            && OneHead(wire) && wire[0] == head
            && Receive(wire) ==
                 if !Bottom(g.inner).hijacked && Strays(Claims(g), Grants(g), EndedMode(g), Live(g), ops) != []
                 then Garbled else Receive(Wire(g))
  {
    if Bottom(g.inner).hijacked {
      FinishGone(g, ops);
    } else {
      FinishEnded(g, ops, head);
      if Mixed(Respond(g, ops), head) {
        MixedIsGarbled(Respond(g, ops), head);
      }
    }
  }
}
