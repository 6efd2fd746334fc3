// What the client receives through the compression layer, for every handler
// trace: one header, decided as Decide says, and the handler's bytes intact
// under exactly the conditions that Harmless states.
module Transparency {
  import opened Common
  import opened Writers
  import opened Compression
  import opened Flattening
  import opened Settling

  // ---- from the first call ----

  predicate Pending(g: Gzip) {
    && g.inner.Base? && !g.committed && !g.gzipping && !g.passthrough && g.stream == NoStream
    && IsOpen(Bottom(g.inner)) && Wire(g) == []
  }

  // A call that settles nothing.
  predicate Waits(g: Gzip, op: HandlerOp) {
    match op
    case SetHeader(_) => true
    case WriteHeader(_) => Compressible(Live(g).ctype)
    case Write(p) => Compressible(Live(g).ctype) && |g.buf| + |p| < g.minSize
    case Flush => false
    case Hijack => !Claims(g)
  }

  function StatusAfter(g: Gzip, op: HandlerOp): int {
    if op.WriteHeader? then op.status else g.status
  }

  lemma WaitingStep(g: Gzip, op: HandlerOp)
    requires Pending(g) && Waits(g, op)
    ensures GzipStep(g, op) == g.(
      buf := g.buf + DataOf(op), status := StatusAfter(g, op),
      inner := if op.SetHeader? then Base(g.inner.response.(header := op.header)) else g.inner)
    ensures !Panics(g, op)
  {
    assert DataOf(op) == [] ==> g.buf + DataOf(op) == g.buf;
  }

  // What committing uncompressed sends: the header and the bytes held, or,
  // with an informational status and no bytes, nothing yet.
  lemma Commits1(g: Gzip)
    requires Pending(g.(passthrough := false))
    ensures var g1 := CommitUncompressed(g);
            var status := OrOK(g.status);
            && g1 == g.(status := status, committed := true, buf := [], inner := g1.inner)
            && g1.inner.Base? && !Bottom(g1.inner).hijacked && Live(g1) == Live(g)
            && Claims(g1) == Claims(g) && Grants(g1) == Grants(g)
            && if Informational(status) && g.buf == [] then !Bottom(g1.inner).wroteHeader && Wire(g1) == []
               else Bottom(g1.inner).wroteHeader && RawWire(Wire(g1), Head(Final(status), Live(g)), g.buf)
  {
    var head := Head(Final(OrOK(g.status)), Live(g));
    assert [] + [head] == [head];
    CommitWire(head, g.buf);
  }

  // From a committed response without a stream to its end.
  lemma FinishCommitted(g: Gzip, mode: Mode, ops: seq<HandlerOp>, status: int, h: Header, body: bytes)
    requires InMode(g, mode) && Live(g) == h
    requires if Informational(status) && body == [] then !Bottom(g.inner).wroteHeader && Wire(g) == []
             else Bottom(g.inner).wroteHeader && RawWire(Wire(g), Head(Final(status), h), body)
    ensures var strays := Strays(Claims(g), Grants(g), mode, h, ops);
            var then_ := HeaderThen(Claims(g), Grants(g), mode, h, ops);
            if Informational(status) && body == [] then
              if then_.None? then Respond(g, ops) == []
              else RawWire(Respond(g, ops), Head(StatusOK, then_.value), strays)
            else RawWire(Respond(g, ops), Head(Final(status), h), body + strays)
  {
    if Informational(status) && body == [] {
      FinishHinted(g, mode, ops);
    } else {
      FinishRaw(g, mode, ops, Head(Final(status), h), body);
    }
  }

  // The decision of a trace from a pending writer, and what it delivers.
  predicate AsDecided(g: Gzip, ops: seq<HandlerOp>) {
    var d := Decide(g.minSize, Claims(g), Live(g), g.buf, g.status, ops);
    Delivers(g.levelOk, Claims(g), Grants(g), d, Respond(g, ops))
  }

  lemma RawAsDecided(g: Gzip, ops: seq<HandlerOp>, h: Header)
    requires var d := Decide(g.minSize, Claims(g), Live(g), g.buf, g.status, ops);
             && (d.gzip ==> !g.levelOk) && HeaderOf(g.levelOk, Claims(g), Grants(g), d) == Some(h)
             && RawWire(Respond(g, ops), Head(Final(d.status), h),
                  (if d.gzip then [] else d.held)
                  + Strays(Claims(g), Grants(g), ModeOf(g.levelOk, Grants(g), d), d.header, d.rest))
    ensures AsDecided(g, ops)
  {
    var d := Decide(g.minSize, Claims(g), Live(g), g.buf, g.status, ops);
    var strays := Strays(Claims(g), Grants(g), ModeOf(g.levelOk, Grants(g), d), d.header, d.rest);
    assert [] + strays == strays;
    RawWireReceived(Respond(g, ops), Head(Final(d.status), h), (if d.gzip then [] else d.held) + strays);
  }

  // Settled by the handler's return.
  lemma ReturnDecided(g: Gzip)
    requires Pending(g)
    ensures AsDecided(g, [])
  {
    var g1, status := CommitUncompressed(g), OrOK(g.status);
    Commits1(g);
    FirstBytes(Bottom(g1.inner).(wroteHeader := false, hijacked := false, wire := []), []);
    assert g.buf + [] == g.buf;
    RawAsDecided(g, [], Live(g));
  }

  // Settled by a status, under a type that is not compressible.
  lemma StatusDecided(g: Gzip, ops: seq<HandlerOp>)
    requires Pending(g) && ops != [] && ops[0].WriteHeader? && !Compressible(Live(g).ctype)
    ensures AsDecided(g, ops)
  {
    var g0 := g.(status := ops[0].status, passthrough := true);
    Commits1(g0);
    RespondUnfolds(g, ops);
    FinishCommitted(CommitUncompressed(g0), Through, ops[1..], OrOK(g0.status), Live(g), g.buf);
    FinalHint(g, ops, Through);
  }

  // The lemma above and its like deliver what was decided.
  lemma FinalHint(g: Gzip, ops: seq<HandlerOp>, mode: Mode)
    requires var d := Decide(g.minSize, Claims(g), Live(g), g.buf, g.status, ops);
             var strays := Strays(Claims(g), Grants(g), mode, d.header, d.rest);
             var then_ := HeaderThen(Claims(g), Grants(g), mode, d.header, d.rest);
             && !d.gzip && mode == ModeOf(g.levelOk, Grants(g), d)
             && if Hints(g.levelOk, d) then
                  if then_.None? then Respond(g, ops) == []
                  else RawWire(Respond(g, ops), Head(StatusOK, then_.value), strays)
                else RawWire(Respond(g, ops), Head(Final(d.status), d.header), d.held + strays)
    ensures AsDecided(g, ops)
  {
    var d := Decide(g.minSize, Claims(g), Live(g), g.buf, g.status, ops);
    var h := HeaderOf(g.levelOk, Claims(g), Grants(g), d);
    var strays := Strays(Claims(g), Grants(g), mode, d.header, d.rest);
    assert [] + strays == strays;
    if h.Some? {
      RawAsDecided(g, ops, h.value);
    }
  }

  // A write that settles: the header and the bytes held, then its own.
  lemma BytesSettle(g: Gzip, p: bytes)
    requires Pending(g) && !Compressible(Live(g).ctype)
    ensures var g1, h := GzipStep(g, Write(p)), Live(g);
            && InMode(g1, Through) && Live(g1) == h && Claims(g1) == Claims(g) && Grants(g1) == Grants(g)
            && Bottom(g1.inner).wroteHeader
            && RawWire(Wire(g1), Head(Final(OrOK(g.status)), h), g.buf + p)
  {
    var g0 := g.(passthrough := true);
    var g1 := CommitUncompressed(g0);
    Commits1(g0);
    assert GzipStep(g, Write(p)) == g1.(inner := Base(ResponseStep(Bottom(g1.inner), Write(p))));
    if Bottom(g1.inner).wroteHeader {
      SentRaw(g1, p, Head(Final(OrOK(g.status)), Live(g)), g.buf);
    } else {
      FirstBytes(Bottom(g1.inner), p);
      assert g.buf + p == p;
    }
  }

  // Settled by a write under a type that is not compressible.
  lemma BytesDecided(g: Gzip, ops: seq<HandlerOp>)
    requires Pending(g) && ops != [] && ops[0].Write? && !Compressible(Live(g).ctype)
    ensures AsDecided(g, ops)
  {
    BytesSettle(g, ops[0].data);
    RespondUnfolds(g, ops);
    FinishRaw(GzipStep(g, ops[0]), Through, ops[1..], Head(Final(OrOK(g.status)), Live(g)), g.buf + ops[0].data);
    RawAsDecided(g, ops, Live(g));
  }

  // Settled by a flush.
  lemma FlushDecided(g: Gzip, ops: seq<HandlerOp>)
    requires Pending(g) && ops != [] && ops[0].Flush?
    ensures AsDecided(g, ops)
  {
    var g0, head := g.(passthrough := true), Head(Final(OrOK(g.status)), Live(g));
    var g1 := CommitUncompressed(g0);
    var g2 := GzipStep(g, ops[0]);
    Commits1(g0);
    RespondUnfolds(g, ops);
    assert g2 == g1.(inner := Base(ResponseStep(Bottom(g1.inner), Flush)));
    if !Bottom(g1.inner).wroteHeader {
      FirstBytes(Bottom(g1.inner), []);
    }
    FinishRaw(g2, Through, ops[1..], head, g.buf);
    RawAsDecided(g, ops, Live(g));
  }

  // Settled by a hijack, granted or refused.
  lemma HijackDecided(g: Gzip, ops: seq<HandlerOp>)
    requires Pending(g) && ops != [] && ops[0].Hijack? && Claims(g)
    ensures AsDecided(g, ops)
  {
    var g1, g2 := CommitUncompressed(g), GzipStep(g, ops[0]);
    Commits1(g);
    RespondUnfolds(g, ops);
    assert g2 == g1.(inner := Base(ResponseStep(Bottom(g1.inner), Hijack)));
    if Grants(g) {
      FinishGone(g2, ops[1..]);
      assert g.buf + [] == g.buf;
      FinalHint(g, ops, Gone);
    } else {
      assert g2 == g1;
      FinishCommitted(g1, Swallowing, ops[1..], OrOK(g.status), Live(g), g.buf);
      FinalHint(g, ops, Swallowing);
    }
  }

  predicate BeginsGzip(g: Gzip, op: HandlerOp) {
    op.Write? && Compressible(Live(g).ctype) && !Waits(g, op)
  }

  // What beginning to compress sends.
  lemma Begins(g: Gzip)
    requires Pending(g)
    ensures var g1 := StartGzip(g);
            var status, h := OrOK(g.status), GzipHeader(Live(g));
            && g1.inner.Base? && g1.committed && g1.gzipping && !g1.passthrough && !Bottom(g1.inner).hijacked
            && Live(g1) == h && Claims(g1) == Claims(g) && Grants(g1) == Grants(g)
            && if g.levelOk then Zipping(g1, Head(Final(status), h), g.buf)
               else
                 && g1.stream == NoStream
                 && if Informational(status) then !Bottom(g1.inner).wroteHeader && Wire(g1) == []
                    else Bottom(g1.inner).wroteHeader && RawWire(Wire(g1), Head(status, h), [])
  {
    var head := Head(Final(OrOK(g.status)), GzipHeader(Live(g)));
    assert [] + [head] == [head];
    CommitWire(head, []);
    assert ([head] + [Deflated(g.buf)])[1..] == [Deflated(g.buf)];
    assert [Deflated(g.buf)][..0] == [] && [] + g.buf == g.buf;
  }

  // Settled by the write that reaches MinSize.
  lemma GzipDecided(g: Gzip, ops: seq<HandlerOp>)
    requires Pending(g) && ops != [] && BeginsGzip(g, ops[0])
    ensures AsDecided(g, ops)
  {
    var g0 := g.(buf := g.buf + ops[0].data);
    var g1, status, h := StartGzip(g0), OrOK(g.status), GzipHeader(Live(g));
    Begins(g0);
    RespondUnfolds(g, ops);
    var mode := if g.levelOk then Streaming else Broken;
    StraysByType(Claims(g), Grants(g), mode, Live(g), h, ops[1..]);
    if g.levelOk {
      FinishZipping(g1, ops[1..], Head(Final(status), h), g0.buf);
    } else {
      FinishCommitted(g1, Broken, ops[1..], status, h, []);
      var strays := Strays(Claims(g), Grants(g), Broken, h, ops[1..]);
      var then_ := HeaderThen(Claims(g), Grants(g), Broken, h, ops[1..]);
      assert [] + strays == strays;
      if Informational(status) {
        if then_.Some? {
          RawAsDecided(g, ops, then_.value);
        }
      } else {
        RawAsDecided(g, ops, h);
      }
    }
  }

  lemma {:induction false} StraysByType(
    claims: bool, grants: bool, mode: Mode, h: Header, h1: Header, ops: seq<HandlerOp>)
    requires h.ctype == h1.ctype
    ensures Strays(claims, grants, mode, h, ops) == Strays(claims, grants, mode, h1, ops)
    decreases |ops|
  {
    if ops != [] && !mode.Gone? && !ops[0].SetHeader? {
      var mode1 :=
        if ops[0].Write? && (mode.Through? || !Compressible(h.ctype)) then Through
        else if ops[0].Hijack? && claims && mode.Streaming? then Broken
        else mode;
      StraysByType(claims, grants, mode1, h, h1, ops[1..]);
    }
  }

  lemma {:induction false} FinishPending(g: Gzip, ops: seq<HandlerOp>)
    requires Pending(g)
    ensures AsDecided(g, ops)
    decreases |ops|
  {
    if ops == [] {
      ReturnDecided(g);
    } else if Waits(g, ops[0]) {
      WaitingStep(g, ops[0]);
      RespondUnfolds(g, ops);
      FinishPending(GzipStep(g, ops[0]), ops[1..]);
    } else if BeginsGzip(g, ops[0]) {
      GzipDecided(g, ops);
    } else {
      match ops[0]
      case WriteHeader(_) => StatusDecided(g, ops);
      case Write(_) => BytesDecided(g, ops);
      case Flush => FlushDecided(g, ops);
      case Hijack => HijackDecided(g, ops);
    }
  }

  // ---- the theorems ----

  // A compressor that nothing has been sent through, on a fresh response.
  predicate Unused(c: Chain) {
    Fresh(Bottom(c)) && !AnyCommitted(c)
  }

  function Decided(minSize: int, inner: Chain, ops: seq<HandlerOp>): Decision {
    Decide(minSize, Hijackable(inner), Bottom(inner).header, [], 0, ops)
  }

  predicate GrantsBelow(c: Chain) {
    CanHijack(Bottom(c))
  }

  // Every response of a compressed handler, for every trace and every level:
  // exactly one header, ahead of the body, with the status and header in force
  // when the response was settled (or, for an informational status with
  // nothing to send, when the header went out), labelled gzip exactly when it
  // is; and the content that Outcome says. None at all only if the connection
  // was given away before the header.
  lemma OneHeaderAsDecided(minSize: int, levelOk: bool, inner: Chain, ops: seq<HandlerOp>)
    requires Unused(inner)
    ensures Delivers(levelOk, Hijackable(inner), GrantsBelow(inner), Decided(minSize, inner, ops),
                     Respond(New(minSize, levelOk, inner), ops))
  {
    var g := New(minSize, levelOk, inner);
    RespondIsFlat(g, ops);
    FinishPending(Flat(g), ops);
  }

  // What was held when the response was settled, and what follows, is what
  // the handler wrote.
  lemma {:induction false} DecidedPayload(
    minSize: int, claims: bool, h: Header, held: bytes, status: int, ops: seq<HandlerOp>)
    ensures var d := Decide(minSize, claims, h, held, status, ops);
            held + Payload(ops) == d.held + Payload(d.rest) && (d.gzip ==> |d.held| >= minSize)
    decreases |ops|
  {
    if ops != [] {
      var op := ops[0];
      PayloadUnfolds(held, ops);
      assert DataOf(op) == [] ==> held + DataOf(op) == held;
      DecidedPayload(minSize, claims, if op.SetHeader? then op.header else h, held + DataOf(op),
        if op.WriteHeader? then op.status else status, ops[1..]);
    }
  }

  // Transparency, for every trace. The client, decoding by the committed
  // Content-Encoding, ends up with exactly what the handler wrote in the
  // coding the handler named, if and only if compression is harmless to the
  // decided response.
  lemma Transparent(minSize: int, inner: Chain, ops: seq<HandlerOp>)
    requires Unused(inner)
    ensures var d := Decided(minSize, inner, ops);
            var claims, grants := Hijackable(inner), GrantsBelow(inner);
            Receive(Respond(New(minSize, true, inner), ops)) == Received(Coding(claims, grants, d), Payload(ops))
            <==> Harmless(claims, grants, d)
  {
    var d := Decided(minSize, inner, ops);
    OneHeaderAsDecided(minSize, true, inner, ops);
    DecidedPayload(minSize, Hijackable(inner), Bottom(inner).header, [], 0, ops);
    assert [] + Payload(ops) == Payload(ops);
    var mode := ModeOf(true, GrantsBelow(inner), d);
    SameTail(d.held, Strays(Hijackable(inner), GrantsBelow(inner), mode, d.header, d.rest), Payload(d.rest));
    SameTail(d.held, Payload(Ahead(Hijackable(inner), d.rest)), Payload(d.rest));
  }

  lemma SameTail(a: bytes, b: bytes, c: bytes)
    ensures a + b == a + c <==> b == c
  {
    assert (a + b)[|a|..] == b && (a + c)[|a|..] == c;
  }

  // With a level that gzip refuses, for every trace up to a write that panics:
  // once compression begins, all that follows the gzip-labelled header is the
  // bytes that bypass the missing stream, uncompressed. So the client gets
  // what the handler wrote if and only if compression never begins and would
  // have been harmless, or the header calls the body what the handler called
  // it and the bypassing bytes are all there is.
  lemma RefusedLevel(minSize: int, inner: Chain, ops: seq<HandlerOp>)
    requires Unused(inner)
    ensures var d, wire := Decided(minSize, inner, ops), Respond(New(minSize, false, inner), ops);
            var claims, grants := Hijackable(inner), GrantsBelow(inner);
            var h, sent := HeaderOf(false, claims, grants, d), Strays(claims, grants, Broken, d.header, d.rest);
            && (d.gzip && h.Some? ==> wire != [] && Receive(wire) == Received(h.value.encoding, sent))
            && (d.gzip && !Informational(d.status) ==> h.Some? && h.value.encoding == "gzip")
            && (Receive(wire) == Received(Coding(claims, grants, d), Payload(ops)) <==>
                if d.gzip then h.Some? && h.value.encoding == d.header.encoding && sent == Payload(ops)
                else Harmless(claims, grants, d))
  {
    var d := Decided(minSize, inner, ops);
    OneHeaderAsDecided(minSize, false, inner, ops);
    DecidedPayload(minSize, Hijackable(inner), Bottom(inner).header, [], 0, ops);
    assert [] + Payload(ops) == Payload(ops);
    var mode := ModeOf(true, GrantsBelow(inner), d);
    SameTail(d.held, Strays(Hijackable(inner), GrantsBelow(inner), mode, d.header, d.rest), Payload(d.rest));
  }

  // For a handler that never calls Hijack nothing is lost to one.
  lemma {:induction false} AheadOfNoHijack(claims: bool, ops: seq<HandlerOp>)
    requires NoHijack(ops)
    ensures Ahead(claims, ops) == ops
  {
    if ops != [] {
      AheadOfNoHijack(claims, ops[1..]);
    }
  }

  lemma {:induction false} DecidedSuffix(
    minSize: int, claims: bool, h: Header, held: bytes, status: int, ops: seq<HandlerOp>)
    requires NoHijack(ops)
    ensures var d := Decide(minSize, claims, h, held, status, ops); NoHijack(d.rest) && d.cause != ByHijack
    decreases |ops|
  {
    if ops != [] {
      var op := ops[0];
      assert !op.Hijack? && held + [] == held;
      DecidedSuffix(minSize, claims, if op.SetHeader? then op.header else h, held + DataOf(op),
        if op.WriteHeader? then op.status else status, ops[1..]);
    }
  }

  lemma {:induction false} AllGoesThrough(claims: bool, grants: bool, h: Header, ops: seq<HandlerOp>)
    requires NoHijack(ops) || !claims || !grants
    ensures Strays(claims, grants, Through, h, ops) == Payload(ops)
    ensures HeaderThen(claims, grants, Through, h, ops).Some?
    decreases |ops|
  {
    if ops != [] {
      AllGoesThrough(claims, grants, if ops[0].SetHeader? then ops[0].header else h, ops[1..]);
      assert [] + Payload(ops[1..]) == Payload(ops[1..]);
    }
  }

  // A hijack that is refused after the response has been settled uncompressed
  // by anything else does no harm: every byte arrives.
  lemma RefusedLaterIsHarmless(claims: bool, d: Decision)
    requires !d.gzip && d.cause != ByHijack
    ensures Harmless(claims, false, d)
  {
    AllGoesThrough(claims, false, d.header, d.rest);
  }

  // Without a hijack, compression is harmless if and only if it does not
  // begin, or the handler named no coding and no byte strays.
  lemma HarmlessWithoutHijack(minSize: int, claims: bool, grants: bool, h: Header, ops: seq<HandlerOp>)
    requires NoHijack(ops)
    ensures var d := Decide(minSize, claims, h, [], 0, ops);
            && HeaderOf(true, claims, grants, d).Some?
            && (Harmless(claims, grants, d) <==>
                (d.gzip ==> d.header.encoding == "" && Strays(claims, grants, Streaming, d.header, d.rest) == []))
  {
    var d := Decide(minSize, claims, h, [], 0, ops);
    DecidedSuffix(minSize, claims, h, [], 0, ops);
    AheadOfNoHijack(claims, d.rest);
    AllGoesThrough(claims, grants, d.header, d.rest);
  }

  // ---- before the response is settled ----

  // Until it commits, the writer has sent nothing and holds every byte
  // written so far, fewer than MinSize of them.
  lemma {:induction false} HoldsBackUntilCommit(g: Gzip, ops: seq<HandlerOp>)
    requires Pending(g) && (g.buf == [] || |g.buf| < g.minSize)
    ensures var g1 := GzipRun(g, ops);
            !g1.committed ==>
              && Wire(g1) == [] && g1.buf == g.buf + Payload(ops)
              && (g1.buf == [] || |g1.buf| < g.minSize)
    decreases |ops|
  {
    if ops == [] {
      assert g.buf + Payload(ops) == g.buf;
    } else {
      PayloadUnfolds(g.buf, ops);
      if Waits(g, ops[0]) {
        WaitingStep(g, ops[0]);
        HoldsBackUntilCommit(GzipStep(g, ops[0]), ops[1..]);
      } else {
        SettlingCommits(g, ops[0]);
        StaysCommitted(GzipStep(g, ops[0]), ops[1..]);
      }
    }
  }

  lemma SettlingCommits(g: Gzip, op: HandlerOp)
    requires Pending(g) && !Waits(g, op)
    ensures GzipStep(g, op).committed
  {
  }

  lemma {:induction false} StaysCommitted(g: Gzip, ops: seq<HandlerOp>)
    requires g.committed
    ensures GzipRun(g, ops).committed
    decreases |ops|
  {
    if ops != [] && !Panics(g, ops[0]) {
      StaysCommitted(GzipStep(g, ops[0]), ops[1..]);
    }
  }
}
