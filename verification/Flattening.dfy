// Recorders below the compressor change nothing that the client receives:
// the wire is that of a compressor directly on the response.
module Flattening {
  import opened Common
  import opened Writers
  import opened Compression

  // The response below, with the Hijack method that the chain offers and the
  // outcome that calling it has.
  function FlatResponse(c: Chain): Response {
    Bottom(c).(hijacker := Hijackable(c), grants := CanHijack(Bottom(c)))
  }

  function Flat(g: Gzip): Gzip {
    g.(inner := Base(FlatResponse(g.inner)))
  }

  // No recorder below has heard a status that the compressor still withholds.
  predicate Sound(g: Gzip) {
    g.committed || (!AnyCommitted(g.inner) && g.stream == NoStream)
  }

  lemma StepIsFlat(g: Gzip, op: Op)
    requires op.WriteHeader? ==> !AnyCommitted(g.inner)
    ensures Flat(g.(inner := Step(g.inner, op))) == Flat(g).(inner := Step(Flat(g).inner, op))
    ensures Hijackable(Step(g.inner, op)) == Hijackable(g.inner)
    ensures AnyCommitted(Step(g.inner, op)) ==> AnyCommitted(g.inner) || Commits(op)
  {
    ChainIsTransparent(g.inner, op);
  }

  lemma CommitIsFlat(g: Gzip)
    requires Sound(g)
    ensures Flat(CommitUncompressed(g)) == CommitUncompressed(Flat(g))
    ensures Sound(CommitUncompressed(g)) && Hijackable(CommitUncompressed(g).inner) == Hijackable(g.inner)
  {
    if !g.committed {
      StepIsFlat(g, WriteHeader(OrOK(g.status)));
      StepIsFlat(g.(inner := Step(g.inner, WriteHeader(OrOK(g.status)))), Write(g.buf));
    }
  }

  lemma StartIsFlat(g: Gzip)
    requires Sound(g)
    ensures Flat(StartGzip(g)) == StartGzip(Flat(g)) && Sound(StartGzip(g))
  {
    if !g.committed {
      var i1 := Step(g.inner, SetHeader(GzipHeader(Live(g))));
      var i2 := Step(i1, WriteHeader(OrOK(g.status)));
      StepIsFlat(g, SetHeader(GzipHeader(Live(g))));
      StepIsFlat(g.(inner := i1), WriteHeader(OrOK(g.status)));
      StepIsFlat(g.(inner := i2), Deflate(g.buf));
    }
  }

  lemma WriteIsFlat(g: Gzip, p: bytes)
    requires Sound(g)
    ensures Flat(GzipWrite(g, p)) == GzipWrite(Flat(g), p) && Sound(GzipWrite(g, p))
  {
    if g.passthrough || !Compressible(Live(g).ctype) {
      var g1 := CommitUncompressed(g.(passthrough := true));
      CommitIsFlat(g.(passthrough := true));
      StepIsFlat(g1, Write(p));
    } else if g.gzipping {
      StepIsFlat(g, Deflate(p));
    } else {
      StartIsFlat(g.(buf := g.buf + p));
    }
  }

  lemma FlushIsFlat(g: Gzip)
    requires Sound(g)
    ensures Flat(GzipFlush(g)) == GzipFlush(Flat(g)) && Sound(GzipFlush(g))
  {
    if g.stream == NoStream && !g.committed {
      CommitIsFlat(g.(passthrough := true));
      StepIsFlat(CommitUncompressed(g.(passthrough := true)), Flush);
    } else {
      StepIsFlat(g, Flush);
    }
  }

  lemma HijackIsFlat(g: Gzip)
    requires Sound(g)
    ensures Flat(GzipHijack(g)) == GzipHijack(Flat(g)) && Sound(GzipHijack(g))
  {
    if Hijackable(g.inner) {
      match g.stream
      case Open =>
        StepIsFlat(g, EndGzip);
        StepIsFlat(g.(stream := NoStream, inner := Step(g.inner, EndGzip)), Hijack);
      case Finished => StepIsFlat(g.(stream := NoStream), Hijack);
      case NoStream =>
        CommitIsFlat(g);
        StepIsFlat(CommitUncompressed(g), Hijack);
    }
  }

  lemma GzipStepIsFlat(g: Gzip, op: HandlerOp)
    requires Sound(g)
    ensures Flat(GzipStep(g, op)) == GzipStep(Flat(g), op) && Sound(GzipStep(g, op))
    ensures Panics(Flat(g), op) <==> Panics(g, op)
  {
    match op
    case SetHeader(_) => StepIsFlat(g, op);
    case WriteHeader(c) => CommitIsFlat(g.(status := c, passthrough := true));
    case Write(p) => WriteIsFlat(g, p);
    case Flush => FlushIsFlat(g);
    case Hijack => HijackIsFlat(g);
  }

  // The wire is the same as with the compressor directly on the response.
  lemma {:induction false} RespondIsFlat(g: Gzip, ops: seq<HandlerOp>)
    requires Sound(g)
    ensures Respond(g, ops) == Respond(Flat(g), ops)
    decreases |ops|
  {
    if ops != [] {
      GzipStepIsFlat(g, ops[0]);
    }
    if ops == [] || Panics(g, ops[0]) {
      CommitIsFlat(g);
      StepIsFlat(g, EndGzip);
    } else {
      RespondIsFlat(GzipStep(g, ops[0]), ops[1..]);
    }
  }
}
