// Inputs on which compression is not transparent (security.go), one for each
// way that the conditions in Transparency can fail.
module Opacity {
  import opened Common
  import opened Strings
  import opened Writers
  import opened Compression
  import opened Transparency

  // A type change after gzip began puts plain bytes inside the gzip stream.
  lemma TypeChangeGarbles(b: Response, h: Header)
    requires Fresh(b) && b.header == h && h.ctype == Unset && h.encoding == ""
    ensures var png := h.(ctype := Media("image/png"));
            Receive(Respond(New(1, true, Base(b)), [Write([0]), SetHeader(png), Write([1])])) == Garbled
  {
    var png := h.(ctype := Media("image/png"));
    var tail: seq<HandlerOp> := [SetHeader(png), Write([1])];
    var ops: seq<HandlerOp> := [Write([0])] + tail;
    assert ops == [Write([0]), SetHeader(png), Write([1])];
    assert ops[1..] == tail && tail[1..] == [Write([1])];
    assert Lower("image/png")[0] == 'i' && !("text/" <= Lower("image/png"));
    assert |Lower("image/png")| == 9;
    forall t | t in CompressibleTypes ensures t != Lower("image/png") {
      assert |t| != 9;
    }
    assert [0] == [] + [0];
    var g := New(1, true, Base(b));
    assert Decide(1, b.hijacker, h, [], 0, ops) == Decision(200, h, true, ByBytes, [0], tail);
    assert Strays(b.hijacker, b.grants, Streaming, h, tail)
        == Strays(b.hijacker, b.grants, Streaming, png, [Write([1])]);
    assert Strays(b.hijacker, b.grants, Streaming, png, [Write([1])])[0] == 1;
    FinishPending(New(1, true, Base(b)), ops);
  }

  // A handler that compresses on its own and says so: its coding is replaced
  // by gzip, and what the client decodes is no longer labelled as what it is.
  lemma OwnCodingIsOverwritten(b: Response, p: bytes)
    requires Fresh(b) && Compressible(b.header.ctype) && p != []
    ensures var wire := Respond(New(|p|, true, Base(b)), [SetHeader(b.header.(encoding := "br")), Write(p)]);
            Receive(wire) == Received("", p) && Receive(wire) != Received("br", p)
  {
    var h := b.header.(encoding := "br");
    var tail: seq<HandlerOp> := [Write(p)];
    var ops: seq<HandlerOp> := [SetHeader(h)] + tail;
    assert ops == [SetHeader(h), Write(p)] && ops[1..] == tail && tail[1..] == [];
    assert [] + p == p;
    assert Decide(|p|, b.hijacker, b.header, [], 0, ops) == Decide(|p|, b.hijacker, h, [], 0, tail);
    assert Decide(|p|, b.hijacker, h, [], 0, tail) == Decision(200, h, true, ByBytes, p, []);
    assert Payload(ops) == [] + Payload(tail) && Payload(tail) == p + Payload(tail[1..]);
    assert [] + (p + []) == p && [] + p == p;
    FinishPending(New(|p|, true, Base(b)), ops);
  }

  // With a level gzip refuses, the header promises gzip and nothing follows.
  lemma RefusedLevelLosesBody(b: Response, p: bytes)
    requires Fresh(b) && Compressible(b.header.ctype) && p != []
    ensures Respond(New(|p|, false, Base(b)), [Write(p)]) == [Head(200, GzipHeader(b.header))]
  {
    var g := New(|p|, false, Base(b));
    assert [] + p == p;
    assert [Write(p)][1..] == [];
    assert GzipStep(g, Write(p)) == StartGzip(g.(buf := p));
    assert GzipRun(g, [Write(p)]) == GzipRun(StartGzip(g.(buf := p)), []);
  }

  // A recorder offers Hijack even when the response below cannot be hijacked.
  // The compressor then commits what it holds, the call fails, and of what the
  // handler writes after that exactly the bytes under a type that is not
  // compressible, and all after the first such, are sent: the others are
  // buffered and never leave. So the client gets the response if and only if
  // these are all it wrote.
  lemma RefusedHijack(minSize: int, inner: Chain, ops: seq<HandlerOp>)
    requires Unused(inner) && Hijackable(inner) && !GrantsBelow(inner)
    ensures var h := Bottom(inner).header;
            var sent := Strays(true, false, Swallowing, h, ops);
            var wire := Respond(New(minSize, true, inner), [Hijack] + ops);
            && OneHead(wire) && wire[0] == Head(200, h)
            && Receive(wire) == Received(h.encoding, sent)
            && (Receive(wire) == Received(h.encoding, Payload([Hijack] + ops)) <==> sent == Payload(ops))
  {
    var all: seq<HandlerOp> := [Hijack] + ops;
    assert all[1..] == ops;
    var sent := Strays(true, false, Swallowing, Bottom(inner).header, ops);
    assert [] + sent == sent && [] + Payload(ops) == Payload(ops);
    OneHeaderAsDecided(minSize, true, inner, all);
  }

  // A refused hijack, and then an ordinary answer: the client gets 200 and
  // nothing else.
  lemma FailedHijackLosesBody(b: Response, minSize: int, p: bytes)
    requires Fresh(b) && !CanHijack(b) && Compressible(b.header.ctype)
    ensures var g := New(minSize, true, Recorder(NewRecorder, Base(b)));
            var wire := Respond(g, [Hijack, WriteHeader(500), Write(p)]);
            OneHead(wire) && wire[0] == Head(200, b.header) && Receive(wire) == Received(b.header.encoding, [])
  {
    var last: seq<HandlerOp> := [Write(p)];
    var ops: seq<HandlerOp> := [WriteHeader(500)] + last;
    assert ops[1..] == last && last[1..] == [];
    assert [Hijack] + ops == [Hijack, WriteHeader(500), Write(p)];
    assert Strays(true, false, Swallowing, b.header, last) == Strays(true, false, Swallowing, b.header, last[1..]);
    assert Strays(true, false, Swallowing, b.header, ops) == [];
    RefusedHijack(minSize, Recorder(NewRecorder, Base(b)), ops);
  }
}
