// How a handler cuts its body into writes does not matter to the client
// (security.go): only the total length decides whether it is compressed.
module Chunking {
  import opened Common
  import opened Writers
  import opened Compression
  import opened Transparency

  // Statuses and bytes, and nothing else.
  predicate Straight(ops: seq<Op>) {
    forall i | 0 <= i < |ops| :: ops[i].WriteHeader? || ops[i].Write?
  }

  lemma {:induction false} NothingStrays(claims: bool, grants: bool, h: Header, ops: seq<HandlerOp>)
    requires Compressible(h.ctype) && Straight(ops)
    ensures Strays(claims, grants, Streaming, h, ops) == []
  {
    if ops != [] {
      NothingStrays(claims, grants, h, ops[1..]);
    }
  }

  lemma {:induction false} DecidedBySize(
    minSize: int, claims: bool, grants: bool, h: Header, held: bytes, status: int, ops: seq<HandlerOp>)
    requires Compressible(h.ctype) && |held| < minSize && Straight(ops)
    ensures var d := Decide(minSize, claims, h, held, status, ops);
            && d.header == h && (d.gzip <==> |held| + |Payload(ops)| >= minSize)
            && (if d.gzip then d.cause == ByBytes && Strays(claims, grants, Streaming, h, d.rest) == []
                else d.cause == ByReturn && d.rest == [])
    decreases |ops|
  {
    if ops != [] {
      var op := ops[0];
      if op.WriteHeader? {
        DecidedBySize(minSize, claims, grants, h, held, op.status, ops[1..]);
      } else if |held| + |op.data| < minSize {
        DecidedBySize(minSize, claims, grants, h, held + op.data, status, ops[1..]);
      } else {
        NothingStrays(claims, grants, h, ops[1..]);
      }
    }
  }

  // For a fixed compressible type and no flush, gzip is used exactly when the
  // whole body reaches MinSize, and the client gets the body either way.
  lemma GzipBySize(minSize: int, inner: Chain, ops: seq<HandlerOp>)
    requires Unused(inner) && minSize >= 1 && Straight(ops)
    requires Compressible(Bottom(inner).header.ctype) && Bottom(inner).header.encoding == ""
    ensures var h, wire := Bottom(inner).header, Respond(New(minSize, true, inner), ops);
            && OneHead(wire) && wire[0].status == Final(Decided(minSize, inner, ops).status)
            && wire[0].header == (if |Payload(ops)| >= minSize then GzipHeader(h) else h)
            && Receive(wire) == Received("", Payload(ops))
  {
    var claims, grants, h := Hijackable(inner), GrantsBelow(inner), Bottom(inner).header;
    forall i | 0 <= i < |ops| ensures !ops[i].Hijack? {
      assert ops[i].WriteHeader? || ops[i].Write?;
    }
    DecidedBySize(minSize, claims, grants, h, [], 0, ops);
    HarmlessWithoutHijack(minSize, claims, grants, h, ops);
    OneHeaderAsDecided(minSize, true, inner, ops);
    Transparent(minSize, inner, ops);
  }

  // ---- one status, then the body in chunks ----

  function Writes(chunks: seq<bytes>): seq<HandlerOp> {
    seq(|chunks|, i requires 0 <= i < |chunks| => Write(chunks[i]))
  }

  lemma {:induction false} PayloadOfWrites(chunks: seq<bytes>)
    ensures Payload(Writes(chunks)) == Flatten(chunks)
  {
    if chunks != [] {
      assert Writes(chunks)[1..] == Writes(chunks[1..]);
      PayloadOfWrites(chunks[1..]);
    }
  }

  lemma {:induction false} StatusOfWrites(
    minSize: int, claims: bool, h: Header, held: bytes, status: int, chunks: seq<bytes>)
    ensures Decide(minSize, claims, h, held, status, Writes(chunks)).status == OrOK(status)
    decreases |chunks|
  {
    if chunks != [] {
      assert Writes(chunks)[1..] == Writes(chunks[1..]);
      StatusOfWrites(minSize, claims, h, held + chunks[0], status, chunks[1..]);
    }
  }

  lemma ChunkedResponse(minSize: int, inner: Chain, status: int, chunks: seq<bytes>)
    requires Unused(inner) && minSize >= 1
    requires Compressible(Bottom(inner).header.ctype) && Bottom(inner).header.encoding == ""
    ensures var wire := Respond(New(minSize, true, inner), [WriteHeader(status)] + Writes(chunks));
            var h := Bottom(inner).header;
            && OneHead(wire)
            && wire[0] == Head(Final(OrOK(status)), if |Flatten(chunks)| >= minSize then GzipHeader(h) else h)
            && Receive(wire) == Received("", Flatten(chunks))
  {
    var ops: seq<HandlerOp> := [WriteHeader(status)] + Writes(chunks);
    assert ops[1..] == Writes(chunks);
    PayloadOfWrites(chunks);
    assert [] + Flatten(chunks) == Flatten(chunks);
    StatusOfWrites(minSize, Hijackable(inner), Bottom(inner).header, [], status, chunks);
    GzipBySize(minSize, inner, ops);
  }

  // Any two ways of writing the same bytes look the same to the client.
  lemma ChunkingIsInvisible(minSize: int, inner: Chain, status: int, a: seq<bytes>, b: seq<bytes>)
    requires Unused(inner) && minSize >= 1
    requires Compressible(Bottom(inner).header.ctype) && Bottom(inner).header.encoding == ""
    requires Flatten(a) == Flatten(b)
    ensures var wa := Respond(New(minSize, true, inner), [WriteHeader(status)] + Writes(a));
            var wb := Respond(New(minSize, true, inner), [WriteHeader(status)] + Writes(b));
            OneHead(wa) && OneHead(wb) && wa[0] == wb[0] && Receive(wa) == Receive(wb)
  {
    ChunkedResponse(minSize, inner, status, a);
    ChunkedResponse(minSize, inner, status, b);
  }
}
