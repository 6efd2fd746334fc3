// What the compressor puts into the response header, and under which types it
// steps aside (security.go), said of the trace and the wire themselves.
module Labelling {
  import opened Common
  import opened Strings
  import opened Writers
  import opened Compression
  import opened Transparency

  // ---- which types are compressed ----

  // Text, save event streams, and six named types, in any case.
  predicate TextLike(media: string) {
    && !EqualFold(media, "text/event-stream")
    && (|| (|media| >= 5 && EqualFold(media[..5], "text/"))
        || EqualFold(media, "application/json")
        || EqualFold(media, "application/ld+json")
        || EqualFold(media, "application/problem+json")
        || EqualFold(media, "application/javascript")
        || EqualFold(media, "application/xml")
        || EqualFold(media, "application/xhtml+xml"))
  }

  lemma LowerStays(name: string)
    requires forall i | 0 <= i < |name| :: !('A' <= name[i] <= 'Z')
    ensures Lower(name) == name
  {
  }

  // A type the handler leaves unset counts as text; one that does not parse
  // does not.
  lemma CompressibleTypesAre(ct: ContentType)
    ensures Compressible(ct) <==> ct.Unset? || (ct.Media? && TextLike(ct.name))
  {
    if ct.Media? {
      var m := ct.name;
      forall name | name in CompressibleTypes + {"text/event-stream"} ensures Lower(m) == name <==> EqualFold(m, name) {
        LowerStays(name);
        LowerIsFold(m, name);
      }
      LowerStays("text/");
      if |m| >= 5 {
        LowerIsFold(m[..5], "text/");
        assert Lower(m)[..5] == Lower(m[..5]);
      }
    }
  }

  // ---- where a trace settles the response ----

  // The status in force after the calls.
  function LastStatus(status: int, ops: seq<Op>): int
    decreases |ops|
  {
    if ops == [] then status
    else LastStatus(if ops[0].WriteHeader? then ops[0].status else status, ops[1..])
  }

  // Call k would settle a response that nothing has settled before.
  predicate Settles(minSize: int, claims: bool, h: Header, held: bytes, ops: seq<HandlerOp>, k: nat)
    requires k < |ops|
  {
    var ctype := LastHeader(h, ops[..k]).ctype;
    match ops[k]
    case SetHeader(_) => false
    case WriteHeader(_) => !Compressible(ctype)
    case Write(_) => !Compressible(ctype) || |held| + |Payload(ops[..k + 1])| >= minSize
    case Flush => true
    case Hijack => claims
  }

  // A settled response read off the trace: the header, status and bytes up to
  // and including the settling call, compressed iff that call is a write of a
  // compressible type.
  predicate SettledAt(d: Decision, h: Header, held: bytes, status: int, ops: seq<HandlerOp>, k: nat)
    requires k <= |ops|
  {
    var settled := if k < |ops| then ops[..k + 1] else ops;
    && d.header == LastHeader(h, ops[..k])
    && d.status == OrOK(LastStatus(status, settled))
    && d.held == held + Payload(settled)
    && d.rest == ops[|settled|..]
    && (d.gzip <==> k < |ops| && ops[k].Write? && Compressible(d.header.ctype))
  }

  lemma TakeUnfolds(ops: seq<HandlerOp>, k: nat)
    requires ops != [] && k < |ops|
    ensures ops[..k + 1][0] == ops[0] && ops[..k + 1][1..] == ops[1..][..k]
  {
  }

  // Settling later in the tail is settling one call later in the whole.
  lemma SettlesUnfolds(minSize: int, claims: bool, h: Header, held: bytes, ops: seq<HandlerOp>, k: nat)
    requires 0 < k < |ops|
    ensures var h1 := if ops[0].SetHeader? then ops[0].header else h;
            Settles(minSize, claims, h, held, ops, k)
            <==> Settles(minSize, claims, h1, held + DataOf(ops[0]), ops[1..], k - 1)
  {
    TakeUnfolds(ops, k);
    TakeUnfolds(ops, k - 1);
    assert ops[..k + 1][1..] == ops[1..][..k];
  }

  lemma SettledAtUnfolds(d: Decision, h: Header, held: bytes, status: int, ops: seq<HandlerOp>, k: nat)
    requires 0 < k <= |ops|
    requires SettledAt(d, if ops[0].SetHeader? then ops[0].header else h, held + DataOf(ops[0]),
                       if ops[0].WriteHeader? then ops[0].status else status, ops[1..], k - 1)
    ensures SettledAt(d, h, held, status, ops, k)
  {
    TakeUnfolds(ops, k - 1);
    var settled := if k < |ops| then ops[..k + 1] else ops;
    assert settled[1..] == if k < |ops| then ops[1..][..k] else ops[1..];
    ConcatAssoc(held, DataOf(ops[0]), Payload(settled[1..]));
    assert ops[|settled|..] == ops[1..][|settled| - 1..];
  }

  lemma SettledNow(minSize: int, claims: bool, h: Header, held: bytes, status: int, ops: seq<HandlerOp>)
    requires ops == [] || Settles(minSize, claims, h, held, ops, 0)
    ensures SettledAt(Decide(minSize, claims, h, held, status, ops), h, held, status, ops, 0)
  {
    assert held + [] == held;
    if ops != [] {
      var op := ops[0];
      assert ops[..1] == [op] && [op][1..] == [] && ops[..0] == [];
      assert Payload([op]) == DataOf(op) + Payload([]) && DataOf(op) + [] == DataOf(op);
      assert LastStatus(status, [op]) == if op.WriteHeader? then op.status else status;
    }
  }

  // The decision in closed form: the first call that settles the response, if
  // any does, fixes all of it.
  lemma {:induction false} DecidedByFirst(
    minSize: int, claims: bool, h: Header, held: bytes, status: int, ops: seq<HandlerOp>)
    returns (k: nat)
    ensures k <= |ops| && (k < |ops| ==> Settles(minSize, claims, h, held, ops, k))
    ensures forall j | 0 <= j < k :: !Settles(minSize, claims, h, held, ops, j)
    ensures SettledAt(Decide(minSize, claims, h, held, status, ops), h, held, status, ops, k)
    decreases |ops|
  {
    if ops == [] || Settles(minSize, claims, h, held, ops, 0) {
      k := 0;
      SettledNow(minSize, claims, h, held, status, ops);
    } else {
      var op := ops[0];
      var h1 := if op.SetHeader? then op.header else h;
      var status1 := if op.WriteHeader? then op.status else status;
      WaitsNow(minSize, claims, h, held, status, ops);
      var n := DecidedByFirst(minSize, claims, h1, held + DataOf(op), status1, ops[1..]);
      k := n + 1;
      if k < |ops| {
        SettlesUnfolds(minSize, claims, h, held, ops, k);
      }
      forall j | 0 <= j < k ensures !Settles(minSize, claims, h, held, ops, j) {
        if j > 0 {
          SettlesUnfolds(minSize, claims, h, held, ops, j);
        }
      }
      SettledAtUnfolds(Decide(minSize, claims, h, held, status, ops), h, held, status, ops, k);
    }
  }

  lemma WaitsNow(minSize: int, claims: bool, h: Header, held: bytes, status: int, ops: seq<HandlerOp>)
    requires ops != [] && !Settles(minSize, claims, h, held, ops, 0)
    ensures Decide(minSize, claims, h, held, status, ops)
         == Decide(minSize, claims, if ops[0].SetHeader? then ops[0].header else h, held + DataOf(ops[0]),
                   if ops[0].WriteHeader? then ops[0].status else status, ops[1..])
  {
    var op := ops[0];
    assert held + [] == held;
    assert ops[..1] == [op] && [op][1..] == [] && ops[..0] == [];
    assert Payload([op]) == DataOf(op) + Payload([]) && DataOf(op) + [] == DataOf(op);
  }

  // ---- the header that is sent ----

  // For every trace, level and response: a compressed response declares no
  // length, names gzip, varies by Accept-Encoding after whatever it varied by,
  // and is otherwise under the handler's header; one that is not compressed is
  // under the handler's header as it stands. That is the header in force when
  // the response was settled, unless that was by an informational status with
  // nothing to send.
  lemma HeaderSent(minSize: int, levelOk: bool, inner: Chain, ops: seq<HandlerOp>)
    requires Unused(inner) && !Hints(levelOk, Decided(minSize, inner, ops))
    ensures var d, wire := Decided(minSize, inner, ops), Respond(New(minSize, levelOk, inner), ops);
            && OneHead(wire) && wire[0].status == Final(d.status)
            && var h := wire[0].header;
               && h.ctype == d.header.ctype
               && h.length == (if d.gzip then None else d.header.length)
               && h.encoding == (if d.gzip then "gzip" else d.header.encoding)
               && h.vary == d.header.vary + if d.gzip then ["Accept-Encoding"] else []
  {
    OneHeaderAsDecided(minSize, levelOk, inner, ops);
  }

  // ---- types the compressor steps aside for ----

  // No type along the way is compressible.
  predicate NeverCompressible(h: Header, ops: seq<Op>) {
    && !Compressible(h.ctype)
    && forall i | 0 <= i < |ops| :: ops[i].SetHeader? ==> !Compressible(ops[i].header.ctype)
  }

  predicate Chosen(ops: seq<Op>) {
    forall i | 0 <= i < |ops| :: ops[i].WriteHeader? ==> ops[i].status != 0
  }

  // Once it has stepped aside the compressor is as good as a recorder.
  lemma {:induction false} StandsAside(g: Gzip, ops: seq<HandlerOp>)
    requires g.inner.Base? && g.passthrough && g.committed && g.stream == NoStream && NoHijack(ops)
    ensures Bottom(GzipRun(g, ops).inner) == ResponseRun(Bottom(g.inner), Heard(true, ops))
    ensures GzipRun(g, ops).buf == g.buf
    decreases |ops|
  {
    if ops != [] {
      var op, rest := ops[0], Heard(true, ops[1..]);
      assert !op.Hijack? && ([op] + rest)[1..] == rest;
      StandsAside(GzipStep(g, op), ops[1..]);
    }
  }

  // The call with which it steps aside has on the response the effect it would
  // have had without it.
  lemma StepsAside(g: Gzip, op: HandlerOp)
    requires Pending(g) && g.buf == [] && g.status == 0 && !Compressible(Live(g).ctype)
    requires !op.SetHeader? && !op.Hijack? && (op.WriteHeader? ==> op.status != 0)
    ensures var g1 := GzipStep(g, op);
            && g1.inner == Base(ResponseStep(Bottom(g.inner), op)) && g1.buf == []
            && g1.passthrough && g1.committed && g1.stream == NoStream
  {
  }

  // Under types that are not compressible, event streams among them, the
  // compressor hands on each call as it comes, byte for byte and flush for
  // flush: after every trace the response is as it would be behind a recorder,
  // and nothing is held back.
  lemma {:induction false} HandsOn(g: Gzip, ops: seq<HandlerOp>)
    requires Pending(g) && g.buf == [] && g.status == 0
    requires NeverCompressible(Live(g), ops) && NoHijack(ops) && Chosen(ops)
    ensures Bottom(GzipRun(g, ops).inner) == ResponseRun(Bottom(g.inner), Heard(false, ops))
    ensures GzipRun(g, ops).buf == []
    decreases |ops|
  {
    if ops != [] {
      var op := ops[0];
      var rest := Heard(Commits(op), ops[1..]);
      assert !op.Hijack? && ([op] + rest)[1..] == rest;
      if op.SetHeader? {
        HandsOn(GzipStep(g, op), ops[1..]);
      } else {
        StepsAside(g, op);
        StandsAside(GzipStep(g, op), ops[1..]);
        if op.Flush? {
          ClosedRun(ResponseStep(Bottom(g.inner), op), false, ops[1..]);
          ClosedRun(ResponseStep(Bottom(g.inner), op), true, ops[1..]);
        }
      }
    }
  }

  // So a handler that sticks to such types is served as without compression,
  // unless it loses a status that follows an informational one.
  lemma StreamsUntouched(minSize: int, levelOk: bool, b: Response, ops: seq<HandlerOp>)
    requires Fresh(b) && NeverCompressible(b.header, ops) && NoHijack(ops) && Chosen(ops)
    ensures var g := GzipRun(New(minSize, levelOk, Base(b)), ops);
            && g.buf == [] && Bottom(g.inner) == ResponseRun(b, Heard(false, ops))
            && (Finish(Bottom(g.inner)) == Finish(ResponseRun(b, ops))
                <==> !Loses(CanHijack(b), b.header, false, None, ops))
  {
    HandsOn(New(minSize, levelOk, Base(b)), ops);
    RecordersAreInvisible(b, ops);
  }
}
