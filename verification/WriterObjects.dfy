// The response writers as the program has them: objects whose fields change
// call by call. Each method is proved to take its object's state through the
// step function of Writers and Compression, where the theorems are.
module WriterObjects {
  import opened Common
  import opened Strings
  import opened Writers
  import opened Compression
  import Chunking
  import Labelling
  import Transparency

  // The response of net/http.
  class ResponseWriter {
    var header: Header
    var wroteHeader: bool
    var early: seq<int>
    var wire: seq<Event>
    const hijacker: bool
    const grants: bool
    var hijacked: bool

    constructor (header: Header, hijacker: bool, grants: bool)
      ensures State() == Response(header, false, [], [], hijacker, grants, false)
    {
      this.header, this.wroteHeader, this.early, this.wire := header, false, [], [];
      this.hijacker, this.grants, this.hijacked := hijacker, grants, false;
    }

    function State(): Response
      reads this
    {
      Response(header, wroteHeader, early, wire, hijacker, grants, hijacked)
    }

    method SetHeader(h: Header)
      modifies this
      ensures State() == ResponseStep(old(State()), Op.SetHeader(h))
    {
      header := h;
    }

    method WriteHeader(status: int)
      modifies this
      ensures State() == ResponseStep(old(State()), Op.WriteHeader(status))
    {
      if hijacked || wroteHeader {
        return;
      }
      if Informational(status) {
        early := early + [status];
        return;
      }
      wroteHeader := true;
      wire := wire + [Head(status, header)];
    }

    method Write(p: bytes) returns (n: nat)
      modifies this
      ensures State() == ResponseStep(old(State()), Op.Write(p))
      ensures n == Took(old(State()), Op.Write(p))
    {
      if hijacked {
        return 0;
      }
      WriteHeader(StatusOK);
      if p != [] {
        wire := wire + [Raw(p)];
      }
      n := |p|;
    }

    method Flush()
      modifies this
      ensures State() == ResponseStep(old(State()), Op.Flush)
    {
      WriteHeader(StatusOK);
    }

    method Hijack() returns (ok: bool)
      modifies this
      ensures State() == ResponseStep(old(State()), Op.Hijack)
      ensures ok == (CanHijack(old(State())) && !old(hijacked))
    {
      ok := hijacker && grants && !hijacked;
      if ok {
        hijacked := true;
      }
    }

    // Output of a gzip.Writer on top of this response.
    method Emit(e: Event)
      requires e.Deflated? || e.GzipEnd?
      modifies this
      ensures State() == ResponseStep(old(State()), if e.Deflated? then Deflate(e.data) else EndGzip)
    {
      if hijacked {
        return;
      }
      WriteHeader(StatusOK);
      wire := wire + [e];
    }
  }

  // statusRecorder around another recorder, or around the response itself.
  class StatusRecorder {
    const base: ResponseWriter
    const next: StatusRecorder?
    var status: int
    var committed: bool
    var written: nat
    ghost const depth: nat
    ghost const Repr: set<object>

    ghost predicate Valid()
      reads this, Repr
      decreases depth
    {
      && this in Repr && base in Repr && (base as object) != this
      && (next != null ==>
          && next in Repr && next.Repr <= Repr && this !in next.Repr
          && next.base == base && next.depth < depth && next.Valid())
    }

    constructor (base: ResponseWriter, next: StatusRecorder?)
      requires next != null ==> next.base == base && next.Valid()
      ensures Valid() && this.base == base && this.next == next
      ensures fresh(Repr - (if next == null then {base} else {base} + next.Repr))
      ensures Abs() == Recorder(NewRecorder, if next == null then Base(base.State()) else next.Abs())
    {
      this.base, this.next := base, next;
      status, committed, written := StatusOK, false, 0;
      depth := if next == null then 0 else next.depth + 1;
      Repr := {this, base} + if next == null then {} else next.Repr;
    }

    ghost function Abs(): Chain
      requires Valid()
      reads this, Repr
      decreases depth
    {
      Recorder(RecorderState(status, committed, written),
               if next == null then Base(base.State()) else next.Abs())
    }

    method WriteHeader(code: int)
      requires Valid()
      modifies Repr
      ensures Valid() && Abs() == Step(old(Abs()), Op.WriteHeader(code))
      decreases depth
    {
      if !committed {
        status := code;
        committed := true;
        if next == null {
          base.WriteHeader(code);
        } else {
          next.WriteHeader(code);
        }
      }
    }

    method Write(p: bytes) returns (n: nat)
      requires Valid()
      modifies Repr
      ensures Valid() && Abs() == Step(old(Abs()), Op.Write(p))
      ensures n == Took(old(base.State()), Op.Write(p))
      decreases depth
    {
      BottomIsBase();
      if !committed {
        committed := true;
        if status == 0 {
          status := StatusOK;
        }
      }
      if next == null {
        n := base.Write(p);
      } else {
        n := next.Write(p);
      }
      written := written + n;
    }

    method Flush()
      requires Valid()
      modifies Repr
      ensures Valid() && Abs() == Step(old(Abs()), Op.Flush)
      decreases depth
    {
      if next == null {
        base.Flush();
      } else {
        next.Flush();
      }
    }

    // Delegated, and nothing recorded.
    method Hijack() returns (ok: bool)
      requires Valid()
      modifies Repr
      ensures Valid() && Abs() == Step(old(Abs()), Op.Hijack)
      ensures status == old(status) && committed == old(committed) && written == old(written)
      ensures ok == (CanHijack(old(base.State())) && !old(base.hijacked))
      decreases depth
    {
      if next == null {
        if !base.hijacker {
          return false;
        }
        ok := base.Hijack();
      } else {
        ok := next.Hijack();
      }
    }

    method Call(op: HandlerOp)
      requires Valid()
      modifies Repr
      ensures Valid() && Abs() == Step(old(Abs()), op)
    {
      match op
      case SetHeader(h) => SetHeader(h);
      case WriteHeader(code) => WriteHeader(code);
      case Write(p) => var n := Write(p);
      case Flush => Flush();
      case Hijack => var ok := Hijack();
    }

    // The header map is the response's own.
    method SetHeader(h: Header)
      requires Valid()
      modifies Repr
      ensures Valid() && Abs() == Step(old(Abs()), Op.SetHeader(h))
      decreases depth
    {
      if next == null {
        base.SetHeader(h);
      } else {
        next.SetHeader(h);
      }
    }

    lemma BottomIsBase()
      requires Valid()
      ensures Bottom(Abs()) == base.State()
      decreases depth
    {
      if next != null {
        next.BottomIsBase();
      }
    }
  }

  class GzipResponseWriter {
    const w: ResponseWriter
    const minSize: int
    const levelOk: bool
    var buf: bytes
    var status: int
    var committed: bool
    var gzipping: bool
    var passthrough: bool
    var stream: Stream

    constructor (w: ResponseWriter, minSize: int, levelOk: bool)
      ensures this.w == w && Abs() == New(minSize, levelOk, Base(w.State()))
    {
      this.w, this.minSize, this.levelOk := w, minSize, levelOk;
      buf, status := [], 0;
      committed, gzipping, passthrough, stream := false, false, false, NoStream;
    }

    function Abs(): Gzip
      reads this, w
    {
      Gzip(minSize, levelOk, buf, status, committed, gzipping, passthrough, stream, Base(w.State()))
    }

    method WriteHeader(code: int)
      modifies this, w
      ensures Abs() == GzipStep(old(Abs()), Op.WriteHeader(code))
    {
      if committed {
        return;
      }
      status := code;
      if !Compressible(w.header.ctype) {
        passthrough := true;
        CommitUncompressedLocked();
      }
    }

    method Write(p: bytes) returns (panicked: bool)
      modifies this, w
      ensures Abs() == GzipStep(old(Abs()), Op.Write(p))
      ensures panicked == Panics(old(Abs()), Op.Write(p))
    {
      panicked := false;
      if passthrough || !Compressible(w.header.ctype) {
        passthrough := true;
        CommitUncompressedLocked();
        var n := w.Write(p);
        return;
      }
      if gzipping {
        if stream == NoStream {
          // a method call on a nil gzip.Writer
          return true;
        }
        if stream == Open {
          w.Emit(Deflated(p));
        }
        return;
      }
      buf := buf + p;
      if |buf| < minSize {
        return;
      }
      StartGzipLocked();
    }

    method StartGzipLocked()
      modifies this, w
      ensures Abs() == StartGzip(old(Abs()))
    {
      if committed {
        return;
      }
      w.SetHeader(w.header.(length := None, encoding := "gzip", vary := w.header.vary + ["Accept-Encoding"]));
      if status == 0 {
        status := StatusOK;
      }
      w.WriteHeader(status);
      committed := true;
      gzipping := true;
      if !levelOk {
        return;
      }
      stream := Open;
      w.Emit(Deflated(buf));
      buf := [];
    }

    method CommitUncompressedLocked()
      modifies this, w
      ensures Abs() == CommitUncompressed(old(Abs()))
    {
      if committed {
        return;
      }
      if status == 0 {
        status := StatusOK;
      }
      w.WriteHeader(status);
      committed := true;
      if |buf| > 0 {
        var n := w.Write(buf);
        buf := [];
      }
    }

    method Flush()
      modifies this, w
      ensures Abs() == GzipStep(old(Abs()), Op.Flush)
    {
      if stream == NoStream && !committed {
        passthrough := true;
        CommitUncompressedLocked();
      }
      w.Flush();
    }

    method Hijack() returns (ok: bool)
      modifies this, w
      ensures Abs() == GzipStep(old(Abs()), Op.Hijack)
      ensures ok == (CanHijack(old(w.State())) && !old(w.hijacked))
    {
      if !w.hijacker {
        return false;
      }
      if stream != NoStream {
        if stream == Open {
          w.Emit(GzipEnd);
        }
        stream := NoStream;
      } else {
        CommitUncompressedLocked();
      }
      ok := w.Hijack();
    }

    method Close()
      modifies this, w
      ensures Abs() == Compression.Close(old(Abs()))
    {
      if stream != NoStream {
        if stream == Open {
          w.Emit(GzipEnd);
          stream := Finished;
        }
        return;
      }
      CommitUncompressedLocked();
    }

    method Call(op: HandlerOp) returns (panicked: bool)
      modifies this, w
      ensures Abs() == GzipStep(old(Abs()), op)
      ensures panicked == Panics(old(Abs()), op)
    {
      panicked := false;
      match op
      case SetHeader(h) => w.SetHeader(h);
      case WriteHeader(code) => WriteHeader(code);
      case Write(p) => panicked := Write(p);
      case Flush => Flush();
      case Hijack => var ok := Hijack();
    }
  }

  // ---- the middleware ----

  // The configured size, with the default the middleware fills in.
  function MinSize(configured: int): int {
    if configured == 0 then 1024 else configured
  }

  // Serve one request through Compression, and let net/http finish it. Only a
  // request that accepts gzip, is no websocket upgrade, and has no coding named
  // ahead of the handler is touched. For these, the client receives the
  // handler's bytes exactly when compression is harmless; a compressed response
  // declares no length and says that it varies; and a handler that only writes,
  // under a fixed compressible type, is compressed from 1024 bytes on, or from
  // the size configured.
  method Compress(w: ResponseWriter, configured: int, levelOk: bool, asked: Asked, ops: seq<HandlerOp>)
    requires Fresh(w.State())
    modifies w
    ensures Engages(asked, old(w.header)) ==>
              w.wire == Respond(New(MinSize(configured), levelOk, Base(old(w.State()))), ops)
    ensures Engages(asked, old(w.header)) <==>
              && Contains(asked.acceptEncoding, "gzip") && old(w.header).encoding == ""
              && !EqualFold(asked.upgrade, "websocket")
    ensures !Engages(asked, old(w.header)) ==> w.State() == Finish(ResponseRun(old(w.State()), ops))
    ensures var d := Decide(MinSize(configured), w.hijacker, old(w.header), [], 0, ops);
            Engages(asked, old(w.header)) && levelOk && d.gzip ==>
              && w.wire != [] && w.wire[0].Head?
              && w.wire[0].header.length.None? && w.wire[0].header.encoding == "gzip"
              && w.wire[0].header.vary == d.header.vary + ["Accept-Encoding"]
    ensures var least := if configured == 0 then 1024 else configured;
            var writes := Chunking.Straight(ops) && Compressible(old(w.header).ctype);
            Engages(asked, old(w.header)) && levelOk && least >= 1 && writes ==>
              && w.wire != [] && w.wire[0].Head?
              && (w.wire[0].header.encoding == "gzip" <==> |Payload(ops)| >= least)
    ensures var claims, grants := w.hijacker, CanHijack(old(w.State()));
            var d := Decide(MinSize(configured), claims, old(w.header), [], 0, ops);
            Engages(asked, old(w.header)) ==>
              && Delivers(levelOk, claims, grants, d, w.wire)
              && (levelOk ==>
                  (Receive(w.wire) == Received(Coding(claims, grants, d), Payload(ops))
                   <==> Harmless(claims, grants, d)))
  {
    Labelling.LowerStays("websocket");
    LowerIsFold(asked.upgrade, "websocket");
    if !Contains(asked.acceptEncoding, "gzip") || w.header.encoding != "" || Lower(asked.upgrade) == "websocket" {
      Serve(w, ops);
      w.WriteHeader(StatusOK);
      return;
    }
    var gw := new GzipResponseWriter(w, MinSize(configured), levelOk);
    ghost var g0 := gw.Abs();
    var panicked := false;
    var i := 0;
    while i < |ops| && !panicked
      invariant 0 <= i <= |ops|
      invariant GzipRun(g0, ops) == if panicked then gw.Abs() else GzipRun(gw.Abs(), ops[i..])
      invariant gw.w == w
    {
      ghost var g := gw.Abs();
      panicked := gw.Call(ops[i]);
      assert panicked ==> gw.Abs() == g;
      assert ops[i..][1..] == ops[i + 1..];
      i := i + 1;
    }
    assert GzipRun(g0, ops) == gw.Abs();
    gw.Close();
    w.WriteHeader(StatusOK);
    Transparency.OneHeaderAsDecided(MinSize(configured), levelOk, g0.inner, ops);
    if levelOk {
      Transparency.Transparent(MinSize(configured), g0.inner, ops);
      SizeDecides(configured, g0.inner, ops);
    }
  }

  lemma SizeDecides(configured: int, inner: Chain, ops: seq<HandlerOp>)
    requires Transparency.Unused(inner)
    ensures var wire, h := Respond(New(MinSize(configured), true, inner), ops), Bottom(inner).header;
            var least := if configured == 0 then 1024 else configured;
            least >= 1 && Chunking.Straight(ops) && Compressible(h.ctype) && h.encoding == "" ==>
              && wire != [] && wire[0].Head?
              && (wire[0].header.encoding == "gzip" <==> |Payload(ops)| >= least)
  {
    var h := Bottom(inner).header;
    if MinSize(configured) >= 1 && Chunking.Straight(ops) && Compressible(h.ctype) && h.encoding == "" {
      Chunking.GzipBySize(MinSize(configured), inner, ops);
    }
  }

  // The handler on the response itself.
  method Serve(w: ResponseWriter, ops: seq<HandlerOp>)
    modifies w
    ensures w.State() == ResponseRun(old(w.State()), ops)
  {
    var i := 0;
    while i < |ops|
      invariant 0 <= i <= |ops|
      invariant ResponseRun(old(w.State()), ops) == ResponseRun(w.State(), ops[i..])
    {
      match ops[i] {
        case SetHeader(h) => w.SetHeader(h);
        case WriteHeader(code) => w.WriteHeader(code);
        case Write(p) => var n := w.Write(p);
        case Flush => w.Flush();
        case Hijack => var ok := w.Hijack();
      }
      assert ops[i..][1..] == ops[i + 1..];
      i := i + 1;
    }
  }
}
