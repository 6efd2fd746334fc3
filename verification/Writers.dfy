// Response writers below the compression layer: the net/http response and any
// number of statusRecorders stacked on it (middleware.go).
//
// What reaches the client is a sequence of wire events. A compressed body is
// kept symbolic: Deflated(p) stands for the gzip bytes that encode p, and
// GzipEnd for the trailer that ends the gzip stream (RFC 1952).
module Writers {
  import opened Common

  // A Content-Type header as mime.ParseMediaType sees it.
  datatype ContentType = Unset | Unparseable | Media(name: string)

  // The header fields the middleware reads or writes.
  datatype Header = Header(ctype: ContentType, encoding: string, length: Option<nat>, vary: seq<string>)

  datatype Event =
    | Head(status: int, header: Header)
    | Raw(data: bytes)
    | Deflated(data: bytes)
    | GzipEnd

  // Calls on a response writer. Handlers issue all but the last two, which
  // are the writes of a gzip.Writer to the writer below it.
  datatype Op =
    | SetHeader(header: Header)
    | WriteHeader(status: int)
    | Write(data: bytes)
    | Flush
    | Hijack
    | Deflate(data: bytes)
    | EndGzip

  type HandlerOp = op: Op | !op.Deflate? && !op.EndGzip? witness Flush

  const StatusOK := 200

  // ---- net/http's response: the first status wins, a write implies 200 ----

  // `early` are the informational statuses sent ahead of the header, `wire`
  // is the response proper. `hijacker` is whether the response has a Hijack
  // method at all, `grants` whether calling it succeeds. Once the connection
  // is hijacked the response refuses every status and every byte.
  datatype Response = Response(
    header: Header,
    wroteHeader: bool,
    early: seq<int>,
    wire: seq<Event>,
    hijacker: bool,
    grants: bool,
    hijacked: bool)

  predicate CanHijack(b: Response) {
    b.hijacker && b.grants
  }

  // Statuses that announce a response without beginning it (section 15.2 of
  // RFC 9110); 101 ends the HTTP exchange and counts as final.
  predicate Informational(status: int) {
    100 <= status < 200 && status != 101
  }

  // The status of the response itself when this one is chosen for it.
  function Final(status: int): int {
    if Informational(status) then StatusOK else status
  }

  predicate IsOpen(b: Response) {
    !b.wroteHeader && !b.hijacked
  }

  function Commit(b: Response, status: int): Response {
    if !IsOpen(b) then b
    else if Informational(status) then b.(early := b.early + [status])
    else b.(wroteHeader := true, wire := b.wire + [Head(status, b.header)])
  }

  function Sent(b: Response, e: Event): Response {
    if b.hijacked then b else b.(wire := b.wire + [e])
  }

  function ResponseStep(b: Response, op: Op): Response {
    match op
    case SetHeader(h) => b.(header := h)
    case WriteHeader(c) => Commit(b, c)
    case Write(p) => var b1 := Commit(b, StatusOK); if p == [] then b1 else Sent(b1, Raw(p))
    case Flush => Commit(b, StatusOK)
    case Hijack => b.(hijacked := b.hijacked || CanHijack(b))
    case Deflate(p) => Sent(Commit(b, StatusOK), Deflated(p))
    case EndGzip => Sent(Commit(b, StatusOK), GzipEnd)
  }

  // When the handler has returned, net/http sends 200 if nothing was sent.
  function Finish(b: Response): Response {
    Commit(b, StatusOK)
  }

  // ---- statusRecorder ----

  // Plain bytes count towards `written`; the length of a compressed chunk is
  // not known here.
  datatype RecorderState = RecorderState(status: int, committed: bool, written: nat)

  const NewRecorder := RecorderState(StatusOK, false, 0)

  predicate Commits(op: Op) {
    op.WriteHeader? || op.Write? || op.Deflate? || op.EndGzip?
  }

  // The status fields of a recorder after a call.
  function Mark(r: RecorderState, op: Op): RecorderState {
    if !Commits(op) then r
    else if op.WriteHeader? then
      if r.committed then r else r.(status := op.status, committed := true)
    else
      r.(status := if !r.committed && r.status == 0 then StatusOK else r.status, committed := true)
  }

  // What a write reports as taken by the response below.
  function Took(b: Response, op: Op): nat {
    if op.Write? && !b.hijacked then |op.data| else 0
  }

  // All the recorder's fields after a call.
  function Note(r: RecorderState, op: Op, below: Response): RecorderState {
    Mark(r, op).(written := r.written + Took(below, op))
  }

  // Whether the call is passed on to the writer below.
  predicate Forwards(r: RecorderState, op: Op) {
    op.WriteHeader? ==> !r.committed
  }

  // Recorders stacked on a response, outermost first.
  datatype Chain = Base(response: Response) | Recorder(state: RecorderState, inner: Chain)

  function Step(c: Chain, op: Op): Chain {
    match c
    case Base(b) => Base(ResponseStep(b, op))
    case Recorder(r, inner) =>
      Recorder(Note(r, op, Bottom(inner)), if Forwards(r, op) then Step(inner, op) else inner)
  }

  function Run(c: Chain, ops: seq<Op>): Chain
    decreases |ops|
  {
    if ops == [] then c else Run(Step(c, ops[0]), ops[1..])
  }

  function Bottom(c: Chain): Response {
    match c
    case Base(b) => b
    case Recorder(_, inner) => Bottom(inner)
  }

  function ResponseRun(b: Response, ops: seq<Op>): Response
    decreases |ops|
  {
    if ops == [] then b else ResponseRun(ResponseStep(b, ops[0]), ops[1..])
  }

  predicate AnyCommitted(c: Chain) {
    c.Recorder? && (c.state.committed || AnyCommitted(c.inner))
  }

  // Recorders of any depth act on the response below as a direct call would,
  // except when one of them has committed on a response that is still open:
  // then it keeps a further status to itself. An informational status leads
  // there, for it commits the recorder and not the response.
  lemma {:induction false} ChainIsTransparent(c: Chain, op: Op)
    ensures Bottom(Step(c, op)) == if op.WriteHeader? && AnyCommitted(c) then Bottom(c) else ResponseStep(Bottom(c), op)
    ensures Bottom(Step(c, op)) == ResponseStep(Bottom(c), op)
            <==> !(op.WriteHeader? && AnyCommitted(c) && IsOpen(Bottom(c)))
    ensures AnyCommitted(Step(c, op)) <==> AnyCommitted(c) || (c.Recorder? && Commits(op))
  {
    match c
    case Base(_) =>
    case Recorder(r, inner) =>
      ChainIsTransparent(inner, op);
  }

  // The calls a recorder passes on: every one but repeated statuses, and
  // statuses after a write.
  function Heard(committed: bool, ops: seq<HandlerOp>): seq<HandlerOp>
    decreases |ops|
  {
    if ops == [] then []
    else if ops[0].WriteHeader? && committed then Heard(true, ops[1..])
    else [ops[0]] + Heard(committed || Commits(ops[0]), ops[1..])
  }

  lemma {:induction false} ChainRunHears(c: Chain, ops: seq<HandlerOp>)
    requires c.Recorder?
    ensures Bottom(Run(c, ops)) == ResponseRun(Bottom(c), Heard(AnyCommitted(c), ops))
    decreases |ops|
  {
    if ops != [] {
      var c1, rest := Step(c, ops[0]), Heard(AnyCommitted(c) || Commits(ops[0]), ops[1..]);
      ChainIsTransparent(c, ops[0]);
      ChainRunHears(c1, ops[1..]);
      assert ([ops[0]] + rest)[1..] == rest;
    }
  }

  // ---- when recorders are invisible to the client ----

  // A status the client would have seen is lost to a recorder. `hinted`: an
  // informational status came first, and the response is still open.
  // `chosen`: a 200 was then lost, under this header, which net/http may yet
  // make good by sending 200 under the same one.
  predicate Loses(canHijack: bool, h: Header, hinted: bool, chosen: Option<Header>, ops: seq<HandlerOp>)
    decreases |ops|
  {
    if ops == [] then chosen.Some? && chosen.value != h
    else
      match ops[0]
      case SetHeader(h1) => Loses(canHijack, h1, hinted, chosen, ops[1..])
      case WriteHeader(c) =>
        if chosen.Some? then Loses(canHijack, h, hinted, chosen, ops[1..])
        else if hinted then c != StatusOK || Loses(canHijack, h, true, Some(h), ops[1..])
        else Informational(c) && Loses(canHijack, h, true, None, ops[1..])
      case Write(_) => chosen.Some? && chosen.value != h
      case Flush => chosen.Some? && chosen.value != h
      case Hijack => if canHijack then chosen.Some? else Loses(canHijack, h, hinted, chosen, ops[1..])
  }

  // A response that is no longer open hears no status.
  lemma {:induction false} ClosedRun(b: Response, committed: bool, ops: seq<HandlerOp>)
    requires !IsOpen(b)
    ensures ResponseRun(b, Heard(committed, ops)) == ResponseRun(b, ops) && !IsOpen(ResponseRun(b, ops))
    decreases |ops|
  {
    if ops != [] {
      var rest := Heard(committed || Commits(ops[0]), ops[1..]);
      ClosedRun(ResponseStep(b, ops[0]), committed || Commits(ops[0]), ops[1..]);
      assert ([ops[0]] + rest)[1..] == rest;
    }
  }

  lemma {:induction false} RunGrows(b: Response, ops: seq<HandlerOp>)
    ensures var b1 := ResponseRun(b, ops); b.wire <= b1.wire && b.early <= b1.early
    decreases |ops|
  {
    if ops != [] {
      RunGrows(ResponseStep(b, ops[0]), ops[1..]);
    }
  }

  // What becomes of an open response that hears no more statuses.
  lemma {:induction false} DeafRun(b: Response, ops: seq<HandlerOp>)
    requires IsOpen(b) && b.wire == []
    ensures var b1 := Finish(ResponseRun(b, Heard(true, ops)));
            && b1.early == b.early
            && (if b1.wroteHeader then b1.wire != [] && b1.wire[0].Head? && b1.wire[0].status == StatusOK
                else b1.wire == [])
    decreases |ops|
  {
    if ops != [] {
      var op, rest := ops[0], Heard(true, ops[1..]);
      assert ([op] + rest)[1..] == rest;
      if op.WriteHeader? {
        DeafRun(b, ops[1..]);
      } else {
        var b1 := ResponseStep(b, op);
        if IsOpen(b1) {
          DeafRun(b1, ops[1..]);
        } else {
          ClosedRun(b1, true, ops[1..]);
          EarlyStands(b1, ops[1..]);
          RunGrows(b1, ops[1..]);
          HijackedStands(b1, ops[1..]);
        }
      }
    }
  }

  lemma {:induction false} EarlyStands(b: Response, ops: seq<HandlerOp>)
    requires !IsOpen(b)
    ensures ResponseRun(b, ops).early == b.early
    decreases |ops|
  {
    if ops != [] {
      EarlyStands(ResponseStep(b, ops[0]), ops[1..]);
    }
  }

  lemma {:induction false} HijackedStands(b: Response, ops: seq<HandlerOp>)
    ensures b.hijacked ==> ResponseRun(b, ops) == b.(header := ResponseRun(b, ops).header)
    ensures b.wroteHeader ==> ResponseRun(b, ops).wroteHeader
    decreases |ops|
  {
    if ops != [] {
      HijackedStands(ResponseStep(b, ops[0]), ops[1..]);
    }
  }

  // A 200 that was lost: d sent it, a did not.
  predicate Owes(a: Response, d: Response, h: Header) {
    && IsOpen(a) && a.wire == []
    && d == a.(wroteHeader := true, wire := [Head(StatusOK, h)])
  }

  lemma {:induction false} OwedRun(a: Response, d: Response, h: Header, ops: seq<HandlerOp>)
    requires Owes(a, d, h)
    ensures Finish(ResponseRun(a, Heard(true, ops))) == Finish(ResponseRun(d, ops))
            <==> !Loses(CanHijack(a), a.header, true, Some(h), ops)
    decreases |ops|
  {
    assert [] + [Head(StatusOK, a.header)] == [Head(StatusOK, a.header)];
    if ops != [] {
      var op, rest := ops[0], Heard(true, ops[1..]);
      assert ([op] + rest)[1..] == rest;
      if op.WriteHeader? {
        OwedRun(a, d, h, ops[1..]);
      } else {
        if IsOpen(ResponseStep(a, op)) {
          OwedRun(ResponseStep(a, op), ResponseStep(d, op), h, ops[1..]);
        } else {
          OwedCloses(a, d, h, op, ops[1..]);
        }
      }
    }
  }

  // The call that closes the response that owes: it makes good by sending 200
  // under the same header, or not.
  lemma OwedCloses(a: Response, d: Response, h: Header, op: HandlerOp, ops: seq<HandlerOp>)
    requires Owes(a, d, h) && !op.WriteHeader? && !IsOpen(ResponseStep(a, op))
    ensures Finish(ResponseRun(ResponseStep(a, op), Heard(true, ops))) == Finish(ResponseRun(ResponseStep(d, op), ops))
            <==> !op.Hijack? && a.header == h
  {
    var a1, d1 := ResponseStep(a, op), ResponseStep(d, op);
    assert [] + [Head(StatusOK, a.header)] == [Head(StatusOK, a.header)];
    ClosedRun(a1, true, ops);
    ClosedRun(d1, true, ops);
    RunGrows(a1, ops);
    RunGrows(d1, ops);
    if op.Hijack? {
      HijackedStands(a1, ops);
      assert ResponseRun(a1, ops).wire == [];
    } else {
      assert a.header == h ==> a1 == d1;
      assert ResponseRun(a1, ops).wire[0] == Head(StatusOK, a.header);
      assert ResponseRun(d1, ops).wire[0] == Head(StatusOK, h);
    }
  }

  // After an informational status.
  lemma {:induction false} HintedRun(b: Response, ops: seq<HandlerOp>)
    requires IsOpen(b) && b.wire == []
    ensures Finish(ResponseRun(b, Heard(true, ops))) == Finish(ResponseRun(b, ops))
            <==> !Loses(CanHijack(b), b.header, true, None, ops)
    decreases |ops|
  {
    if ops != [] {
      var op, rest := ops[0], Heard(true, ops[1..]);
      var d := ResponseStep(b, op);
      assert ([op] + rest)[1..] == rest;
      if op.WriteHeader? {
        if op.status == StatusOK {
          OwedRun(b, d, b.header, ops[1..]);
        } else {
          DeafRun(b, ops[1..]);
          RunGrows(d, ops[1..]);
        }
      } else if IsOpen(d) {
        HintedRun(d, ops[1..]);
      } else {
        ClosedRun(d, true, ops[1..]);
      }
    }
  }

  // Recorders on a fresh response are invisible to the client if and only if
  // the handler loses no status to them.
  lemma {:induction false} RecordersAreInvisible(b: Response, ops: seq<HandlerOp>)
    requires IsOpen(b) && b.wire == []
    ensures Finish(ResponseRun(b, Heard(false, ops))) == Finish(ResponseRun(b, ops))
            <==> !Loses(CanHijack(b), b.header, false, None, ops)
    decreases |ops|
  {
    if ops != [] {
      var op, rest := ops[0], Heard(Commits(ops[0]), ops[1..]);
      var d := ResponseStep(b, op);
      assert ([op] + rest)[1..] == rest;
      if !IsOpen(d) {
        ClosedRun(d, Commits(op), ops[1..]);
      } else if op.WriteHeader? {
        HintedRun(d, ops[1..]);
      } else {
        RecordersAreInvisible(d, ops[1..]);
      }
    }
  }

  // ---- what every layer reports ----

  predicate Fresh(b: Response) {
    !b.wroteHeader && b.wire == [] && !b.hijacked
  }

  // n recorders in the same state around a response.
  function Nested(n: nat, r: RecorderState, b: Response): Chain {
    if n == 0 then Base(b) else Recorder(r, Nested(n - 1, r, b))
  }

  // The number of uncompressed body bytes on the wire.
  function PlainBytes(wire: seq<Event>): nat {
    if wire == [] then 0
    else PlainBytes(wire[..|wire| - 1]) + if wire[|wire| - 1].Raw? then |wire[|wire| - 1].data| else 0
  }

  predicate HandlerTrace(ops: seq<Op>) {
    forall i | 0 <= i < |ops| :: !ops[i].Deflate? && !ops[i].EndGzip?
  }

  // The status on the wire; 200 is what net/http sends when the handler
  // returns without choosing one. On a connection hijacked before any header
  // it sends none.
  function SentStatus(b: Response): Option<int> {
    if b.wire != [] && b.wire[0].Head? then Some(b.wire[0].status)
    else if b.hijacked then None
    else Some(StatusOK)
  }

  // Exactly one header, ahead of every body event.
  predicate OneHead(wire: seq<Event>) {
    wire != [] && wire[0].Head? && forall i | 1 <= i < |wire| :: !wire[i].Head?
  }

  // Every layer agrees with the response: its status is the one sent, and its
  // byte count is the number of body bytes accepted.
  predicate CountsAgree(c: Chain) {
    c.Recorder? ==> c.state.written == PlainBytes(Bottom(c).wire) && CountsAgree(c.inner)
  }

  predicate StatusesAgree(c: Chain) {
    c.Recorder? ==> SentStatus(Bottom(c)) == Some(c.state.status) && StatusesAgree(c.inner)
  }

  // The three ways to mislead a recorder: flushing before the first status,
  // when that is not the 200 the flush has sent; choosing an informational
  // status first; and taking the connection before anything is sent.
  predicate Misleads(ops: seq<Op>, canHijack: bool, flushed: bool)
    decreases |ops|
  {
    ops != [] &&
    match ops[0]
    case WriteHeader(c) => if flushed then c != StatusOK else Informational(c)
    case Write(_) => false
    case Flush => Misleads(ops[1..], canHijack, true)
    case Hijack => (canHijack && !flushed) || Misleads(ops[1..], canHijack, flushed)
    case _ => Misleads(ops[1..], canHijack, flushed)
  }

  lemma {:induction false} NestedBottom(n: nat, r: RecorderState, b: Response)
    ensures Bottom(Nested(n, r, b)) == b
    ensures n > 0 ==> (CountsAgree(Nested(n, r, b)) <==> r.written == PlainBytes(b.wire))
    ensures n > 0 ==> (StatusesAgree(Nested(n, r, b)) <==> SentStatus(b) == Some(r.status))
  {
    if n > 0 {
      NestedBottom(n - 1, r, b);
    }
  }

  lemma {:induction false} NestedStep(n: nat, r: RecorderState, b: Response, op: Op)
    requires n > 0
    ensures Step(Nested(n, r, b), op)
         == Nested(n, Note(r, op, b), if Forwards(r, op) then ResponseStep(b, op) else b)
  {
    NestedBottom(n - 1, r, b);
    if n > 1 {
      NestedStep(n - 1, r, b, op);
    }
  }

  // The recorder has seen a commit, or nothing but flushes, hijacks and
  // header edits. A commit that left the response open was informational.
  predicate InStep(r: RecorderState, b: Response) {
    && r.written == PlainBytes(b.wire)
    && (if b.wroteHeader then OneHead(b.wire) else b.wire == [])
    && (r.committed && IsOpen(b) ==> Informational(r.status))
    && (!r.committed ==> r.status == StatusOK && (b.wroteHeader ==> SentStatus(b) == Some(StatusOK)))
  }

  lemma PlainBytesSnoc(wire: seq<Event>, e: Event)
    ensures PlainBytes(wire + [e]) == PlainBytes(wire) + if e.Raw? then |e.data| else 0
  {
    assert (wire + [e])[..|wire|] == wire;
  }

  lemma InStepCommit(r: RecorderState, b: Response, status: int)
    requires InStep(r, b)
    ensures var b1 := Commit(b, status);
            && (IsOpen(b1) ==> Informational(status)) && b1.hijacked == b.hijacked
            && (if b1.wroteHeader then OneHead(b1.wire) else b1.wire == [])
            && PlainBytes(b1.wire) == PlainBytes(b.wire)
            && SentStatus(b1) == if IsOpen(b) then Some(Final(status)) else SentStatus(b)
  {
    PlainBytesSnoc(b.wire, Head(status, b.header));
  }

  // A body chunk on a response that has begun.
  lemma InStepChunk(r: RecorderState, b: Response, p: bytes)
    requires InStep(r, b) && r.committed && b.wroteHeader && !b.hijacked
    ensures var b1 := Sent(b, Raw(p));
            InStep(r.(written := r.written + |p|), b1) && SentStatus(b1) == SentStatus(b)
  {
    PlainBytesSnoc(b.wire, Raw(p));
  }

  // The implied 200 of a write.
  lemma InStepImplied(r: RecorderState, b: Response, p: bytes)
    requires InStep(r, b)
    ensures var r1, b1 := Mark(r, Write(p)), Commit(b, StatusOK);
            && InStep(r1, b1) && r1.committed && !IsOpen(b1) && b1.hijacked == b.hijacked
            && SentStatus(b1) == if IsOpen(b) then Some(StatusOK) else SentStatus(b)
  {
    if IsOpen(b) {
      var head := Head(StatusOK, b.header);
      assert [] + [head] == [head] && OneHead([head]);
      PlainBytesSnoc([], head);
    }
  }

  lemma InStepWrite(r: RecorderState, b: Response, p: bytes)
    requires InStep(r, b)
    ensures var b1 := ResponseStep(b, Write(p));
            && InStep(Note(r, Write(p), b), b1)
            && SentStatus(b1) == if IsOpen(b) then Some(StatusOK) else SentStatus(b)
  {
    var r1, b1 := Mark(r, Write(p)), Commit(b, StatusOK);
    InStepImplied(r, b, p);
    WriteUnfolds(r, b, p);
    if p != [] && !b.hijacked {
      InStepChunk(r1, b1, p);
    } else {
      assert Note(r, Write(p), b) == r1;
    }
  }

  lemma WriteUnfolds(r: RecorderState, b: Response, p: bytes)
    ensures var r1 := Mark(r, Write(p));
            Note(r, Write(p), b) == r1.(written := r1.written + if b.hijacked then 0 else |p|)
    ensures ResponseStep(b, Write(p)) ==
              if p == [] || b.hijacked then Commit(b, StatusOK) else Sent(Commit(b, StatusOK), Raw(p))
  {
  }

  // Whether the recorder's status is the one sent, and stays so.
  predicate Right(r: RecorderState, b: Response) {
    SentStatus(b) == Some(r.status)
  }

  // One handler call keeps the layers in step. Once the recorder has
  // committed, or no status can be sent any more, being right or wrong stands.
  predicate StaysInStep(r: RecorderState, b: Response, op: HandlerOp) {
    var r1, b1 := Note(r, op, b), if Forwards(r, op) then ResponseStep(b, op) else b;
    && InStep(r1, b1) && CanHijack(b1) == CanHijack(b)
    && (r.committed ==> r1.committed && (Right(r1, b1) <==> Right(r, b)))
    && (SentStatus(b).None? ==> SentStatus(b1).None?)
  }

  lemma InStepStatus(r: RecorderState, b: Response, status: int)
    requires InStep(r, b)
    ensures StaysInStep(r, b, WriteHeader(status))
  {
    if !r.committed {
      InStepCommit(r, b, status);
    }
  }

  lemma InStepBytes(r: RecorderState, b: Response, p: bytes)
    requires InStep(r, b)
    ensures StaysInStep(r, b, Write(p))
  {
    InStepWrite(r, b, p);
  }

  lemma InStepFlush(r: RecorderState, b: Response)
    requires InStep(r, b)
    ensures StaysInStep(r, b, Flush)
  {
    if IsOpen(b) {
      var head := Head(StatusOK, b.header);
      assert Commit(b, StatusOK) == b.(wroteHeader := true, wire := [] + [head]);
      assert [] + [head] == [head] && OneHead([head]);
      PlainBytesSnoc([], head);
    }
  }

  lemma InStepHijack(r: RecorderState, b: Response)
    requires InStep(r, b)
    ensures StaysInStep(r, b, Hijack)
  {
  }

  lemma InStepStep(r: RecorderState, b: Response, op: HandlerOp)
    requires InStep(r, b)
    ensures StaysInStep(r, b, op)
  {
    match op
    case SetHeader(_) =>
    case WriteHeader(c) => InStepStatus(r, b, c);
    case Write(p) => InStepBytes(r, b, p);
    case Flush => InStepFlush(r, b);
    case Hijack => InStepHijack(r, b);
  }

  lemma {:induction false} NestedRun(n: nat, r: RecorderState, b: Response, ops: seq<Op>)
    requires n > 0 && InStep(r, b) && HandlerTrace(ops)
    ensures var c := Run(Nested(n, r, b), ops);
            && CountsAgree(c)
            && (Bottom(c).wire == [] || OneHead(Bottom(c).wire))
            && (StatusesAgree(c) <==>
                if r.committed || SentStatus(b).None? then Right(r, b)
                else !Misleads(ops, CanHijack(b), b.wroteHeader))
    decreases |ops|
  {
    NestedBottom(n, r, b);
    if ops != [] {
      var op := ops[0];
      InStepStep(r, b, op);
      NestedStep(n, r, b, op);
      NestedRun(n, Note(r, op, b), if Forwards(r, op) then ResponseStep(b, op) else b, ops[1..]);
    }
  }

  // For every depth of nesting and every handler trace: each layer's byte
  // count is the number of body bytes accepted, the client sees at most one
  // header, and all statuses equal the one sent unless the handler misleads
  // the recorders.
  lemma RecordersAgree(n: nat, b: Response, ops: seq<Op>)
    requires n > 0 && Fresh(b) && HandlerTrace(ops)
    ensures var c := Run(Nested(n, NewRecorder, b), ops);
            && CountsAgree(c)
            && (StatusesAgree(c) <==> !Misleads(ops, CanHijack(b), false))
            && (Bottom(c).wire == [] || OneHead(Bottom(c).wire))
  {
    NestedRun(n, NewRecorder, b, ops);
  }

  lemma RunTwo(c: Chain, first: Op, second: Op)
    ensures Run(c, [first, second]) == Step(Step(c, first), second)
  {
    assert [first, second][1..] == [second] && [second][1..] == [];
    assert Run(Step(c, first), [second]) == Run(Step(Step(c, first), second), []);
  }

  // Flush, then 404: the client got 200 and the recorder reports 404.
  lemma EarlyFlushMisleadsRecorder(b: Response)
    requires Fresh(b)
    ensures var c := Run(Nested(1, NewRecorder, b), [Flush, WriteHeader(404)]);
            SentStatus(Bottom(c)) == Some(200) && c.Recorder? && c.state.status == 404
  {
    assert Nested(0, NewRecorder, b) == Base(b);
    var c0 := Recorder(NewRecorder, Base(b));
    RunTwo(c0, Flush, WriteHeader(404));
    assert Step(c0, Flush) == Recorder(NewRecorder, Base(Commit(b, 200)));
  }

  // Hijack, then 404: nothing was sent, not even of the body written after,
  // and the recorder reports 404.
  lemma HijackMisleadsRecorder(b: Response, p: bytes)
    requires Fresh(b) && CanHijack(b)
    ensures var c := Step(Run(Nested(1, NewRecorder, b), [Hijack, WriteHeader(404)]), Write(p));
            && Bottom(c).wire == [] && SentStatus(Bottom(c)) == None
            && c.Recorder? && c.state == RecorderState(404, true, 0)
  {
    assert Nested(0, NewRecorder, b) == Base(b);
    var c0, taken := Recorder(NewRecorder, Base(b)), b.(hijacked := true);
    RunTwo(c0, Hijack, WriteHeader(404));
    assert Step(c0, Hijack) == Recorder(NewRecorder, Base(taken));
    assert Step(Recorder(NewRecorder, Base(taken)), WriteHeader(404))
        == Recorder(RecorderState(404, true, 0), Base(taken));
  }

  // Early hints, then 404: the recorder keeps the 404 to itself, the client
  // gets 200, and the recorder reports 103.
  lemma EarlyHintMisleadsRecorder(b: Response)
    requires Fresh(b)
    ensures var c := Run(Nested(1, NewRecorder, b), [WriteHeader(103), WriteHeader(404)]);
            && SentStatus(Finish(Bottom(c))) == Some(200) && c.Recorder? && c.state.status == 103
            && SentStatus(ResponseRun(b, [WriteHeader(103), WriteHeader(404)])) == Some(404)
  {
    assert Nested(0, NewRecorder, b) == Base(b);
    var c0, hinted := Recorder(NewRecorder, Base(b)), b.(early := b.early + [103]);
    RunTwo(c0, WriteHeader(103), WriteHeader(404));
    assert Step(c0, WriteHeader(103)) == Recorder(RecorderState(103, true, 0), Base(hinted));
    RunTwo(Base(b), WriteHeader(103), WriteHeader(404));
    ResponseRunIsRun(b, [WriteHeader(103), WriteHeader(404)]);
    assert Step(Base(b), WriteHeader(103)) == Base(hinted);
  }

  lemma {:induction false} ResponseRunIsRun(b: Response, ops: seq<Op>)
    ensures Run(Base(b), ops) == Base(ResponseRun(b, ops))
    decreases |ops|
  {
    if ops != [] {
      ResponseRunIsRun(ResponseStep(b, ops[0]), ops[1..]);
    }
  }
}
