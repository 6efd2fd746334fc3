// Middleware that looks at or limits the request body: the GraphQL body peek
// (graphql/metrics.go) and MaxBodyBytes (middleware.go).
module Bodies {
  import opened Common
  import opened Streams
  import opened Writers
  import opened Compression
  import opened Silence
  import Recovery
  import opened Transparency
  import WriterObjects

  // ---- peeking ----

  datatype Layer = Untouched | Peek(window: int) | ReadFull

  class Request {
    var body: Reader

    constructor (body: Reader)
      ensures this.body == body
    {
      this.body := body;
    }

    // io.ReadAll of at most `limit` bytes, None for no limit, in reads of
    // whatever sizes its buffer happens to have room for.
    method ReadAll(limit: Option<nat>) returns (data: bytes, err: Option<End>)
      modifies this
      ensures data + Bytes(body) == old(Bytes(body)) && Ending(body) == old(Ending(body))
      ensures limit.Some? ==> |data| <= limit.value
      ensures err.Some? ==> err.value == Ending(body) && err.value != EOF && Bytes(body) == []
      ensures err.None? ==> (limit.Some? && |data| == limit.value) || (Bytes(body) == [] && Ending(body) == EOF)
      ensures limit == Some(|old(Bytes(body))|) && limit.value > 0 && Ending(body) != EOF ==>
                (err.Some? <==> old(Prompt(body)))
    {
      data, err := [], None;
      ghost var r0 := body;
      var finished := false;
      while !finished && (limit.Some? ==> |data| < limit.value)
        invariant Partway(r0, data, body)
        invariant limit.Some? ==> |data| <= limit.value
        invariant finished ==> Bytes(body) == []
        invariant finished ==> if err.None? then Ending(r0) == EOF else err.value == Ending(r0) && err.value != EOF
        invariant !finished ==> err.None?
        invariant limit == Some(|Bytes(r0)|) && limit.value > 0 ==>
                    if finished then Prompt(r0)
                    else if |data| < limit.value then Prompt(body) == Prompt(r0)
                    else !Prompt(r0)
        decreases !finished, Work(body)
      {
        var room: nat :| room > 0;
        var k := if limit.Some? then Min(room, limit.value - |data|) else room;
        var x := Read(body, k);
        ReadOn(r0, data, body, k);
        data := data + x.data;
        body := x.next;
        if x.err.Some? {
          finished := true;
          err := if x.err.value == EOF then None else x.err;
        }
      }
    }

    // peekRequestBody. Without a read error the body reads as before, and no
    // more than the window was taken from its source; with one, the bytes
    // read are lost, and they were all there was.
    method PeekRequestBody(n: int) returns (peek: bytes, err: Option<End>)
      modifies this
      ensures n <= 0 ==> peek == [] && err == None && body == old(body)
      ensures err.None? ==> Bytes(body) == old(Bytes(body)) && Ending(body) == old(Ending(body))
      ensures err.None? && n > 0 ==>
                && |peek| <= n && (|peek| == n || peek == old(Bytes(body))) && peek <= old(Bytes(body))
                && body.Prepended? && body.prefix == peek && peek + Bytes(body.rest) == old(Bytes(body))
      ensures err.Some? ==>
                && peek == [] && err.value == old(Ending(body)) != EOF
                && |old(Bytes(body))| <= n && Bytes(body) == [] && Ending(body) == old(Ending(body))
      ensures n > 0 && old(Ending(body)) != EOF ==>
                (err.Some? <==> |old(Bytes(body))| < n || (|old(Bytes(body))| == n && old(Prompt(body))))
    {
      if n <= 0 {
        return [], None;
      }
      var data, e := ReadAll(Some(n));
      if e.Some? {
        return [], e;
      }
      body := Prepended(data, body);
      peek, err := data, None;
    }

    // readFullRequestBody
    method ReadFullRequestBody() returns (data: bytes, err: Option<End>)
      modifies this
      ensures Ending(body) == EOF && body == Buffer(data)
      ensures if old(Ending(body)) == EOF then err.None? && data == Bytes(body) == old(Bytes(body))
              else err == Some(old(Ending(body))) && data == Bytes(body) == []
    {
      data, err := ReadAll(None);
      assert data + [] == data;
      if err.Some? {
        body := Buffer([]);
        return [], err;
      }
      body := Buffer(data);
    }

    // Any stack of Metrics and Middleware layers in front of the handler, each
    // peeking, reading everything, or leaving the body alone.
    method PassThrough(layers: seq<Layer>)
      modifies this
      ensures old(Ending(body)) == EOF ==> Bytes(body) == old(Bytes(body)) && Ending(body) == EOF
    {
      var i := 0;
      while i < |layers|
        invariant 0 <= i <= |layers|
        invariant old(Ending(body)) == EOF ==> Bytes(body) == old(Bytes(body)) && Ending(body) == EOF
      {
        match layers[i] {
          case Untouched =>
          case Peek(n) => var peek, err := PeekRequestBody(n);
          case ReadFull => var data, err := ReadFullRequestBody();
        }
        i := i + 1;
      }
    }
  }

  // Peeking is invisible: behind any layers, for any chunking of a source that
  // does not fail, a handler reading in any pieces gets the original bytes.
  method HandleBehind(layers: seq<Layer>, source: Reader, sizes: seq<nat>) returns (got: bytes, err: Option<End>)
    requires Ending(source) == EOF
    ensures got <= Bytes(source)
    ensures err.Some? ==> got == Bytes(source) && err.value == EOF
  {
    var r := new Request(source);
    r.PassThrough(layers);
    AnyScheduleReadsStream(r.body, sizes);
    var x := ReadMany(r.body, sizes);
    got, err := x.data, x.err;
  }

  // When the source fails, one peek preserves the body exactly when there was
  // nothing to lose, or the failure lay beyond the window, or at its edge and
  // was not reported together with the last byte.
  method PeekFailing(source: Reader, n: int) returns (preserved: bool)
    requires n > 0 && Ending(source) != EOF
    ensures preserved <==>
              || Bytes(source) == [] || |Bytes(source)| > n
              || (|Bytes(source)| == n && !Prompt(source))
  {
    var r := new Request(source);
    var peek, err := r.PeekRequestBody(n);
    preserved := Bytes(r.body) == Bytes(source) && Ending(r.body) == Ending(source);
  }

  // ---- limiting ----

  // A handler reads the body and answers, in any order.
  datatype Act = ReadBody(size: nat) | Issue(op: HandlerOp)

  function Sizes(acts: seq<Act>): seq<nat> {
    if acts == [] then []
    else (if acts[0].ReadBody? then [acts[0].size] else []) + Sizes(acts[1..])
  }

  function Responses(acts: seq<Act>): seq<HandlerOp> {
    if acts == [] then []
    else (if acts[0].Issue? then [acts[0].op] else []) + Responses(acts[1..])
  }

  datatype Served = Served(ran: bool, delivered: bytes, seen: Option<End>, response: Response)

  // MaxBodyBytes(n) around a handler, n > 0.
  function Serve(n: nat, contentLength: int, body: Reader, b: Response, acts: seq<Act>, page: Page): Served {
    if contentLength > n then
      Served(false, [], None, ResponseRun(b, PageOps(page)))
    else
      var x := ReadMany(LimitBody(body, n), Sizes(acts));
      var c := Run(Recorder(NewRecorder, Base(b)), Responses(acts));
      var flagged := x.next.Flagging? && x.next.tooLarge;
      var c1 := if flagged && c.Recorder? && !c.state.committed then Run(c, PageOps(page)) else c;
      Served(true, x.data, x.err, Bottom(c1))
  }

  // A handler that answered is never followed by a 413: the client gets what
  // a recorder lets through, which is its response as if there were no limit
  // unless it lost a status after an informational one.
  lemma AnsweredIsLeftAlone(n: nat, contentLength: int, body: Reader, b: Response, acts: seq<Act>, page: Page)
    requires contentLength <= n && Touched(Responses(acts)) && Fresh(b)
    ensures var b1, ops := Serve(n, contentLength, body, b, acts, page).response, Responses(acts);
            && b1 == ResponseRun(b, Heard(false, ops))
            && (Finish(b1) == Finish(ResponseRun(b, ops)) <==> !Loses(CanHijack(b), b.header, false, None, ops))
  {
    RecorderCommits(NewRecorder, Base(b), Responses(acts));
    ChainRunHears(Recorder(NewRecorder, Base(b)), Responses(acts));
    RecordersAreInvisible(b, Responses(acts));
  }

  // ---- handlers that answer nothing ----

  // The whole contract, for every body and every handler that answers
  // nothing: an overlong body read on to its error gets exactly one 413,
  // unless the handler flushed, when the page follows under the 200 already
  // sent, or took the connection, when nothing does. Otherwise nothing is
  // written but the 200 of a flush.
  lemma SilentHandler(n: nat, contentLength: int, body: Reader, b: Response, acts: seq<Act>, page: Page)
    requires contentLength <= n && Ending(body) != TooLarge && Fresh(b) && !Touched(Responses(acts))
    requires page.status == 413
    ensures var s, ops := Serve(n, contentLength, body, b, acts, page), Responses(acts);
            var refused := |Bytes(body)| > n && s.seen.Some? && !(CanHijack(b) && Hijacks(ops));
            if FlushesFirst(CanHijack(b), ops)
            then
              && s.response.wire != [] && Started(s.response.wire[..1])
              && s.response.wire[1..] == if refused && page.body != [] then [Raw(page.body)] else []
            else if refused then IsPage(s.response.wire, page)
            else s.response.wire == []
    ensures var b1 := Serve(n, contentLength, body, b, acts, page).response; b1.wire != [] ==> !IsOpen(b1)
  {
    var ops := Responses(acts);
    LimitedReads(body, n, Sizes(acts));
    SilentChain(Base(b), ops);
    PageOnSilence(Run(Recorder(NewRecorder, Base(b)), ops), page);
  }

  // So a silent handler's client sees the refusal if and only if the handler
  // read an overlong body to its error, without having flushed or taken the
  // connection.
  lemma FlushHidesTheRefusal(n: nat, contentLength: int, body: Reader, b: Response, acts: seq<Act>, page: Page)
    requires contentLength <= n && Ending(body) != TooLarge && Fresh(b) && !Touched(Responses(acts))
    requires page.status == 413
    ensures var s, ops := Serve(n, contentLength, body, b, acts, page), Responses(acts);
            IsPage(Finish(s.response).wire, page) <==>
              && |Bytes(body)| > n && s.seen.Some?
              && !FlushesFirst(CanHijack(b), ops) && !(CanHijack(b) && Hijacks(ops))
  {
    SilentHandler(n, contentLength, body, b, acts, page);
    var b1 := Serve(n, contentLength, body, b, acts, page).response;
    assert b1.wire != [] ==> b1.wire[..1][0] == b1.wire[0];
    assert IsOpen(b1) ==> Finish(b1).wire == [Head(StatusOK, b1.header)];
  }

  // ---- around Compression ----

  // MaxBodyBytes around Compression around a handler, on a request that
  // engages compression or not. If it does, the deferred Close runs before the
  // recorder is asked whether anything was answered.
  function ServeCompressed(
    n: nat, contentLength: int, asked: Asked, minSize: int, body: Reader, b: Response, acts: seq<Act>, page: Page)
    : seq<Event>
  {
    if contentLength > n || !Engages(asked, b.header) then
      Finish(Serve(n, contentLength, body, b, acts, page).response).wire
    else
      var x := ReadMany(LimitBody(body, n), Sizes(acts));
      var c := Close(GzipRun(New(minSize, true, Recorder(NewRecorder, Base(b))), Responses(acts))).inner;
      var flagged := x.next.Flagging? && x.next.tooLarge;
      Finish(Bottom(if flagged && c.Recorder? && !c.state.committed then Run(c, PageOps(page)) else c)).wire
  }

  // Where compression engages, and the client announced no excess, there is no
  // refusal: it gets what the handler wrote, under 200 if that was nothing.
  lemma CompressionHidesTheRefusal(
    n: nat, contentLength: int, asked: Asked, minSize: int, body: Reader, b: Response, acts: seq<Act>, page: Page)
    requires Fresh(b) && contentLength <= n && Engages(asked, b.header)
    ensures var wire := ServeCompressed(n, contentLength, asked, minSize, body, b, acts, page);
            var ops, grants := Responses(acts), CanHijack(b);
            var d := Decide(minSize, true, b.header, [], 0, ops);
            && Delivers(true, true, grants, d, wire)
            && (Receive(wire) == Received(Coding(true, grants, d), Payload(ops)) <==> Harmless(true, grants, d))
            && (!Touched(ops) ==> wire == [] || wire[0].status == StatusOK)
  {
    var ops := Responses(acts);
    var below := Recorder(NewRecorder, Base(b));
    Recovery.CloseCommits(New(minSize, true, below), ops);
    Transparency.OneHeaderAsDecided(minSize, true, below, ops);
    Transparency.Transparent(minSize, below, ops);
    if !Touched(ops) {
      Recovery.UntouchedStatus(minSize, true, b.header, [], ops);
    }
  }

  // So MaxBodyBytes around Compression sends its 413, for a handler that
  // answers nothing, if and only if the client announced too much, or the
  // request does not engage compression and the refusal would be seen without.
  lemma RefusalIff(
    n: nat, contentLength: int, asked: Asked, minSize: int, body: Reader, b: Response, acts: seq<Act>, page: Page)
    requires Ending(body) != TooLarge && Fresh(b) && !Touched(Responses(acts)) && page.status == 413
    ensures var ops := Responses(acts);
            IsPage(ServeCompressed(n, contentLength, asked, minSize, body, b, acts, page), page) <==>
              || contentLength > n
              || (&& !Engages(asked, b.header)
                  && |Bytes(body)| > n && Serve(n, contentLength, body, b, acts, page).seen.Some?
                  && !FlushesFirst(CanHijack(b), ops) && !(CanHijack(b) && Hijacks(ops)))
  {
    if contentLength > n {
      HandlerSeesPrefix(n, contentLength, body, b, acts, page);
    } else if Engages(asked, b.header) {
      CompressionHidesTheRefusal(n, contentLength, asked, minSize, body, b, acts, page);
    } else {
      FlushHidesTheRefusal(n, contentLength, body, b, acts, page);
    }
  }

  // Compression around MaxBodyBytes around a handler: the refusal goes through
  // the compressor like any other response.
  function CompressServed(
    n: nat, contentLength: int, minSize: int, body: Reader, inner: Chain, acts: seq<Act>, page: Page): seq<Event>
  {
    var g, ops := New(minSize, true, inner), Responses(acts);
    if contentLength > n then Respond(g, PageOps(page))
    else
      var x := ReadMany(LimitBody(body, n), Sizes(acts));
      var refused := x.next.Flagging? && x.next.tooLarge && !Touched(ops);
      Respond(g, Heard(false, ops) + if refused then PageOps(page) else [])
  }

  // In this order a silent handler's refusal always arrives, as one 413 unless
  // the handler flushed, and compressed exactly if the page is compressible
  // and long enough; a coding left in its header spoils it only then.
  lemma RefusalCompressed(
    n: nat, contentLength: int, minSize: int, body: Reader, inner: Chain, acts: seq<Act>, page: Page)
    requires Unused(inner) && Ending(body) != TooLarge && page.status == 413
    requires !Touched(Responses(acts)) && NoHijack(Responses(acts))
    requires contentLength > n || (|Bytes(body)| > n && ReadMany(LimitBody(body, n), Sizes(acts)).err.Some?)
    ensures var wire := CompressServed(n, contentLength, minSize, body, inner, acts, page);
            var zip := Compressible(page.header.ctype) && |page.body| >= minSize;
            && OneHead(wire)
            && (if contentLength <= n && Flushed(Responses(acts))
                then wire[0].status == 200 && Receive(wire) == Received(wire[0].header.encoding, page.body)
                else
                  && wire[0] == Head(413, if zip then GzipHeader(page.header) else page.header)
                  && (Receive(wire) == Received(page.header.encoding, page.body)
                      <==> page.header.encoding == "" || !zip))
  {
    var ops := Responses(acts);
    if contentLength > n {
      assert [] + PageOps(page) == PageOps(page);
      Recovery.PageCompressed(minSize, inner, [], page);
    } else {
      LimitedReads(body, n, Sizes(acts));
      SilentIsHeard(false, ops);
      Recovery.PageCompressed(minSize, inner, ops, page);
    }
  }

  // ---- what the handler sees ----

  // What the handler can learn of the body, and the refusal of an honest
  // client that announces too much.
  lemma HandlerSeesPrefix(n: nat, contentLength: int, body: Reader, b: Response, acts: seq<Act>, page: Page)
    requires Ending(body) != TooLarge && Fresh(b) && page.status == 413
    ensures var s := Serve(n, contentLength, body, b, acts, page);
            && s.delivered <= Bytes(body) && |s.delivered| <= n
            && (s.ran && |Bytes(body)| <= n && s.seen.Some? ==>
                s.delivered == Bytes(body) && s.seen.value == Ending(body))
            && (contentLength > n <==> !s.ran)
            && (!s.ran ==> !IsOpen(s.response) && IsPage(s.response.wire, page))
  {
    LimitedReads(body, n, Sizes(acts));
    PageOnSilence(Base(b), page);
    ResponseRunIsRun(b, PageOps(page));
  }

  lemma ActsUnfold(acts: seq<Act>, i: nat)
    requires i < |acts|
    ensures match acts[i]
            case ReadBody(size) =>
              && Sizes(acts[i..]) == [size] + Sizes(acts[i + 1..])
              && Responses(acts[i..]) == Responses(acts[i + 1..])
            case Issue(op) =>
              && Sizes(acts[i..]) == Sizes(acts[i + 1..])
              && Responses(acts[i..]) != [] && Responses(acts[i..])[0] == op
              && Responses(acts[i..])[1..] == Responses(acts[i + 1..])
  {
    assert acts[i..][1..] == acts[i + 1..];
    assert [] + Sizes(acts[i + 1..]) == Sizes(acts[i + 1..]);
    assert [] + Responses(acts[i + 1..]) == Responses(acts[i + 1..]);
  }

  // All the reads, of which some bytes and perhaps an error are already in.
  predicate Resumes(all: ReadResult, delivered: bytes, seen: Option<End>, rest: ReadResult) {
    && all.next == rest.next && all.data == delivered + rest.data
    && all.err == if seen.Some? then seen else rest.err
  }

  lemma ReadUnfolds(r: Reader, size: nat, sizes: seq<nat>, all: ReadResult, delivered: bytes, seen: Option<End>)
    requires Resumes(all, delivered, seen, ReadMany(r, [size] + sizes))
    ensures var x := Read(r, size);
            Resumes(all, delivered + x.data, if seen.Some? then seen else x.err, ReadMany(x.next, sizes))
  {
    var x := Read(r, size);
    var y := ReadMany(x.next, sizes);
    assert ([size] + sizes)[1..] == sizes;
    assert delivered + (x.data + y.data) == delivered + x.data + y.data;
  }

  // The handler on the response and the body themselves.
  method Unlimited(body: Reader, w: WriterObjects.ResponseWriter, acts: seq<Act>)
    returns (delivered: bytes, seen: Option<End>)
    modifies w
    ensures var x := ReadMany(body, Sizes(acts)); delivered == x.data && seen == x.err
    ensures w.State() == ResponseRun(old(w.State()), Responses(acts))
  {
    delivered, seen := [], None;
    var r := body;
    ghost var x0 := ReadMany(r, Sizes(acts));
    var i := 0;
    while i < |acts|
      invariant 0 <= i <= |acts|
      invariant ResponseRun(old(w.State()), Responses(acts)) == ResponseRun(w.State(), Responses(acts[i..]))
      invariant Resumes(x0, delivered, seen, ReadMany(r, Sizes(acts[i..])))
    {
      ActsUnfold(acts, i);
      match acts[i] {
        case ReadBody(size) =>
          var x := Read(r, size);
          ReadUnfolds(r, size, Sizes(acts[i + 1..]), x0, delivered, seen);
          delivered := delivered + x.data;
          if seen.None? {
            seen := x.err;
          }
          r := x.next;
        case Issue(op) =>
          assert [op][1..] == [];
          WriterObjects.Serve(w, [op]);
      }
      i := i + 1;
    }
    assert acts[i..] == [] && delivered + [] == delivered;
  }

  // The middleware itself. Without a positive limit it is not there.
  method MaxBodyBytes(
    n: int, contentLength: int, body: Reader, w: WriterObjects.ResponseWriter, acts: seq<Act>, page: Page)
    returns (ran: bool, delivered: bytes, seen: Option<End>)
    modifies w
    ensures n > 0 ==>
              Served(ran, delivered, seen, w.State()) == Serve(n, contentLength, body, old(w.State()), acts, page)
    ensures n <= 0 ==>
              && ran && delivered == ReadMany(body, Sizes(acts)).data && seen == ReadMany(body, Sizes(acts)).err
              && w.State() == ResponseRun(old(w.State()), Responses(acts))
  {
    if n <= 0 {
      delivered, seen := Unlimited(body, w, acts);
      return true, delivered, seen;
    }
    if contentLength > n {
      WriterObjects.Serve(w, PageOps(page));
      return false, [], None;
    }
    ran, delivered, seen := true, [], None;
    var r := LimitBody(body, n);
    var rec := new WriterObjects.StatusRecorder(w, null);
    ghost var c0 := rec.Abs();
    ghost var x0 := ReadMany(r, Sizes(acts));
    var i := 0;
    while i < |acts|
      invariant 0 <= i <= |acts|
      invariant rec.Valid() && fresh(rec.Repr - {w}) && rec.base == w && rec.next == null
      invariant r.Flagging?
      invariant Run(c0, Responses(acts)) == Run(rec.Abs(), Responses(acts[i..]))
      invariant Resumes(x0, delivered, seen, ReadMany(r, Sizes(acts[i..])))
    {
      ActsUnfold(acts, i);
      match acts[i] {
        case ReadBody(size) =>
          var x := Read(r, size);
          ReadUnfolds(r, size, Sizes(acts[i + 1..]), x0, delivered, seen);
          delivered := delivered + x.data;
          if seen.None? {
            seen := x.err;
          }
          r := x.next;
        case Issue(op) =>
          rec.Call(op);
      }
      i := i + 1;
    }
    assert acts[i..] == [] && delivered + [] == delivered;
    assert x0 == ReadResult(delivered, seen, r);
    assert Run(c0, Responses(acts)) == rec.Abs();
    assert Bottom(rec.Abs()) == w.State();
    if r.tooLarge && !rec.committed {
      ghost var c1 := rec.Abs();
      rec.SetHeader(page.header);
      rec.WriteHeader(page.status);
      var m := rec.Write(page.body);
      PageRun(c1, page);
      assert rec.Abs() == Run(c1, PageOps(page));
      assert Bottom(rec.Abs()) == w.State();
    }
  }
}
