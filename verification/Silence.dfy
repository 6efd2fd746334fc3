// Handlers that answer nothing, and the error pages that middleware sends in
// their stead (middleware.go).
module Silence {
  import opened Common
  import opened Writers

  // The handler wrote, or chose a status: a recorder around it has committed.
  predicate Touched(ops: seq<Op>) {
    exists i :: 0 <= i < |ops| && Commits(ops[i])
  }

  predicate Flushed(ops: seq<Op>) {
    exists i :: 0 <= i < |ops| && ops[i].Flush?
  }

  predicate Hijacks(ops: seq<Op>) {
    exists i :: 0 <= i < |ops| && ops[i].Hijack?
  }

  lemma TouchedUnfolds(ops: seq<Op>)
    requires ops != []
    ensures Touched(ops) <==> Commits(ops[0]) || Touched(ops[1..])
  {
    if Touched(ops) && !Commits(ops[0]) {
      var i :| 0 <= i < |ops| && Commits(ops[i]);
      assert ops[1..][i - 1] == ops[i];
    }
    if Touched(ops[1..]) {
      var i :| 0 <= i < |ops[1..]| && Commits(ops[1..][i]);
      assert ops[i + 1] == ops[1..][i];
    }
  }

  lemma FlushedUnfolds(ops: seq<Op>)
    requires ops != []
    ensures Flushed(ops) <==> ops[0].Flush? || Flushed(ops[1..])
  {
    if Flushed(ops) && !ops[0].Flush? {
      var i :| 0 <= i < |ops| && ops[i].Flush?;
      assert ops[1..][i - 1] == ops[i];
    }
    if Flushed(ops[1..]) {
      var i :| 0 <= i < |ops[1..]| && ops[1..][i].Flush?;
      assert ops[i + 1] == ops[1..][i];
    }
  }

  lemma HijacksUnfolds(ops: seq<Op>)
    requires ops != []
    ensures Hijacks(ops) <==> ops[0].Hijack? || Hijacks(ops[1..])
  {
    if Hijacks(ops) && !ops[0].Hijack? {
      var i :| 0 <= i < |ops| && ops[i].Hijack?;
      assert ops[1..][i - 1] == ops[i];
    }
    if Hijacks(ops[1..]) {
      var i :| 0 <= i < |ops[1..]| && ops[1..][i].Hijack?;
      assert ops[i + 1] == ops[1..][i];
    }
  }

  // A recorder has committed exactly when the handler around which it stands
  // wrote or chose a status.
  lemma {:induction false} RecorderCommits(r: RecorderState, inner: Chain, ops: seq<HandlerOp>)
    ensures var c := Run(Recorder(r, inner), ops);
            && c.Recorder? && (c.state.committed <==> r.committed || Touched(ops))
            && (!Touched(ops) ==> (AnyCommitted(c) <==> AnyCommitted(Recorder(r, inner))))
    decreases |ops|
  {
    if ops != [] {
      var next := Step(Recorder(r, inner), ops[0]);
      TouchedUnfolds(ops);
      ChainIsTransparent(Recorder(r, inner), ops[0]);
      RecorderCommits(next.state, next.inner, ops[1..]);
    }
  }

  lemma {:induction false} SilentIsHeard(committed: bool, ops: seq<HandlerOp>)
    requires !Touched(ops)
    ensures Heard(committed, ops) == ops
    decreases |ops|
  {
    if ops != [] {
      TouchedUnfolds(ops);
      SilentIsHeard(committed, ops[1..]);
    }
  }

  // The handler flushes while the connection is still the server's.
  predicate FlushesFirst(canHijack: bool, ops: seq<Op>) {
    && ops != []
    && (ops[0].Flush? || (!(canHijack && ops[0].Hijack?) && FlushesFirst(canHijack, ops[1..])))
  }

  // The 200 of an early flush, and nothing else yet.
  predicate Started(wire: seq<Event>) {
    |wire| == 1 && wire[0].Head? && wire[0].status == StatusOK
  }

  predicate Unanswered(b: Response) {
    if b.wroteHeader then Started(b.wire) else b.wire == []
  }

  // A silent handler leaves nothing on the wire but the 200 of its flush.
  lemma {:induction false} SilentRun(b: Response, ops: seq<HandlerOp>)
    requires !Touched(ops) && Unanswered(b)
    ensures var b1 := ResponseRun(b, ops);
            && b1.hijacked == (b.hijacked || (CanHijack(b) && Hijacks(ops)))
            && b1.wroteHeader == (b.wroteHeader || (!b.hijacked && FlushesFirst(CanHijack(b), ops)))
            && Unanswered(b1)
    decreases |ops|
  {
    if ops != [] {
      TouchedUnfolds(ops);
      HijacksUnfolds(ops);
      SilentRun(ResponseStep(b, ops[0]), ops[1..]);
    }
  }

  // The same through a recorder, which stays uncommitted.
  lemma SilentChain(inner: Chain, ops: seq<HandlerOp>)
    requires Fresh(Bottom(inner)) && !AnyCommitted(inner) && !Touched(ops)
    ensures var c := Run(Recorder(NewRecorder, inner), ops);
            && c.Recorder? && !AnyCommitted(c) && Unanswered(Bottom(c))
            && Bottom(c) == ResponseRun(Bottom(inner), ops)
            && Bottom(c).hijacked == (CanHijack(Bottom(inner)) && Hijacks(ops))
            && Bottom(c).wroteHeader == FlushesFirst(CanHijack(Bottom(inner)), ops)
  {
    RecorderCommits(NewRecorder, inner, ops);
    ChainRunHears(Recorder(NewRecorder, inner), ops);
    SilentIsHeard(false, ops);
    SilentRun(Bottom(inner), ops);
  }

  // ---- error pages ----

  // What an ErrorWriter sends, with all the header fields it leaves.
  datatype Page = Page(status: int, header: Header, body: bytes)

  function PageOps(page: Page): seq<HandlerOp> {
    [SetHeader(page.header), WriteHeader(page.status), Write(page.body)]
  }

  // Exactly one header, the page's, and its body.
  predicate IsPage(wire: seq<Event>, page: Page) {
    && OneHead(wire) && wire[0] == Head(page.status, page.header)
    && wire[1..] == if page.body == [] then [] else [Raw(page.body)]
  }

  lemma PageRun(c: Chain, page: Page)
    ensures Run(c, PageOps(page))
         == Step(Step(Step(c, SetHeader(page.header)), WriteHeader(page.status)), Write(page.body))
  {
    var t2: seq<Op> := [Write(page.body)];
    var t1: seq<Op> := [WriteHeader(page.status)] + t2;
    var c1 := Step(c, SetHeader(page.header));
    var c2 := Step(c1, WriteHeader(page.status));
    assert PageOps(page)[1..] == t1 && t1[1..] == t2 && t2[1..] == [];
    assert Run(c, PageOps(page)) == Run(c1, t1);
    assert Run(c1, t1) == Run(c2, t2);
    assert Run(c2, t2) == Run(Step(c2, Write(page.body)), []);
  }

  // The page on a response as a silent handler may leave it.
  lemma PageOnSilence(c: Chain, page: Page)
    requires !AnyCommitted(c) && Unanswered(Bottom(c)) && !Informational(page.status)
    ensures var wire, b1 := Bottom(c).wire, Bottom(Run(c, PageOps(page)));
            && !IsOpen(b1)
            && if Bottom(c).hijacked then b1.wire == wire
               else if Bottom(c).wroteHeader then b1.wire == wire + if page.body == [] then [] else [Raw(page.body)]
               else IsPage(b1.wire, page)
  {
    PageRun(c, page);
    var c1 := Step(c, SetHeader(page.header));
    var c2 := Step(c1, WriteHeader(page.status));
    ChainIsTransparent(c, SetHeader(page.header));
    ChainIsTransparent(c1, WriteHeader(page.status));
    ChainIsTransparent(c2, Write(page.body));
    assert [] + [Head(page.status, page.header)] == [Head(page.status, page.header)];
  }
}
