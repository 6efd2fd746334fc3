// Chain (middleware.go): composing middleware, the first one outermost.
module Middlewares {
  function Nest<H>(mw: seq<H -> H>, next: H): H {
    if mw == [] then next else mw[0](Nest(mw[1..], next))
  }

  method Chain<H>(mw: seq<H -> H>, next: H) returns (h: H)
    ensures h == Nest(mw, next)
  {
    h := next;
    var i := |mw|;
    while i > 0
      invariant 0 <= i <= |mw|
      invariant h == Nest(mw[i..], next)
    {
      i := i - 1;
      assert mw[i..][1..] == mw[i + 1..];
      h := mw[i](h);
    }
    assert mw[0..] == mw;
  }

  // A chain of two chains is one chain: grouping never changes the handler.
  lemma {:induction false} ChainsCompose<H>(a: seq<H -> H>, b: seq<H -> H>, next: H)
    ensures Nest(a + b, next) == Nest(a, Nest(b, next))
  {
    if a == [] {
      assert a + b == b;
    } else {
      assert (a + b)[1..] == a[1..] + b;
      ChainsCompose(a[1..], b, next);
    }
  }
}
