// Request bodies as readers: a connection that delivers bytes in any chunks,
// and the readers the middleware stacks on it (middleware.go,
// graphql/metrics.go). Each reader denotes one byte stream, and reading it in
// any pieces yields exactly that stream.
module Streams {
  import opened Common

  // How a stream ends: the error a Read reports once the bytes are gone.
  datatype End = EOF | Broken(code: nat) | TooLarge

  datatype Reader =
    // A connection. Read returns at most the rest of one chunk; a prompt one
    // reports its end together with the last chunk.
    | Conn(chunks: seq<bytes>, end: End, prompt: bool)
    // bytes.NewReader
    | Buffer(data: bytes)
    // io.MultiReader over a bytes.Reader and the original body
    | Prepended(prefix: bytes, rest: Reader)
    // http.MaxBytesReader: bytes left, and the sticky error
    | MaxBytes(rest: Reader, left: nat, err: Option<End>)
    // bodyLimitReader
    | Flagging(rest: Reader, tooLarge: bool)
    // countingBody
    | Counting(rest: Reader, n: nat)

  datatype ReadResult = ReadResult(data: bytes, err: Option<End>, next: Reader)

  function Min(a: nat, b: nat): nat {
    if a < b then a else b
  }

  // One Read into a buffer of k bytes.
  function Read(r: Reader, k: nat): ReadResult {
    match r
    case Conn(chunks, end, prompt) =>
      if chunks == [] then ReadResult([], Some(end), r)
      else
        var c := chunks[0];
        if k < |c| then ReadResult(c[..k], None, Conn([c[k..]] + chunks[1..], end, prompt))
        else ReadResult(c, if |chunks| == 1 && prompt then Some(end) else None, Conn(chunks[1..], end, prompt))
    case Buffer(data) =>
      if data == [] then ReadResult([], Some(EOF), r)
      else ReadResult(data[..Min(k, |data|)], None, Buffer(data[Min(k, |data|)..]))
    case Prepended(prefix, rest) =>
      if prefix != [] then
        ReadResult(prefix[..Min(k, |prefix|)], None, Prepended(prefix[Min(k, |prefix|)..], rest))
      else
        var x := Read(rest, k);
        ReadResult(x.data, x.err, Prepended([], x.next))
    case MaxBytes(rest, left, err) =>
      if err.Some? then ReadResult([], err, r)
      else if k == 0 then ReadResult([], None, r)
      else
        var x := Read(rest, Min(k, left + 1));
        if |x.data| <= left then ReadResult(x.data, x.err, MaxBytes(x.next, left - |x.data|, x.err))
        else ReadResult(x.data[..left], Some(TooLarge), MaxBytes(x.next, 0, Some(TooLarge)))
    case Flagging(rest, tooLarge) =>
      var x := Read(rest, k);
      ReadResult(x.data, x.err, Flagging(x.next, tooLarge || x.err == Some(TooLarge)))
    case Counting(rest, n) =>
      var x := Read(rest, k);
      ReadResult(x.data, x.err, Counting(x.next, n + |x.data|))
  }

  // ---- the stream a reader denotes ----

  function Bytes(r: Reader): bytes {
    match r
    case Conn(chunks, _, _) => Flatten(chunks)
    case Buffer(data) => data
    case Prepended(prefix, rest) => prefix + Bytes(rest)
    case MaxBytes(rest, left, err) =>
      if err.Some? then [] else if |Bytes(rest)| <= left then Bytes(rest) else Bytes(rest)[..left]
    case Flagging(rest, _) => Bytes(rest)
    case Counting(rest, _) => Bytes(rest)
  }

  function Ending(r: Reader): End {
    match r
    case Conn(_, end, _) => end
    case Buffer(_) => EOF
    case Prepended(_, rest) => Ending(rest)
    case MaxBytes(rest, left, err) =>
      if err.Some? then err.value else if |Bytes(rest)| <= left then Ending(rest) else TooLarge
    case Flagging(rest, _) => Ending(rest)
    case Counting(rest, _) => Ending(rest)
  }

  // What is left to do before the end is reported.
  function Work(r: Reader): nat {
    match r
    case Conn(chunks, _, _) => |Flatten(chunks)| + |chunks|
    case Buffer(data) => |data|
    case Prepended(prefix, rest) => |prefix| + Work(rest)
    case MaxBytes(rest, _, _) => Work(rest)
    case Flagging(rest, _) => Work(rest)
    case Counting(rest, _) => Work(rest)
  }

  // One Read: it delivers the next bytes of the stream and leaves the rest;
  // an error is the stream's own end, comes only when nothing is left, and
  // stays; without one a Read that had room made progress.
  predicate Faithful(r: Reader, k: nat, x: ReadResult) {
    && |x.data| <= k
    && x.data + Bytes(x.next) == Bytes(r)
    && Ending(x.next) == Ending(r)
    && (x.err.Some? ==> x.err.value == Ending(r) && Bytes(x.next) == [])
    && (x.err.None? && k > 0 ==> Work(x.next) < Work(r))
  }

  lemma ConnIsFaithful(chunks: seq<bytes>, end: End, prompt: bool, k: nat)
    ensures Faithful(Conn(chunks, end, prompt), k, Read(Conn(chunks, end, prompt), k))
  {
    if chunks != [] {
      var c := chunks[0];
      if k < |c| {
        assert ([c[k..]] + chunks[1..])[1..] == chunks[1..];
        assert c[..k] + (c[k..] + Flatten(chunks[1..])) == c + Flatten(chunks[1..]);
      }
    }
  }

  lemma MaxBytesIsFaithful(r: Reader, k: nat)
    requires r.MaxBytes? && r.err.None? && k > 0
    requires Faithful(r.rest, Min(k, r.left + 1), Read(r.rest, Min(k, r.left + 1)))
    ensures Faithful(r, k, Read(r, k))
  {
    var x := Read(r.rest, Min(k, r.left + 1));
    if |x.data| <= r.left {
      if |Bytes(r.rest)| > r.left {
        assert Bytes(r.rest)[..r.left] == x.data + Bytes(x.next)[..r.left - |x.data|];
      }
    } else {
      assert x.data[..r.left] == Bytes(r.rest)[..r.left];
    }
  }

  lemma {:induction false} ReadIsFaithful(r: Reader, k: nat)
    ensures Faithful(r, k, Read(r, k))
    decreases r
  {
    match r
    case Conn(chunks, end, prompt) => ConnIsFaithful(chunks, end, prompt, k);
    case Buffer(data) =>
    case Prepended(prefix, rest) =>
      if prefix == [] {
        ReadIsFaithful(rest, k);
      } else {
        var m := Min(k, |prefix|);
        assert prefix[..m] + (prefix[m..] + Bytes(rest)) == prefix + Bytes(rest);
      }
    case MaxBytes(rest, left, err) =>
      if err.None? && k > 0 {
        ReadIsFaithful(rest, Min(k, left + 1));
        MaxBytesIsFaithful(r, k);
      }
    case Flagging(rest, _) => ReadIsFaithful(rest, k);
    case Counting(rest, _) => ReadIsFaithful(rest, k);
  }

  // ---- how the end is reported ----

  // Whether the Read that delivers the last byte, asked for no more than what
  // is left, also reports the end.
  predicate Prompt(r: Reader) {
    match r
    case Conn(chunks, _, prompt) => prompt && chunks != [] && chunks[|chunks| - 1] != []
    case Buffer(_) => false
    case Prepended(_, rest) => Prompt(rest)
    case MaxBytes(rest, left, err) => err.None? && |Bytes(rest)| <= left && Prompt(rest)
    case Flagging(rest, _) => Prompt(rest)
    case Counting(rest, _) => Prompt(rest)
  }

  lemma {:induction false} LastChunk(chunks: seq<bytes>)
    requires chunks != [] && chunks[|chunks| - 1] != []
    ensures Flatten(chunks) != []
  {
    if |chunks| > 1 {
      LastChunk(chunks[1..]);
    }
  }

  lemma {:induction false} PromptHasBytes(r: Reader)
    requires Prompt(r)
    ensures Bytes(r) != []
  {
    match r
    case Conn(chunks, _, _) => LastChunk(chunks);
    case Prepended(_, rest) => PromptHasBytes(rest);
    case MaxBytes(rest, _, _) => PromptHasBytes(rest);
    case Flagging(rest, _) => PromptHasBytes(rest);
    case Counting(rest, _) => PromptHasBytes(rest);
  }

  // A Read of at most what is left: it reports the end exactly when it
  // delivers the last byte of a prompt reader, and keeps the reader as prompt
  // as it was until then.
  predicate ReportsPromptly(r: Reader, x: ReadResult) {
    && (x.err.Some? <==> x.data == Bytes(r) && Prompt(r))
    && (x.data != Bytes(r) ==> Prompt(x.next) == Prompt(r))
  }

  lemma ConnReports(chunks: seq<bytes>, end: End, prompt: bool, k: nat)
    requires 0 < k <= |Flatten(chunks)|
    ensures ReportsPromptly(Conn(chunks, end, prompt), Read(Conn(chunks, end, prompt), k))
  {
    var c, rest := chunks[0], chunks[1..];
    ConnIsFaithful(chunks, end, prompt, k);
    assert rest != [] ==> rest[|rest| - 1] == chunks[|chunks| - 1];
    if k < |c| {
      var next := [c[k..]] + rest;
      assert next[|next| - 1] == if rest == [] then c[k..] else rest[|rest| - 1];
    } else if rest != [] && rest[|rest| - 1] != [] {
      LastChunk(rest);
    }
  }

  lemma {:induction false} ReadReports(r: Reader, k: nat)
    requires 0 < k <= |Bytes(r)|
    ensures ReportsPromptly(r, Read(r, k))
    decreases r
  {
    match r
    case Conn(chunks, end, prompt) => ConnReports(chunks, end, prompt, k);
    case Buffer(data) =>
    case Prepended(prefix, rest) =>
      if prefix == [] {
        ReadReports(rest, k);
      } else if Prompt(rest) {
        PromptHasBytes(rest);
      }
    case MaxBytes(rest, left, err) =>
      ReadIsFaithful(rest, k);
      ReadReports(rest, k);
    case Flagging(rest, _) => ReadReports(rest, k);
    case Counting(rest, _) => ReadReports(rest, k);
  }

  // Part of a stream has been read.
  predicate Partway(r0: Reader, data: bytes, r: Reader) {
    data + Bytes(r) == Bytes(r0) && Ending(r) == Ending(r0)
  }

  lemma ReadOn(r0: Reader, data: bytes, r: Reader, k: nat)
    requires Partway(r0, data, r) && k > 0
    ensures var x := Read(r, k);
            && Partway(r0, data + x.data, x.next) && |x.data| <= k
            && (x.err.Some? ==> x.err.value == Ending(r0) && Bytes(x.next) == [])
            && (x.err.None? ==> Work(x.next) < Work(r))
            && (|data| + k <= |Bytes(r0)| ==>
                && (x.err.Some? <==> |data + x.data| == |Bytes(r0)| && Prompt(r))
                && (|data + x.data| < |Bytes(r0)| ==> Prompt(x.next) == Prompt(r)))
  {
    var x := Read(r, k);
    ReadIsFaithful(r, k);
    ConcatAssoc(data, x.data, Bytes(x.next));
    if |data| + k <= |Bytes(r0)| {
      ReadReports(r, k);
      assert x.data == Bytes(r) <==> |x.data| == |Bytes(r)| by {
        assert |x.data| == |Bytes(r)| ==> Bytes(x.next) == [] && x.data + [] == x.data;
      }
    }
  }

  // ---- any schedule of reads ----

  // Everything a consumer got, the first error it saw, and what remains.
  function ReadMany(r: Reader, sizes: seq<nat>): ReadResult
    decreases |sizes|
  {
    if sizes == [] then ReadResult([], None, r)
    else
      var x := Read(r, sizes[0]);
      var y := ReadMany(x.next, sizes[1..]);
      ReadResult(x.data + y.data, if x.err.Some? then x.err else y.err, y.next)
  }

  // Whatever the buffer sizes, the consumer gets a prefix of the stream, all
  // of it by the time it sees an error, and that error is the stream's end.
  lemma {:induction false} AnyScheduleReadsStream(r: Reader, sizes: seq<nat>)
    ensures var x := ReadMany(r, sizes);
            && x.data + Bytes(x.next) == Bytes(r) && Ending(x.next) == Ending(r)
            && (x.err.Some? ==> x.data == Bytes(r) && x.err.value == Ending(r))
    decreases |sizes|
  {
    if sizes == [] {
      assert [] + Bytes(r) == Bytes(r);
    } else {
      var x := Read(r, sizes[0]);
      var y := ReadMany(x.next, sizes[1..]);
      ReadIsFaithful(r, sizes[0]);
      AnyScheduleReadsStream(x.next, sizes[1..]);
      JoinReads(r, x.data, y.data, Bytes(y.next), Bytes(x.next));
    }
  }

  lemma JoinReads(r: Reader, a: bytes, b: bytes, rest: bytes, after: bytes)
    requires a + after == Bytes(r) && b + rest == after
    ensures a + b + rest == Bytes(r)
    ensures after == [] || b == after ==> a + b == Bytes(r)
  {
    assert a + (b + rest) == a + b + rest;
    if after == [] {
      assert b == [] && a + [] == a;
    }
  }

  // ---- countingBody ----

  // The count is the number of bytes delivered.
  lemma {:induction false} CountsDelivered(r: Reader, sizes: seq<nat>)
    requires r.Counting?
    ensures var x := ReadMany(r, sizes); x.next.Counting? && x.next.n == r.n + |x.data|
    decreases |sizes|
  {
    if sizes != [] {
      CountsDelivered(Read(r, sizes[0]).next, sizes[1..]);
    }
  }

  // ---- MaxBodyBytes' reader ----

  function LimitBody(body: Reader, n: nat): Reader {
    Flagging(MaxBytes(body, n, None), false)
  }

  lemma {:induction false} FlagMeansOverrun(r: Reader, sizes: seq<nat>)
    requires r.Flagging?
    ensures var x := ReadMany(r, sizes);
            x.next.Flagging? && (x.next.tooLarge <==> r.tooLarge || x.err == Some(TooLarge))
    decreases |sizes|
  {
    if sizes != [] {
      var x := Read(r, sizes[0]);
      var y := ReadMany(x.next, sizes[1..]);
      FlagMeansOverrun(x.next, sizes[1..]);
      ReadIsFaithful(r, sizes[0]);
      AnyScheduleReadsStream(x.next, sizes[1..]);
    }
  }

  // For every body and every schedule of reads: the handler sees a prefix of
  // at most n bytes; a body that fits is delivered as it is and never
  // flagged; an overlong one is flagged exactly when the handler has read on
  // into the error, and then it has seen exactly the first n bytes.
  lemma LimitedReads(body: Reader, n: nat, sizes: seq<nat>)
    requires Ending(body) != TooLarge
    ensures var x := ReadMany(LimitBody(body, n), sizes);
            && x.data <= Bytes(body) && |x.data| <= n && x.next.Flagging?
            && (|Bytes(body)| <= n ==>
                !x.next.tooLarge && (x.err.Some? ==> x.data == Bytes(body) && x.err.value == Ending(body)))
            && (|Bytes(body)| > n ==>
                && (x.next.tooLarge <==> x.err.Some?)
                && (x.err.Some? ==> x.data == Bytes(body)[..n] && x.err.value == TooLarge))
  {
    var r := LimitBody(body, n);
    var x := ReadMany(r, sizes);
    AnyScheduleReadsStream(r, sizes);
    FlagMeansOverrun(r, sizes);
    assert x.data <= Bytes(r) <= Bytes(body);
  }
}
