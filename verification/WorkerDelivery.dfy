/**
 What the worker's parser does with whole byte streams, over every way of cutting the
 stream into reads.
 */
module WorkerDelivery {
  import opened Octets
  import opened Sequences
  import opened Netstring
  import opened FrameStream
  import opened WorkerChannel

  const FRESH := Conn([], 0, true, [])

  function Run(chunks: seq<Bytes>, size: nat, closes: Closer): Conn
  {
    if chunks == [] then FRESH
    else Receive(Run(chunks[..|chunks| - 1], size, closes), chunks[|chunks| - 1], size, closes)
  }

  // Every read fits in the space that was free when it was made.
  predicate Readable(chunks: seq<Bytes>, size: nat, closes: Closer)
  {
    chunks == []
    || (Readable(chunks[..|chunks| - 1], size, closes)
        && var c := Run(chunks[..|chunks| - 1], size, closes);
           c.used + |chunks[|chunks| - 1]| <= size)
  }

  predicate Holds(ps: seq<Bytes>, size: nat)
  {
    forall i :: 0 <= i < |ps| ==> |ps[i]| <= MAX_LENGTH && |Frame(ps[i])| <= size
  }

  // The listener keeps the socket open while it hears ps, having heard done.
  predicate Quiet(done: seq<Bytes>, ps: seq<Bytes>, closes: Closer)
    decreases |ps|
  {
    ps == [] || (!closes(done + [ps[0]]) && Quiet(done + [ps[0]], ps[1..], closes))
  }

  lemma DrainFrame(p: Bytes, rest: Bytes, done: seq<Bytes>, closes: Closer)
    requires |p| <= MAX_LENGTH && !closes(done + [p])
    ensures Drain(Frame(p) + rest, done, closes) == Drain(rest, done + [p], closes).After([p])
  {
    hide Read, Frame;
    ConcatParts(Frame(p), rest);
    ReadComplete(p, Frame(p) + rest);
  }

  // Draining a piece of a stream takes exactly its complete frames.
  lemma {:induction false} DrainStream(pending: Bytes, ps: seq<Bytes>, done: seq<Bytes>, closes: Closer)
    requires pending <= Stream(ps)
    requires forall i :: 0 <= i < |ps| ==> |ps[i]| <= MAX_LENGTH
    requires Quiet(done, ps[..Complete(ps, |pending|)], closes)
    ensures var k := Complete(ps, |pending|);
            var d := Drain(pending, done, closes);
            d.messages == ps[..k] && d.stop == Waiting && pending == Stream(ps[..k]) + d.rest
    decreases |ps|
  {
    hide Frame, Read;
    var k := Complete(ps, |pending|);
    if ps != [] {
      var f, p := Frame(ps[0]), ps[0];
      PrefixCut(pending, f, Stream(ps[1..]));
      if |pending| < |f| {
        ReadIncomplete(p, pending);
      } else {
        hide Drain;
        var rest := pending[|f|..];
        TakeHead(ps, k);
        DrainStream(rest, ps[1..], done + [p], closes);
        DrainFrame(p, rest, done, closes);
        ConcatAssoc(f, Stream(ps[1..][..k - 1]), Drain(rest, done + [p], closes).rest);
      }
    } else {
      assert pending == [];
    }
  }

  lemma {:induction false} QuietSplit(done: seq<Bytes>, ps: seq<Bytes>, j: nat, closes: Closer)
    requires j <= |ps|
    ensures Quiet(done, ps, closes) <==> Quiet(done, ps[..j], closes) && Quiet(done + ps[..j], ps[j..], closes)
    decreases j
  {
    if j == 0 {
      assert done + ps[..0] == done && ps[0..] == ps;
    } else {
      TakeHead(ps, j);
      assert ps[1..][j - 1..] == ps[j..];
      ConcatAssoc(done, [ps[0]], ps[1..][..j - 1]);
      QuietSplit(done + [ps[0]], ps[1..], j - 1, closes);
    }
  }

  lemma QuietSlice(ps: seq<Bytes>, j: nat, k: nat, closes: Closer)
    requires j <= k <= |ps| && Quiet([], ps[..k], closes)
    ensures Quiet([], ps[..j], closes) && Quiet(ps[..j], ps[j..][..k - j], closes)
  {
    QuietSplit([], ps[..k], j, closes);
    TakeTake(ps, j, k);
    assert [] + ps[..j] == ps[..j];
  }

  // Whatever arrives, an open parser always has room for the next read.
  lemma {:induction false} DrainShrinks(pending: Bytes, done: seq<Bytes>, closes: Closer)
    ensures |Drain(pending, done, closes).rest| <= |pending|
    decreases |pending|
  {
    hide Read;
    var m := Read(pending);
    if m.Message? {
      DrainShrinks(pending[m.start + m.len + 1..], done + [pending[m.start..m.start + m.len]], closes);
    }
  }

  lemma {:induction false} RoomToRead(chunks: seq<Bytes>, size: nat, closes: Closer)
    requires size > 0 && Readable(chunks, size, closes)
    ensures var c := Run(chunks, size, closes);
            |c.pending| <= c.used <= size && (c.open ==> c.used < size)
  {
    if chunks != [] {
      var before := chunks[..|chunks| - 1];
      RoomToRead(before, size, closes);
      var c := Run(before, size, closes);
      DrainShrinks(c.pending + chunks[|chunks| - 1], c.delivered, closes);
    }
  }

  // One read of an open parser that is in step with the payloads still to come.
  lemma ReceivePiece(c: Conn, chunk: Bytes, todo: seq<Bytes>, size: nat, closes: Closer)
    requires c.open && chunk != [] && Holds(todo, size) && c.pending + chunk <= Stream(todo)
    requires |c.pending| <= c.used && c.used + |chunk| <= size
    requires Quiet(c.delivered, todo[..Complete(todo, |c.pending + chunk|)], closes)
    ensures var d := Receive(c, chunk, size, closes);
            var m := Complete(todo, |c.pending + chunk|);
            && d.open && d.delivered == c.delivered + todo[..m]
            && c.pending + chunk == Stream(todo[..m]) + d.pending
  {
    var pending := c.pending + chunk;
    var m := Complete(todo, |pending|);
    DrainStream(pending, todo, c.delivered, closes);
    CompleteBounds(todo, |pending|);
    if m == |todo| {
      assert todo[..m] == todo;
    }
  }

  lemma Follow(c: Conn, chunk: Bytes, ps: seq<Bytes>, j: nat, size: nat, closes: Closer)
    requires c.open && chunk != [] && Holds(ps, size) && j <= |ps| && c.delivered == ps[..j]
    requires |c.pending| <= c.used && c.used + |chunk| <= size
    requires Stream(ps[..j]) + (c.pending + chunk) <= Stream(ps)
    requires Quiet([], ps[..Complete(ps, |Stream(ps[..j]) + (c.pending + chunk)|)], closes)
    ensures var d := Receive(c, chunk, size, closes);
            var all := Stream(ps[..j]) + (c.pending + chunk);
            d.open && d.delivered == ps[..Complete(ps, |all|)] && all == Stream(d.delivered) + d.pending
  {
    hide Stream, Complete, Quiet, Receive, Frame;
    var tail, todo := c.pending + chunk, ps[j..];
    var all := Stream(ps[..j]) + tail;
    var k := Complete(ps, |all|);
    StreamSplit(ps, j);
    PrefixAfter(Stream(ps[..j]), Stream(todo), tail);
    CompleteSplit(ps, j, |all|);
    var m := Complete(todo, |tail|);
    QuietSlice(ps, j, k, closes);
    ReceivePiece(c, chunk, todo, size, closes);
    TakeTake(ps, j, k);
    StreamConcat(ps[..j], todo[..m]);
    ConcatAssoc(Stream(ps[..j]), Stream(todo[..m]), Receive(c, chunk, size, closes).pending);
  }

  // However the stream of ps is cut into reads, the parser has at every moment delivered the
  // frames that have fully arrived, in order, and holds exactly the bytes after them: nothing
  // is discarded.
  lemma {:induction false} WorkerFollowsStream(ps: seq<Bytes>, chunks: seq<Bytes>, size: nat, closes: Closer)
    requires size > 0 && Holds(ps, size)
    requires Flatten(chunks) <= Stream(ps) && Readable(chunks, size, closes)
    requires Quiet([], ps[..Complete(ps, |Flatten(chunks)|)], closes)
    ensures var c := Run(chunks, size, closes);
            var k := Complete(ps, |Flatten(chunks)|);
            && c.open && c.delivered == ps[..k]
            && Flatten(chunks) == Stream(c.delivered) + c.pending
            && |c.pending| <= c.used < size
  {
    hide Stream, Frame, Complete, Quiet, Receive, Holds;
    RoomToRead(chunks, size, closes);
    if chunks != [] {
      var before, chunk := chunks[..|chunks| - 1], chunks[|chunks| - 1];
      var n0, n := |Flatten(before)|, |Flatten(chunks)|;
      var j, k := Complete(ps, n0), Complete(ps, n);
      ConcatParts(Flatten(before), chunk);
      assert j <= k && Quiet([], ps[..j], closes) by {
        CompleteBounds(ps, n0);
        CompleteSplit(ps, j, n);
        QuietSlice(ps, j, k, closes);
      }
      WorkerFollowsStream(ps, before, size, closes);
      RoomToRead(before, size, closes);
      var c := Run(before, size, closes);
      ConcatAssoc(Stream(ps[..j]), c.pending, chunk);
      if chunk != [] {
        Follow(c, chunk, ps, j, size, closes);
      }
    } else {
      NothingComplete(ps);
    }
  }

  // ---- Closing ----

  // Draining stops at the message whose handling closes the socket.
  lemma {:induction false} DrainShut(pending: Bytes, ps: seq<Bytes>, j: nat, done: seq<Bytes>, closes: Closer)
    requires pending <= Stream(ps) && j < Complete(ps, |pending|)
    requires forall i :: 0 <= i < |ps| ==> |ps[i]| <= MAX_LENGTH
    requires Quiet(done, ps[..j], closes) && closes(done + ps[..j + 1])
    ensures var d := Drain(pending, done, closes);
            d.messages == ps[..j + 1] && d.stop == Shut
    decreases |ps|
  {
    hide Frame, Read;
    var f, p := Frame(ps[0]), ps[0];
    PrefixCut(pending, f, Stream(ps[1..]));
    var rest := pending[|f|..];
    TakeHead(ps, j + 1);
    if j == 0 {
      assert ps[..1] == [p];
      ReadComplete(p, pending);
      ConcatParts(f, rest);
    } else {
      TakeHead(ps, j);
      ConcatAssoc(done, [p], ps[1..][..j]);
      DrainShut(rest, ps[1..], j - 1, done + [p], closes);
      DrainFrame(p, rest, done, closes);
    }
  }

  // Messages that follow the one that closes the socket are never delivered, even when they
  // arrived in the same read.
  lemma {:induction false} WorkerStopsAtClose(ps: seq<Bytes>, chunks: seq<Bytes>, j: nat, size: nat, closes: Closer)
    requires size > 0 && Holds(ps, size)
    requires Flatten(chunks) <= Stream(ps) && Readable(chunks, size, closes)
    requires j < Complete(ps, |Flatten(chunks)|) && Quiet([], ps[..j], closes) && closes(ps[..j + 1])
    ensures var c := Run(chunks, size, closes);
            !c.open && c.delivered == ps[..j + 1]
  {
    assert chunks != [];
    hide Stream, Frame, Complete, Quiet, Receive;
    var before, chunk := chunks[..|chunks| - 1], chunks[|chunks| - 1];
    ConcatParts(Flatten(before), chunk);
    var i := Complete(ps, |Flatten(before)|);
    if j < i {
      WorkerStopsAtClose(ps, before, j, size, closes);
    } else {
      QuietSlice(ps, i, j, closes);
      WorkerFollowsStream(ps, before, size, closes);
      RoomToRead(before, size, closes);
      var c := Run(before, size, closes);
      ConcatAssoc(Stream(ps[..i]), c.pending, chunk);
      ShutHere(c, chunk, ps, i, j, size, closes);
    }
  }

  lemma ShutHere(c: Conn, chunk: Bytes, ps: seq<Bytes>, i: nat, j: nat, size: nat, closes: Closer)
    requires c.open && Holds(ps, size) && i <= j < |ps| && c.delivered == ps[..i]
    requires Stream(ps[..i]) + (c.pending + chunk) <= Stream(ps)
    requires i == Complete(ps, |Stream(ps[..i]) + c.pending|)
    requires j < Complete(ps, |Stream(ps[..i]) + (c.pending + chunk)|)
    requires Quiet(ps[..i], ps[i..][..j - i], closes) && closes(ps[..j + 1])
    ensures var d := Receive(c, chunk, size, closes);
            !d.open && d.delivered == ps[..j + 1]
  {
    hide Stream, Frame, Complete, Quiet, Drain, Receive;
    var tail, todo := c.pending + chunk, ps[i..];
    assert chunk == [] ==> tail == c.pending;
    StreamSplit(ps, i);
    PrefixAfter(Stream(ps[..i]), Stream(todo), tail);
    CompleteSplit(ps, i, |Stream(ps[..i]) + tail|);
    TakeTake(ps, i, j + 1);
    DrainShut(tail, todo, j - i, c.delivered, closes);
    ReceiveShut(c, chunk, size, closes);
  }

  lemma ReceiveShut(c: Conn, chunk: Bytes, size: nat, closes: Closer)
    requires c.open && chunk != [] && Drain(c.pending + chunk, c.delivered, closes).stop.Shut?
    ensures var d := Receive(c, chunk, size, closes);
            !d.open && d.delivered == c.delivered + Drain(c.pending + chunk, c.delivered, closes).messages
  {
    hide Drain;
  }

  // ---- Malformed data ----

  // No message can begin like this.
  predicate Malformed(s: Bytes) { !Read(s).Message? && !Read(s).TooShort? }

  lemma DrainJunk(junk: Bytes, done: seq<Bytes>, closes: Closer)
    requires Malformed(junk)
    ensures Drain(junk, done, closes) == Drained([], [], Broken)
  {
    hide Read;
  }

  lemma {:induction false} DrainMalformed(ps: seq<Bytes>, junk: Bytes, done: seq<Bytes>, closes: Closer)
    requires Malformed(junk) && Quiet(done, ps, closes)
    requires forall i :: 0 <= i < |ps| ==> |ps[i]| <= MAX_LENGTH
    ensures Drain(Stream(ps) + junk, done, closes) == Drained(ps, [], Broken)
    decreases |ps|
  {
    hide Malformed, Frame, Drain;
    if ps == [] {
      assert Stream(ps) + junk == junk;
      DrainJunk(junk, done, closes);
    } else {
      DrainMalformed(ps[1..], junk, done + [ps[0]], closes);
      DrainFrame(ps[0], Stream(ps[1..]) + junk, done, closes);
      ConcatAssoc(Frame(ps[0]), Stream(ps[1..]), junk);
      assert [ps[0]] + ps[1..] == ps;
    }
  }

  // Malformed data behind complete frames: those are delivered, the rest of the read is thrown away, and
  // the open socket goes on with an empty buffer.
  lemma MalformedResets(c: Conn, chunk: Bytes, ps: seq<Bytes>, junk: Bytes, size: nat, closes: Closer)
    requires c.open && chunk != [] && c.pending + chunk == Stream(ps) + junk && Malformed(junk)
    requires Quiet(c.delivered, ps, closes) && forall i :: 0 <= i < |ps| ==> |ps[i]| <= MAX_LENGTH
    ensures Receive(c, chunk, size, closes) == Conn([], 0, true, c.delivered + ps)
  {
    hide Drain, Stream, Malformed;
    DrainMalformed(ps, junk, c.delivered, closes);
  }

  // ---- Which streams get through ----

  lemma {:induction false} DrainBounded(pending: Bytes, done: seq<Bytes>, closes: Closer)
    ensures Holds(Drain(pending, done, closes).messages, |pending|)
    decreases |pending|
  {
    hide Read, Frame;
    var m := Read(pending);
    if m.Message? {
      ReadSound(pending);
      DrainBounded(pending[m.start + m.len + 1..], done + [pending[m.start..m.start + m.len]], closes);
    }
  }

  lemma {:induction false} DeliveredBounded(chunks: seq<Bytes>, size: nat, closes: Closer)
    requires size > 0 && Readable(chunks, size, closes)
    ensures Holds(Run(chunks, size, closes).delivered, size)
  {
    hide Frame, Receive, Holds;
    if chunks != [] {
      var before := chunks[..|chunks| - 1];
      DeliveredBounded(before, size, closes);
      RoomToRead(before, size, closes);
      ReceiveBounded(Run(before, size, closes), chunks[|chunks| - 1], size, closes);
    } else {
      HoldsConcat([], [], 0, size);
    }
  }

  lemma ReceiveBounded(c: Conn, chunk: Bytes, size: nat, closes: Closer)
    requires Holds(c.delivered, size) && |c.pending| + |chunk| <= size
    ensures Holds(Receive(c, chunk, size, closes).delivered, size)
  {
    hide Frame, Drain, Holds;
    DrainBounded(c.pending + chunk, c.delivered, closes);
    HoldsConcat(c.delivered, Drain(c.pending + chunk, c.delivered, closes).messages, |c.pending + chunk|, size);
  }

  lemma HoldsConcat(a: seq<Bytes>, b: seq<Bytes>, n: nat, size: nat)
    requires (a == [] || Holds(a, size)) && (b == [] || Holds(b, n)) && n <= size
    ensures Holds(a + b, size) && Holds([], size)
  {
    hide Frame;
  }

  // A whole stream gets through, under any chunking, if and only if every frame fits the
  // buffer (and its length has at most nine digits).
  lemma WorkerDeliversAllIff(ps: seq<Bytes>, chunks: seq<Bytes>, size: nat, closes: Closer)
    requires size > 0 && Flatten(chunks) == Stream(ps) && Readable(chunks, size, closes)
    requires Quiet([], ps, closes)
    ensures Run(chunks, size, closes).delivered == ps <==> Holds(ps, size)
  {
    DeliveredBounded(chunks, size, closes);
    if Holds(ps, size) {
      CompleteAll(ps);
      assert ps[..|ps|] == ps;
      WorkerFollowsStream(ps, chunks, size, closes);
    }
  }

  // What SendImpl's callers let through always gets through.
  lemma WorkerDeliversSent(ps: seq<Bytes>, chunks: seq<Bytes>, closes: Closer)
    requires forall i :: 0 <= i < |ps| ==> |ps[i]| <= NS_PAYLOAD_MAX_LEN
    requires Flatten(chunks) == Stream(ps) && Readable(chunks, NS_MESSAGE_MAX_LEN, closes)
    requires Quiet([], ps, closes)
    ensures Run(chunks, NS_MESSAGE_MAX_LEN, closes).delivered == ps
    ensures Run(chunks, NS_MESSAGE_MAX_LEN, closes).pending == []
  {
    forall i | 0 <= i < |ps|
      ensures |ps[i]| <= MAX_LENGTH && |Frame(ps[i])| <= NS_MESSAGE_MAX_LEN
    {
      MaxFrame(ps[i]);
    }
    CompleteAll(ps);
    assert ps[..|ps|] == ps;
    WorkerFollowsStream(ps, chunks, NS_MESSAGE_MAX_LEN, closes);
  }
}
