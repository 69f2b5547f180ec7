/**
 The Node end of the channel (mediasouptestcase/src/Channel.ts, the 'data' handler, which
 PayloadChannel.ts repeats without the catch): a growing buffer, cleared when it exceeds a limit.
 */
module NodeReceiver {
  import opened Octets
  import opened Sequences
  import opened Netstring
  import opened FrameStream

  const NS_PAYLOAD_MAX_LEN: nat := 4194304

  // ---- netstring.nsPayload, by the format's definition ----

  datatype NsResult = Payload(p: Bytes) | Incomplete | Invalid

  function NsPayload(s: Bytes): (r: NsResult)
    ensures r.Payload? ==> |Frame(r.p)| <= |s|
    ensures s == [] ==> r == Incomplete
  {
    var k := DigitRun(s);
    if s == [] then Incomplete
    else if k == 0 || (k > 1 && s[0] == ZERO) then Invalid
    else if k == |s| then Incomplete
    else if s[k] != COLON then Invalid
    else
      var len := Value(s[..k]);
      if k + len + 1 >= |s| then Incomplete
      else if s[k + 1 + len] != COMMA then Invalid
      else
        assert |Frame(s[k + 1..k + 1 + len])| <= |s| by { DigitsOfValue(s[..k]); }
        Payload(s[k + 1..k + 1 + len])
  }

  lemma NsPayloadComplete(p: Bytes, s: Bytes)
    requires Frame(p) <= s
    ensures NsPayload(s) == Payload(p)
  {
    FramePrefix(p, s);
    DigitsOfNat(|p|);
    var d := Digits(|p|);
    assert s[..|Frame(p)|] == Frame(p);
    assert s[0] == d[0] && s[|Frame(p)| - 1] == COMMA;
    assert Frame(p)[|d| + 1..|Frame(p)| - 1] == p;
  }

  lemma NsPayloadIncomplete(p: Bytes, s: Bytes)
    requires s < Frame(p)
    ensures NsPayload(s) == Incomplete
  {
    FramePrefix(p, s);
    DigitsOfNat(|p|);
    if s != [] { assert s[0] == Frame(p)[0] == Digits(|p|)[0]; }
  }

  lemma NsPayloadSound(s: Bytes)
    requires NsPayload(s).Payload?
    ensures Frame(NsPayload(s).p) <= s
  {
    var k := DigitRun(s);
    var d, p := s[..k], NsPayload(s).p;
    assert Canonical(d) by { if k > 1 { assert s[0] == d[0]; } }
    DigitsOfValue(d);
    hide NsPayload, Digits, Value, DigitRun;
    ThreeParts(s, k, |p|);
  }

  // A frame that s could still grow into.
  lemma Completion(s: Bytes) returns (p: Bytes)
    requires NsPayload(s) == Incomplete
    ensures s < Frame(p)
  {
    var k := DigitRun(s);
    if s == [] { return []; }
    var d := s[..k];
    assert Canonical(d) by { if k > 1 { assert s[0] == d[0]; } }
    DigitsOfValue(d);
    var len := Value(d);
    if k == |s| {
      p := seq(len, i => ZERO);
      assert d == s;
    } else {
      var got := s[k + 1..];
      p := got + seq(len - |got|, i => ZERO);
      assert Frame(p) == d + [COLON] + p + [COMMA];
      hide NsPayload, Digits, Value, DigitRun, Frame;
      assert s == d + [COLON] + got;
    }
  }

  // nsPayload tells apart exactly: a frame has arrived, one may still, none can.
  lemma NsPayloadExact(s: Bytes, p: Bytes)
    ensures NsPayload(s) == Payload(p) <==> Frame(p) <= s
    ensures NsPayload(s) == Incomplete <==> exists q: Bytes :: s < Frame(q)
  {
    if NsPayload(s).Payload? { NsPayloadSound(s); }
    if Frame(p) <= s { NsPayloadComplete(p, s); }
    if NsPayload(s) == Incomplete {
      var q := Completion(s);
      assert s < Frame(q);
    }
    if exists q: Bytes :: s < Frame(q) {
      var q: Bytes :| s < Frame(q);
      NsPayloadIncomplete(q, s);
    }
  }

  // ---- The handler ----

  // Whether processing the last payload of a history throws out of the handler, which then leaves
  // the payload in the buffer.
  type Stuck = seq<Bytes> -> bool

  const NEVER: Stuck := (history: seq<Bytes>) => false

  // buffer: _recvBuffer, empty when undefined. messages: the payloads taken from it so far.
  datatype NodeConn = NodeConn(buffer: Bytes, messages: seq<Bytes>)

  function Drain(c: NodeConn, stuck: Stuck): (r: NodeConn)
    decreases |c.buffer|
  {
    match NsPayload(c.buffer)
    case Incomplete => c
    case Invalid => NodeConn([], c.messages)
    case Payload(p) =>
      if stuck(c.messages + [p]) then c
      else Drain(NodeConn(c.buffer[|Frame(p)|..], c.messages + [p]), stuck)
  }

  function OnChunk(c: NodeConn, chunk: Bytes, stuck: Stuck): NodeConn
  {
    var buffer := c.buffer + chunk;
    if |buffer| > NS_PAYLOAD_MAX_LEN then NodeConn([], c.messages)
    else Drain(NodeConn(buffer, c.messages), stuck)
  }

  function Run(chunks: seq<Bytes>, stuck: Stuck): NodeConn
  {
    if chunks == [] then NodeConn([], [])
    else OnChunk(Run(chunks[..|chunks| - 1], stuck), chunks[|chunks| - 1], stuck)
  }

  // What becomes of one payload: JSON messages are processed, which may throw; the throw is
  // caught. The rest is logged by its first byte.
  datatype Handled = Processed(text: Bytes) | Threw(text: Bytes) | Logged(level: char, text: Bytes)

  function Handle(p: Bytes, throws: Bytes -> bool): Handled
  {
    if p == [] then Logged('?', [])
    else if p[0] == 123 then if throws(p) then Threw(p) else Processed(p)
    else Logged(if p[0] == 68 then 'D' else if p[0] == 87 then 'W' else if p[0] == 69 then 'E'
                else if p[0] == 88 then 'X' else '?', p[1..])
  }

  function HandleAll(ps: seq<Bytes>, throws: Bytes -> bool): seq<Handled>
  {
    seq(|ps|, i requires 0 <= i < |ps| => Handle(ps[i], throws))
  }

  class Channel {
    const throws: Bytes -> bool
    var recvBuffer: Bytes
    var log: seq<Handled>
    ghost var messages: seq<Bytes>

    ghost predicate Valid()
      reads this
    {
      log == HandleAll(messages, throws)
    }

    ghost function Abs(): NodeConn
      reads this
    {
      NodeConn(recvBuffer, messages)
    }

    constructor (throws: Bytes -> bool)
      ensures Valid() && Abs() == NodeConn([], []) && this.throws == throws
    {
      this.throws := throws;
      recvBuffer, log, messages := [], [], [];
    }

    method OnData(buffer: Bytes)
      requires Valid()
      modifies this
      ensures Valid() && Abs() == OnChunk(old(Abs()), buffer, NEVER)
    {
      recvBuffer := recvBuffer + buffer;
      if |recvBuffer| > NS_PAYLOAD_MAX_LEN {
        recvBuffer := [];
        return;
      }
      while true
        invariant Valid() && Drain(Abs(), NEVER) == OnChunk(old(Abs()), buffer, NEVER)
        decreases |recvBuffer|
      {
        var nsPayload := NsPayload(recvBuffer);
        match nsPayload
        case Invalid =>
          recvBuffer := [];
          return;
        case Incomplete =>
          return;
        case Payload(p) =>
          var threw := ProcessPayload(p); // caught: the payload is removed in either case
          recvBuffer := recvBuffer[|Frame(p)|..];
          if |recvBuffer| == 0 { return; }
      }
    }

    method ProcessPayload(p: Bytes) returns (threw: bool)
      requires Valid()
      modifies this`log, this`messages
      ensures Valid() && messages == old(messages) + [p] && (threw <==> Handle(p, throws).Threw?)
    {
      log := log + [Handle(p, throws)];
      messages := messages + [p];
      return log[|log| - 1].Threw?;
    }
  }

  // ---- Which streams get through ----

  // How many of ps are taken, after done, before one gets stuck.
  function StopAt(done: seq<Bytes>, ps: seq<Bytes>, stuck: Stuck): (t: nat)
    ensures t <= |ps|
    decreases |ps|
  {
    if ps == [] || stuck(done + [ps[0]]) then 0 else 1 + StopAt(done + [ps[0]], ps[1..], stuck)
  }

  // How many payloads have been taken once n bytes of the stream of ps have arrived.
  function Taken(ps: seq<Bytes>, n: nat, stuck: Stuck): (k: nat)
    ensures k <= |ps| && |Stream(ps[..k])| <= n
  {
    CompleteBounds(ps, n);
    var k := Complete(ps, n);
    var t := StopAt([], ps, stuck);
    if k <= t then k else
      assert |Stream(ps[..t])| <= |Stream(ps[..k])| by {
        TakeTake(ps, t, k);
        StreamConcat(ps[..t], ps[t..][..k - t]);
      }
      t
  }

  // No read makes the bytes not yet taken and the new ones exceed the limit together.
  predicate Fits(ps: seq<Bytes>, chunks: seq<Bytes>, stuck: Stuck)
  {
    chunks == []
    || (var before := chunks[..|chunks| - 1];
        var n := |Flatten(before)|;
        && Fits(ps, before, stuck)
        && n - |Stream(ps[..Taken(ps, n, stuck)])| + |chunks[|chunks| - 1]| <= NS_PAYLOAD_MAX_LEN)
  }

  lemma {:induction false} StopSplit(done: seq<Bytes>, ps: seq<Bytes>, j: nat, stuck: Stuck)
    requires j <= StopAt(done, ps, stuck)
    ensures StopAt(done, ps, stuck) == j + StopAt(done + ps[..j], ps[j..], stuck)
    decreases |ps|
  {
    if j == 0 {
      assert done + ps[..0] == done && ps[0..] == ps;
    } else {
      TakeHead(ps, j);
      assert ps[1..][j - 1..] == ps[j..];
      ConcatAssoc(done, [ps[0]], ps[1..][..j - 1]);
      StopSplit(done + [ps[0]], ps[1..], j - 1, stuck);
    }
  }

  lemma DrainFrame(p: Bytes, rest: Bytes, messages: seq<Bytes>, stuck: Stuck)
    ensures Drain(NodeConn(Frame(p) + rest, messages), stuck)
         == if stuck(messages + [p]) then NodeConn(Frame(p) + rest, messages)
            else Drain(NodeConn(rest, messages + [p]), stuck)
  {
    hide NsPayload, Frame;
    ConcatParts(Frame(p), rest);
    NsPayloadComplete(p, Frame(p) + rest);
  }

  function Min(a: nat, b: nat): nat { if a <= b then a else b }

  lemma DrainWaits(buffer: Bytes, messages: seq<Bytes>, stuck: Stuck)
    requires NsPayload(buffer) == Incomplete
    ensures Drain(NodeConn(buffer, messages), stuck) == NodeConn(buffer, messages)
  {
    hide NsPayload;
  }

  lemma {:induction false} DrainStream(buffer: Bytes, ps: seq<Bytes>, messages: seq<Bytes>, stuck: Stuck)
    requires buffer <= Stream(ps)
    ensures var k := Min(Complete(ps, |buffer|), StopAt(messages, ps, stuck));
            var d := Drain(NodeConn(buffer, messages), stuck);
            d.messages == messages + ps[..k] && buffer == Stream(ps[..k]) + d.buffer
    decreases |ps|
  {
    hide Frame, NsPayload, Drain;
    var k := Min(Complete(ps, |buffer|), StopAt(messages, ps, stuck));
    if ps != [] {
      var f, p := Frame(ps[0]), ps[0];
      PrefixCut(buffer, f, Stream(ps[1..]));
      if |buffer| < |f| {
        NsPayloadIncomplete(p, buffer);
        DrainWaits(buffer, messages, stuck);
      } else {
        var rest := buffer[|f|..];
        DrainFrame(p, rest, messages, stuck);
        if !stuck(messages + [p]) {
          TakeHead(ps, k);
          DrainStream(rest, ps[1..], messages + [p], stuck);
          ConcatAssoc(messages, [p], ps[1..][..k - 1]);
          ConcatAssoc(f, Stream(ps[1..][..k - 1]), Drain(NodeConn(rest, messages + [p]), stuck).buffer);
        }
      }
    } else {
      assert buffer == [];
      DrainWaits(buffer, messages, stuck);
    }
  }

  // One read more, after j payloads of ps have been taken.
  lemma FollowChunk(ps: seq<Bytes>, j: nat, c: NodeConn, chunk: Bytes, n: nat, stuck: Stuck)
    requires j <= |ps| && j <= StopAt([], ps, stuck) && c.messages == ps[..j]
    requires Stream(ps[..j]) + (c.buffer + chunk) <= Stream(ps) && n == |Stream(ps[..j]) + (c.buffer + chunk)|
    ensures var d := Drain(NodeConn(c.buffer + chunk, c.messages), stuck);
            && d.messages == ps[..Taken(ps, n, stuck)]
            && Stream(ps[..j]) + (c.buffer + chunk) == Stream(d.messages) + d.buffer
  {
    hide Stream, Frame, Complete, Drain, StopAt;
    var tail, todo := c.buffer + chunk, ps[j..];
    StreamSplit(ps, j);
    PrefixAfter(Stream(ps[..j]), Stream(todo), tail);
    CompleteSplit(ps, j, n);
    StopSplit([], ps, j, stuck);
    assert [] + ps[..j] == ps[..j];
    var m := Min(Complete(todo, |tail|), StopAt(ps[..j], todo, stuck));
    DrainStream(tail, todo, c.messages, stuck);
    TakeTake(ps, j, j + m);
    StreamConcat(ps[..j], todo[..m]);
    ConcatAssoc(Stream(ps[..j]), Stream(todo[..m]), Drain(NodeConn(tail, c.messages), stuck).buffer);
  }

  // However a stream is cut into reads that fit, the payloads taken are those that have fully arrived,
  // up to the first that gets stuck, in order, and the buffer holds the bytes after them.
  lemma {:induction false} NodeFollowsStream(ps: seq<Bytes>, chunks: seq<Bytes>, stuck: Stuck)
    requires Flatten(chunks) <= Stream(ps) && Fits(ps, chunks, stuck)
    ensures var c := Run(chunks, stuck);
            && c.messages == ps[..Taken(ps, |Flatten(chunks)|, stuck)]
            && Flatten(chunks) == Stream(c.messages) + c.buffer
  {
    hide Stream, Frame, Complete, NsPayload, StopAt, Drain;
    if chunks != [] {
      var before, chunk := chunks[..|chunks| - 1], chunks[|chunks| - 1];
      ConcatParts(Flatten(before), chunk);
      NodeFollowsStream(ps, before, stuck);
      var c := Run(before, stuck);
      var j := Taken(ps, |Flatten(before)|, stuck);
      ConcatAssoc(Stream(ps[..j]), c.buffer, chunk);
      FollowChunk(ps, j, c, chunk, |Flatten(chunks)|, stuck);
    } else {
      NothingComplete(ps);
    }
  }

  // Bytes are never made up: whatever arrives, the payloads taken and the buffer account for at most
  // the bytes received.
  lemma {:induction false} DrainAccounts(c: NodeConn, stuck: Stuck)
    ensures var d := Drain(c, stuck);
            |Stream(d.messages)| + |d.buffer| <= |Stream(c.messages)| + |c.buffer|
    decreases |c.buffer|
  {
    hide NsPayload, Frame, Stream;
    var r := NsPayload(c.buffer);
    if r.Payload? && !stuck(c.messages + [r.p]) {
      StreamSnoc(c.messages, r.p);
      DrainAccounts(NodeConn(c.buffer[|Frame(r.p)|..], c.messages + [r.p]), stuck);
    }
  }

  lemma {:induction false} RunAccounts(ps: seq<Bytes>, chunks: seq<Bytes>, stuck: Stuck)
    ensures var c := Run(chunks, stuck);
            |Stream(c.messages)| + |c.buffer| <= |Flatten(chunks)|
    ensures var c := Run(chunks, stuck);
            Flatten(chunks) <= Stream(ps) && !Fits(ps, chunks, stuck) ==>
              |Stream(c.messages)| + |c.buffer| < |Flatten(chunks)|
  {
    if chunks != [] {
      var before, chunk := chunks[..|chunks| - 1], chunks[|chunks| - 1];
      hide Frame, Complete, NsPayload, Drain, Taken;
      ConcatParts(Flatten(before), chunk);
      RunAccounts(ps, before, stuck);
      var c := Run(before, stuck);
      DrainAccounts(NodeConn(c.buffer + chunk, c.messages), stuck);
      if Flatten(chunks) <= Stream(ps) && Fits(ps, before, stuck) {
        NodeFollowsStream(ps, before, stuck);
      }
    }
  }

  lemma AllTaken(ps: seq<Bytes>, stuck: Stuck)
    ensures Taken(ps, |Stream(ps)|, stuck) == StopAt([], ps, stuck)
  {
    CompleteAll(ps);
  }

  // A whole stream gets through if and only if every read fits and nothing gets stuck: once the limit
  // is exceeded, the payloads taken never again add up to those sent.
  lemma NodeDeliversAllIff(ps: seq<Bytes>, chunks: seq<Bytes>, stuck: Stuck)
    requires Flatten(chunks) == Stream(ps)
    ensures Run(chunks, stuck).messages == ps <==> Fits(ps, chunks, stuck) && StopAt([], ps, stuck) == |ps|
  {
    hide Run, Taken, StopAt;
    RunAccounts(ps, chunks, stuck);
    if Fits(ps, chunks, stuck) {
      AllTaken(ps, stuck);
      NodeFollowsStream(ps, chunks, stuck);
      assert ps[..|ps|] == ps;
    }
  }

  // The next payload in the buffer is one that gets stuck.
  predicate Blocked(c: NodeConn, stuck: Stuck)
  {
    NsPayload(c.buffer).Payload? && stuck(c.messages + [NsPayload(c.buffer).p])
  }

  // Once blocked, a receiver takes nothing more: every further read is only added to the buffer, until
  // the limit throws all of it away.
  lemma BlockedStays(c: NodeConn, chunk: Bytes, stuck: Stuck)
    requires Blocked(c, stuck)
    ensures var d := OnChunk(c, chunk, stuck);
            && d.messages == c.messages
            && d.buffer == (if |c.buffer + chunk| > NS_PAYLOAD_MAX_LEN then [] else c.buffer + chunk)
            && (d.buffer != [] ==> Blocked(d, stuck))
  {
    var p := NsPayload(c.buffer).p;
    NsPayloadSound(c.buffer);
    NsPayloadComplete(p, c.buffer + chunk);
    hide NsPayload;
  }

  // A receiver that a whole stream has reached, in reads that fit, is blocked if and only if some
  // payload gets stuck; it has then taken exactly the payloads before that one.
  lemma NodeBlockedIff(ps: seq<Bytes>, chunks: seq<Bytes>, stuck: Stuck)
    requires Flatten(chunks) == Stream(ps) && Fits(ps, chunks, stuck)
    ensures var c, t := Run(chunks, stuck), StopAt([], ps, stuck);
            && c.messages == ps[..t] && c.buffer == Stream(ps[t..])
            && (Blocked(c, stuck) <==> t < |ps|)
  {
    hide Run, Fits, Frame, NsPayload;
    var c, t := Run(chunks, stuck), StopAt([], ps, stuck);
    AllTaken(ps, stuck);
    NodeFollowsStream(ps, chunks, stuck);
    StreamSplit(ps, t);
    ConcatParts(Stream(ps[..t]), c.buffer);
    ConcatParts(Stream(ps[..t]), Stream(ps[t..]));
    StopSplit([], ps, t, stuck);
    assert [] + ps[..t] == ps[..t];
    if t < |ps| {
      NsPayloadComplete(ps[t], c.buffer);
    } else {
      assert ps[t..] == [];
    }
  }

  // ---- Malformed data ----

  lemma DrainJunk(junk: Bytes, messages: seq<Bytes>, stuck: Stuck)
    requires NsPayload(junk) == Invalid
    ensures Drain(NodeConn(junk, messages), stuck) == NodeConn([], messages)
  {
    hide NsPayload;
  }

  lemma {:induction false} DrainMalformed(ps: seq<Bytes>, junk: Bytes, messages: seq<Bytes>, stuck: Stuck)
    requires NsPayload(junk) == Invalid && StopAt(messages, ps, stuck) == |ps|
    ensures Drain(NodeConn(Stream(ps) + junk, messages), stuck) == NodeConn([], messages + ps)
    decreases |ps|
  {
    hide NsPayload, Frame, Drain;
    if ps == [] {
      assert Stream(ps) + junk == junk && messages + ps == messages;
      DrainJunk(junk, messages, stuck);
    } else {
      DrainMalformed(ps[1..], junk, messages + [ps[0]], stuck);
      DrainFrame(ps[0], Stream(ps[1..]) + junk, messages, stuck);
      ConcatAssoc(Frame(ps[0]), Stream(ps[1..]), junk);
      ConcatAssoc(messages, [ps[0]], ps[1..]);
      assert [ps[0]] + ps[1..] == ps;
    }
  }

  // Malformed data behind complete frames: those are taken, and the rest of the buffer is thrown away.
  lemma MalformedResets(c: NodeConn, chunk: Bytes, ps: seq<Bytes>, junk: Bytes, stuck: Stuck)
    requires c.buffer + chunk == Stream(ps) + junk && |c.buffer + chunk| <= NS_PAYLOAD_MAX_LEN
    requires NsPayload(junk) == Invalid && StopAt(c.messages, ps, stuck) == |ps|
    ensures OnChunk(c, chunk, stuck) == NodeConn([], c.messages + ps)
  {
    hide Drain, Stream, NsPayload, StopAt;
    DrainMalformed(ps, junk, c.messages, stuck);
  }

  // ---- The main channel, where nothing gets stuck ----

  lemma {:induction false} NeverStops(done: seq<Bytes>, ps: seq<Bytes>)
    ensures StopAt(done, ps, NEVER) == |ps|
    decreases |ps|
  {
    if ps != [] { NeverStops(done + [ps[0]], ps[1..]); }
  }

  // Whatever the processing of each payload throws: a stream gets through if and only if it fits.
  lemma ChannelDeliversAllIff(ps: seq<Bytes>, chunks: seq<Bytes>)
    requires Flatten(chunks) == Stream(ps)
    ensures Run(chunks, NEVER).messages == ps <==> Fits(ps, chunks, NEVER)
  {
    NeverStops([], ps);
    NodeDeliversAllIff(ps, chunks, NEVER);
  }

  // What should become of payload p: one that begins with "{" is processed whole, or threw; one that
  // begins with D, W, E or X is logged at that level, without the letter; any other at none.
  predicate ByFirst(p: Bytes, h: Handled, throws: Bytes -> bool)
  {
    if p != [] && p[0] == '{' as int then h == if throws(p) then Threw(p) else Processed(p)
    else
      && h.Logged? && h.text == (if p == [] then [] else p[1..])
      && if p != [] && (p[0] as char) in "DWEX" then h.level == p[0] as char else h.level == '?'
  }

  // Reached by a whole stream in reads that fit, the channel has handled each payload once, in order and
  // by its first byte.
  lemma ChannelHandles(ps: seq<Bytes>, chunks: seq<Bytes>, throws: Bytes -> bool, i: nat)
    requires Flatten(chunks) == Stream(ps) && Fits(ps, chunks, NEVER) && i < |ps|
    ensures var log := HandleAll(Run(chunks, NEVER).messages, throws);
            |log| == |ps| && ByFirst(ps[i], log[i], throws)
  {
    hide Run, Fits, Stream;
    ChannelDeliversAllIff(ps, chunks);
  }

  lemma {:induction false} SingleFrameFits(p: Bytes, chunks: seq<Bytes>)
    requires Flatten(chunks) <= Frame(p)
    ensures Fits([p], chunks, NEVER) <==> |Flatten(chunks)| <= NS_PAYLOAD_MAX_LEN
  {
    if chunks != [] {
      var before, chunk := chunks[..|chunks| - 1], chunks[|chunks| - 1];
      hide Frame;
      ConcatParts(Flatten(before), chunk);
      SingleFrameFits(p, before);
    }
  }

  // A frame on its own gets through, however it is cut, if and only if it is no longer than the limit
  // for payloads: the worker may send frames up to nine bytes longer.
  lemma NodeTakesFrameIff(p: Bytes, chunks: seq<Bytes>)
    requires Flatten(chunks) == Frame(p)
    ensures Run(chunks, NEVER).messages == [p] <==> |p| <= NS_PAYLOAD_MAX_LEN - 9
  {
    assert Stream([p]) == Frame(p);
    ChannelDeliversAllIff([p], chunks);
    SingleFrameFits(p, chunks);
    FrameLimit(p);
  }

  lemma FrameLimit(p: Bytes)
    ensures |Frame(p)| <= NS_PAYLOAD_MAX_LEN <==> |p| <= NS_PAYLOAD_MAX_LEN - 9
  {
    DigitsOfNat(|p|);
    assert Pow10(7) == 10000000 && Pow10(6) == 1000000 by {
      assert Pow10(3) == 1000 && Pow10(6) == 1000 * Pow10(3);
    }
    if |Digits(|p|)| > 7 {
      Pow10Monotone(7, |Digits(|p|)| - 1);
    } else if |Digits(|p|)| < 7 {
      Pow10Monotone(|Digits(|p|)|, 6);
    }
  }
}
