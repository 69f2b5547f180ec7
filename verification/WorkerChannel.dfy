/**
 The worker's end of the channel (src/Channel/ChannelSocket.cpp over
 src/handles/UnixStreamSocket.cpp): the frame writer, and the incremental parser that
 works in place in a fixed buffer. `Conn` is the parser's state seen from outside;
 `Receive` is one read callback on it.
 */
module WorkerChannel {
  import opened Octets
  import opened Sequences
  import opened Netstring

  const NS_MESSAGE_MAX_LEN: nat := 4194313
  const NS_PAYLOAD_MAX_LEN: nat := 4194304

  // Whether the listener closes the socket while handling the last message of a history
  // (a "worker.close" request does).
  type Closer = seq<Bytes> -> bool

  // pending: the bytes from msgStart to bufferDataLen. used: bufferDataLen.
  datatype Conn = Conn(pending: Bytes, used: nat, open: bool, delivered: seq<Bytes>)

  datatype Stop = Waiting | Broken | Shut

  datatype Drained = Drained(messages: seq<Bytes>, rest: Bytes, stop: Stop) {
    function After(first: seq<Bytes>): Drained { Drained(first + messages, rest, stop) }
  }

  // The messages taken from the front of pending, and why the taking stopped.
  function Drain(pending: Bytes, history: seq<Bytes>, closes: Closer): Drained
    decreases |pending|
  {
    match Read(pending)
    case TooShort => Drained([], pending, Waiting)
    case Message(start, len) =>
      var p := pending[start..start + len];
      var rest := pending[start + len + 1..];
      if closes(history + [p]) then Drained([p], rest, Shut)
      else Drain(rest, history + [p], closes).After([p])
    case _ => Drained([], [], Broken)
  }

  // Where the parser leaves a buffer of `size` bytes of which `filled` held data.
  function Settle(d: Drained, filled: nat, delivered: seq<Bytes>, size: nat): Conn
  {
    var out := delivered + d.messages;
    var open := !d.stop.Shut?;
    if d.stop.Broken? then Conn([], 0, open, out)
    else if d.rest == [] then Conn([], if filled == size then 0 else filled, open, out)
    else if d.stop.Waiting? && filled == size then
      if |d.rest| == size then Conn([], 0, open, out) else Conn(d.rest, |d.rest|, open, out)
    else Conn(d.rest, filled, open, out)
  }

  // What the parsing loop makes of a buffer.
  function Finish(c: Conn, size: nat, closes: Closer): (r: Conn)
    ensures !c.open ==> r == c
  {
    if !c.open then c else Settle(Drain(c.pending, c.delivered, closes), c.used, c.delivered, size)
  }

  function Receive(c: Conn, chunk: Bytes, size: nat, closes: Closer): (r: Conn)
    ensures !c.open || chunk == [] ==> r == c
  {
    if !c.open || chunk == [] then c
    else Finish(c.(pending := c.pending + chunk, used := c.used + |chunk|), size, closes)
  }

  // One turn of the parsing loop that found a message.
  function Taken(c: Conn, size: nat, closes: Closer): Conn
    requires Read(c.pending).Message?
  {
    var m := Read(c.pending);
    var out := c.delivered + [c.pending[m.start..m.start + m.len]];
    var rest := c.pending[m.start + m.len + 1..];
    Conn(rest, if rest == [] && c.used == size then 0 else c.used, !closes(out), out)
  }

  lemma FinishMessage(c: Conn, size: nat, closes: Closer)
    requires c.open && Read(c.pending).Message?
    ensures var next := Taken(c, size, closes);
            Finish(c, size, closes) == if next.pending == [] then next else Finish(next, size, closes)
  {
    var m := Read(c.pending);
    hide Read;
    var p := c.pending[m.start..m.start + m.len];
    var d := Drain(c.pending[m.start + m.len + 1..], c.delivered + [p], closes);
    ConcatAssoc(c.delivered, [p], d.messages);
  }

  class ConsumerSocket {
    const bufferSize: nat
    const buffer: array<Byte>
    const closes: Closer
    var bufferDataLen: nat
    var msgStart: nat
    var closed: bool
    var delivered: seq<Bytes>

    ghost predicate Valid()
      reads this
    {
      0 < bufferSize == buffer.Length && msgStart <= bufferDataLen <= bufferSize
    }

    ghost function Pending(): Bytes
      requires Valid()
      reads this, buffer
    {
      buffer[msgStart..bufferDataLen]
    }

    ghost function Abs(): Conn
      requires Valid()
      reads this, buffer
    {
      Conn(Pending(), bufferDataLen, !closed, delivered)
    }

    constructor (bufferSize: nat, closes: Closer)
      requires bufferSize > 0
      ensures Valid() && fresh(buffer) && this.bufferSize == bufferSize && this.closes == closes
      ensures Abs() == Conn([], 0, true, [])
    {
      this.bufferSize := bufferSize;
      this.buffer := new Byte[bufferSize];
      this.closes := closes;
      bufferDataLen, msgStart, closed, delivered := 0, 0, false, [];
    }

    // OnUvReadAlloc offers the free space after the data; libuv stores the chunk there.
    method OnUvRead(chunk: Bytes)
      requires Valid() && !closed && |chunk| <= bufferSize - bufferDataLen
      modifies this, buffer
      ensures Valid() && Abs() == Receive(old(Abs()), chunk, bufferSize, closes)
    {
      if |chunk| == 0 { return; }
      forall i | 0 <= i < |chunk| {
        buffer[bufferDataLen + i] := chunk[i];
      }
      bufferDataLen := bufferDataLen + |chunk|;
      assert Pending() == old(Pending()) + chunk;
      UserOnUnixStreamRead();
    }

    method UserOnUnixStreamRead()
      requires Valid() && !closed && msgStart < bufferDataLen
      modifies this, buffer
      ensures Valid() && Abs() == Finish(old(Abs()), bufferSize, closes)
    {
      hide Finish, Read, Taken;
      while true
        invariant Valid() && msgStart < bufferDataLen
        invariant Finish(Abs(), bufferSize, closes) == Finish(old(Abs()), bufferSize, closes)
        decreases bufferDataLen - msgStart
      {
        if closed { return; }
        var nsRet := NetstringRead(buffer, msgStart, bufferDataLen - msgStart);
        if !nsRet.Message? {
          OnReadError(nsRet);
          return;
        }
        FinishMessage(Abs(), bufferSize, closes);
        TakeMessage(nsRet);
        if bufferDataLen > msgStart {
          continue;
        }
        break;
      }
    }

    // The reader asked for more input, or rejected the data.
    method OnReadError(nsRet: ReadResult)
      requires Valid() && !closed && msgStart < bufferDataLen
      requires !nsRet.Message? && nsRet == Read(Pending())
      modifies this`bufferDataLen, this`msgStart, buffer
      ensures Valid() && Abs() == Finish(old(Abs()), bufferSize, closes)
    {
      if nsRet.TooShort? {
        if bufferDataLen == bufferSize {
          if msgStart != 0 {
            var readLen := bufferDataLen - msgStart;
            Memmove(readLen);
            msgStart := 0;
            bufferDataLen := readLen;
          } else {
            msgStart := 0;
            bufferDataLen := 0;
          }
        }
        return;
      }
      msgStart := 0;
      bufferDataLen := 0;
    }

    // A message was found: hand it over, then move past it.
    method TakeMessage(nsRet: ReadResult)
      requires Valid() && !closed && nsRet.Message? && nsRet == Read(Pending())
      modifies this
      ensures Valid() && Abs() == Taken(old(Abs()), bufferSize, closes)
      ensures bufferDataLen - msgStart < old(bufferDataLen - msgStart)
    {
      hide Read;
      var readLen := nsRet.start + nsRet.len + 1;
      OnConsumerSocketMessage(buffer[msgStart..bufferDataLen][nsRet.start..nsRet.start + nsRet.len]);
      if msgStart + readLen == bufferSize {
        msgStart := 0;
        bufferDataLen := 0;
      } else {
        msgStart := msgStart + readLen;
      }
    }

    // The listener: the message is handed over, and handling it may close the socket.
    method OnConsumerSocketMessage(p: Bytes)
      modifies this`delivered, this`closed
      ensures delivered == old(delivered) + [p]
      ensures closed == (old(closed) || closes(delivered))
    {
      delivered := delivered + [p];
      if closes(delivered) { closed := true; }
    }

    // std::memmove of the unfinished message to the start of the buffer.
    method Memmove(n: nat)
      requires Valid() && msgStart + n <= bufferSize
      modifies buffer
      ensures buffer[..n] == old(buffer[msgStart..msgStart + n])
    {
      ghost var src := buffer[msgStart..msgStart + n];
      for i := 0 to n
        invariant buffer[..i] == src[..i]
        invariant forall j :: i <= j < n ==> buffer[msgStart + j] == src[j]
      {
        buffer[i] := buffer[msgStart + i];
        assert buffer[..i + 1] == src[..i + 1] by {
          assert buffer[..i + 1] == buffer[..i] + [buffer[i]];
        }
      }
    }
  }

  // The number of decimal digits that SendImpl reserves: ceil(log10(n + 1)).
  function CeilLog10Plus1(n: nat): (k: nat)
    requires n > 0
    ensures k > 0 && Pow10(k - 1) < n + 1 <= Pow10(k)
  {
    DigitsOfNat(n);
    |Digits(n)|
  }

  // The writing half of ChannelSocket. `sent` is what has been written to the pipe.
  class ProducerSide {
    const writeBuffer: array<Byte>
    var closed: bool
    var sent: Bytes

    ghost predicate Valid() { writeBuffer.Length == NS_MESSAGE_MAX_LEN }

    constructor ()
      ensures Valid() && fresh(writeBuffer) && !closed && sent == []
    {
      writeBuffer := new Byte[NS_MESSAGE_MAX_LEN];
      closed, sent := false, [];
    }

    method Send(message: Bytes)
      requires Valid()
      modifies this, writeBuffer
      ensures closed == old(closed)
      ensures sent == old(sent) + if closed || |message| > NS_PAYLOAD_MAX_LEN then [] else Frame(message)
    {
      if closed { return; }
      if |message| > NS_PAYLOAD_MAX_LEN { return; }
      SendImpl(message);
    }

    method SendImpl(payload: Bytes)
      requires Valid() && |payload| <= NS_PAYLOAD_MAX_LEN
      modifies this`sent, writeBuffer
      ensures sent == old(sent) + Frame(payload)
    {
      hide Digits, Pow10;
      EmptyFrame();
      var nsNumLen: nat := 1;
      if |payload| == 0 {
        writeBuffer[0] := ZERO;
        writeBuffer[1] := COLON;
        writeBuffer[2] := COMMA;
        assert writeBuffer[..3] == Frame([]);
      } else {
        nsNumLen := CeilLog10Plus1(|payload|);
        MaxFrame(payload);
        Store(0, Digits(|payload|) + [COLON, 0]); // sprintf ends its output with a NUL
        assert writeBuffer[..nsNumLen + 1] == Digits(|payload|) + [COLON];
        Store(nsNumLen + 1, payload);
        writeBuffer[nsNumLen + |payload| + 1] := COMMA;
        assert writeBuffer[..nsNumLen + |payload| + 2]
            == writeBuffer[..nsNumLen + 1] + writeBuffer[nsNumLen + 1..nsNumLen + |payload| + 1] + [COMMA];
      }
      var nsLen := nsNumLen + |payload| + 2;
      sent := sent + writeBuffer[..nsLen];
    }

    method Store(at: nat, bytes: Bytes)
      requires at + |bytes| <= writeBuffer.Length
      modifies writeBuffer
      ensures writeBuffer[..at] == old(writeBuffer[..at])
      ensures writeBuffer[at..at + |bytes|] == bytes
      ensures writeBuffer[at + |bytes|..] == old(writeBuffer[at + |bytes|..])
    {
      forall i | 0 <= i < |bytes| {
        writeBuffer[at + i] := bytes[i];
      }
    }
  }

  lemma EmptyFrame()
    ensures Frame([]) == [ZERO, COLON, COMMA]
  {
    assert Digits(0) == [ZERO];
  }

  // The largest payload the sender lets through fills the buffer exactly.
  lemma MaxFrame(p: Bytes)
    requires |p| <= NS_PAYLOAD_MAX_LEN
    ensures |Frame(p)| <= NS_MESSAGE_MAX_LEN && |p| <= MAX_LENGTH
    ensures |p| == NS_PAYLOAD_MAX_LEN ==> |Frame(p)| == NS_MESSAGE_MAX_LEN
  {
    DigitsOfNat(|p|);
    assert Pow10(7) == 10000000 && Pow10(6) == 1000000 by {
      assert Pow10(3) == 1000 && Pow10(6) == 1000 * Pow10(3);
    }
    if |p| > 0 {
      if |Digits(|p|)| > 7 {
        Pow10Monotone(7, |Digits(|p|)| - 1);
      } else if |Digits(|p|)| < 7 {
        Pow10Monotone(|Digits(|p|)|, 6);
      }
    }
  }
}
