/**
 The payload channel, from the worker (src/PayloadChannel/PayloadChannelSocket.cpp) to Node
 (mediasouptestcase/src/PayloadChannel.ts): a notification is two frames, a JSON header and a
 payload of arbitrary bytes; a response is one JSON frame.
 */
module PayloadChannel {
  import opened Octets
  import opened Options
  import opened Sequences
  import opened Netstring
  import opened FrameStream
  import opened WorkerChannel
  import NodeReceiver

  // The fields the receiver looks at; 0 and "" stand for absent ones, as in a number or a string.
  datatype Json = Json(id: nat, targetId: string, event: string, data: int)

  // JSON.parse of a frame: it throws, or gives null, whose fields cannot be read, or a value.
  datatype Parsed = Malformed | Null | Read(json: Json)

  datatype Notice = Notice(targetId: string, event: string, data: int)

  // throws: whether a listener throws when it is told of this notification and payload.
  datatype Env = Env(parse: Bytes -> Parsed, throws: (Notice, Bytes) -> bool)

  datatype Output = Emitted(notice: Notice, payload: Bytes) | Answered(response: Json)

  // output: what was emitted or answered without an exception. parsed: the frames taken that were
  // given to JSON.parse.
  datatype State = State(ongoing: Option<Notice>, output: seq<Output>, parsed: seq<Bytes>)

  const IDLE := State(None, [], [])

  // Processing the frame throws: the field of a null is read, or a listener throws.
  predicate Throws(s: State, frame: Bytes, env: Env)
  {
    match s.ongoing
    case Some(notice) => env.throws(notice, frame)
    case None => env.parse(frame).Null?
  }

  // What processing a frame does; an exception leaves the state as it was.
  function Step(s: State, frame: Bytes, env: Env): (t: State)
    ensures Throws(s, frame, env) ==> t == s
  {
    if Throws(s, frame, env) then s
    else match s.ongoing
         case Some(notice) => State(None, s.output + [Emitted(notice, frame)], s.parsed)
         case None =>
           var t := s.(parsed := s.parsed + [frame]);
           match env.parse(frame)
           case Read(j) =>
             if j.id != 0 then t.(output := t.output + [Answered(j)])
             else if j.targetId != "" && j.event != "" then t.(ongoing := Some(Notice(j.targetId, j.event, j.data)))
             else t
           case _ => t
  }

  function StepAll(s: State, frames: seq<Bytes>, env: Env): State
    decreases |frames|
  {
    if frames == [] then s else StepAll(Step(s, frames[0], env), frames[1..], env)
  }

  // Whether the last frame of a history throws once the others have been processed.
  predicate LastThrows(history: seq<Bytes>, env: Env)
  {
    history != [] && Throws(StepAll(IDLE, history[..|history| - 1], env), history[|history| - 1], env)
  }

  function StuckOn(env: Env): NodeReceiver.Stuck { (history: seq<Bytes>) => LastThrows(history, env) }

  class Receiver {
    const env: Env
    var recvBuffer: Bytes
    var ongoingNotification: Option<Notice>
    var output: seq<Output>
    var parsed: seq<Bytes>
    ghost var messages: seq<Bytes>

    ghost function Abs(): State
      reads this
    {
      State(ongoingNotification, output, parsed)
    }

    ghost function Conn(): NodeReceiver.NodeConn
      reads this
    {
      NodeReceiver.NodeConn(recvBuffer, messages)
    }

    ghost predicate Valid()
      reads this
    {
      Abs() == StepAll(IDLE, messages, env)
    }

    constructor (env: Env)
      ensures Valid() && Abs() == IDLE && Conn() == NodeReceiver.NodeConn([], []) && this.env == env
    {
      this.env := env;
      recvBuffer, ongoingNotification, output, parsed, messages := [], None, [], [], [];
    }

    // The 'data' handler: nothing catches what processing throws, so it leaves the handler before the
    // frame has been removed.
    method OnData(buffer: Bytes) returns (threw: bool)
      requires Valid()
      modifies this
      ensures Valid() && Conn() == NodeReceiver.OnChunk(old(Conn()), buffer, StuckOn(env))
      ensures threw <==> NodeReceiver.Blocked(Conn(), StuckOn(env))
    {
      hide NodeReceiver.NsPayload, LastThrows, StepAll, Step, Throws;
      recvBuffer := recvBuffer + buffer;
      if |recvBuffer| > NodeReceiver.NS_PAYLOAD_MAX_LEN {
        recvBuffer := [];
        return false;
      }
      while true
        invariant Valid()
        invariant NodeReceiver.Drain(Conn(), StuckOn(env)) == NodeReceiver.OnChunk(old(Conn()), buffer, StuckOn(env))
        decreases |recvBuffer|
      {
        var nsPayload := NodeReceiver.NsPayload(recvBuffer);
        match nsPayload
        case Invalid =>
          recvBuffer := [];
          return false;
        case Incomplete =>
          return false;
        case Payload(p) =>
          HistoryThrows(messages, p, env);
          threw := ProcessData(p);
          if threw { return true; }
          recvBuffer := recvBuffer[|Frame(p)|..];
          messages := messages + [p];
          if |recvBuffer| == 0 { return false; }
      }
    }

    method ProcessData(data: Bytes) returns (threw: bool)
      modifies this`ongoingNotification, this`output, this`parsed
      ensures Abs() == Step(old(Abs()), data, env) && (threw <==> Throws(old(Abs()), data, env))
    {
      if ongoingNotification.None? {
        var msg := env.parse(data);
        if msg.Null? { return true; }
        parsed := parsed + [data];
        if msg.Malformed? { return false; }
        if msg.json.id != 0 {
          output := output + [Answered(msg.json)];
        } else if msg.json.targetId != "" && msg.json.event != "" {
          ongoingNotification := Some(Notice(msg.json.targetId, msg.json.event, msg.json.data));
        }
      } else {
        if env.throws(ongoingNotification.value, data) { return true; }
        output := output + [Emitted(ongoingNotification.value, data)];
        ongoingNotification := None;
      }
      return false;
    }
  }

  lemma {:induction false} StepAllConcat(s: State, a: seq<Bytes>, b: seq<Bytes>, env: Env)
    ensures StepAll(s, a + b, env) == StepAll(StepAll(s, a, env), b, env)
    decreases |a|
  {
    hide Step;
    if a == [] {
      assert a + b == b;
    } else {
      assert (a + b)[1..] == a[1..] + b;
      StepAllConcat(Step(s, a[0], env), a[1..], b, env);
    }
  }

  // One frame more in a history.
  lemma HistoryThrows(history: seq<Bytes>, p: Bytes, env: Env)
    ensures StuckOn(env)(history + [p]) <==> Throws(StepAll(IDLE, history, env), p, env)
    ensures StepAll(IDLE, history + [p], env) == Step(StepAll(IDLE, history, env), p, env)
  {
    hide Throws, Step;
    assert (history + [p])[..|history|] == history;
    StepAllConcat(IDLE, history, [p], env);
    assert [p][1..] == [];
  }

  // ---- What the frames mean ----

  // A response; a notification with its payload; a frame that is neither and is skipped.
  datatype Item = Response(frame: Bytes) | Notification(header: Bytes, payload: Bytes) | Junk(frame: Bytes)

  predicate IsResponse(f: Bytes, env: Env) { env.parse(f).Read? && env.parse(f).json.id != 0 }

  predicate IsHeader(f: Bytes, env: Env)
  {
    && env.parse(f).Read? && env.parse(f).json.id == 0
    && env.parse(f).json.targetId != "" && env.parse(f).json.event != ""
  }

  function NoticeOf(header: Bytes, env: Env): Notice
    requires env.parse(header).Read?
  {
    var j := env.parse(header).json;
    Notice(j.targetId, j.event, j.data)
  }

  predicate WellFormed(item: Item, env: Env)
  {
    match item
    case Response(f) => IsResponse(f, env)
    case Notification(h, p) => IsHeader(h, env) && !env.throws(NoticeOf(h, env), p)
    case Junk(f) => !IsResponse(f, env) && !IsHeader(f, env) && !env.parse(f).Null?
  }

  predicate AllWellFormed(items: seq<Item>, env: Env)
  {
    forall i :: 0 <= i < |items| ==> WellFormed(items[i], env)
  }

  function Frames(item: Item): seq<Bytes>
  {
    if item.Notification? then [item.header, item.payload] else [item.frame]
  }

  function Wire(items: seq<Item>): seq<Bytes>
  {
    if items == [] then [] else Frames(items[0]) + Wire(items[1..])
  }

  function OutputOf(item: Item, env: Env): seq<Output>
    requires WellFormed(item, env)
  {
    match item
    case Response(f) => [Answered(env.parse(f).json)]
    case Notification(h, p) => [Emitted(NoticeOf(h, env), p)]
    case Junk(_) => []
  }

  // One output for each response and each notification, in order, each payload with its own
  // header.
  function Outputs(items: seq<Item>, env: Env): seq<Output>
    requires AllWellFormed(items, env)
  {
    if items == [] then [] else OutputOf(items[0], env) + Outputs(items[1..], env)
  }

  // Every frame except the payloads.
  function Headers(items: seq<Item>): seq<Bytes>
  {
    if items == [] then [] else [Frames(items[0])[0]] + Headers(items[1..])
  }

  // How many of the frames are processed, from s on, before one throws.
  function Passed(s: State, frames: seq<Bytes>, env: Env): (k: nat)
    ensures k <= |frames|
    decreases |frames|
  {
    if frames == [] || Throws(s, frames[0], env) then 0 else 1 + Passed(Step(s, frames[0], env), frames[1..], env)
  }

  lemma {:induction false} PassedIsStop(history: seq<Bytes>, frames: seq<Bytes>, env: Env)
    ensures NodeReceiver.StopAt(history, frames, StuckOn(env)) == Passed(StepAll(IDLE, history, env), frames, env)
    decreases |frames|
  {
    hide Step, Throws, StepAll, StuckOn;
    if frames != [] {
      HistoryThrows(history, frames[0], env);
      PassedIsStop(history + [frames[0]], frames[1..], env);
    }
  }

  // Whatever bytes the payloads hold, the automaton pairs each with its header, answers each
  // response, never gives a payload to JSON.parse, and processes what follows.
  lemma {:induction false} PairsItems(s: State, items: seq<Item>, rest: seq<Bytes>, env: Env)
    requires s.ongoing.None? && AllWellFormed(items, env)
    ensures var t := State(None, s.output + Outputs(items, env), s.parsed + Headers(items));
            && StepAll(s, Wire(items), env) == t
            && Passed(s, Wire(items) + rest, env) == |Wire(items)| + Passed(t, rest, env)
    decreases |items|
  {
    if items == [] {
      assert s.output + [] == s.output && s.parsed + [] == s.parsed && [] + rest == rest;
    } else {
      hide Frames, OutputOf, Step, Passed;
      var first, later := items[0], items[1..];
      assert AllWellFormed(later, env);
      StepAllConcat(s, Frames(first), Wire(later), env);
      ConcatAssoc(Frames(first), Wire(later), rest);
      ItemStep(s, first, Wire(later) + rest, env);
      PairsItems(StepAll(s, Frames(first), env), later, rest, env);
      ConcatAssoc(s.parsed, [Frames(first)[0]], Headers(later));
      ConcatAssoc(s.output, OutputOf(first, env), Outputs(later, env));
    }
  }

  lemma ItemStep(s: State, item: Item, rest: seq<Bytes>, env: Env)
    requires s.ongoing.None? && WellFormed(item, env)
    ensures Frames(item) != []
    ensures var t := State(None, s.output + OutputOf(item, env), s.parsed + [Frames(item)[0]]);
            && StepAll(s, Frames(item), env) == t
            && Passed(s, Frames(item) + rest, env) == |Frames(item)| + Passed(t, rest, env)
  {
    var all := Frames(item) + rest;
    match item
    case Response(f) =>
      assert Frames(item)[1..] == [] && all[1..] == rest;
    case Junk(f) =>
      assert Frames(item)[1..] == [] && s.output + [] == s.output && all[1..] == rest;
    case Notification(h, p) =>
      assert Frames(item)[1..] == [p] && [p][1..] == [] && all[1..] == [p] + rest && ([p] + rest)[1..] == rest;
      var t := Step(s, h, env);
      assert StepAll(s, Frames(item), env) == StepAll(t, [p], env) == Step(t, p, env);
  }

  // Every frame sequence is such a stream, possibly followed by a header that waits, and then by the
  // frame that throws and all that comes after it.
  lemma {:induction false} Decompose(frames: seq<Bytes>, env: Env)
    returns (items: seq<Item>, waiting: seq<Bytes>, left: seq<Bytes>)
    ensures AllWellFormed(items, env) && frames == Wire(items) + waiting + left
    ensures waiting == [] || (|waiting| == 1 && IsHeader(waiting[0], env))
    ensures left != [] ==> if waiting == [] then env.parse(left[0]).Null?
                           else env.throws(NoticeOf(waiting[0], env), left[0])
    decreases |frames|
  {
    if frames == [] { return [], [], []; }
    hide IsResponse;
    var f := frames[0];
    if IsHeader(f, env) && (|frames| == 1 || env.throws(NoticeOf(f, env), frames[1])) {
      assert frames == [f] + frames[1..];
      return [], [f], frames[1..];
    }
    if env.parse(f).Null? {
      assert [] + [] + frames == frames;
      return [], [], frames;
    }
    var first := if IsHeader(f, env) then Notification(f, frames[1])
                 else if IsResponse(f, env) then Response(f) else Junk(f);
    var n := |Frames(first)|;
    assert frames == Frames(first) + frames[n..];
    items, waiting, left := Decompose(frames[n..], env);
    ConcatAssoc(Frames(first), Wire(items), waiting);
    ConcatAssoc(Frames(first), Wire(items) + waiting, left);
    items := [first] + items;
    assert items[1..] + [] == items[1..];
  }

  // So the automaton's state after any frames at all is known: an output per response and per completed
  // notification, at most one header that still waits, and if a frame throws, the first that does.
  lemma PairsAnyFrames(frames: seq<Bytes>, env: Env) returns (items: seq<Item>, waiting: seq<Bytes>, left: seq<Bytes>)
    ensures AllWellFormed(items, env) && frames == Wire(items) + waiting + left
    ensures waiting == [] || (|waiting| == 1 && IsHeader(waiting[0], env))
    ensures left != [] ==> if waiting == [] then env.parse(left[0]).Null?
                           else env.throws(NoticeOf(waiting[0], env), left[0])
    ensures Passed(IDLE, frames, env) == |Wire(items) + waiting|
    ensures StepAll(IDLE, Wire(items) + waiting, env)
         == State(if waiting == [] then None else Some(NoticeOf(waiting[0], env)),
                  Outputs(items, env), Headers(items) + waiting)
  {
    items, waiting, left := Decompose(frames, env);
    hide Outputs, Headers, Wire, AllWellFormed;
    StepAllConcat(IDLE, Wire(items), waiting, env);
    ConcatAssoc(Wire(items), waiting, left);
    PairsItems(IDLE, items, waiting + left, env);
    assert [] + Outputs(items, env) == Outputs(items, env) && [] + Headers(items) == Headers(items);
    if waiting == [] {
      assert Headers(items) + [] == Headers(items) && waiting + left == left;
    } else {
      assert waiting[1..] == [] && (waiting + left)[1..] == left && waiting == [waiting[0]];
    }
  }

  // ---- From the worker to Node ----

  // PayloadChannelSocket::Send: both frames or neither, so a size limit never breaks a pair.
  method SendNotification(side: ProducerSide, message: Bytes, payload: Bytes)
    requires side.Valid()
    modifies side, side.writeBuffer
    ensures side.closed == old(side.closed)
    ensures side.sent == old(side.sent) +
              if || side.closed || |message| > WorkerChannel.NS_PAYLOAD_MAX_LEN
                 || |payload| > WorkerChannel.NS_PAYLOAD_MAX_LEN
              then [] else Stream([message, payload])
  {
    if side.closed { return; }
    if |message| > WorkerChannel.NS_PAYLOAD_MAX_LEN {
      return;
    } else if |payload| > WorkerChannel.NS_PAYLOAD_MAX_LEN {
      return;
    }
    side.SendImpl(message);
    side.SendImpl(payload);
    StreamSnoc([message], payload);
    StreamSnoc([], message);
    ConcatAssoc(old(side.sent), Frame(message), Frame(payload));
    assert [message] + [payload] == [message, payload] && [] + [message] == [message];
    assert Stream([]) + Frame(message) == Frame(message);
  }

  // End to end: any frames, sent and cut into any reads that fit, are processed as far as the first that
  // throws. The receiver has then emitted and answered what those before it say, and is blocked, with
  // that frame still in its buffer, if and only if there is one.
  lemma PayloadEndToEnd(frames: seq<Bytes>, chunks: seq<Bytes>, env: Env)
    returns (items: seq<Item>, waiting: seq<Bytes>, left: seq<Bytes>)
    requires Flatten(chunks) == Stream(frames) && NodeReceiver.Fits(frames, chunks, StuckOn(env))
    ensures AllWellFormed(items, env) && frames == Wire(items) + waiting + left
    ensures waiting == [] || (|waiting| == 1 && IsHeader(waiting[0], env))
    ensures left != [] ==> if waiting == [] then env.parse(left[0]).Null?
                           else env.throws(NoticeOf(waiting[0], env), left[0])
    ensures var c := NodeReceiver.Run(chunks, StuckOn(env));
            && c.messages == Wire(items) + waiting && c.buffer == Stream(left)
            && (NodeReceiver.Blocked(c, StuckOn(env)) <==> left != [])
            && StepAll(IDLE, c.messages, env)
            == State(if waiting == [] then None else Some(NoticeOf(waiting[0], env)),
                     Outputs(items, env), Headers(items) + waiting)
  {
    items, waiting, left := PairsAnyFrames(frames, env);
    hide NodeReceiver.Run, NodeReceiver.Fits, NodeReceiver.StopAt, StuckOn, Stream, Wire, Outputs, Headers, Passed;
    PassedIsStop([], frames, env);
    NodeReceiver.NodeBlockedIff(frames, chunks, StuckOn(env));
    ConcatParts(Wire(items) + waiting, left);
  }

  // Items alone get through whole.
  lemma ItemsEndToEnd(items: seq<Item>, chunks: seq<Bytes>, env: Env)
    requires AllWellFormed(items, env) && Flatten(chunks) == Stream(Wire(items))
    ensures NodeReceiver.Run(chunks, StuckOn(env)).messages == Wire(items) <==>
              NodeReceiver.Fits(Wire(items), chunks, StuckOn(env))
    ensures StepAll(IDLE, Wire(items), env) == State(None, Outputs(items, env), Headers(items))
  {
    hide NodeReceiver.Run, NodeReceiver.Fits, StuckOn, Stream, Wire, Outputs, Headers;
    PairsItems(IDLE, items, [], env);
    assert Wire(items) + [] == Wire(items) && [] + Outputs(items, env) == Outputs(items, env);
    assert [] + Headers(items) == Headers(items);
    PassedIsStop([], Wire(items), env);
    NodeReceiver.NodeDeliversAllIff(Wire(items), chunks, StuckOn(env));
  }
}
