/**
 Request dispatch in the worker (src/Worker.cpp, src/Channel/ChannelRequest.cpp and
 ChannelSocket::OnConsumerSocketMessage): every request is replied to once.
 */
module WorkerDispatch {
  import opened Options

  const ID_WRAP: nat := 0x1_0000_0000

  datatype Method =
    | WorkerClose | WorkerDump | GetResourceUsage | UpdateSettings | CreateRouter | RouterClose | ForRouter

  const FOR_ROUTER: set<string> := {
    "router.dump", "router.createWebRtcTransport", "router.createPlainTransport", "router.createPipeTransport",
    "router.createDirectTransport", "router.createActiveSpeakerObserver", "router.createAudioLevelObserver",
    "transport.close", "transport.dump", "transport.getStats", "transport.connect", "transport.setMaxIncomingBitrate",
    "transport.setMaxOutgoingBitrate", "transport.restartIce", "transport.produce", "transport.consume",
    "transport.produceData", "transport.consumeData", "transport.enableTraceEvent", "producer.close", "producer.dump",
    "producer.getStats", "producer.pause", "producer.resume", "producer.enableTraceEvent", "consumer.close",
    "consumer.dump", "consumer.getStats", "consumer.pause", "consumer.resume", "consumer.setPreferredLayers",
    "consumer.setPriority", "consumer.requestKeyFrame", "consumer.enableTraceEvent", "dataProducer.close",
    "dataProducer.dump", "dataProducer.getStats", "dataConsumer.close", "dataConsumer.dump", "dataConsumer.getStats",
    "dataConsumer.getBufferedAmount", "dataConsumer.setBufferedAmountLowThreshold", "rtpObserver.close",
    "rtpObserver.pause", "rtpObserver.resume", "rtpObserver.addProducer", "rtpObserver.removeProducer"}

  // string2MethodId.
  function MethodOf(name: string): Option<Method>
  {
    if name == "worker.close" then Some(WorkerClose)
    else if name == "worker.dump" then Some(WorkerDump)
    else if name == "worker.getResourceUsage" then Some(GetResourceUsage)
    else if name == "worker.updateSettings" then Some(UpdateSettings)
    else if name == "worker.createRouter" then Some(CreateRouter)
    else if name == "router.close" then Some(RouterClose)
    else if name in FOR_ROUTER then Some(ForRouter)
    else None
  }

  // A message from Node: not JSON, or its id (if an integer), method name (if a string) and
  // internal.routerId (if a string).
  datatype Message = Garbage | Json(id: Option<int>, name: Option<string>, routerId: Option<string>)

  datatype Kind = Accepted | Error | TypeError

  datatype Reply = Reply(id: nat, kind: Kind)

  // What code outside the dispatcher does with a request: it replies once (the reply may be too big
  // to send), or throws before replying.
  datatype Conduct = Replies(fits: bool) | Throws | ThrowsTypeError

  // The conduct of each piece of such code, should it be reached.
  datatype Env = Env(dumpFits: bool, usage: Conduct, settings: Conduct, router: Conduct)

  // ---- What the dispatcher should do ----

  datatype Change = NoChange | Created(routerId: string) | Closed(routerId: string) | ClosedAll

  // The reply to a request (None for worker.close), whether it fits, and the change to the routers.
  datatype Response = Response(kind: Option<Kind>, fits: bool, change: Change)

  function OfConduct(c: Conduct): Response
  {
    match c
    case Replies(fits) => Response(Some(Kind.Accepted), fits, NoChange)
    case Throws => Response(Some(Kind.Error), true, NoChange)
    case ThrowsTypeError => Response(Some(Kind.TypeError), true, NoChange)
  }

  const REFUSED := Response(Some(Kind.Error), true, NoChange)

  function Respond(routers: set<string>, m: Method, routerId: Option<string>, env: Env): Response
  {
    match m
    case WorkerClose => Response(None, true, ClosedAll)
    case WorkerDump => Response(Some(Kind.Accepted), env.dumpFits, NoChange)
    case GetResourceUsage => OfConduct(env.usage)
    case UpdateSettings => OfConduct(env.settings)
    case CreateRouter =>
      if routerId.None? || routerId.value in routers then REFUSED
      else Response(Some(Kind.Accepted), true, Created(routerId.value))
    case RouterClose =>
      if routerId.None? || routerId.value !in routers then REFUSED
      else Response(Some(Kind.Accepted), true, Closed(routerId.value))
    case ForRouter =>
      if routerId.None? || routerId.value !in routers then REFUSED else OfConduct(env.router)
  }

  // A message is a request when its id is a non-negative integer and its method a string.
  predicate IsRequest(msg: Message) { msg.Json? && msg.id.Some? && msg.id.value >= 0 && msg.name.Some? }

  function RespondTo(routers: set<string>, msg: Message, env: Env): Response
    requires IsRequest(msg)
  {
    match MethodOf(msg.name.value)
    case None => REFUSED
    case Some(m) => Respond(routers, m, msg.routerId, env)
  }

  function Apply(routers: set<string>, c: Change): set<string>
  {
    match c
    case NoChange => routers
    case Created(r) => routers + {r}
    case Closed(r) => routers - {r}
    case ClosedAll => {}
  }

  // replies: every reply made. wire: those that were sent.
  datatype State = State(closed: bool, routers: set<string>, replies: seq<Reply>, wire: seq<Reply>)

  function Handle(s: State, msg: Message, env: Env): State
  {
    if s.closed || !IsRequest(msg) then s
    else
      var r := RespondTo(s.routers, msg, env);
      var made := if r.kind.Some? then [Reply(msg.id.value % ID_WRAP, r.kind.value)] else [];
      State(r.change.ClosedAll?, Apply(s.routers, r.change), s.replies + made,
            s.wire + if r.fits then made else [])
  }

  // ---- The code ----

  // The exceptions that the dispatcher distinguishes.
  datatype Outcome = Done | Threw | ThrewTypeError

  // The sending side of ChannelSocket; fits: the reply is no longer than the payload limit.
  class ChannelSocket {
    var closed: bool
    var replies: seq<Reply>
    var wire: seq<Reply>

    constructor ()
      ensures !closed && replies == [] && wire == []
    {
      closed, replies, wire := false, [], [];
    }

    method Send(r: Reply, fits: bool)
      modifies this`replies, this`wire
      ensures replies == old(replies) + [r]
      ensures wire == old(wire) + if !closed && fits then [r] else []
    {
      replies := replies + [r];
      if closed { return; }
      if !fits { return; }
      wire := wire + [r];
    }
  }

  // The assertion "request already replied" is a precondition of the three ways to reply.
  class ChannelRequest {
    const channel: ChannelSocket
    const id: nat
    const m: Method
    const routerId: Option<string>
    var replied: bool

    constructor (channel: ChannelSocket, id: nat, m: Method, routerId: Option<string>)
      ensures this.channel == channel && this.id == id && this.m == m && this.routerId == routerId && !replied
    {
      this.channel, this.id, this.m, this.routerId, replied := channel, id, m, routerId, false;
    }

    method Accept(fits: bool)
      requires !replied
      modifies this, channel`replies, channel`wire
      ensures replied && channel.replies == old(channel.replies) + [Reply(id, Kind.Accepted)]
      ensures channel.wire == old(channel.wire) + if !channel.closed && fits then [Reply(id, Kind.Accepted)] else []
    {
      replied := true;
      channel.Send(Reply(id, Kind.Accepted), fits);
    }

    method Refuse(kind: Kind)
      requires !replied
      modifies this, channel`replies, channel`wire
      ensures replied && channel.replies == old(channel.replies) + [Reply(id, kind)]
      ensures channel.wire == old(channel.wire) + if !channel.closed then [Reply(id, kind)] else []
    {
      replied := true;
      channel.Send(Reply(id, kind), true);
    }
  }

  class Worker {
    const channel: ChannelSocket
    var closed: bool
    var mapRouters: set<string>

    ghost predicate Valid()
      reads this, channel
    {
      closed == channel.closed
    }

    ghost function Abs(): State
      reads this, channel
    {
      State(closed, mapRouters, channel.replies, channel.wire)
    }

    constructor (channel: ChannelSocket)
      requires !channel.closed
      ensures Valid() && this.channel == channel && !closed && mapRouters == {}
    {
      this.channel := channel;
      closed, mapRouters := false, {};
    }

    method Close()
      requires Valid()
      modifies this`closed, this`mapRouters, channel`closed
      ensures Valid() && closed && mapRouters == (if old(closed) then old(mapRouters) else {})
    {
      if closed { return; }
      closed := true;
      mapRouters := {};
      channel.closed := true;
    }

    // The reply of code outside the dispatcher, or its exception.
    method Delegate(request: ChannelRequest, conduct: Conduct) returns (o: Outcome)
      requires !request.replied
      modifies request, request.channel`replies, request.channel`wire
      ensures o.Done? <==> conduct.Replies?
      ensures o.ThrewTypeError? <==> conduct.ThrowsTypeError?
      ensures request.replied <==> o.Done?
      ensures request.channel.replies == old(request.channel.replies) +
                if o.Done? then [Reply(request.id, Kind.Accepted)] else []
      ensures request.channel.wire == old(request.channel.wire) +
                if o.Done? && !request.channel.closed && conduct.fits then [Reply(request.id, Kind.Accepted)] else []
    {
      match conduct
      case Replies(fits) => request.Accept(fits); return Done;
      case Throws => return Threw;
      case ThrowsTypeError => return ThrewTypeError;
    }

    // OnChannelRequest: Done after replying (or after worker.close), otherwise nothing was replied.
    method OnChannelRequest(request: ChannelRequest, env: Env) returns (o: Outcome)
      requires Valid() && !closed && !request.replied && request.channel == channel
      modifies this, request, channel
      ensures Valid()
      ensures var r := Respond(old(mapRouters), request.m, request.routerId, env);
              && mapRouters == Apply(old(mapRouters), r.change) && closed == r.change.ClosedAll?
              && (r.kind == None || r.kind == Some(Kind.Accepted) <==> o.Done?)
              && (o.ThrewTypeError? <==> r.kind == Some(Kind.TypeError))
              && (request.replied <==> r.kind == Some(Kind.Accepted))
              && channel.replies == old(channel.replies) +
                                    (if request.replied then [Reply(request.id, Kind.Accepted)] else [])
              && channel.wire == old(channel.wire) +
                                 (if request.replied && r.fits then [Reply(request.id, Kind.Accepted)] else [])
    {
      match request.m
      case WorkerClose =>
        Close();
        return Done;
      case WorkerDump =>
        request.Accept(env.dumpFits);
        return Done;
      case GetResourceUsage =>
        o := Delegate(request, env.usage);
      case UpdateSettings =>
        o := Delegate(request, env.settings);
      case CreateRouter =>
        if request.routerId.None? { return Threw; }
        if request.routerId.value in mapRouters { return Threw; }
        mapRouters := mapRouters + {request.routerId.value};
        request.Accept(true);
        return Done;
      case RouterClose =>
        if request.routerId.None? { return Threw; }
        if request.routerId.value !in mapRouters { return Threw; }
        mapRouters := mapRouters - {request.routerId.value};
        request.Accept(true);
        return Done;
      case ForRouter =>
        if request.routerId.None? { return Threw; }
        if request.routerId.value !in mapRouters { return Threw; }
        o := Delegate(request, env.router);
    }

    // OnConsumerSocketMessage, with the request's constructor.
    method OnMessage(msg: Message, env: Env)
      requires Valid() && !closed
      modifies this, channel
      ensures Valid() && Abs() == Handle(old(Abs()), msg, env)
    {
      hide MethodOf;
      if msg.Garbage? { return; }
      if msg.id.None? || msg.id.value < 0 { return; }
      var id := msg.id.value % ID_WRAP;
      if msg.name.None? { return; }
      var methodId := MethodOf(msg.name.value);
      if methodId.None? {
        channel.Send(Reply(id, Kind.Error), true);
        return;
      }
      var request := new ChannelRequest(channel, id, methodId.value, msg.routerId);
      var o := OnChannelRequest(request, env);
      match o
      case Done =>
      case ThrewTypeError => request.Refuse(Kind.TypeError);
      case Threw => request.Refuse(Kind.Error);
    }
  }

  // ---- Whole runs ----

  const START := State(false, {}, [], [])

  function Run(s: State, msgs: seq<(Message, Env)>): State
  {
    if msgs == [] then s
    else
      var last := msgs[|msgs| - 1];
      Handle(Run(s, msgs[..|msgs| - 1]), last.0, last.1)
  }

  // The requests of a run that the worker gets to see, without worker.close: one id for each.
  function Requests(s: State, msgs: seq<(Message, Env)>): seq<nat>
  {
    if msgs == [] then []
    else
      var before, msg := msgs[..|msgs| - 1], msgs[|msgs| - 1].0;
      Requests(s, before) +
      if !Run(s, before).closed && IsRequest(msg) && msg.name.value != "worker.close"
      then [msg.id.value % ID_WRAP] else []
  }

  function Ids(replies: seq<Reply>): seq<nat>
  {
    seq(|replies|, i requires 0 <= i < |replies| => replies[i].id)
  }

  // Every request with a valid id and a string method gets exactly one reply, with its id, in order;
  // worker.close gets none, and nothing else is replied to.
  lemma {:induction false} OneReplyEach(msgs: seq<(Message, Env)>)
    ensures Ids(Run(START, msgs).replies) == Requests(START, msgs)
  {
    hide MethodOf;
    if msgs != [] {
      var before, last := msgs[..|msgs| - 1], msgs[|msgs| - 1];
      OneReplyEach(before);
      var s := Run(START, before);
      if !s.closed && IsRequest(last.0) {
        OnlyCloseIsSilent(s.routers, last.0, last.1);
      }
    }
  }

  // For each reply of a run, whether it is within the size that can be sent.
  function Sendable(s: State, msgs: seq<(Message, Env)>): seq<bool>
  {
    if msgs == [] then []
    else
      var before, last := msgs[..|msgs| - 1], msgs[|msgs| - 1];
      Sendable(s, before) +
      if !Run(s, before).closed && IsRequest(last.0) && last.0.name.value != "worker.close"
      then [RespondTo(Run(s, before).routers, last.0, last.1).fits] else []
  }

  // The replies for which the flag is set.
  function Select(replies: seq<Reply>, flags: seq<bool>): seq<Reply>
    requires |replies| == |flags|
  {
    if replies == [] then []
    else
      var n := |replies| - 1;
      Select(replies[..n], flags[..n]) + if flags[n] then [replies[n]] else []
  }

  lemma SelectSnoc(replies: seq<Reply>, flags: seq<bool>, r: Reply, flag: bool)
    requires |replies| == |flags|
    ensures Select(replies + [r], flags + [flag]) == Select(replies, flags) + if flag then [r] else []
  {
    assert (replies + [r])[..|replies|] == replies && (flags + [flag])[..|flags|] == flags;
  }

  // Of the replies made, exactly those that are not too big reach the wire, in order. With OneReplyEach:
  // a request stays unanswered if and only if it is worker.close or its reply is too big.
  lemma {:induction false} WireExact(msgs: seq<(Message, Env)>)
    ensures |Sendable(START, msgs)| == |Run(START, msgs).replies|
    ensures Run(START, msgs).wire == Select(Run(START, msgs).replies, Sendable(START, msgs))
  {
    hide MethodOf, Select;
    if msgs == [] {
      SelectNothing();
    } else {
      var before, last := msgs[..|msgs| - 1], msgs[|msgs| - 1];
      WireExact(before);
      var s, flags := Run(START, before), Sendable(START, before);
      assert s.wire + [] == s.wire && s.replies + [] == s.replies && flags + [] == flags;
      if !s.closed && IsRequest(last.0) {
        var r := RespondTo(s.routers, last.0, last.1);
        OnlyCloseIsSilent(s.routers, last.0, last.1);
        hide RespondTo;
        if r.kind.Some? {
          SelectSnoc(s.replies, flags, Reply(last.0.id.value % ID_WRAP, r.kind.value), r.fits);
        }
      }
    }
  }

  lemma SelectNothing()
    ensures Select([], []) == []
  {
  }

  lemma OnlyCloseIsSilent(routers: set<string>, msg: Message, env: Env)
    requires IsRequest(msg)
    ensures RespondTo(routers, msg, env).kind.None? <==> msg.name.value == "worker.close"
    ensures RespondTo(routers, msg, env).change.ClosedAll? <==> msg.name.value == "worker.close"
  {
    hide FOR_ROUTER;
  }

  // An id that Node can draw comes back unchanged.
  lemma IdSurvives(id: nat)
    requires 1 <= id <= 4294967295
    ensures id % ID_WRAP == id
  {
  }

  // ---- The routers, told from the messages and the replies ----

  // Message i reaches an open worker as a request for this method.
  predicate SeenAt(msgs: seq<(Message, Env)>, i: nat, name: string)
    requires i < |msgs|
  {
    !Run(START, msgs[..i]).closed && IsRequest(msgs[i].0) && msgs[i].0.name.value == name
  }

  // Message i asks for this method on router r, and its only reply accepts it.
  predicate AcceptedAt(msgs: seq<(Message, Env)>, i: nat, name: string, r: string)
    requires i < |msgs|
  {
    && SeenAt(msgs, i, name) && msgs[i].0.routerId == Some(r)
    && Run(START, msgs[..i + 1]).replies
    == Run(START, msgs[..i]).replies + [Reply(msgs[i].0.id.value % ID_WRAP, Kind.Accepted)]
  }

  // Message i ends router r: an accepted "router.close" of it, or a "worker.close".
  predicate EndedAt(msgs: seq<(Message, Env)>, i: nat, r: string)
    requires i < |msgs|
  {
    AcceptedAt(msgs, i, "router.close", r) || SeenAt(msgs, i, "worker.close")
  }

  // The creation of r was accepted, and nothing later ended it.
  predicate Alive(msgs: seq<(Message, Env)>, r: string)
  {
    exists i :: 0 <= i < |msgs| && AcceptedAt(msgs, i, "worker.createRouter", r)
      && forall j :: i < j < |msgs| ==> !EndedAt(msgs, j, r)
  }

  // Later messages do not change what an earlier one did.
  lemma PrefixTells(msgs: seq<(Message, Env)>, n: nat, i: nat, r: string)
    requires i < n <= |msgs|
    ensures AcceptedAt(msgs, i, "worker.createRouter", r) <==> AcceptedAt(msgs[..n], i, "worker.createRouter", r)
    ensures EndedAt(msgs, i, r) <==> EndedAt(msgs[..n], i, r)
  {
    hide Run;
    assert msgs[..i] == msgs[..n][..i] && msgs[..i + 1] == msgs[..n][..i + 1] && msgs[i] == msgs[..n][i];
  }

  // What one more message means for a router.
  lemma AliveSnoc(msgs: seq<(Message, Env)>, r: string)
    requires msgs != []
    ensures var n := |msgs| - 1;
            Alive(msgs, r) <==>
              AcceptedAt(msgs, n, "worker.createRouter", r) || (Alive(msgs[..n], r) && !EndedAt(msgs, n, r))
  {
    hide AcceptedAt, EndedAt;
    var n := |msgs| - 1;
    var before := msgs[..n];
    forall i | 0 <= i < n
      ensures AcceptedAt(msgs, i, "worker.createRouter", r) <==> AcceptedAt(before, i, "worker.createRouter", r)
      ensures EndedAt(msgs, i, r) <==> EndedAt(before, i, r)
    {
      PrefixTells(msgs, n, i, r);
    }
    if Alive(before, r) && !EndedAt(msgs, n, r) {
      var i :| 0 <= i < n && AcceptedAt(before, i, "worker.createRouter", r)
        && forall j :: i < j < n ==> !EndedAt(before, j, r);
      assert AcceptedAt(msgs, i, "worker.createRouter", r);
    }
    if Alive(msgs, r) && !AcceptedAt(msgs, n, "worker.createRouter", r) {
      var i :| 0 <= i < |msgs| && AcceptedAt(msgs, i, "worker.createRouter", r)
        && forall j :: i < j < |msgs| ==> !EndedAt(msgs, j, r);
      assert AcceptedAt(before, i, "worker.createRouter", r);
    }
  }

  // The reply of s to a request that it gets to see is an acceptance.
  predicate Accepts(s: State, msg: Message, env: Env)
    requires IsRequest(msg)
  {
    Handle(s, msg, env).replies == s.replies + [Reply(msg.id.value % ID_WRAP, Kind.Accepted)]
  }

  // One message puts a router in the map or takes it out exactly as its reply says.
  lemma RouterStep(s: State, msg: Message, env: Env, r: string)
    ensures var seen := !s.closed && IsRequest(msg);
            r in Handle(s, msg, env).routers <==>
              || (seen && msg.name.value == "worker.createRouter" && msg.routerId == Some(r) && Accepts(s, msg, env))
              || (&& r in s.routers
                  && !(seen && msg.name.value == "router.close" && msg.routerId == Some(r) && Accepts(s, msg, env))
                  && !(seen && msg.name.value == "worker.close"))
  {
    hide FOR_ROUTER;
    if !s.closed && IsRequest(msg) {
      var m := RespondTo(s.routers, msg, env);
      assert m.kind.Some? ==>
          (Accepts(s, msg, env) <==> m.kind.value == Kind.Accepted) by {
        if m.kind.Some? {
          assert Handle(s, msg, env).replies[|s.replies|] == Reply(msg.id.value % ID_WRAP, m.kind.value);
        }
      }
    }
  }

  // The router map is at every moment what Node was told has been created, minus what it was told
  // has been closed.
  lemma {:induction false} RoutersExact(msgs: seq<(Message, Env)>, r: string)
    ensures r in Run(START, msgs).routers <==> Alive(msgs, r)
  {
    if msgs != [] {
      var n := |msgs| - 1;
      RoutersExact(msgs[..n], r);
      AliveSnoc(msgs, r);
      assert msgs[..n + 1] == msgs;
      hide Handle, Alive;
      RouterStep(Run(START, msgs[..n]), msgs[n].0, msgs[n].1, r);
    }
  }

  lemma RouterReplies(s: State, msg: Message, env: Env, r: string)
    requires !s.closed && IsRequest(msg) && msg.routerId == Some(r)
    ensures msg.name.value == "worker.createRouter" ==> (Accepts(s, msg, env) <==> r !in s.routers)
    ensures msg.name.value == "router.close" ==> (Accepts(s, msg, env) <==> r in s.routers)
  {
    hide FOR_ROUTER;
    var m := RespondTo(s.routers, msg, env);
    if m.kind.Some? {
      assert Handle(s, msg, env).replies[|s.replies|] == Reply(msg.id.value % ID_WRAP, m.kind.value);
    }
  }

  // Which of these requests are accepted: creating a router that is not alive, closing one that is.
  lemma AcceptedExactly(msgs: seq<(Message, Env)>, i: nat, r: string)
    requires i < |msgs| && msgs[i].0.Json? && msgs[i].0.routerId == Some(r)
    ensures SeenAt(msgs, i, "worker.createRouter") ==>
              (AcceptedAt(msgs, i, "worker.createRouter", r) <==> !Alive(msgs[..i], r))
    ensures SeenAt(msgs, i, "router.close") ==> (AcceptedAt(msgs, i, "router.close", r) <==> Alive(msgs[..i], r))
  {
    hide Handle, Alive;
    RoutersExact(msgs[..i], r);
    assert msgs[..i + 1][..i] == msgs[..i];
    var s := Run(START, msgs[..i]);
    if !s.closed && IsRequest(msgs[i].0) { RouterReplies(s, msgs[i].0, msgs[i].1, r); }
  }

  // ---- Every request, told from the messages ----

  // The worker has closed if and only if a "worker.close" was among the messages.
  lemma {:induction false} ClosedExactly(msgs: seq<(Message, Env)>)
    ensures Run(START, msgs).closed <==>
              exists i :: 0 <= i < |msgs| && IsRequest(msgs[i].0) && msgs[i].0.name.value == "worker.close"
  {
    hide RespondTo;
    if msgs != [] {
      var n := |msgs| - 1;
      var before, last := msgs[..n], msgs[n];
      ClosedExactly(before);
      assert forall i :: 0 <= i < n ==> before[i] == msgs[i];
      if IsRequest(last.0) { OnlyCloseIsSilent(Run(START, before).routers, last.0, last.1); }
    }
  }

  // Request i gets one reply, of this kind, which is sent or not.
  predicate RepliedAt(msgs: seq<(Message, Env)>, i: nat, kind: Kind, sent: bool)
    requires i < |msgs| && IsRequest(msgs[i].0)
  {
    var s, t := Run(START, msgs[..i]), Run(START, msgs[..i + 1]);
    var r := Reply(msgs[i].0.id.value % ID_WRAP, kind);
    t.replies == s.replies + [r] && t.wire == s.wire + if sent then [r] else []
  }

  // Request i gets the reply of the code it was handed to, or the exception that this code threw.
  predicate AsConducted(msgs: seq<(Message, Env)>, i: nat, c: Conduct)
    requires i < |msgs| && IsRequest(msgs[i].0)
  {
    match c
    case Replies(fits) => RepliedAt(msgs, i, Kind.Accepted, fits)
    case Throws => RepliedAt(msgs, i, Kind.Error, true)
    case ThrowsTypeError => RepliedAt(msgs, i, Kind.TypeError, true)
  }

  predicate SilentAt(msgs: seq<(Message, Env)>, i: nat)
    requires i < |msgs|
  {
    var s, t := Run(START, msgs[..i]), Run(START, msgs[..i + 1]);
    t.replies == s.replies && t.wire == s.wire
  }

  // What message i does, in every run: a request that the open worker gets to see is answered by its name
  // and by whether the router that it names is alive; everything else is ignored.
  lemma RepliesExact(msgs: seq<(Message, Env)>, i: nat)
    requires i < |msgs|
    ensures var (msg, env) := msgs[i];
            if Run(START, msgs[..i]).closed || !IsRequest(msg) then SilentAt(msgs, i)
            else
              var name, r := msg.name.value, msg.routerId;
              var alive := r.Some? && Alive(msgs[..i], r.value);
              if name == "worker.close" then SilentAt(msgs, i)
              else if name == "worker.dump" then RepliedAt(msgs, i, Kind.Accepted, env.dumpFits)
              else if name == "worker.getResourceUsage" then AsConducted(msgs, i, env.usage)
              else if name == "worker.updateSettings" then AsConducted(msgs, i, env.settings)
              else if name == "worker.createRouter" then
                RepliedAt(msgs, i, if r.Some? && !alive then Kind.Accepted else Kind.Error, true)
              else if name == "router.close" then
                RepliedAt(msgs, i, if alive then Kind.Accepted else Kind.Error, true)
              else if name in FOR_ROUTER && alive then AsConducted(msgs, i, env.router)
              else RepliedAt(msgs, i, Kind.Error, true)
  {
    hide FOR_ROUTER, Alive;
    var (msg, env) := msgs[i];
    assert msgs[..i + 1][..i] == msgs[..i] && msgs[..i + 1][i] == msgs[i];
    if IsRequest(msg) && msg.routerId.Some? { RoutersExact(msgs[..i], msg.routerId.value); }
  }
}
