/**
 Requests and replies on the Node side (mediasouptestcase/src/Channel.ts): request ids, the map of
 pending requests, timers and closing. A call of request() is known by its number.
 */
module ChannelRpc {
  // Request ids run from 1 to this value and start again.
  const CYCLE: nat := 4294967295

  datatype Reason = Answered(origin: nat) | TimedOut | ChannelClosed | NotSent

  // A promise; the number in Resolved (and Answered) is the call whose reply settled it.
  datatype Promise = Pending | Resolved(origin: nat) | Rejected(reason: Reason)

  // The worker's verdict in a reply: "accepted", an error, or neither.
  datatype Verdict = Accepted | Failed | Neither

  // Settling a promise a second time has no effect.
  function Settle(p: Promise, s: Promise): Promise { if p.Pending? then s else p }

  // The id that request() draws on its call number k.
  function IdOf(k: nat): (id: nat)
    ensures 1 <= id <= CYCLE
  {
    k % CYCLE + 1
  }

  // calls: how often request() was called. sents: the call pending under each id. promises: one for
  // each call. timers: the calls whose timer is armed.
  datatype Chan = Chan(
    calls: nat, nextId: nat, closed: bool, sents: map<nat, nat>, promises: map<nat, Promise>, timers: set<nat>)

  ghost predicate Sound(c: Chan)
  {
    && (forall k :: k in c.promises <==> 0 <= k < c.calls)
    && (forall id :: id in c.sents ==> c.sents[id] < c.calls && IdOf(c.sents[id]) == id)
    && (forall k :: k in c.timers ==> k < c.calls)
    && c.nextId == (if c.calls == 0 then 0 else IdOf(c.calls - 1))
  }

  function NextId(id: nat): nat { if id < CYCLE then id + 1 else 1 }

  function Request(c: Chan, sendable: bool): Chan
  {
    var k, id := c.calls, NextId(c.nextId);
    if c.closed || !sendable then
      c.(calls := k + 1, nextId := id,
         promises := c.promises[k := Rejected(if c.closed then ChannelClosed else NotSent)])
    else
      c.(calls := k + 1, nextId := id, sents := c.sents[id := k],
         promises := c.promises[k := Pending], timers := c.timers + {k})
  }

  // A response with this id arrives; `origin` is the call it answers.
  function Process(c: Chan, id: nat, verdict: Verdict, origin: nat): Chan
    requires Sound(c)
  {
    if id !in c.sents || verdict.Neither? then c
    else
      var k := c.sents[id];
      var s := if verdict.Accepted? then Resolved(origin) else Rejected(Answered(origin));
      c.(sents := c.sents - {id}, timers := c.timers - {k}, promises := c.promises[k := Settle(c.promises[k], s)])
  }

  function Timeout(c: Chan, k: nat): Chan
    requires Sound(c) && k in c.timers
  {
    var id := IdOf(k);
    if id !in c.sents then c.(timers := c.timers - {k})
    else
      c.(sents := c.sents - {id}, timers := c.timers - {k},
         promises := c.promises[k := Settle(c.promises[k], Rejected(TimedOut))])
  }

  function Close(c: Chan): Chan
  {
    if c.closed then c
    else
      c.(closed := true, timers := c.timers - c.sents.Values,
         promises := map k | k in c.promises ::
           if k in c.sents.Values then Settle(c.promises[k], Rejected(ChannelClosed)) else c.promises[k])
  }

  class Channel {
    var calls: nat
    var nextId: nat
    var closed: bool
    var sents: map<nat, nat>
    var promises: map<nat, Promise>
    var timers: set<nat>

    ghost function Abs(): Chan
      reads this
    {
      Chan(calls, nextId, closed, sents, promises, timers)
    }

    constructor ()
      ensures Abs() == Chan(0, 0, false, map[], map[], {}) && Sound(Abs())
    {
      calls, nextId, closed, sents, promises, timers := 0, 0, false, map[], map[], {};
    }

    method SendRequest(sendable: bool) returns (call: nat)
      modifies this
      ensures call == old(calls) && Abs() == Request(old(Abs()), sendable)
    {
      nextId := if nextId < CYCLE then nextId + 1 else 1;
      var id := nextId;
      call, calls := calls, calls + 1;
      if closed {
        promises := promises[call := Rejected(ChannelClosed)];
        return;
      }
      if !sendable {
        promises := promises[call := Rejected(NotSent)];
        return;
      }
      timers := timers + {call};
      promises := promises[call := Pending];
      sents := sents[id := call];
    }

    method ProcessMessage(id: nat, verdict: Verdict, origin: nat)
      requires Sound(Abs())
      modifies this
      ensures Abs() == Process(old(Abs()), id, verdict, origin)
    {
      if id !in sents { return; }
      var sent := sents[id];
      match verdict
      case Accepted =>
        sents := sents - {id};
        timers := timers - {sent};
        promises := promises[sent := Settle(promises[sent], Resolved(origin))];
      case Failed =>
        sents := sents - {id};
        timers := timers - {sent};
        promises := promises[sent := Settle(promises[sent], Rejected(Answered(origin)))];
      case Neither =>
    }

    method OnTimeout(call: nat)
      requires Sound(Abs()) && call in timers
      modifies this
      ensures Abs() == Timeout(old(Abs()), call)
    {
      var id := IdOf(call);
      timers := timers - {call};
      if id !in sents { return; }
      sents := sents - {id};
      promises := promises[call := Settle(promises[call], Rejected(TimedOut))];
    }

    method CloseChannel()
      requires Sound(Abs())
      modifies this
      ensures Abs() == Close(old(Abs()))
    {
      if closed { return; }
      closed := true;
      var left := sents.Values;
      while left != {}
        invariant left <= sents.Values
        invariant calls == old(calls) && nextId == old(nextId) && sents == old(sents) && closed
        invariant timers == old(timers) - (sents.Values - left)
        invariant promises.Keys == old(promises).Keys
        invariant forall k :: k in promises ==>
                    promises[k] == if k in sents.Values - left then Settle(old(promises)[k], Rejected(ChannelClosed))
                                   else old(promises)[k]
        decreases left
      {
        var sent :| sent in left;
        timers := timers - {sent};
        promises := promises[sent := Settle(promises[sent], Rejected(ChannelClosed))];
        left := left - {sent};
      }
      assert sents.Values - {} == sents.Values;
      assert promises == Close(old(Abs())).promises;
    }
  }

  // ---- The channel, the worker and the messages between them ----

  // atWorker: the calls the worker has yet to answer. replies: the answers under way. The worker
  // answers a request at most once.
  datatype System = System(chan: Chan, atWorker: set<nat>, replies: map<nat, Verdict>)

  datatype Event =
    | Call(sendable: bool)
    | Answer(k: nat, verdict: Verdict)
    | Lose(k: nat) // the worker does not answer this request
    | Deliver(k: nat)
    | Expire(k: nat)
    | Shut

  predicate Enabled(s: System, e: Event)
  {
    match e
    case Answer(k, _) => k in s.atWorker
    case Lose(k) => k in s.atWorker
    case Deliver(k) => k in s.replies
    case Expire(k) => k in s.chan.timers
    case _ => true
  }

  ghost function Step(s: System, e: Event): System
    requires Enabled(s, e) && Sound(s.chan)
  {
    match e
    case Call(sendable) =>
      s.(chan := Request(s.chan, sendable),
         atWorker := if s.chan.closed || !sendable then s.atWorker else s.atWorker + {s.chan.calls})
    case Answer(k, verdict) => s.(atWorker := s.atWorker - {k}, replies := s.replies[k := verdict])
    case Lose(k) => s.(atWorker := s.atWorker - {k})
    case Deliver(k) => s.(chan := Process(s.chan, IdOf(k), s.replies[k], k), replies := s.replies - {k})
    case Expire(k) => s.(chan := Timeout(s.chan, k))
    case Shut => s.(chan := Close(s.chan))
  }

  // The calls that still have a timer, a request or a reply under way.
  function Live(s: System): set<nat> { s.chan.timers + s.atWorker + s.replies.Keys }

  // No request or reply has outlived a full cycle of ids.
  predicate Young(s: System)
  {
    forall k :: k in Live(s) ==> s.chan.calls - k < CYCLE
  }

  // Calls in flight have been made, and carry distinct ids.
  predicate DistinctIds(live: set<nat>, calls: nat)
  {
    && (forall k :: k in live ==> k < calls)
    && (forall j, k :: j in live && k in live && IdOf(j) == IdOf(k) ==> j == k)
  }

  // A promise that a reply settled was settled by the reply to its own request.
  predicate Honest(promises: map<nat, Promise>)
  {
    forall k :: k in promises ==>
      && (promises[k].Resolved? ==> promises[k].origin == k)
      && (promises[k].Rejected? && promises[k].reason.Answered? ==> promises[k].reason.origin == k)
  }

  // The pending promises are those with a timer: while open also those in the map, once closed none.
  predicate Tracked(c: Chan)
  {
    && (forall k :: k in c.promises ==> (c.promises[k].Pending? <==> k in c.timers))
    && (c.closed ==> c.timers == {})
    && (!c.closed ==>
          && (forall k :: k in c.timers ==> IdOf(k) in c.sents && c.sents[IdOf(k)] == k)
          && (forall id :: id in c.sents ==> c.sents[id] in c.timers))
  }

  ghost predicate Inv(s: System)
  {
    Sound(s.chan) && DistinctIds(Live(s), s.chan.calls) && Honest(s.chan.promises) && Tracked(s.chan)
  }

  const START := System(Chan(0, 0, false, map[], map[], {}), {}, map[])

  lemma NextIdIs(k: nat)
    ensures NextId(if k == 0 then 0 else IdOf(k - 1)) == IdOf(k)
  {
  }

  // An id comes back only after a full cycle.
  lemma SameId(j: nat, k: nat)
    requires j < k && IdOf(j) == IdOf(k)
    ensures k - j >= CYCLE
  {
    assert k - j == CYCLE * (k / CYCLE - j / CYCLE);
  }

  lemma StepSound(s: System, e: Event)
    requires Enabled(s, e) && Sound(s.chan)
    ensures Sound(Step(s, e).chan)
  {
    NextIdIs(s.chan.calls);
    hide IdOf, NextId;
  }

  lemma FewerDistinct(live: set<nat>, fewer: set<nat>, calls: nat)
    requires DistinctIds(live, calls) && fewer <= live
    ensures DistinctIds(fewer, calls)
  {
  }

  lemma OneMoreDistinct(s: System)
    requires DistinctIds(Live(s), s.chan.calls) && Young(s)
    ensures DistinctIds(Live(s) + {s.chan.calls}, s.chan.calls + 1)
    ensures DistinctIds(Live(s), s.chan.calls + 1)
  {
    forall j | j in Live(s) ensures IdOf(j) != IdOf(s.chan.calls) {
      if IdOf(j) == IdOf(s.chan.calls) { SameId(j, s.chan.calls); }
    }
    hide IdOf;
  }

  lemma CallTracked(c: Chan, sendable: bool)
    requires Sound(c) && Tracked(c) && DistinctIds(c.timers + {c.calls}, c.calls + 1)
    ensures Tracked(Request(c, sendable))
  {
    NextIdIs(c.calls);
    hide IdOf, NextId;
    if !c.closed && sendable {
      assert IdOf(c.calls) !in c.sents by {
        assert forall id :: id in c.sents ==> c.sents[id] in c.timers && IdOf(c.sents[id]) == id;
      }
    }
  }

  lemma CallLive(s: System, sendable: bool)
    requires Sound(s.chan)
    ensures var t := Step(s, Call(sendable));
            && t.chan.calls == s.chan.calls + 1
            && (Live(t) == Live(s) || Live(t) == Live(s) + {s.chan.calls})
  {
    hide Sound, NextId;
  }

  lemma CallHonest(c: Chan, sendable: bool)
    requires Honest(c.promises)
    ensures Honest(Request(c, sendable).promises)
  {
    hide NextId;
  }

  lemma CallKeeps(s: System, sendable: bool)
    requires Inv(s) && Young(s)
    ensures Inv(Step(s, Call(sendable)))
  {
    hide IdOf, DistinctIds, Tracked, NextId, Sound, Honest, Request;
    StepSound(s, Call(sendable));
    OneMoreDistinct(s);
    FewerDistinct(Live(s) + {s.chan.calls}, s.chan.timers + {s.chan.calls}, s.chan.calls + 1);
    CallTracked(s.chan, sendable);
    CallHonest(s.chan, sendable);
    CallLive(s, sendable);
  }

  // A reply settles the promise of its own call, or none.
  lemma ProcessKeeps(c: Chan, k: nat, verdict: Verdict)
    requires Sound(c) && Tracked(c) && Honest(c.promises) && DistinctIds(c.timers + {k}, c.calls)
    ensures var d := Process(c, IdOf(k), verdict, k);
            Tracked(d) && Honest(d.promises) && d.timers <= c.timers
  {
    hide IdOf;
    var id := IdOf(k);
    if id in c.sents && !verdict.Neither? {
      assert !c.closed ==> c.sents[id] == k;
    }
  }

  lemma DeliverKeeps(s: System, k: nat)
    requires Inv(s) && k in s.replies
    ensures Inv(Step(s, Deliver(k)))
  {
    StepSound(s, Deliver(k));
    FewerDistinct(Live(s), s.chan.timers + {k}, s.chan.calls);
    ProcessKeeps(s.chan, k, s.replies[k]);
    var t := Step(s, Deliver(k));
    assert t.chan.calls == s.chan.calls;
    hide Process, DistinctIds, Tracked, Honest, Sound;
    FewerDistinct(Live(s), Live(t), s.chan.calls);
  }

  lemma ExpireKeeps(s: System, k: nat)
    requires Inv(s) && k in s.chan.timers
    ensures Inv(Step(s, Expire(k)))
  {
    hide IdOf, Sound, DistinctIds, Tracked, Honest, Timeout;
    StepSound(s, Expire(k));
    TimeoutKeeps(s.chan, k);
    FewerDistinct(Live(s), Live(Step(s, Expire(k))), s.chan.calls);
  }

  lemma TimeoutKeeps(c: Chan, k: nat)
    requires Sound(c) && Tracked(c) && Honest(c.promises) && k in c.timers
    ensures var d := Timeout(c, k);
            Tracked(d) && Honest(d.promises) && d.timers <= c.timers && d.calls == c.calls
  {
    hide IdOf;
  }

  lemma ShutKeeps(s: System)
    requires Inv(s)
    ensures Inv(Step(s, Shut))
  {
    StepSound(s, Shut);
    hide IdOf;
    var t := Step(s, Shut);
    FewerDistinct(Live(s), Live(t), s.chan.calls);
    if !s.chan.closed {
      assert forall k :: k in s.chan.timers ==> s.chan.sents[IdOf(k)] == k && k in s.chan.sents.Values;
      assert t.chan.timers == {};
    }
  }

  lemma StepKeeps(s: System, e: Event)
    requires Inv(s) && Enabled(s, e) && (e.Call? ==> Young(s))
    ensures Inv(Step(s, e))
  {
    match e
    case Call(sendable) => CallKeeps(s, sendable);
    case Answer(k, v) =>
      assert Live(Step(s, e)) == Live(s);
    case Lose(k) => FewerDistinct(Live(s), Live(Step(s, e)), s.chan.calls);
    case Deliver(k) => DeliverKeeps(s, k);
    case Expire(k) => ExpireKeeps(s, k);
    case Shut => ShutKeeps(s);
  }

  // ---- What each step settles ----

  // d is c with promise k settled as p, and with its id and its timer gone.
  predicate SettledAs(c: Chan, d: Chan, k: nat, p: Promise)
  {
    && k in c.promises && d.promises == c.promises[k := p]
    && IdOf(k) in c.sents && d.sents == c.sents - {IdOf(k)} && k in c.timers && d.timers == c.timers - {k}
    && d.calls == c.calls && d.nextId == c.nextId && d.closed == c.closed
  }

  // The reply to a pending call settles its promise as the worker decided; a reply without a verdict
  // changes nothing, and one that comes after the promise was settled changes no promise and no timer.
  lemma DeliverSettles(s: System, k: nat)
    requires Inv(s) && k in s.replies
    ensures var c, d := s.chan, Step(s, Deliver(k)).chan;
            && k in c.promises && d.closed == c.closed
            && (s.replies[k] == Neither ==> d == c)
            && (c.promises[k].Pending? && s.replies[k] == Accepted ==> SettledAs(c, d, k, Resolved(k)))
            && (c.promises[k].Pending? && s.replies[k] == Failed ==> SettledAs(c, d, k, Rejected(Answered(k))))
            && (!c.promises[k].Pending? ==> d.promises == c.promises && d.timers == c.timers)
  {
    hide IdOf;
    var c := s.chan;
    assert k in Live(s);
    if IdOf(k) in c.sents && !c.closed {
      assert c.sents[IdOf(k)] in Live(s);
    }
  }

  // A timeout rejects the promise, which was pending.
  lemma ExpireSettles(s: System, k: nat)
    requires Inv(s) && k in s.chan.timers
    ensures k in s.chan.promises && s.chan.promises[k].Pending?
    ensures SettledAs(s.chan, Step(s, Expire(k)).chan, k, Rejected(TimedOut))
  {
    hide IdOf;
  }

  // close() rejects every pending promise and no other, and stops every timer.
  lemma ShutSettles(s: System)
    requires Inv(s)
    ensures var c, d := s.chan, Step(s, Shut).chan;
            && d.closed && d.timers == {} && d.promises.Keys == c.promises.Keys
            && forall k :: k in c.promises ==>
                 d.promises[k] == if c.promises[k].Pending? then Rejected(ChannelClosed) else c.promises[k]
  {
    hide IdOf;
    var c := s.chan;
    assert !c.closed ==> forall k :: k in c.timers ==> c.sents[IdOf(k)] == k && k in c.sents.Values;
    assert !c.closed ==> forall k :: k in c.sents.Values ==> k in c.timers;
  }

  // request() leaves its promise pending under a new id, with a timer, if it could send; else rejected.
  lemma CallPends(s: System, sendable: bool)
    requires Inv(s) && Young(s)
    ensures var c, d, k := s.chan, Step(s, Call(sendable)).chan, s.chan.calls;
            && k !in c.promises && d.calls == k + 1 && d.closed == c.closed
            && if c.closed then
                 d.promises == c.promises[k := Rejected(ChannelClosed)] && d.sents == c.sents && d.timers == c.timers
               else if !sendable then
                 d.promises == c.promises[k := Rejected(NotSent)] && d.sents == c.sents && d.timers == c.timers
               else
                 && d.promises == c.promises[k := Pending] && d.timers == c.timers + {k}
                 && IdOf(k) !in c.sents && d.sents == c.sents[IdOf(k) := k]
  {
    NextIdIs(s.chan.calls);
    OneMoreDistinct(s);
    hide IdOf, NextId;
    assert !s.chan.closed ==> forall id :: id in s.chan.sents ==> s.chan.sents[id] in Live(s);
  }

  // While the channel is open, call k waits for its reply as long as one may still come.
  predicate Awaits(s: System, k: nat)
  {
    && !s.chan.closed && !(k in s.atWorker && k in s.replies)
    && (k in s.atWorker || k in s.replies ==> k in s.chan.promises && s.chan.promises[k].Pending?)
  }

  // Nothing but close() and its own timeout ends the wait of a call before its reply is delivered.
  lemma AwaitsStep(s: System, e: Event, k: nat)
    requires Inv(s) && Enabled(s, e) && (e.Call? ==> Young(s)) && Awaits(s, k) && !e.Shut? && e != Expire(k)
    ensures Awaits(Step(s, e), k)
  {
    hide Process, Timeout, Request, IdOf, Tracked, Honest;
    match e
    case Call(sendable) =>
      CallPends(s, sendable);
      assert s.chan.calls !in Live(s);
    case Deliver(j) => DeliverSettles(s, j);
    case Expire(j) => ExpireSettles(s, j);
    case _ =>
  }

  // ---- Whole runs ----

  // The events can happen one after the other, and no call is made while a request or a reply is
  // older than a cycle of ids.
  ghost predicate Possible(s: System, events: seq<Event>)
    requires Sound(s.chan)
    decreases |events|
  {
    events == []
    || (&& Enabled(s, events[0]) && (events[0].Call? ==> Young(s))
        && (StepSound(s, events[0]); Possible(Step(s, events[0]), events[1..])))
  }

  ghost function Run(s: System, events: seq<Event>): System
    requires Sound(s.chan) && Possible(s, events)
    decreases |events|
  {
    if events == [] then s else (StepSound(s, events[0]); Run(Step(s, events[0]), events[1..]))
  }

  // A settled promise never changes again.
  predicate Settled(p: map<nat, Promise>, q: map<nat, Promise>)
  {
    forall k :: k in p ==> k in q && (!p[k].Pending? ==> q[k] == p[k])
  }

  lemma StepSettles(s: System, e: Event)
    requires Sound(s.chan) && Enabled(s, e)
    ensures Settled(s.chan.promises, Step(s, e).chan.promises)
  {
    hide IdOf, NextId;
  }

  // In every interleaving of requests, answers, deliveries, timeouts and close: a promise settles at
  // most once; if by a reply, then by the reply to its own request; and once the channel is closed
  // every promise is settled.
  lemma {:induction false} RunKeeps(s: System, events: seq<Event>)
    requires Inv(s) && Possible(s, events)
    ensures var t := Run(s, events);
            && Inv(t)
            && Settled(s.chan.promises, t.chan.promises)
            && (t.chan.closed ==> forall k :: 0 <= k < t.chan.calls ==> !t.chan.promises[k].Pending?)
    decreases |events|
  {
    if events != [] {
      var e := events[0];
      StepKeeps(s, e);
      StepSettles(s, e);
      hide Step;
      RunKeeps(Step(s, e), events[1..]);
      hide DistinctIds, Tracked, Honest, Sound;
    }
  }

  lemma StartInv()
    ensures Inv(START)
  {
  }

  // The condition cannot be dropped: a request that draws an id still pending orphans the earlier
  // promise, which close() then leaves pending. So a request followed by close() leaves everything
  // settled if and only if the id drawn is not pending.
  lemma ReusedIdOrphans(c: Chan)
    requires Sound(c) && Tracked(c) && !c.closed
    ensures var d := Close(Request(c, true));
            (forall k :: k in d.promises ==> !d.promises[k].Pending?) <==> IdOf(c.calls) !in c.sents
  {
    NextIdIs(c.calls);
    hide IdOf, NextId;
    var id := IdOf(c.calls);
    var r := Request(c, true);
    var d := Close(r);
    if id in c.sents {
      var lost := c.sents[id];
      assert forall i :: i in r.sents ==> r.sents[i] != lost;
      assert lost in d.promises && d.promises[lost].Pending?;
    } else {
      forall k | k in d.promises ensures !d.promises[k].Pending? {
        if r.promises[k].Pending? {
          assert r.sents[IdOf(k)] == k && k in r.sents.Values;
        }
      }
    }
  }

  // n calls that cannot be sent, which draw ids all the same.
  function Wasted(c: Chan, n: nat): Chan
  {
    if n == 0 then c else Request(Wasted(c, n - 1), false)
  }

  lemma {:induction false} WastedDraws(n: nat)
    requires n < CYCLE
    ensures var c := Wasted(Request(START.chan, true), n);
            && c.calls == n + 1 && c.nextId == n + 1 && !c.closed && c.sents == map[1 := 0] && c.timers == {0}
            && 0 in c.promises && c.promises[0] == Pending
  {
    if n > 0 { WastedDraws(n - 1); }
  }

  // Such a state is reached from a new channel: a request is sent and stays unanswered, the other ids
  // of the cycle are drawn by calls that fail, and the next request takes its id. After close() the
  // first promise is pending still, and only its timer can settle it.
  lemma ReuseReached()
    ensures var c := Wasted(Request(START.chan, true), CYCLE - 1);
            var d := Close(Request(c, true));
            && IdOf(c.calls) in c.sents
            && d.closed && 0 in d.promises && d.promises[0] == Pending && 0 in d.timers
  {
    WastedDraws(CYCLE - 1);
    hide Wasted;
  }
}
