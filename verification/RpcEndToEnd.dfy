/**
 Requests and replies from end to end: Node's request map (ChannelRpc), the worker's dispatcher
 (WorkerDispatch), and the two pipes between them, which keep their messages in order.
 */
module RpcEndToEnd {
  import opened Options
  import C = ChannelRpc
  import W = WorkerDispatch

  // A request or a reply under way. Only the message and the reply travel; call is the call they belong
  // to.
  datatype Flight = Flight(call: nat, msg: W.Message)
  datatype Return = Return(call: nat, reply: W.Reply)

  // answers: the reply that the worker has sent to each call.
  datatype Duplex = Duplex(
    chan: C.Chan, requests: seq<Flight>, worker: W.State, coming: seq<Return>, answers: map<nat, W.Reply>)

  const START := Duplex(C.START.chan, [], W.START, [], map[])

  datatype Event =
    | Call(sendable: bool, name: string, routerId: Option<string>)
    | Work(env: W.Env) // the worker handles the next request
    | Deliver          // Node processes the next reply
    | Expire(k: nat)
    | Shut

  function VerdictOf(r: W.Reply): C.Verdict { if r.kind.Accepted? then C.Accepted else C.Failed }

  predicate Enabled(d: Duplex, e: Event)
  {
    match e
    case Work(_) => d.requests != []
    case Deliver => d.coming != []
    case Expire(k) => k in d.chan.timers
    case _ => true
  }

  // What the worker sends back for a message.
  function Sent(w: W.State, msg: W.Message, env: W.Env): (r: seq<W.Reply>)
    ensures |r| <= 1 && W.Handle(w, msg, env).wire == w.wire + r
    ensures msg.Json? && msg.id.Some? && msg.id.value >= 0 ==>
              forall i :: 0 <= i < |r| ==> r[i].id == msg.id.value % W.ID_WRAP
  {
    hide W.RespondTo;
    var after := W.Handle(w, msg, env).wire;
    var r := after[|w.wire|..];
    assert after == w.wire + r;
    r
  }

  ghost function Step(d: Duplex, e: Event): Duplex
    requires Enabled(d, e) && C.Sound(d.chan)
  {
    match e
    case Call(sendable, name, routerId) =>
      var msg := W.Json(Some(C.IdOf(d.chan.calls)), Some(name), routerId);
      d.(chan := C.Request(d.chan, sendable),
         requests := if d.chan.closed || !sendable then d.requests else d.requests + [Flight(d.chan.calls, msg)])
    case Work(env) =>
      var f := d.requests[0];
      var sent := Sent(d.worker, f.msg, env);
      d.(requests := d.requests[1..], worker := W.Handle(d.worker, f.msg, env),
         coming := if sent == [] then d.coming else d.coming + [Return(f.call, sent[0])],
         answers := if sent == [] then d.answers else d.answers[f.call := sent[0]])
    case Deliver =>
      var r := d.coming[0];
      d.(chan := C.Process(d.chan, r.reply.id, VerdictOf(r.reply), r.call), coming := d.coming[1..])
    case Expire(k) => d.(chan := C.Timeout(d.chan, k))
    case Shut => d.(chan := C.Close(d.chan))
  }

  // ---- What travels ----

  // Requests carry the id of their call, one request for each, and have not been answered.
  predicate RequestsOk(requests: seq<Flight>, calls: nat, answers: map<nat, W.Reply>)
  {
    && (forall i :: 0 <= i < |requests| ==>
          && requests[i].call < calls && requests[i].call !in answers
          && requests[i].msg.Json? && requests[i].msg.id == Some(C.IdOf(requests[i].call)))
    && (forall i, j :: 0 <= i < j < |requests| ==> requests[i].call != requests[j].call)
  }

  // Replies carry the id of the call they answer, one reply for each.
  predicate ReturnsOk(coming: seq<Return>, calls: nat, answers: map<nat, W.Reply>)
  {
    && (forall k :: k in answers ==> k < calls && answers[k].id == C.IdOf(k))
    && (forall i :: 0 <= i < |coming| ==>
          coming[i].call in answers && answers[coming[i].call] == coming[i].reply)
    && (forall i, j :: 0 <= i < j < |coming| ==> coming[i].call != coming[j].call)
  }

  // A promise that was settled by the reply to a call was settled as the worker answered that call.
  predicate Truthful(promises: map<nat, C.Promise>, answers: map<nat, W.Reply>)
  {
    forall k :: k in promises ==>
      && (promises[k].Resolved? ==>
            promises[k].origin in answers && answers[promises[k].origin].kind.Accepted?)
      && (promises[k].Rejected? && promises[k].reason.Answered? ==>
            promises[k].reason.origin in answers && !answers[promises[k].reason.origin].kind.Accepted?)
  }

  function Waiting(requests: seq<Flight>): set<nat> { set i | 0 <= i < |requests| :: requests[i].call }

  function Coming(coming: seq<Return>): set<nat> { set i | 0 <= i < |coming| :: coming[i].call }

  // The same situation as Node's half sees it.
  function Seen(d: Duplex): C.System
  {
    C.System(d.chan, Waiting(d.requests),
             map k | k in Coming(d.coming) && k in d.answers :: VerdictOf(d.answers[k]))
  }

  // The event that Node's half sees.
  function SeenEvent(d: Duplex, e: Event): C.Event
    requires Enabled(d, e)
  {
    match e
    case Call(sendable, _, _) => C.Call(sendable)
    case Work(env) =>
      var f := d.requests[0];
      var sent := Sent(d.worker, f.msg, env);
      if sent == [] then C.Lose(f.call) else C.Answer(f.call, VerdictOf(sent[0]))
    case Deliver => C.Deliver(d.coming[0].call)
    case Expire(k) => C.Expire(k)
    case Shut => C.Shut
  }

  ghost predicate Inv(d: Duplex)
  {
    && RequestsOk(d.requests, d.chan.calls, d.answers) && ReturnsOk(d.coming, d.chan.calls, d.answers)
    && Truthful(d.chan.promises, d.answers) && C.Inv(Seen(d))
  }

  lemma WaitingTail(requests: seq<Flight>, calls: nat, answers: map<nat, W.Reply>)
    requires requests != [] && RequestsOk(requests, calls, answers)
    ensures Waiting(requests[1..]) == Waiting(requests) - {requests[0].call}
    ensures requests[0].call in Waiting(requests)
  {
    var rest := requests[1..];
    assert forall i :: 0 < i < |requests| ==> requests[i] == rest[i - 1];
    assert forall i :: 0 <= i < |rest| ==> rest[i] == requests[i + 1];
  }

  lemma WaitingSnoc(requests: seq<Flight>, f: Flight)
    ensures Waiting(requests + [f]) == Waiting(requests) + {f.call}
  {
    var more := requests + [f];
    assert more[|requests|] == f && forall i :: 0 <= i < |requests| ==> more[i] == requests[i];
  }

  lemma ComingTail(coming: seq<Return>, calls: nat, answers: map<nat, W.Reply>)
    requires coming != [] && ReturnsOk(coming, calls, answers)
    ensures Coming(coming[1..]) == Coming(coming) - {coming[0].call}
    ensures coming[0].call in Coming(coming)
  {
    var rest := coming[1..];
    assert forall i :: 0 < i < |coming| ==> coming[i] == rest[i - 1];
    assert forall i :: 0 <= i < |rest| ==> rest[i] == coming[i + 1];
  }

  lemma ComingSnoc(coming: seq<Return>, r: Return)
    ensures Coming(coming + [r]) == Coming(coming) + {r.call}
  {
    var more := coming + [r];
    assert more[|coming|] == r && forall i :: 0 <= i < |coming| ==> more[i] == coming[i];
  }

  // The id that comes back is the one that was drawn.
  lemma IdComesBack(w: W.State, f: Flight, env: W.Env)
    requires f.msg.Json? && f.msg.id == Some(C.IdOf(f.call))
    ensures forall i :: 0 <= i < |Sent(w, f.msg, env)| ==> Sent(w, f.msg, env)[i].id == C.IdOf(f.call)
  {
    hide Sent, C.IdOf;
    W.IdSurvives(C.IdOf(f.call));
  }

  // ---- Each step is a step of Node's half ----

  lemma WorkRefines(d: Duplex, env: W.Env)
    requires Inv(d) && d.requests != []
    ensures var e := Work(env);
            && C.Enabled(Seen(d), SeenEvent(d, e)) && Seen(Step(d, e)) == C.Step(Seen(d), SeenEvent(d, e))
  {
    hide C.Sound, C.DistinctIds, C.Honest, C.Tracked, Truthful, Sent, Waiting, Coming;
    var f := d.requests[0];
    var sent := Sent(d.worker, f.msg, env);
    WaitingTail(d.requests, d.chan.calls, d.answers);
    if sent != [] {
      ComingSnoc(d.coming, Return(f.call, sent[0]));
      assert Seen(Step(d, Work(env))).replies == Seen(d).replies[f.call := VerdictOf(sent[0])];
    }
  }

  lemma DeliverRefines(d: Duplex)
    requires Inv(d) && d.coming != []
    ensures C.Enabled(Seen(d), SeenEvent(d, Deliver))
    ensures Seen(Step(d, Deliver)) == C.Step(Seen(d), SeenEvent(d, Deliver))
  {
    hide C.Sound, C.DistinctIds, C.Honest, C.Tracked, Truthful, Waiting, Coming, C.Process, C.IdOf;
    ComingTail(d.coming, d.chan.calls, d.answers);
    var r := d.coming[0];
    assert Seen(d).replies[r.call] == VerdictOf(r.reply);
  }

  lemma CallRefines(d: Duplex, e: Event)
    requires Inv(d) && e.Call?
    ensures Seen(Step(d, e)) == C.Step(Seen(d), SeenEvent(d, e))
  {
    hide C.Sound, C.DistinctIds, C.Honest, C.Tracked, Truthful, Waiting, Coming, C.Request, C.IdOf;
    var msg := W.Json(Some(C.IdOf(d.chan.calls)), Some(e.name), e.routerId);
    WaitingSnoc(d.requests, Flight(d.chan.calls, msg));
  }

  // ---- Each step keeps what travels in order ----

  lemma WorkKeeps(d: Duplex, env: W.Env)
    requires Inv(d) && d.requests != []
    ensures var t := Step(d, Work(env));
            && RequestsOk(t.requests, t.chan.calls, t.answers) && ReturnsOk(t.coming, t.chan.calls, t.answers)
            && Truthful(t.chan.promises, t.answers)
  {
    hide Sent, C.Inv, C.IdOf, W.Handle;
    var f := d.requests[0];
    IdComesBack(d.worker, f, env);
  }

  lemma DeliverKeeps(d: Duplex)
    requires Inv(d) && d.coming != []
    ensures var t := Step(d, Deliver);
            && RequestsOk(t.requests, t.chan.calls, t.answers) && ReturnsOk(t.coming, t.chan.calls, t.answers)
            && Truthful(t.chan.promises, t.answers)
  {
    hide C.DistinctIds, C.Honest, C.Tracked, C.IdOf, RequestsOk;
  }

  lemma CallOrder(d: Duplex, e: Event)
    requires Inv(d) && e.Call?
    ensures var t := Step(d, e);
            && RequestsOk(t.requests, t.chan.calls, t.answers) && ReturnsOk(t.coming, t.chan.calls, t.answers)
            && Truthful(t.chan.promises, t.answers)
  {
    hide C.Inv, C.IdOf, C.NextId;
  }

  lemma TimerKeeps(d: Duplex, e: Event)
    requires Inv(d) && Enabled(d, e) && (e.Expire? || e.Shut?)
    ensures var t := Step(d, e);
            && RequestsOk(t.requests, t.chan.calls, t.answers) && ReturnsOk(t.coming, t.chan.calls, t.answers)
            && Truthful(t.chan.promises, t.answers)
  {
    hide C.DistinctIds, C.Honest, C.Tracked, C.IdOf, RequestsOk, ReturnsOk;
  }

  lemma StepKeeps(d: Duplex, e: Event)
    requires Inv(d) && Enabled(d, e) && (e.Call? ==> C.Young(Seen(d)))
    ensures Inv(Step(d, e)) && C.Settled(d.chan.promises, Step(d, e).chan.promises)
  {
    hide C.Inv, RequestsOk, ReturnsOk, Truthful, C.Step, C.Settled, Step, SeenEvent, C.Young;
    StepRefines(d, e);
    C.StepKeeps(Seen(d), SeenEvent(d, e));
    C.StepSettles(Seen(d), SeenEvent(d, e));
    match e
    case Call(_, _, _) => CallOrder(d, e);
    case Work(env) => WorkKeeps(d, env);
    case Deliver => DeliverKeeps(d);
    case Expire(_) => TimerKeeps(d, e);
    case Shut => TimerKeeps(d, e);
  }

  // What Node's half assumes of the worker holds: each request is answered at most once, with its id.
  lemma StepRefines(d: Duplex, e: Event)
    requires Inv(d) && Enabled(d, e)
    ensures C.Sound(d.chan) && C.Enabled(Seen(d), SeenEvent(d, e))
    ensures Seen(Step(d, e)) == C.Step(Seen(d), SeenEvent(d, e)) && Seen(Step(d, e)).chan == Step(d, e).chan
    ensures SeenEvent(d, e).Call? <==> e.Call?
  {
    hide C.Sound, C.DistinctIds, C.Honest, C.Tracked, RequestsOk, ReturnsOk, Truthful, Sent;
    match e
    case Call(_, _, _) => CallRefines(d, e);
    case Work(env) => WorkRefines(d, env);
    case Deliver => DeliverRefines(d);
    case Expire(_) =>
    case Shut =>
  }

  // ---- Whole runs ----

  ghost predicate Possible(d: Duplex, events: seq<Event>)
    requires Inv(d)
    decreases |events|
  {
    events == []
    || (&& Enabled(d, events[0]) && (events[0].Call? ==> C.Young(Seen(d)))
        && (StepKeeps(d, events[0]); Possible(Step(d, events[0]), events[1..])))
  }

  ghost function Run(d: Duplex, events: seq<Event>): Duplex
    requires Inv(d) && Possible(d, events)
    decreases |events|
  {
    if events == [] then d else (StepKeeps(d, events[0]); Run(Step(d, events[0]), events[1..]))
  }

  // A promise that a reply settled was settled as the worker answered that very request.
  predicate Faithful(d: Duplex)
  {
    forall k :: k in d.chan.promises ==>
      && (d.chan.promises[k].Resolved? ==> k in d.answers && d.answers[k].kind.Accepted?)
      && (d.chan.promises[k].Rejected? && d.chan.promises[k].reason.Answered? ==>
            k in d.answers && !d.answers[k].kind.Accepted?)
  }

  // From end to end, in every interleaving in which nothing in flight outlives a cycle of ids: a promise
  // settles at most once, is resolved only if the worker accepted its own request and rejected by a reply
  // only if the worker refused it, and once the channel is closed every promise is settled.
  lemma {:induction false} RunEndToEnd(d: Duplex, events: seq<Event>)
    requires Inv(d) && Possible(d, events)
    ensures var t := Run(d, events);
            && Inv(t) && Faithful(t) && C.Settled(d.chan.promises, t.chan.promises)
            && (t.chan.closed ==> forall k :: 0 <= k < t.chan.calls ==>
                  k in t.chan.promises && !t.chan.promises[k].Pending?)
    decreases |events|
  {
    hide Step, Enabled, C.Young, RequestsOk, ReturnsOk, Truthful, C.DistinctIds, C.Honest, C.Tracked, Faithful;
    if events == [] {
      InvFaithful(d);
    } else {
      var s := Step(d, events[0]);
      StepKeeps(d, events[0]);
      RunEndToEnd(s, events[1..]);
      SettledTrans(d.chan.promises, s.chan.promises, Run(s, events[1..]).chan.promises);
    }
  }

  lemma SettledTrans(p: map<nat, C.Promise>, q: map<nat, C.Promise>, r: map<nat, C.Promise>)
    requires C.Settled(p, q) && C.Settled(q, r)
    ensures C.Settled(p, r)
  {
  }

  lemma InvFaithful(d: Duplex)
    requires Inv(d)
    ensures Faithful(d)
    ensures d.chan.closed ==> forall k :: 0 <= k < d.chan.calls ==>
              k in d.chan.promises && !d.chan.promises[k].Pending?
  {
    hide C.DistinctIds, RequestsOk, ReturnsOk, C.IdOf;
  }

  lemma StartInv()
    ensures Inv(START) && forall k: nat :: C.Awaits(Seen(START), k)
  {
    C.StartInv();
    hide C.Inv;
    assert Seen(START) == C.START;
  }

  // ---- What decides a call ----

  // A run is the run of its first events, and then of the others.
  lemma {:induction false} RunSplit(d: Duplex, events: seq<Event>, i: nat)
    requires Inv(d) && Possible(d, events) && i <= |events|
    ensures Possible(d, events[..i])
    ensures var t := Run(d, events[..i]);
            Inv(t) && Possible(t, events[i..]) && Run(d, events) == Run(t, events[i..])
    decreases |events|
  {
    hide Step, Enabled, C.Young, RequestsOk, ReturnsOk, Truthful, C.DistinctIds, C.Honest, C.Tracked;
    if i == 0 {
      assert events[..0] == [] && events[0..] == events;
    } else {
      StepKeeps(d, events[0]);
      RunSplit(Step(d, events[0]), events[1..], i - 1);
      assert events[..i][0] == events[0] && events[..i][1..] == events[1..][..i - 1];
      assert events[i..] == events[1..][i - 1..];
    }
  }

  lemma {:induction false} AwaitsRun(d: Duplex, events: seq<Event>, k: nat)
    requires Inv(d) && Possible(d, events) && C.Awaits(Seen(d), k)
    requires forall e :: e in events ==> !e.Shut? && e != Expire(k)
    ensures C.Awaits(Seen(Run(d, events)), k)
    decreases |events|
  {
    hide Step, Enabled, C.Young, RequestsOk, ReturnsOk, Truthful, C.Inv, C.Awaits, C.Step, C.Enabled, Seen, SeenEvent;
    if events != [] {
      var e := events[0];
      assert e in events;
      StepKeeps(d, e);
      StepRefines(d, e);
      SeenSame(d, e, k);
      C.AwaitsStep(Seen(d), SeenEvent(d, e), k);
      AwaitsRun(Step(d, e), events[1..], k);
    }
  }

  lemma SeenSame(d: Duplex, e: Event, k: nat)
    requires Enabled(d, e)
    ensures (SeenEvent(d, e).Shut? <==> e.Shut?) && (SeenEvent(d, e) == C.Expire(k) <==> e == Expire(k))
  {
  }

  lemma AnswerStays(d: Duplex, e: Event, k: nat)
    requires Inv(d) && Enabled(d, e) && k in d.answers
    ensures k in Step(d, e).answers && Step(d, e).answers[k] == d.answers[k]
  {
    hide ReturnsOk, Truthful, C.DistinctIds, C.Honest, C.Tracked, Sent, W.Handle, C.Process, C.Timeout, C.Request;
  }

  // What the worker answered stays answered.
  lemma {:induction false} AnswersStay(d: Duplex, events: seq<Event>, k: nat)
    requires Inv(d) && Possible(d, events) && k in d.answers
    ensures k in Run(d, events).answers && Run(d, events).answers[k] == d.answers[k]
    decreases |events|
  {
    hide Step, Enabled, C.Young, RequestsOk, ReturnsOk, Truthful, C.DistinctIds, C.Honest, C.Tracked;
    if events != [] {
      StepKeeps(d, events[0]);
      AnswerStays(d, events[0], k);
      AnswersStay(Step(d, events[0]), events[1..], k);
    }
  }

  lemma DeliverDecides(d: Duplex, events: seq<Event>)
    requires Inv(d) && Possible(d, events) && events != [] && events[0].Deliver? && d.coming != []
    requires C.Awaits(Seen(d), d.coming[0].call)
    ensures var t, k := Run(d, events), d.coming[0].call;
            && k in t.answers && k in t.chan.promises
            && t.chan.promises[k]
               == if t.answers[k].kind.Accepted? then C.Resolved(k) else C.Rejected(C.Answered(k))
  {
    hide C.Sound, C.DistinctIds, C.Honest, C.Tracked, RequestsOk, Truthful, C.Process, C.Step, C.IdOf, Coming, Waiting;
    var e, k := events[0], d.coming[0].call;
    var t := Step(d, e);
    assert k in Seen(d).replies && Seen(d).replies[k] == VerdictOf(d.answers[k]) by {
      ComingTail(d.coming, d.chan.calls, d.answers);
    }
    StepKeeps(d, e);
    StepRefines(d, e);
    C.DeliverSettles(Seen(d), k);
    AnswerStays(d, e, k);
    AnswersStay(t, events[1..], k);
    RunEndToEnd(t, events[1..]);
  }

  // Over every run: the reply to a call, delivered before its timeout and before close(), decides its
  // promise for good, which is resolved if and only if the worker accepted the request.
  lemma ReplyDecides(d: Duplex, events: seq<Event>, i: nat, k: nat)
    requires Inv(d) && C.Awaits(Seen(d), k)
    requires Possible(d, events) && i < |events| && events[i].Deliver?
    requires Possible(d, events[..i]) && Run(d, events[..i]).coming != []
    requires Run(d, events[..i]).coming[0].call == k
    requires forall j :: 0 <= j < i ==> !events[j].Shut? && events[j] != Expire(k)
    ensures var t := Run(d, events);
            && k in t.answers && k in t.chan.promises
            && t.chan.promises[k]
               == if t.answers[k].kind.Accepted? then C.Resolved(k) else C.Rejected(C.Answered(k))
  {
    hide Inv, Step, Run, Possible, Enabled, C.Awaits;
    RunSplit(d, events, i);
    AwaitsRun(d, events[..i], k);
    DeliverDecides(Run(d, events[..i]), events[i..]);
  }

  // So does a timeout, and close() for every promise that is pending then.
  lemma TimerDecides(d: Duplex, events: seq<Event>, i: nat)
    requires Inv(d) && Possible(d, events) && i < |events| && Possible(d, events[..i])
    ensures var before, t := Run(d, events[..i]).chan.promises, Run(d, events).chan.promises;
            && (events[i].Expire? ==> events[i].k in t && t[events[i].k] == C.Rejected(C.TimedOut))
            && (events[i].Shut? ==> forall j :: j in before && before[j].Pending? ==>
                  j in t && t[j] == C.Rejected(C.ChannelClosed))
  {
    hide C.Sound, C.DistinctIds, C.Honest, C.Tracked, RequestsOk, ReturnsOk, Truthful, C.Step, Step, C.IdOf, C.Young;
    RunSplit(d, events, i);
    var s, e := Run(d, events[..i]), events[i];
    assert events[i..][0] == e;
    if e.Expire? || e.Shut? {
      StepKeeps(s, e);
      StepRefines(s, e);
      if e.Expire? { C.ExpireSettles(Seen(s), e.k); } else { C.ShutSettles(Seen(s)); }
      RunEndToEnd(Step(s, e), events[i..][1..]);
    }
  }
}
