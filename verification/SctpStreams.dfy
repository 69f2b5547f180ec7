/**
 SCTP stream ids of a transport's data consumers (mediasouptestcase/src/Transport.ts and
 DataConsumer.ts): a table of marks, a rotating cursor, and release when a data consumer closes.
 */
module SctpStreams {
  import opened Options
  import opened Cyclic

  // mis: sctpParameters.MIS, if it is a number. marks: _sctpStreamIds, once allocated.
  datatype Slots = Slots(mis: Option<nat>, marks: Option<seq<bool>>, cursor: nat)

  // The first free slot at or after d steps from the cursor.
  function Probe(marks: seq<bool>, cursor: nat, d: nat): (r: Option<nat>)
    requires d <= |marks|
    ensures r.Some? ==> d <= r.value < |marks| && !marks[At(cursor, r.value, |marks|)]
                        && forall e :: d <= e < r.value ==> marks[At(cursor, e, |marks|)]
    ensures r.None? ==> forall e :: d <= e < |marks| ==> marks[At(cursor, e, |marks|)]
    decreases |marks| - d
  {
    if d == |marks| then None
    else if !marks[At(cursor, d, |marks|)] then Some(d)
    else Probe(marks, cursor, d + 1)
  }

  // The table, allocated on first use.
  function Prepared(t: Slots): Slots
  {
    if t.mis.Some? && t.marks.None? then t.(marks := Some(seq(t.mis.value, i => false))) else t
  }

  // _getNextSctpStreamId followed by the marking of the slot it returns.
  function Allocate(t: Slots): (Slots, Result<nat>)
  {
    var u := Prepared(t);
    if t.mis.None? then (t, Err(TypeError))
    else match Probe(u.marks.value, u.cursor, 0)
         case None => (u, Err(Exhausted))
         case Some(d) =>
           var s := At(u.cursor, d, |u.marks.value|);
           (u.(marks := Some(u.marks.value[s := true]), cursor := s + 1), Ok(s))
  }

  function Release(t: Slots, s: nat): Slots
  {
    if t.marks.Some? && s < |t.marks.value| then t.(marks := Some(t.marks.value[s := false])) else t
  }

  // Allocation takes the first free slot in cyclic order from the cursor, and fails only when there
  // is none, or no number of streams.
  lemma AllocateExact(t: Slots)
    ensures t.mis.None? ==> Allocate(t) == (t, Err(TypeError))
    ensures t.mis.Some? ==>
            var marks := Prepared(t).marks.value;
            match Allocate(t).1
            case Err(e) => e == Exhausted && forall s :: 0 <= s < |marks| ==> marks[s]
            case Ok(s) =>
              s < |marks| && !marks[s] && Allocate(t).0 == t.(marks := Some(marks[s := true]), cursor := s + 1)
              && exists d :: 0 <= d < |marks| && At(t.cursor, d, |marks|) == s
                   && forall e :: 0 <= e < d ==> marks[At(t.cursor, e, |marks|)]
  {
    if t.mis.Some? && Allocate(t).1.Err? {
      var marks := Prepared(t).marks.value;
      forall s | 0 <= s < |marks| ensures marks[s] {
        var d := Reach(t.cursor, s, |marks|);
      }
    }
  }

  // What the rotating cursor is for: a slot that is released right after it was taken is taken
  // again only when every other slot is marked.
  lemma ReleasedIsLast(t: Slots)
    requires Allocate(t).1.Ok?
    ensures var (u, r) := Allocate(t);
            var v := Release(u, r.value);
            v.marks.Some?
            && (Allocate(v).1 == Ok(r.value) <==>
                  forall s :: 0 <= s < |v.marks.value| && s != r.value ==> v.marks.value[s])
  {
    hide Probe, At;
    var (u, r) := Allocate(t);
    FoundLast(Release(u, r.value).marks.value, r.value);
  }

  // From the slot after a free one, that slot is the last to be found.
  lemma FoundLast(marks: seq<bool>, slot: nat)
    requires slot < |marks| && !marks[slot]
    ensures var d := Probe(marks, slot + 1, 0);
            && d.Some?
            && (At(slot + 1, d.value, |marks|) == slot <==>
                  forall s :: 0 <= s < |marks| && s != slot ==> marks[s])
  {
    hide At, Probe;
    var r := Probe(marks, slot + 1, 0);
    if r.None? { var back := Reach(slot + 1, slot, |marks|); }
    if r.Some? && At(slot + 1, r.value, |marks|) == slot {
      LastStep(slot, r.value, |marks|);
      forall s | 0 <= s < |marks| && s != slot ensures marks[s] {
        MarkedBefore(marks, slot + 1, r.value, s);
      }
    }
  }

  // All slots are marked but the one a whole turn away.
  lemma MarkedBefore(marks: seq<bool>, cursor: nat, d: nat, s: nat)
    requires s < |marks| && d == |marks| - 1 && At(cursor, d, |marks|) != s
    requires forall e :: 0 <= e < d ==> marks[At(cursor, e, |marks|)]
    ensures marks[s]
  {
    hide At;
    var e := Reach(cursor, s, |marks|);
  }

  // The guard that makes a data consumer release its slot once.
  class DataConsumer {
    const streamId: nat
    var closed: bool

    constructor (streamId: nat)
      ensures this.streamId == streamId && !closed
    {
      this.streamId := streamId;
      closed := false;
    }

    // close(): whether "@close" is emitted.
    method Close() returns (emitted: bool)
      modifies this
      ensures closed && emitted == !old(closed)
    {
      if closed { return false; }
      closed := true;
      return true;
    }

    // The "dataproducerclose" notification: whether "@dataproducerclose" is emitted.
    method DataProducerClosed() returns (emitted: bool)
      modifies this
      ensures closed && emitted == !old(closed)
    {
      if closed { return false; }
      closed := true;
      return true;
    }

    // The transport closes: nothing is emitted to it.
    method TransportClosed()
      modifies this
      ensures closed
    {
      if closed { return; }
      closed := true;
    }
  }

  class Transport {
    const mis: Option<nat>
    var sctpStreamIds: array?<bool>
    var nextSctpStreamId: nat

    ghost function Abs(): Slots
      reads this, sctpStreamIds
    {
      Slots(mis, if sctpStreamIds == null then None else Some(sctpStreamIds[..]), nextSctpStreamId)
    }

    constructor (mis: Option<nat>)
      ensures Abs() == Slots(mis, None, 0)
    {
      this.mis := mis;
      sctpStreamIds, nextSctpStreamId := null, 0;
    }

    // The part of consumeData that draws and marks a stream id.
    method TakeStreamId() returns (r: Result<nat>)
      modifies this, sctpStreamIds
      ensures sctpStreamIds == old(sctpStreamIds) || fresh(sctpStreamIds)
      ensures (Abs(), r) == Allocate(old(Abs()))
    {
      r := GetNextSctpStreamId();
      if r.Ok? {
        sctpStreamIds[r.value] := true;
      }
    }

    method GetNextSctpStreamId() returns (r: Result<nat>)
      modifies this
      ensures sctpStreamIds == old(sctpStreamIds) || fresh(sctpStreamIds)
      ensures r.Ok? ==> sctpStreamIds != null && r.value < sctpStreamIds.Length
      ensures var (t, s) := Allocate(old(Abs()));
              && r == s && nextSctpStreamId == t.cursor
              && Abs().marks == (if r.Ok? then Prepared(old(Abs())).marks else t.marks)
    {
      if mis.None? { return Err(TypeError); }
      if sctpStreamIds == null {
        sctpStreamIds := new bool[mis.value](i => false);
        assert sctpStreamIds[..] == seq(mis.value, i => false);
      }
      ghost var marks := sctpStreamIds[..];
      for idx := 0 to sctpStreamIds.Length
        invariant sctpStreamIds == old(sctpStreamIds) || fresh(sctpStreamIds)
        invariant sctpStreamIds != null && sctpStreamIds[..] == marks && nextSctpStreamId == old(nextSctpStreamId)
        invariant idx <= |marks| && Probe(marks, nextSctpStreamId, idx) == Probe(marks, nextSctpStreamId, 0)
      {
        var sctpStreamId := At(nextSctpStreamId, idx, sctpStreamIds.Length);
        if !sctpStreamIds[sctpStreamId] {
          nextSctpStreamId := sctpStreamId + 1;
          return Ok(sctpStreamId);
        }
      }
      return Err(Exhausted);
    }

    // The handlers of "@close" and "@dataproducerclose".
    method OnConsumerClosed(streamId: nat)
      modifies sctpStreamIds
      ensures Abs() == Release(old(Abs()), streamId)
    {
      if sctpStreamIds != null && streamId < sctpStreamIds.Length {
        sctpStreamIds[streamId] := false;
      }
    }

    // The application closes a data consumer; its "@close" reaches the transport at most once.
    method CloseDataConsumer(c: DataConsumer)
      modifies c, sctpStreamIds
      ensures c.closed
      ensures Abs() == if old(c.closed) then old(Abs()) else Release(old(Abs()), c.streamId)
    {
      var emitted := c.Close();
      if emitted { OnConsumerClosed(c.streamId); }
    }

    // The worker reports that the data producer closed.
    method CloseByDataProducer(c: DataConsumer)
      modifies c, sctpStreamIds
      ensures c.closed
      ensures Abs() == if old(c.closed) then old(Abs()) else Release(old(Abs()), c.streamId)
    {
      var emitted := c.DataProducerClosed();
      if emitted { OnConsumerClosed(c.streamId); }
    }
  }

  // ---- Whole runs ----

  // held: the slot of each consumeData call that is in flight or whose data consumer is open.
  // active: those with a data consumer. leaked: slots that stay marked without a holder, after a
  // failed consumeData or the closing of the transport.
  datatype Net = Net(slots: Slots, calls: nat, held: map<nat, nat>, active: set<nat>, leaked: set<nat>)

  datatype Event =
    | Begin            // consumeData up to its request to the worker
    | Succeed(k: nat)  // the request is accepted and the data consumer created
    | Fail(k: nat)     // the request is rejected
    | CloseConsumer(k: nat)
    | DataProducerClose(k: nat)
    | TransportClose

  predicate Enabled(n: Net, e: Event)
  {
    match e
    case Succeed(k) => k in n.held && k !in n.active
    case Fail(k) => k in n.held && k !in n.active
    case _ => true
  }

  // Only a data consumer that is open still holds its slot: a second close finds it gone.
  function CloseIt(n: Net, k: nat): Net
  {
    if k in n.active && k in n.held then
      n.(slots := Release(n.slots, n.held[k]), held := n.held - {k}, active := n.active - {k})
    else n
  }

  function Step(n: Net, e: Event): Net
    requires Enabled(n, e)
  {
    match e
    case Begin =>
      var (slots, r) := Allocate(n.slots);
      if r.Err? then n.(slots := slots)
      else n.(slots := slots, calls := n.calls + 1, held := n.held[n.calls := r.value])
    case Succeed(k) => n.(active := n.active + {k})
    case Fail(k) => n.(held := n.held - {k}, leaked := n.leaked + {n.held[k]})
    case CloseConsumer(k) => CloseIt(n, k)
    case DataProducerClose(k) => CloseIt(n, k)
    case TransportClose =>
      n.(held := n.held - n.active, active := {},
         leaked := n.leaked + set k | k in n.active && k in n.held :: n.held[k])
  }

  predicate Held(n: Net, s: nat) { exists k :: k in n.held && n.held[k] == s }

  // Holders have distinct slots below MIS; the marked slots are exactly those held or leaked, and
  // none is both.
  ghost predicate Inv(n: Net)
  {
    && (forall k :: k in n.held ==> k < n.calls) && n.active <= n.held.Keys
    && (forall j, k :: j in n.held && k in n.held && n.held[j] == n.held[k] ==> j == k)
    && (forall s :: s in n.leaked ==> !Held(n, s))
    && match n.slots.marks
       case None => n.held == map[] && n.leaked == {}
       case Some(marks) =>
         && n.slots.mis == Some(|marks|)
         && (forall k :: k in n.held ==> n.held[k] < |marks|)
         && (forall s :: s in n.leaked ==> s < |marks|)
         && (forall s :: 0 <= s < |marks| ==> (marks[s] <==> Held(n, s) || s in n.leaked))
  }

  lemma PreparedKeeps(n: Net)
    requires Inv(n)
    ensures Inv(n.(slots := Prepared(n.slots)))
  {
    var t := n.(slots := Prepared(n.slots));
    assert forall s :: Held(t, s) <==> Held(n, s);
    if n.slots.mis.Some? && n.slots.marks.None? {
      assert forall s :: !Held(t, s);
    }
  }

  // A call takes a slot that was free.
  lemma TakeKeeps(n: Net, s: nat, cursor: nat)
    requires Inv(n) && n.slots.marks.Some? && s < |n.slots.marks.value| && !n.slots.marks.value[s]
    ensures Inv(n.(slots := n.slots.(marks := Some(n.slots.marks.value[s := true]), cursor := cursor),
                   calls := n.calls + 1, held := n.held[n.calls := s]))
  {
    var m := n.(calls := n.calls + 1, held := n.held[n.calls := s]);
    assert !Held(n, s);
    forall x | Held(n, x) ensures Held(m, x) {
      var k :| k in n.held && n.held[k] == x;
      assert k in m.held && m.held[k] == x;
    }
    assert m.held[n.calls] == s;
    var t := m.(slots := n.slots.(marks := Some(n.slots.marks.value[s := true]), cursor := cursor));
    assert forall x :: Held(t, x) <==> Held(n, x) || x == s;
    hide Held;
  }

  lemma BeginKeeps(n: Net)
    requires Inv(n)
    ensures Inv(Step(n, Begin))
  {
    PreparedKeeps(n);
    var t := n.(slots := Prepared(n.slots));
    var (slots, r) := Allocate(n.slots);
    if r.Ok? {
      TakeKeeps(t, r.value, slots.cursor);
      hide Inv;
    }
  }

  // Dropping a holder from the map: the other slots stay held.
  lemma DropHolder(n: Net, k: nat, m: Net)
    requires Inv(n) && k in n.held && m.held == n.held - {k}
    ensures forall s :: Held(m, s) <==> Held(n, s) && s != n.held[k]
  {
    forall s | Held(n, s) && s != n.held[k] ensures Held(m, s) {
      var j :| j in n.held && n.held[j] == s;
      assert j in m.held && m.held[j] == s;
    }
  }

  lemma FailKeeps(n: Net, k: nat)
    requires Inv(n) && Enabled(n, Fail(k))
    ensures Inv(Step(n, Fail(k)))
  {
    DropHolder(n, k, Step(n, Fail(k)));
    assert Held(n, n.held[k]);
    hide Held;
  }

  lemma CloseKeeps(n: Net, k: nat)
    requires Inv(n)
    ensures Inv(CloseIt(n, k))
  {
    if k in n.active {
      DropHolder(n, k, CloseIt(n, k));
      assert Held(n, n.held[k]);
      hide Held;
    }
  }

  lemma TransportCloseKeeps(n: Net)
    requires Inv(n)
    ensures Inv(Step(n, TransportClose))
  {
    var m := Step(n, TransportClose);
    forall s | Held(n, s) ensures Held(m, s) || s in m.leaked {
      var k :| k in n.held && n.held[k] == s;
      if k !in n.active { assert k in m.held && m.held[k] == s; }
    }
    forall s | s in m.leaked ensures !Held(m, s) && (s in n.leaked || Held(n, s)) {
    }
    forall s | Held(m, s) ensures Held(n, s) {
      var k :| k in m.held && m.held[k] == s;
      assert k in n.held && n.held[k] == s;
    }
  }

  lemma StepKeeps(n: Net, e: Event)
    requires Inv(n) && Enabled(n, e)
    ensures Inv(Step(n, e))
  {
    match e
    case Begin => BeginKeeps(n);
    case Succeed(k) => assert forall s :: Held(Step(n, e), s) <==> Held(n, s);
    case Fail(k) => FailKeeps(n, k);
    case CloseConsumer(k) => CloseKeeps(n, k);
    case DataProducerClose(k) => CloseKeeps(n, k);
    case TransportClose => TransportCloseKeeps(n);
  }

  // No step but its own end takes a slot away from a holder, or moves it to another slot.
  lemma HoldersKeepTheirSlots(n: Net, e: Event, k: nat)
    requires Inv(n) && Enabled(n, e) && k in n.held
    requires e != Fail(k) && e != CloseConsumer(k) && e != DataProducerClose(k)
    requires e.TransportClose? ==> k !in n.active
    ensures var m := Step(n, e);
            k in m.held && m.held[k] == n.held[k] && m.slots.marks.Some? && m.slots.marks.value[n.held[k]]
  {
    StepKeeps(n, e);
    var m := Step(n, e);
    assert k in m.held && m.held[k] == n.held[k];
    assert Held(m, m.held[k]);
  }

  ghost predicate Possible(n: Net, events: seq<Event>)
    decreases |events|
  {
    events == [] || (Enabled(n, events[0]) && Possible(Step(n, events[0]), events[1..]))
  }

  ghost function Run(n: Net, events: seq<Event>): Net
    requires Possible(n, events)
    decreases |events|
  {
    if events == [] then n else Run(Step(n, events[0]), events[1..])
  }

  // In every run, whatever fails or closes: the slots of consumers that are open or in flight are
  // pairwise distinct and below MIS.
  lemma {:induction false} RunKeeps(n: Net, events: seq<Event>)
    requires Inv(n) && Possible(n, events)
    ensures var m := Run(n, events);
            && Inv(m)
            && (forall j, k :: j in m.held && k in m.held && j != k ==> m.held[j] != m.held[k])
            && (forall k :: k in m.held ==> m.slots.mis.Some? && m.held[k] < m.slots.mis.value)
    decreases |events|
  {
    hide Step;
    if events != [] {
      StepKeeps(n, events[0]);
      RunKeeps(Step(n, events[0]), events[1..]);
    }
  }

  lemma StartInv(mis: Option<nat>)
    ensures Inv(Net(Slots(mis, None, 0), 0, map[], {}, {}))
  {
  }

  // ---- What is free ----

  // Closing an open data consumer, from either side, frees its slot.
  lemma CloseFrees(n: Net, k: nat)
    requires Inv(n) && k in n.active
    ensures forall e :: e == CloseConsumer(k) || e == DataProducerClose(k) ==>
              var m := Step(n, e);
              && m.slots.marks.Some? && n.held[k] < |m.slots.marks.value| && !m.slots.marks.value[n.held[k]]
              && m.held == n.held - {k} && m.leaked == n.leaked
  {
  }

  // With nothing leaked, drawing an id fails if and only if every id is held.
  lemma ExhaustedIff(n: Net)
    requires Inv(n) && n.leaked == {} && n.slots.mis.Some?
    ensures Allocate(n.slots).1.Err? <==> forall s :: 0 <= s < n.slots.mis.value ==> Held(n, s)
  {
    hide Held;
    AllocateExact(n.slots);
    PreparedKeeps(n);
    assert forall s :: Held(n, s) <==> Held(n.(slots := Prepared(n.slots)), s) by { SameHolders(n); }
    hide Allocate;
  }

  lemma SameHolders(n: Net)
    ensures forall s :: Held(n, s) <==> Held(n.(slots := Prepared(n.slots)), s)
  {
  }

  // In every run in which no consumeData fails and the transport stays open: stream ids run out if and
  // only if every one is held by a data consumer that is open or in flight.
  lemma {:induction false} NothingLeaks(n: Net, events: seq<Event>)
    requires Inv(n) && Possible(n, events) && n.leaked == {} && n.slots.mis.Some?
    requires forall e :: e in events ==> !e.Fail? && !e.TransportClose?
    ensures var m := Run(n, events);
            && m.leaked == {} && m.slots.mis == n.slots.mis
            && (Allocate(m.slots).1.Err? <==> forall s :: 0 <= s < n.slots.mis.value ==> Held(m, s))
    decreases |events|
  {
    hide Held, Inv;
    if events == [] {
      ExhaustedIff(n);
    } else {
      assert events[0] in events;
      StepKeeps(n, events[0]);
      NothingLeaks(Step(n, events[0]), events[1..]);
    }
  }
}
