/**
 SCTP association ids and their registry (src/DepUsrSCTP.cpp), with one Worker.
 */
module UsrSctp {
  import opened Options
  import opened Cyclic

  // uintptr_t counts modulo this.
  const WRAP: nat := 0x1_0000_0000_0000_0000

  function Increment(x: nat): nat { if x + 1 == WRAP then 0 else x + 1 }

  // The number of usable ids: all but 0.
  const IDS: nat := WRAP - 1

  // The ids in the order in which the cursor passes them, starting again after the last.
  function IdAt(position: nat): (id: nat)
    ensures 1 <= id < WRAP
  {
    At(position, 0, IDS) + 1
  }

  // next is where the cursor stands after passing `position` ids; 0 stands for 1.
  predicate Stands(next: nat, position: nat)
  {
    next < WRAP && (if next == 0 then 1 else next) == IdAt(position)
  }

  lemma StandsNext(next: nat, position: nat)
    requires next == IdAt(position)
    ensures Stands(Increment(next), position + 1)
  {
    assert position + 1 == IDS * (position / IDS) + (position % IDS + 1);
    if position % IDS + 1 < IDS {
      ModShift(position / IDS, position % IDS + 1, IDS);
    } else {
      ModShift(position / IDS + 1, 0, IDS);
    }
  }

  // The first position from p on, before the limit, whose id is free; the limit if there is none.
  function FirstFree(used: set<nat>, p: nat, limit: nat): (r: nat)
    requires p <= limit
    ensures p <= r <= limit && (r < limit ==> IdAt(r) !in used)
    ensures forall e :: p <= e < r ==> IdAt(e) in used
    decreases limit - p
  {
    hide IdAt;
    if p == limit || IdAt(p) !in used then p else FirstFree(used, p + 1, limit)
  }

  // Where the cursor finds the next id: within a full cycle.
  function Draw(used: set<nat>, position: nat): nat { FirstFree(used, position, position + IDS) }

  predicate Free(used: set<nat>, id: nat) { 1 <= id < WRAP && id !in used }

  lemma DrawIsFree(used: set<nat>, position: nat, id: nat)
    requires Free(used, id)
    ensures Free(used, IdAt(Draw(used, position))) && position <= Draw(used, position) < position + IDS
  {
    var d := Reach(position, id - 1, IDS);
    assert IdAt(position + d) == id;
    hide IdAt;
  }

  // Each id leads to the association that has it, and each association has the id that leads to it.
  ghost predicate Inverse(associations: map<nat, nat>, idOf: map<nat, nat>)
  {
    && (forall a :: a in idOf ==> idOf[a] in associations && associations[idOf[a]] == a)
    && (forall id :: id in associations ==> associations[id] in idOf && idOf[associations[id]] == id)
  }

  class Registry {
    var nextSctpAssociationId: nat
    var numSctpAssociations: nat
    var associations: map<nat, nat>
    var checkerRunning: bool
    ghost var position: nat
    ghost var idOf: map<nat, nat> // the id of each association that is registered

    ghost predicate Valid()
      reads this
    {
      && Stands(nextSctpAssociationId, position)
      && numSctpAssociations == |associations|
      && (checkerRunning <==> associations != map[])
      && Inverse(associations, idOf)
    }

    constructor ()
      ensures Valid() && associations == map[] && idOf == map[] && position == 0
    {
      nextSctpAssociationId, numSctpAssociations, associations, checkerRunning := 0, 0, map[], false;
      position, idOf := 0, map[];
    }

    // The source assumes that the ids never run out.
    method GetNextSctpAssociationId() returns (id: nat)
      requires Valid() && exists i :: Free(associations.Keys, i)
      modifies this`nextSctpAssociationId, this`position
      ensures Valid() && Free(associations.Keys, id)
      ensures position == Draw(associations.Keys, old(position)) + 1 && id == IdAt(position - 1)
    {
      hide IdAt, Inverse;
      if nextSctpAssociationId == 0 {
        nextSctpAssociationId := Increment(nextSctpAssociationId);
      }
      ghost var used, limit := associations.Keys, position + IDS;
      ghost var free :| Free(used, free);
      DrawIsFree(used, position, free);
      while nextSctpAssociationId in associations
        invariant position < limit && nextSctpAssociationId == IdAt(position)
        invariant FirstFree(used, position, limit) == Draw(used, old(position)) < limit
        decreases limit - position
      {
        StandsNext(nextSctpAssociationId, position);
        nextSctpAssociationId := Increment(nextSctpAssociationId);
        if nextSctpAssociationId == 0 {
          nextSctpAssociationId := Increment(nextSctpAssociationId);
        }
        position := position + 1;
      }
      id := nextSctpAssociationId;
      StandsNext(id, position);
      nextSctpAssociationId := Increment(nextSctpAssociationId);
      position := position + 1;
    }

    // An association registers itself, once, at the end of its constructor. The assertion that its id
    // is new is a precondition.
    method RegisterSctpAssociation(id: nat, association: nat)
      requires Valid() && id !in associations && association !in idOf
      modifies this`associations, this`numSctpAssociations, this`checkerRunning, this`idOf
      ensures Valid() && associations == old(associations)[id := association] && idOf == old(idOf)[association := id]
    {
      associations := associations[id := association];
      idOf := idOf[association := id];
      numSctpAssociations := numSctpAssociations + 1;
      if numSctpAssociations == 1 { checkerRunning := true; }
    }

    // The assertions that the id is found and the count positive: the first is a precondition.
    method DeregisterSctpAssociation(id: nat, association: nat)
      requires Valid() && association in idOf && idOf[association] == id
      modifies this`associations, this`numSctpAssociations, this`checkerRunning, this`idOf
      ensures Valid() && associations == old(associations) - {id} && idOf == old(idOf) - {association}
      ensures old(numSctpAssociations) > 0
    {
      assert |associations - {id}| == |associations| - 1 by {
        assert associations.Keys == (associations - {id}).Keys + {id};
      }
      associations := associations - {id};
      idOf := idOf - {association};
      numSctpAssociations := numSctpAssociations - 1;
      if numSctpAssociations == 0 { checkerRunning := false; }
    }

    // What a callback gets back for the id it was given: the association that has this id, as long as
    // it is registered.
    method RetrieveSctpAssociation(id: nat) returns (r: Option<nat>)
      requires Valid()
      ensures forall a :: r == Some(a) <==> a in idOf && idOf[a] == id
    {
      r := if id in associations then Some(associations[id]) else None;
    }
  }

  // ---- Whole runs ----

  // used: the ids in the map. live: the id of each association that exists. created: how many have
  // been. position: as above. handed: the positions handed out, oldest first. aborted: whether an
  // assertion of the registry has failed.
  datatype State = State(
    used: set<nat>, live: map<nat, nat>, created: nat, position: nat, handed: seq<nat>, aborted: bool)

  const START := State({}, map[], 0, 0, [], false)

  // SctpAssociation's constructor draws an id and registers it, unless it throws in between; its
  // destructor deregisters.
  datatype Event = Create | CreateThrows | Destroy(a: nat)

  ghost predicate Enabled(s: State, e: Event)
  {
    match e
    case Destroy(a) => a in s.live
    case _ => exists id :: Free(s.used, id)
  }

  function Step(s: State, e: Event): State
  {
    match e
    case Destroy(a) =>
      if a !in s.live then s
      else s.(used := s.used - {s.live[a]}, live := s.live - {a}, aborted := s.aborted || s.live[a] !in s.used)
    case Create =>
      var p := Draw(s.used, s.position);
      State(s.used + {IdAt(p)}, s.live[s.created := IdAt(p)], s.created + 1, p + 1, s.handed + [p],
            s.aborted || IdAt(p) in s.used)
    case CreateThrows =>
      var p := Draw(s.used, s.position);
      s.(position := p + 1, handed := s.handed + [p])
  }

  ghost predicate Possible(s: State, events: seq<Event>)
    decreases |events|
  {
    events == [] || (Enabled(s, events[0]) && Possible(Step(s, events[0]), events[1..]))
  }

  function Run(s: State, events: seq<Event>): State
    decreases |events|
  {
    if events == [] then s else Run(Step(s, events[0]), events[1..])
  }

  lemma SameId(p: nat, q: nat)
    requires p < q && IdAt(p) == IdAt(q)
    ensures q - p >= IDS
  {
    assert q - p == IDS * (q / IDS - p / IDS);
    Multiple(IDS, q / IDS - p / IDS);
  }

  predicate Increasing(s: State)
  {
    && (forall i, j :: 0 <= i < j < |s.handed| ==> s.handed[i] < s.handed[j])
    && (forall i :: 0 <= i < |s.handed| ==> s.handed[i] < s.position)
  }

  // No assertion has failed, and the live associations hold distinct ids, which are those in the map.
  ghost predicate Inv(s: State)
  {
    && !s.aborted
    && (forall a :: a in s.live ==> a < s.created)
    && (forall a, b :: a in s.live && b in s.live && s.live[a] == s.live[b] ==> a == b)
    && s.used == s.live.Values
  }

  lemma CreateKeeps(s: State)
    requires Inv(s) && Enabled(s, Create)
    ensures Inv(Step(s, Create))
  {
    hide IdAt, Draw;
    var id :| Free(s.used, id);
    DrawIsFree(s.used, s.position, id);
    var t := Step(s, Create);
    assert t.live[s.created] == IdAt(Draw(s.used, s.position));
    forall x | x in s.used ensures x in t.live.Values {
      var a :| a in s.live && s.live[a] == x;
      assert t.live[a] == x;
    }
  }

  lemma DestroyKeeps(s: State, a: nat)
    requires Inv(s) && a in s.live
    ensures Inv(Step(s, Destroy(a)))
  {
    var t := Step(s, Destroy(a));
    forall x | x in s.used && x != s.live[a] ensures x in t.live.Values {
      var b :| b in s.live && s.live[b] == x;
      assert t.live[b] == x;
    }
    forall x | x in t.live.Values ensures x in s.used && x != s.live[a] {
      var b :| b in t.live && t.live[b] == x;
      assert b in s.live && s.live[b] == x;
    }
  }

  // Over every run of creating, failing to create and destroying associations: registering never finds
  // its id taken, deregistering always finds it, and the ids of the associations that exist are
  // pairwise distinct and are exactly those in the map.
  lemma {:induction false} NeverAborts(s: State, events: seq<Event>)
    requires Inv(s) && Possible(s, events)
    ensures var t := Run(s, events);
            && Inv(t) && !t.aborted && t.used == t.live.Values
            && forall a, b :: a in t.live && b in t.live && a != b ==> t.live[a] != t.live[b]
    decreases |events|
  {
    hide Step;
    if events != [] {
      var e := events[0];
      match e {
        case Create => CreateKeeps(s);
        case CreateThrows => ThrowsKeeps(s);
        case Destroy(a) => DestroyKeeps(s, a);
      }
      NeverAborts(Step(s, e), events[1..]);
    }
  }

  lemma ThrowsKeeps(s: State)
    requires Inv(s)
    ensures Inv(Step(s, CreateThrows))
  {
  }

  lemma StartInv()
    ensures Inv(START) && Increasing(START)
  {
  }

  lemma {:induction false} RunIncreasing(s: State, events: seq<Event>)
    requires Increasing(s)
    ensures Increasing(Run(s, events))
    decreases |events|
  {
    hide IdAt, FirstFree;
    if events != [] { RunIncreasing(Step(s, events[0]), events[1..]); }
  }

  // Over every run: an id is handed out again only after the cursor has passed all the ids.
  lemma NoEarlyReuse(s: State, events: seq<Event>, i: nat, j: nat)
    requires Increasing(s)
    requires var h := Run(s, events).handed;
             i < j < |h| && IdAt(h[i]) == IdAt(h[j])
    ensures var h := Run(s, events).handed;
            h[j] - h[i] >= IDS
  {
    hide IdAt, Run;
    RunIncreasing(s, events);
    var h := Run(s, events).handed;
    SameId(h[i], h[j]);
  }
}
