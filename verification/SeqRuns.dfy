/**
 Whole runs of SeqManager: drops and inputs in any order, with the set of dropped numbers kept in any
 trees.
 */
module SeqRuns {
  import opened Options
  import opened Sequences
  import opened SeqSet
  import opened SeqManager

  // ---- Runs ----

  // balance: how the set arranges its elements after the operation.
  datatype Op = DropOp(x: int, balance: Shape) | InputOp(x: int, balance: Shape)

  // The numbers an operation may name: within HALF of the highest input and of what is remembered,
  // and not older than what has been forgotten.
  predicate Within(v: View, op: Op)
  {
    && -HALF <= op.x - v.top < HALF && v.floor <= op.x
    && match op
       case DropOp(x, _) => forall i :: 0 <= i < |v.live| ==> -HALF <= x - v.live[i] <= HALF
       case InputOp(x, _) => InWindow(v, x)
  }

  predicate Misleads(m: Manager, v: View, op: Op) { op.InputOp? && Misled(m.dropped, v.live, op.x) }

  function Placed(live: seq<int>, x: int): seq<int>
  {
    var i := CountBelow(live, x);
    if i < |live| && live[i] == x then live else live[..i] + [x] + live[i..]
  }

  function Next(v: View, op: Op): View
  {
    match op
    case DropOp(x, _) => if x > v.top then v.(all := v.all + {x}, live := Placed(v.live, x)) else v
    case InputOp(x, _) =>
      var w := Forgotten(v, x);
      if x in v.all then w else w.(top := if x > v.top then x else v.top)
  }

  function Perform(m: Manager, op: Op): (Manager, Option<U16>)
  {
    match op
    case DropOp(x, balance) => (Dropped(m, Wrap(x), balance), None)
    case InputOp(x, balance) => Input(m, Wrap(x), balance)
  }

  lemma PlacedSorted(live: seq<int>, x: int)
    requires Sorted(live)
    ensures Sorted(Placed(live, x)) && forall d :: d in Placed(live, x) <==> d in live || d == x
  {
    var i := CountBelow(live, x);
    hide CountBelow;
    SplitAt(live, i);
    if i == |live| || live[i] != x {
      assert forall j :: i <= j < |live| ==> live[j] > x;
      var placed := live[..i] + [x] + live[i..];
      assert forall j :: 0 <= j < |placed| ==>
               placed[j] == if j < i then live[j] else if j == i then x else live[j - 1];
    }
  }

  lemma NarrowSpan(live: seq<int>)
    requires Sorted(live)
    ensures Narrow(live) <==> forall d, e :: d in live && e in live ==> d - e <= HALF
  {
    assert forall d :: d in live ==> live[0] <= d <= live[|live| - 1];
    assert live != [] ==> live[0] in live && live[|live| - 1] in live;
  }

  lemma PlacedLists(live: seq<int>, all: set<int>, floor: int, x: int)
    requires Lists(live, all, floor) && Narrow(live) && x >= floor
    requires forall i :: 0 <= i < |live| ==> -HALF <= x - live[i] <= HALF
    ensures Lists(Placed(live, x), all + {x}, floor) && Narrow(Placed(live, x))
  {
    hide Placed, Narrow, Sorted;
    PlacedSorted(live, x);
    NarrowSpan(live);
    NarrowSpan(Placed(live, x));
  }

  lemma WrappedInsert(ds: seq<U16>, live: seq<int>, i: nat, x: int)
    requires Wrapped(ds, live) && i <= |ds|
    ensures |ds| == |live| && Wrapped(ds[..i] + [Wrap(x)] + ds[i..], live[..i] + [x] + live[i..])
  {
    hide Wrap;
  }

  lemma PlacedWrapped(t: Tree, live: seq<int>, x: int, balance: Shape)
    requires Sorted(live) && Wrapped(Elements(t), live)
    requires forall i :: 0 <= i < |live| ==> -HALF <= x - live[i] <= HALF
    ensures Wrapped(Elements(Inserted(t, Wrap(x), balance)), Placed(live, x))
  {
    hide Wrap, SeqLowerThan, SeqHigherThan, LowerBound, CountBelow, Elements, Wrapped;
    InputBound(t, live, x);
    var i := CountBelow(live, x);
    WrappedInsert(Elements(t), live, i, x);
    if i < |live| {
      WrappedAt(Elements(t), live, i);
      LowerExact(x, live[i]);
    }
  }

  lemma WrappedAt(ds: seq<U16>, live: seq<int>, i: nat)
    requires Wrapped(ds, live) && i < |live|
    ensures i < |ds| && ds[i] == Wrap(live[i])
  {
  }

  lemma BelowAdd(all: set<int>, x: int, y: int)
    requires y <= x
    ensures Below(all + {x}, y) == Below(all, y)
  {
  }

  lemma DropTracks(m: Manager, v: View, x: int, balance: Shape)
    requires Tracks(m, v) && Within(v, DropOp(x, balance))
    ensures Tracks(Dropped(m, Wrap(x), balance), Next(v, DropOp(x, balance)))
  {
    hide Wrap, SeqLowerThan, SeqHigherThan, Inserted, Placed, Lists, Narrow, Wrapped, Below, Elements;
    LowerExact(x, v.top);
    if x > v.top {
      PlacedLists(v.live, v.all, v.floor, x);
      SortedOf(v);
      PlacedWrapped(m.dropped, v.live, x, balance);
      BelowAdd(v.all, x, v.floor);
    }
  }

  lemma TopTracks(x: int, top: int)
    requires -HALF <= x - top < HALF
    ensures Wrap(Wrap(x) - Wrap(top)) < HALF <==> x >= top
  {
    var turns := x / SIZE - top / SIZE;
    assert Wrap(x) - Wrap(top) == x - top - SIZE * turns;
    WrapShift(Wrap(x) - Wrap(top), x - top, -turns);
    if x < top { WrapShift(x - top, x - top + SIZE, -1); }
  }

  lemma InputTracks(m: Manager, v: View, x: int, balance: Shape)
    requires Tracks(m, v) && Within(v, InputOp(x, balance)) && !Misled(m.dropped, v.live, x)
    ensures Tracks(Input(m, Wrap(x), balance).0, Next(v, InputOp(x, balance)))
    ensures Input(m, Wrap(x), balance).1 == Due(v.offset, v.all, x)
  {
    hide Wrap, Looked, Tracks, Sent, Below, InWindow, Misled, Forgotten;
    LookedRight(m, v, x, balance);
    WrapAdd(x, v.offset - |Below(v.all, x)|);
    var left, w := Looked(m, Wrap(x), balance).0, Forgotten(v, x);
    ForgottenKeeps(v, x);
    SentTracks(left, w, x, Wrap(x + (v.offset - |Below(v.all, x)|)));
  }

  lemma ForgottenKeeps(v: View, x: int)
    ensures var w := Forgotten(v, x);
            w.offset == v.offset && w.all == v.all && w.top == v.top
  {
    hide CountBelow;
  }

  // Letting an input through changes what is remembered only in the highest input.
  lemma SentTracks(left: Manager, w: View, x: int, output: U16)
    requires Tracks(left, w) && -HALF <= x - w.top < HALF
    ensures Tracks(Sent(left, Wrap(x), output), w.(top := if x > w.top then x else w.top))
  {
    hide Wrap, Lists, Narrow, Wrapped, Below, Elements;
    TopTracks(x, w.top);
  }

  // ---- Whole runs ----

  predicate AllWithin(v: View, ops: seq<Op>)
    decreases |ops|
  {
    ops == [] || (Within(v, ops[0]) && AllWithin(Next(v, ops[0]), ops[1..]))
  }

  // Some input of the run is looked up in a tree that misleads.
  predicate AnyMisled(m: Manager, v: View, ops: seq<Op>)
    decreases |ops|
  {
    ops != [] && (Misleads(m, v, ops[0]) || AnyMisled(Perform(m, ops[0]).0, Next(v, ops[0]), ops[1..]))
  }

  // Some input of the run has a remembered drop ahead of it.
  predicate AnyAhead(v: View, ops: seq<Op>)
    decreases |ops|
  {
    ops != [] && ((ops[0].InputOp? && SomeAhead(v.live, ops[0].x)) || AnyAhead(Next(v, ops[0]), ops[1..]))
  }

  function Final(v: View, ops: seq<Op>): View
    decreases |ops|
  {
    if ops == [] then v else Final(Next(v, ops[0]), ops[1..])
  }

  // The results of a run: an output for each input that is let through.
  function Results(m: Manager, ops: seq<Op>): seq<Option<U16>>
    decreases |ops|
  {
    if ops == [] then []
    else
      var (next, out) := Perform(m, ops[0]);
      [out] + Results(next, ops[1..])
  }

  // What the results should be, given all the numbers dropped in the run.
  function Expected(offset: int, all: set<int>, ops: seq<Op>): seq<Option<U16>>
  {
    seq(|ops|, i requires 0 <= i < |ops| => ExpectedOf(offset, all, ops[i]))
  }

  function ExpectedOf(offset: int, all: set<int>, op: Op): Option<U16>
  {
    if op.DropOp? then None else Due(offset, all, op.x)
  }

  lemma {:induction false} LaterDrops(v: View, ops: seq<Op>)
    ensures var w := Final(v, ops);
            w.offset == v.offset && v.all <= w.all && forall d :: d in w.all && d !in v.all ==> d > v.top
    decreases |ops|
  {
    hide CountBelow, Placed;
    if ops != [] { LaterDrops(Next(v, ops[0]), ops[1..]); }
  }

  lemma RankSettled(all: set<int>, more: set<int>, x: int)
    requires all <= more && forall d :: d in more && d !in all ==> d > x
    ensures Rank(more, x) == Rank(all, x) && (x in more <==> x in all)
  {
    assert Below(more, x) == Below(all, x);
  }

  // Over every run within the window: the inputs not dropped get consecutive numbers, each its rank
  // with respect to everything that is dropped in the run, before or after, and dropped inputs get
  // nothing, if and only if no lookup is misled.
  lemma {:induction false} RunNumbers(m: Manager, v: View, ops: seq<Op>)
    requires Tracks(m, v) && AllWithin(v, ops)
    ensures Results(m, ops) == Expected(v.offset, Final(v, ops).all, ops) <==> !AnyMisled(m, v, ops)
    decreases |ops|
  {
    hide Perform, Next, Tracks, Within, Misleads, Due;
    if ops != [] {
      var op := ops[0];
      var w, all := Next(v, op), Final(v, ops).all;
      LaterDrops(w, ops[1..]);
      FirstSettled(v, op, all);
      ExpectedCons(v.offset, all, ops);
      ResultsCons(m, ops);
      SameHeadTail(Results(m, ops), Expected(v.offset, all, ops));
      PerformIff(m, v, op);
      if !Misleads(m, v, op) {
        PerformTracks(m, v, op);
        RunNumbers(Perform(m, op).0, w, ops[1..]);
      }
    }
  }

  lemma ResultsCons(m: Manager, ops: seq<Op>)
    requires ops != []
    ensures var r := Results(m, ops);
            r != [] && r[0] == Perform(m, ops[0]).1 && r[1..] == Results(Perform(m, ops[0]).0, ops[1..])
  {
    hide Perform;
  }

  lemma ExpectedCons(offset: int, all: set<int>, ops: seq<Op>)
    requires ops != []
    ensures var e := Expected(offset, all, ops);
            e != [] && e[0] == ExpectedOf(offset, all, ops[0]) && e[1..] == Expected(offset, all, ops[1..])
  {
    hide Due;
  }

  lemma PerformIff(m: Manager, v: View, op: Op)
    requires Tracks(m, v) && Within(v, op)
    ensures Perform(m, op).1 == ExpectedOf(v.offset, v.all, op) <==> !Misleads(m, v, op)
  {
    hide Tracks, InWindow, Due, Input, Misled;
    if op.InputOp? { InputIff(m, v, op.x, op.balance); }
  }

  lemma PerformTracks(m: Manager, v: View, op: Op)
    requires Tracks(m, v) && Within(v, op) && !Misleads(m, v, op)
    ensures Tracks(Perform(m, op).0, Next(v, op))
  {
    hide Tracks, Next, Within, Misled, Dropped, Input;
    if op.DropOp? { DropTracks(m, v, op.x, op.balance); } else { InputTracks(m, v, op.x, op.balance); }
  }

  lemma FirstSettled(v: View, op: Op, all: set<int>)
    requires Next(v, op).all <= all && forall d :: d in all && d !in Next(v, op).all ==> d > Next(v, op).top
    ensures Next(v, op).offset == v.offset
    ensures ExpectedOf(v.offset, all, op) == ExpectedOf(v.offset, v.all, op)
    ensures op.InputOp? ==> (op.x in v.all <==> op.x in all)
  {
    hide CountBelow, Placed, Rank, Wrap;
    if op.InputOp? && op.x !in v.all { RankSettled(v.all, all, op.x); }
  }

  // ---- Whatever the trees ----

  // The same operations, with the set arranged in another way.
  predicate SameNumbers(ops: seq<Op>, other: seq<Op>)
  {
    && |ops| == |other|
    && forall i :: 0 <= i < |ops| ==> ops[i].x == other[i].x && (ops[i].DropOp? <==> other[i].DropOp?)
  }

  lemma {:induction false} SameRun(v: View, ops: seq<Op>, other: seq<Op>)
    requires SameNumbers(ops, other)
    ensures Final(v, ops) == Final(v, other) && (AllWithin(v, ops) <==> AllWithin(v, other))
    ensures AnyAhead(v, ops) <==> AnyAhead(v, other)
    decreases |ops|
  {
    hide CountBelow, Placed, SomeAhead, InWindow;
    if ops != [] {
      assert Next(v, ops[0]) == Next(v, other[0]) && (Within(v, ops[0]) <==> Within(v, other[0]));
      hide Next, Within;
      SameRun(Next(v, ops[0]), ops[1..], other[1..]);
    }
  }

  lemma SameExpected(offset: int, all: set<int>, ops: seq<Op>, other: seq<Op>)
    requires SameNumbers(ops, other)
    ensures Expected(offset, all, ops) == Expected(offset, all, other)
  {
    hide Due;
    assert forall i :: 0 <= i < |ops| ==> ExpectedOf(offset, all, ops[i]) == ExpectedOf(offset, all, other[i]);
  }

  lemma {:induction false} NeverMisled(m: Manager, v: View, ops: seq<Op>)
    requires !AnyAhead(v, ops)
    ensures !AnyMisled(m, v, ops)
    decreases |ops|
  {
    hide SomeAhead, Misled, Next, Perform;
    if ops != [] {
      if ops[0].InputOp? { NoneAheadIsRight(m.dropped, v.live, ops[0].x); }
      NeverMisled(Perform(m, ops[0]).0, Next(v, ops[0]), ops[1..]);
    }
  }

  // The same operations, with the set kept as a chain.
  function Chained(ops: seq<Op>): (r: seq<Op>)
    ensures SameNumbers(ops, r) && forall i :: 0 <= i < |r| ==> r[i].balance == Chain
  {
    seq(|ops|, i requires 0 <= i < |ops| =>
      if ops[i].DropOp? then DropOp(ops[i].x, Chain) else InputOp(ops[i].x, Chain))
  }

  predicate KeptAsChain(t: Tree) { t == Chain(Elements(t)) }

  lemma ChainKept(m: Manager, op: Op)
    requires KeptAsChain(m.dropped) && op.balance == Chain
    ensures KeptAsChain(Perform(m, op).0.dropped)
  {
    hide Chain, Wrap, LowerBound, SeqLowerThan, SeqHigherThan;
  }

  lemma {:induction false} ChainedMisleads(m: Manager, v: View, ops: seq<Op>)
    requires Tracks(m, v) && AllWithin(v, ops) && KeptAsChain(m.dropped) && AnyAhead(v, ops)
    requires forall i :: 0 <= i < |ops| ==> ops[i].balance == Chain
    ensures AnyMisled(m, v, ops)
    decreases |ops|
  {
    hide SomeAhead, Misled, Next, Perform, Within, KeptAsChain, Tracks;
    var op := ops[0];
    if op.InputOp? && SomeAhead(v.live, op.x) {
      ChainedHere(m, v, op.x);
    } else if !Misleads(m, v, op) {
      PerformTracks(m, v, op);
      ChainKept(m, op);
      ChainedMisleads(Perform(m, op).0, Next(v, op), ops[1..]);
    }
  }

  lemma ChainedHere(m: Manager, v: View, x: int)
    requires Tracks(m, v) && KeptAsChain(m.dropped) && SomeAhead(v.live, x)
    ensures Misled(m.dropped, v.live, x)
  {
    hide Chain, SomeAhead, Misled;
    ChainMisleads(Elements(m.dropped), v.live, x);
  }

  // From a manager that remembers no drops, a run within the window is numbered as it should be whatever
  // trees the set is kept in, if and only if no input has a remembered drop ahead of it.
  lemma RunEveryTree(m: Manager, v: View, ops: seq<Op>)
    requires Tracks(m, v) && m.dropped.Leaf? && AllWithin(v, ops)
    ensures (forall other :: SameNumbers(ops, other) ==>
               Results(m, other) == Expected(v.offset, Final(v, ops).all, ops)) <==> !AnyAhead(v, ops)
  {
    hide Tracks, AllWithin, AnyAhead, AnyMisled, Results, Expected, Final, SameNumbers;
    var all := Final(v, ops).all;
    forall other | SameNumbers(ops, other)
      ensures Results(m, other) == Expected(v.offset, all, ops) <==> !AnyMisled(m, v, other)
      ensures !AnyAhead(v, ops) ==> !AnyMisled(m, v, other)
    {
      SameRun(v, ops, other);
      SameExpected(v.offset, all, ops, other);
      RunNumbers(m, v, other);
      if !AnyAhead(v, ops) { NeverMisled(m, v, other); }
    }
    if AnyAhead(v, ops) {
      var other := Chained(ops);
      SameRun(v, ops, other);
      ChainedMisleads(m, v, other);
      assert SameNumbers(ops, other) && AnyMisled(m, v, other);
    }
  }

  // ---- After a lookup that was misled ----

  // It forgets everything that was dropped: from then on the manager numbers as if nothing had been,
  // with all the dropped numbers taken off, those ahead of x as well.
  lemma MisledForgets(m: Manager, v: View, x: int, balance: Shape)
    requires Tracks(m, v) && Within(v, InputOp(x, balance)) && Misled(m.dropped, v.live, x)
    ensures Tracks(Input(m, Wrap(x), balance).0,
                   View(v.offset - |v.all|, {}, [], x, if x > v.top then x else v.top))
  {
    hide Tracks, Wrap, Input, Within, Misled;
    var top := if x > v.top then x else v.top;
    MisledState(m, v, x, balance);
    NothingTracks(Input(m, Wrap(x), balance).0, v.offset - |v.all|, x, top);
  }

  lemma MisledState(m: Manager, v: View, x: int, balance: Shape)
    requires Tracks(m, v) && Within(v, InputOp(x, balance)) && Misled(m.dropped, v.live, x)
    ensures var n := Input(m, Wrap(x), balance).0;
            && n.dropped.Leaf? && n.base == Wrap(v.offset - |v.all|)
            && n.maxInput == Wrap(if x > v.top then x else v.top)
  {
    hide Wrap, Looked, Lists, Narrow, Below, InWindow, Misled, Elements;
    LookedWrong(m, v, x, balance);
    TopTracks(x, v.top);
  }

  // A manager that remembers nothing tracks a view in which nothing was dropped.
  lemma NothingTracks(m: Manager, offset: int, floor: int, top: int)
    requires m.dropped.Leaf? && m.base == Wrap(offset) && m.maxInput == Wrap(top)
    ensures Tracks(m, View(offset, {}, [], floor, top))
  {
    assert Below({}, floor) == {};
  }

  // ---- The highest output ----

  // maxOutput is the output of the highest input.
  predicate High(m: Manager, v: View) { m.maxOutput == Wrap(v.offset + Rank(v.all, v.top)) }

  lemma HighKeeps(m: Manager, v: View, op: Op)
    requires Tracks(m, v) && High(m, v) && Within(v, op) && !Misleads(m, v, op)
    ensures High(Perform(m, op).0, Next(v, op))
  {
    hide Wrap, Rank, Tracks, Misled, InWindow, Inserted, Placed, Input;
    if op.DropOp? {
      if op.x > v.top { RankSettled(v.all, v.all + {op.x}, v.top); }
    } else {
      InputHigh(m, v, op.x, op.balance);
    }
  }

  lemma InputHigh(m: Manager, v: View, x: int, balance: Shape)
    requires Tracks(m, v) && High(m, v) && Within(v, InputOp(x, balance)) && !Misled(m.dropped, v.live, x)
    ensures High(Input(m, Wrap(x), balance).0, Next(v, InputOp(x, balance)))
  {
    hide Wrap, Rank, Looked, Tracks, Misled, InWindow, CountBelow;
    LookedRight(m, v, x, balance);
    InputTracks(m, v, x, balance);
    if x <= v.top { RankGrows(v.all, x, v.top); } else { RankGrows(v.all, v.top, x); }
    TopTracks(v.offset + Rank(v.all, x), v.offset + Rank(v.all, v.top));
  }

  // The manager after a run.
  function End(m: Manager, ops: seq<Op>): Manager
    decreases |ops|
  {
    if ops == [] then m else End(Perform(m, ops[0]).0, ops[1..])
  }

  // Operation i lets its input through.
  predicate LetThrough(ops: seq<Op>, all: set<int>, i: nat)
    requires i < |ops|
  {
    ops[i].InputOp? && ops[i].x !in all
  }

  // The top of a run is where it was, or an input that was let through; and no such input is higher.
  lemma {:induction false} TopOfRun(v: View, ops: seq<Op>)
    ensures var w := Final(v, ops);
            && v.top <= w.top
            && (forall i :: 0 <= i < |ops| && LetThrough(ops, w.all, i) ==> ops[i].x <= w.top)
            && (w.top == v.top || exists i :: 0 <= i < |ops| && LetThrough(ops, w.all, i) && ops[i].x == w.top)
    decreases |ops|
  {
    if ops != [] {
      var u, rest, w := Next(v, ops[0]), ops[1..], Final(v, ops);
      TopOfRun(u, rest);
      LaterDrops(u, rest);
      FirstSettled(v, ops[0], w.all);
      hide Final, CountBelow, Placed, Rank;
      assert forall i :: 0 < i < |ops| ==> (LetThrough(ops, w.all, i) <==> LetThrough(rest, w.all, i - 1));
      if w.top != v.top {
        if w.top == u.top {
          assert LetThrough(ops, w.all, 0);
        } else {
          var i :| 0 <= i < |rest| && LetThrough(rest, w.all, i) && rest[i].x == w.top;
          assert LetThrough(ops, w.all, i + 1) && ops[i + 1].x == w.top;
        }
      }
    }
  }

  lemma {:induction false} HighOverRun(m: Manager, v: View, ops: seq<Op>)
    requires Tracks(m, v) && High(m, v) && AllWithin(v, ops) && !AnyMisled(m, v, ops)
    ensures Tracks(End(m, ops), Final(v, ops)) && High(End(m, ops), Final(v, ops))
    decreases |ops|
  {
    hide Perform, Next, Tracks, High, Within, Misleads;
    if ops != [] {
      PerformTracks(m, v, ops[0]);
      HighKeeps(m, v, ops[0]);
      HighOverRun(Perform(m, ops[0]).0, Next(v, ops[0]), ops[1..]);
    }
  }

  // Over every run in which no lookup is misled, maxOutput is the highest number given, or the one it
  // started with if no higher input came.
  lemma MaxOutputIsHighest(m: Manager, v: View, ops: seq<Op>)
    requires Tracks(m, v) && High(m, v) && AllWithin(v, ops) && !AnyMisled(m, v, ops)
    ensures var w := Final(v, ops);
            && End(m, ops).maxOutput == Wrap(v.offset + Rank(w.all, w.top))
            && (forall i :: 0 <= i < |ops| && LetThrough(ops, w.all, i) ==>
                  Rank(w.all, ops[i].x) <= Rank(w.all, w.top))
            && (w.top == v.top || exists i :: 0 <= i < |ops| && LetThrough(ops, w.all, i) && ops[i].x == w.top)
  {
    hide Final, Tracks, AllWithin, AnyMisled, Wrap, Rank, End;
    var w := Final(v, ops);
    HighOverRun(m, v, ops);
    LaterDrops(v, ops);
    TopOfRun(v, ops);
    forall i | 0 <= i < |ops| && LetThrough(ops, w.all, i) ensures Rank(w.all, ops[i].x) <= Rank(w.all, w.top) {
      RankGrows(w.all, ops[i].x, w.top);
    }
  }

  // A new manager numbers inputs as they are.
  lemma NewTracks(floor: int)
    ensures Tracks(NEW, View(0, {}, [], floor, 0))
  {
    NothingTracks(NEW, 0, floor, 0);
  }

  // Sync starts a new numbering in which the synchronised input stands for the highest output.
  lemma SyncTracks(m: Manager, x: int, floor: int)
    ensures var v := View(m.maxOutput - x, {}, [], floor, x);
            Tracks(Synced(m, Wrap(x)), v) && High(Synced(m, Wrap(x)), v)
  {
    assert Below({}, x) == {};
    WrapShift(m.maxOutput - Wrap(x), m.maxOutput - x, x / SIZE);
    WrapSame(m.maxOutput);
    hide Tracks;
    NothingTracks(Synced(m, Wrap(x)), m.maxOutput - x, floor, x);
  }

  // So after Sync the next input gets the number after the highest one given before.
  lemma SyncContinues(m: Manager, v: View, x: int, balance: Shape)
    requires Tracks(m, v) && High(m, v)
    ensures Input(Synced(m, Wrap(x)), Wrap(x + 1), balance).1 == Some(Wrap(v.offset + Rank(v.all, v.top) + 1))
  {
    hide Tracks, Wrap, Input, Rank;
    var w := View(m.maxOutput - x, {}, [], x, x);
    SyncTracks(m, x, x);
    InputTracks(Synced(m, Wrap(x)), w, x + 1, balance);
    NoDrops(x + 1);
    WrapSub(v.offset + Rank(v.all, v.top), -1);
  }

  lemma NoDrops(x: int)
    ensures Rank({}, x) == x
  {
    assert Below({}, x) == {};
  }

  // ---- Runs that go wrong ----

  function One(x: U16): Tree { Node(Leaf, x, Leaf) }

  lemma OneElement(t: Tree, x: U16)
    requires Elements(t) == [x]
    ensures t == One(x)
  {
    ElementAt(t, 0);
  }

  // Dropping 3 and then letting 1 through: 1 is given the number that 0 already has, and the dropped 3
  // is let through as well. A set of one element has only one tree.
  lemma OverrunDuplicates(b: Shape)
    ensures var (m1, first) := Input(NEW, 0, b);
            var (m2, second) := Input(Dropped(m1, 3, b), 1, b);
            var (_, third) := Input(m2, 3, b);
            first == Some(0) && second == Some(0) && third == Some(2)
  {
    var m := Dropped(NEW, 3, b);
    assert [] + [3] + [] == [3];
    OneElement(m.dropped, 3);
    assert Elements(b([])) == [];
    assert Elements(One(3))[1..] == [];
  }

  const FIVE_FIRST := Node(One(1), 5, Leaf)
  const ONE_FIRST := Node(Leaf, 1, One(5))

  lemma Chains()
    ensures Chain([5]) == One(5) && Chain([1, 5]) == FIVE_FIRST
    ensures Elements(One(5)) == [5] && Elements(FIVE_FIRST) == Elements(ONE_FIRST) == [1, 5]
  {
    OneElement(Chain([5]), 5);
    OneElement(Chain([1]), 1);
    assert [1, 5][..1] == [1] && Elements(One(1)) == [1];
  }

  // Two drops, 5 and then 1, each put where the descent ends.
  lemma TwoDrops()
    ensures Elements(FIVE_FIRST) == Elements(ONE_FIRST) == [1, 5]
    ensures Dropped(Dropped(NEW, 5, Chain), 1, Chain) == Manager(0, 0, 0, FIVE_FIRST)
  {
    hide Chain, Elements, ONE_FIRST, FIVE_FIRST;
    Chains();
    assert [] + [5] + [] == [5] && [5][..0] + [1] + [5][0..] == [1, 5];
    assert Inserted(Leaf, 5, Chain) == One(5);
    assert LowerBound(One(5), 1) == 0;
  }

  // With 5 as the root, letting 2 through forgets both drops and gives it the number that 0 already has;
  // with 1 as the root it gets its rank.
  lemma OrderMatters(b: Shape)
    ensures Input(NEW, 0, b) == (NEW, Some(0))
    ensures Dropped(Dropped(NEW, 5, Chain), 1, Chain) == Manager(0, 0, 0, FIVE_FIRST)
    ensures Input(Manager(0, 0, 0, FIVE_FIRST), 2, b).1 == Some(0)
    ensures Elements(FIVE_FIRST) == Elements(ONE_FIRST) && Input(Manager(0, 0, 0, ONE_FIRST), 2, b).1 == Some(1)
  {
    hide Looked, FIVE_FIRST, ONE_FIRST, Dropped, Elements;
    TwoDrops();
    LookedFive(b);
    LookedOne(b);
    LookedNew(b);
  }

  lemma LookedNew(b: Shape)
    ensures Looked(NEW, 0, b) == (NEW, Some(0))
  {
  }

  lemma LookedFive(b: Shape)
    ensures Looked(Manager(0, 0, 0, FIVE_FIRST), 2, b) == (Manager(65534, 0, 0, Leaf), Some(65534))
  {
    hide LowerBound, Elements, FIVE_FIRST, SeqLowerThan, Erased, Wrap, ONE_FIRST, Dropped;
    TwoDrops();
    TwoBounds();
    BoundOfLeaf(2);
    var t := Erased(FIVE_FIRST, 2, b);
    assert Elements(t) == [1, 5][2..] == [];
    assert t == Leaf;
  }

  lemma LookedOne(b: Shape)
    ensures Looked(Manager(0, 0, 0, ONE_FIRST), 2, b) == (Manager(0, 0, 0, ONE_FIRST), Some(65535))
  {
    hide LowerBound, Elements, ONE_FIRST, SeqLowerThan, FIVE_FIRST, Dropped;
    TwoDrops();
    TwoBounds();
  }

  lemma TwoBounds()
    ensures Wrap(2 - HALF) == 32771 && Wrap(0 - 2) == 65534 && Wrap(65534 - 0) == 65534
    ensures FIVE_FIRST.Node? && LowerBound(FIVE_FIRST, 32771) == 2
    ensures ONE_FIRST.Node? && LowerBound(ONE_FIRST, 32771) == 0 && LowerBound(ONE_FIRST, 2) == 1
  {
  }
}
