/**
 Renumbering of RTP sequence numbers around dropped packets (src/RTC/SeqManager.cpp, for uint16_t).
 Unwrapped numbers are integers; Wrap takes them to the 16 bits the code works on.
 */
module SeqManager {
  import opened Options
  import opened SeqSet

  datatype Manager = Manager(base: U16, maxOutput: U16, maxInput: U16, dropped: Tree)

  const NEW := Manager(0, 0, 0, Leaf)

  function Synced(m: Manager, input: U16): Manager
  {
    m.(base := Wrap(m.maxOutput - input), maxInput := input, dropped := Leaf)
  }

  function Dropped(m: Manager, input: U16, balance: Shape): Manager
  {
    if SeqHigherThan(input, m.maxInput) then m.(dropped := Inserted(m.dropped, input, balance)) else m
  }

  // The number to add to the input, or None when the input was dropped; and what is remembered.
  function Looked(m: Manager, input: U16, balance: Shape): (Manager, Option<U16>)
  {
    if m.dropped.Leaf? then (m, Some(m.base))
    else
      var p := LowerBound(m.dropped, Wrap(input - HALF));
      var left := m.(dropped := Erased(m.dropped, p, balance), base := Wrap(m.base - p));
      var s, q := Elements(left.dropped), LowerBound(left.dropped, input);
      if q < |s| && s[q] == input then (left, None) else (left, Some(Wrap(left.base - q)))
  }

  function Sent(m: Manager, input: U16, output: U16): Manager
  {
    m.(maxInput := if Wrap(input - m.maxInput) < HALF then input else m.maxInput,
       maxOutput := if Wrap(output - m.maxOutput) < HALF then output else m.maxOutput)
  }

  // Input: the output, or None when it returns false.
  function Input(m: Manager, input: U16, balance: Shape): (Manager, Option<U16>)
  {
    var (left, add) := Looked(m, input, balance);
    if add.None? then (left, None)
    else
      var output := Wrap(input + add.value);
      (Sent(left, input, output), Some(output))
  }

  class Renumbering {
    var base: U16
    var maxOutput: U16
    var maxInput: U16
    var dropped: Tree

    ghost function Abs(): Manager
      reads this
    {
      Manager(base, maxOutput, maxInput, dropped)
    }

    constructor ()
      ensures Abs() == NEW
    {
      base, maxOutput, maxInput, dropped := 0, 0, 0, Leaf;
    }

    method Sync(input: U16)
      modifies this
      ensures Abs() == Synced(old(Abs()), input)
    {
      base := Wrap(maxOutput - input);
      maxInput := input;
      dropped := Leaf;
    }

    method Drop(input: U16, balance: Shape)
      modifies this
      ensures Abs() == Dropped(old(Abs()), input, balance)
    {
      if SeqHigherThan(input, maxInput) {
        dropped := Inserted(dropped, input, balance);
      }
    }

    method Take(input: U16, balance: Shape) returns (ok: bool, output: U16)
      modifies this
      ensures Abs() == Input(old(Abs()), input, balance).0
      ensures Input(old(Abs()), input, balance).1 == if ok then Some(output) else None
    {
      hide Wrap, Looked;
      var add := LookAtDropped(input, balance);
      if add.None? { return false, 0; }
      ok, output := true, Wrap(input + add.value);
      var idelta := Wrap(input - maxInput);
      var odelta := Wrap(output - maxOutput);
      if idelta < HALF { maxInput := input; }
      if odelta < HALF { maxOutput := output; }
    }

    // The part of Input that deals with dropped inputs.
    method LookAtDropped(input: U16, balance: Shape) returns (add: Option<U16>)
      modifies this`base, this`dropped
      ensures (Abs(), add) == Looked(old(Abs()), input, balance)
    {
      hide Wrap, LowerBound, Elements;
      if dropped.Leaf? { return Some(base); }
      var droppedCount := |Elements(dropped)|;
      var it := LowerBound(dropped, Wrap(input - HALF));
      dropped := Erased(dropped, it, balance);
      assert droppedCount - |Elements(dropped)| == it;
      base := Wrap(base - (droppedCount - |Elements(dropped)|));
      droppedCount := |Elements(dropped)|;
      it := LowerBound(dropped, input);
      if it < |Elements(dropped)| {
        if Elements(dropped)[it] == input { return None; }
        droppedCount := droppedCount - (|Elements(dropped)| - it);
      }
      return Some(Wrap(base - droppedCount));
    }
  }

  // ---- The numbering it is for ----

  function Below(all: set<int>, x: int): set<int> { set d | d in all && d < x }

  // The number of x among the inputs not dropped.
  function Rank(all: set<int>, x: int): int { x - |Below(all, x)| }

  // Ranks are consecutive on the inputs that are not dropped.
  lemma RankStep(all: set<int>, x: int)
    ensures Rank(all, x + 1) == Rank(all, x) + if x in all then 0 else 1
  {
    assert Below(all, x + 1) == Below(all, x) + if x in all then {x} else {};
  }

  // Ranks never fall, rise no faster than the numbers, and rise past a number that is not dropped.
  lemma {:induction false} RankGrows(all: set<int>, x: int, y: int)
    requires x <= y
    ensures 0 <= Rank(all, y) - Rank(all, x) <= y - x
    ensures x < y && x !in all ==> Rank(all, x) < Rank(all, y)
    decreases y - x
  {
    hide Rank;
    if x < y {
      RankGrows(all, x, y - 1);
      RankStep(all, y - 1);
    }
  }

  predicate Sorted(s: seq<int>) { forall i, j :: 0 <= i < j < |s| ==> s[i] < s[j] }

  lemma {:induction false} SortedCard(s: seq<int>, all: set<int>)
    requires Sorted(s) && forall x :: x in all <==> x in s
    ensures |all| == |s|
    decreases |s|
  {
    if s == [] {
      assert forall x :: x in all ==> x in s;
    } else {
      var init, last := s[..|s| - 1], s[|s| - 1];
      assert s == init + [last];
      assert forall x :: x in init ==> x < last;
      SortedCard(init, all - {last});
    }
  }

  // all: the numbers dropped since the last Sync. live: those remembered, which are those from floor
  // on. top: the highest input. offset: output minus rank.
  datatype View = View(offset: int, all: set<int>, live: seq<int>, floor: int, top: int)

  // live lists the numbers of all from floor on.
  ghost predicate Lists(live: seq<int>, all: set<int>, floor: int)
  {
    Sorted(live) && forall d :: d in live <==> d in all && d >= floor
  }

  predicate Narrow(live: seq<int>) { live != [] ==> live[|live| - 1] - live[0] <= HALF }

  predicate Wrapped(ds: seq<U16>, live: seq<int>)
  {
    |ds| == |live| && forall i :: 0 <= i < |live| ==> ds[i] == Wrap(live[i])
  }

  ghost predicate Tracks(m: Manager, v: View)
  {
    && Lists(v.live, v.all, v.floor) && Narrow(v.live) && Wrapped(Elements(m.dropped), v.live)
    && m.base == Wrap(v.offset - |Below(v.all, v.floor)|)
    && m.maxInput == Wrap(v.top)
  }

  // ---- When the lookup is right ----

  // How many elements of a sorted list are below k.
  function CountBelow(live: seq<int>, k: int): (i: nat)
    ensures i <= |live| && (i < |live| ==> live[i] >= k)
    ensures forall j :: 0 <= j < i ==> live[j] < k
  {
    if live == [] || live[0] >= k then 0 else 1 + CountBelow(live[1..], k)
  }

  // A number that the comparison takes to be older than x - HALF although it is newer than x.
  predicate Ahead(d: int, x: int) { d > x + 1 || (d == x + 1 && Wrap(d) > Wrap(x - HALF)) }

  // The descent to x - HALF goes to the right past the drops that are old; the first other one that it
  // meets is ahead of x.
  predicate Misled(t: Tree, live: seq<int>, x: int)
  {
    t.Node?
    && var n := |Elements(t.left)|;
       n < |live| && if live[n] < x - HALF then Misled(t.right, live[n + 1..], x) else Ahead(live[n], x)
  }

  predicate SomeAhead(live: seq<int>, x: int) { exists d :: d in live && Ahead(d, x) }

  // Something ahead of x was dropped, and nothing among the last HALF numbers up to x.
  predicate Overrun(live: seq<int>, x: int)
  {
    var o := CountBelow(live, x - HALF);
    o < |live| && Ahead(live[o], x)
  }

  // The remembered numbers are at most HALF ahead of x, and none has been out of date for long.
  predicate InWindow(v: View, x: int)
  {
    v.floor <= x && forall i :: 0 <= i < |v.live| ==> x - 2 * HALF <= v.live[i] <= x + HALF
  }

  lemma CountSplit(live: seq<int>, n: nat, k: int)
    requires Sorted(live) && n < |live|
    ensures CountBelow(live, k)
         == if live[n] < k then n + 1 + CountBelow(live[n + 1..], k) else CountBelow(live[..n], k)
  {
    var c := if live[n] < k then n + 1 + CountBelow(live[n + 1..], k) else CountBelow(live[..n], k);
    hide CountBelow;
    assert forall j :: n < j < |live| ==> live[j] == live[n + 1..][j - n - 1];
    assert forall j :: 0 <= j < n ==> live[j] == live[..n][j];
    CountUnique(live, k, c);
  }

  lemma CountUnique(live: seq<int>, k: int, c: nat)
    requires Sorted(live) && c <= |live|
    requires (forall j :: 0 <= j < c ==> live[j] < k) && (c < |live| ==> live[c] >= k)
    ensures CountBelow(live, k) == c
  {
    var b := CountBelow(live, k);
    hide CountBelow;
  }

  // The parts of the list that belong to the parts of a tree.
  lemma WrappedParts(t: Tree, live: seq<int>)
    requires t.Node? && Sorted(live) && Wrapped(Elements(t), live)
    ensures var n := |Elements(t.left)|;
            && n < |live| && t.key == Wrap(live[n])
            && Sorted(live[..n]) && Wrapped(Elements(t.left), live[..n])
            && Sorted(live[n + 1..]) && Wrapped(Elements(t.right), live[n + 1..])
  {
    hide Wrap, Elements;
    var n := |Elements(t.left)|;
    ElementAt(t, 0);
    forall i | 0 <= i < |live|
      ensures Wrap(live[i]) == if i < n then Elements(t.left)[i]
                               else if i == n then t.key else Elements(t.right)[i - n - 1]
    {
      ElementAt(t, i);
    }
  }

  predicate Near(live: seq<int>, x: int)
  {
    forall i :: 0 <= i < |live| ==> x - 2 * HALF <= live[i] <= x + HALF
  }

  // What the comparison makes of a remembered drop.
  lemma PurgeCompares(d: int, x: int)
    requires x - 2 * HALF <= d <= x + HALF
    ensures SeqLowerThan(Wrap(d), Wrap(x - HALF)) <==> d < x - HALF || Ahead(d, x)
  {
    LowerExact(d, x - HALF);
  }

  // lower_bound(input - MaxValue / 2) finds the end of the old elements, unless it is misled: then it
  // runs to the end of all.
  lemma {:induction false} PurgeBound(t: Tree, live: seq<int>, x: int)
    requires Sorted(live) && Wrapped(Elements(t), live) && Near(live, x)
    ensures LowerBound(t, Wrap(x - HALF)) == if Misled(t, live, x) then |live| else CountBelow(live, x - HALF)
    decreases t
  {
    hide Wrap, SeqLowerThan, Wrapped, CountBelow, Ahead, Elements;
    if t.Leaf? {
      NoneRemembered(live, x - HALF);
    } else {
      var n := |Elements(t.left)|;
      WrappedParts(t, live);
      PurgeCompares(live[n], x);
      CountSplit(live, n, x - HALF);
      if live[n] < x - HALF {
        PurgeBound(t.right, live[n + 1..], x);
      } else if Ahead(live[n], x) {
        RunsToEnd(t.right, live[n + 1..], x, live[n]);
      } else {
        NotMisled(t.left, live[..n], x, live[n]);
        PurgeBound(t.left, live[..n], x);
      }
    }
  }

  lemma NoneRemembered(live: seq<int>, k: int)
    requires Wrapped([], live)
    ensures live == [] && CountBelow(live, k) == 0
  {
  }

  // Past an element that is ahead of x, so are all.
  lemma RunsToEnd(t: Tree, live: seq<int>, x: int, d: int)
    requires Wrapped(Elements(t), live) && Near(live, x) && Ahead(d, x)
    requires forall i :: 0 <= i < |live| ==> d < live[i]
    ensures LowerBound(t, Wrap(x - HALF)) == |live|
  {
    forall i | 0 <= i < |live| ensures SeqLowerThan(Elements(t)[i], Wrap(x - HALF)) {
      PurgeCompares(live[i], x);
    }
    hide Wrap, SeqLowerThan;
    LowerBoundSplits(t, Wrap(x - HALF), |live|);
  }

  lemma NotMisled(t: Tree, live: seq<int>, x: int, d: int)
    requires !Ahead(d, x) && forall i :: 0 <= i < |live| ==> live[i] < d
    ensures !Misled(t, live, x)
  {
    assert !SomeAhead(live, x);
    NoneAheadIsRight(t, live, x);
  }

  // With nothing ahead of x no tree misleads.
  lemma {:induction false} NoneAheadIsRight(t: Tree, live: seq<int>, x: int)
    requires !SomeAhead(live, x)
    ensures !Misled(t, live, x)
    decreases t
  {
    hide Ahead, Elements;
    if t.Node? && |Elements(t.left)| < |live| {
      var rest := live[|Elements(t.left)| + 1..];
      assert forall d :: d in rest ==> d in live;
      NoneAheadIsRight(t.right, rest, x);
    }
  }

  // With an overrun every tree does.
  lemma {:induction false} OverrunMisleads(t: Tree, live: seq<int>, x: int)
    requires Sorted(live) && |Elements(t)| == |live| && Overrun(live, x)
    ensures Misled(t, live, x)
    decreases t
  {
    hide CountBelow, Elements, Ahead;
    var n, o := |Elements(t.left)|, CountBelow(live, x - HALF);
    ElementAt(t, 0);
    if live[n] < x - HALF {
      CountSplit(live, n, x - HALF);
      OverrunMisleads(t.right, live[n + 1..], x);
    } else {
      AheadOf(live, o, n, x);
    }
  }

  lemma AheadOf(live: seq<int>, o: nat, n: nat, x: int)
    requires Sorted(live) && o <= n < |live| && Ahead(live[o], x)
    ensures Ahead(live[n], x)
  {
    hide Wrap;
  }

  // The chain misleads whenever something is ahead of x.
  lemma ChainMisleads(s: seq<U16>, live: seq<int>, x: int)
    requires Sorted(live) && |s| == |live| && SomeAhead(live, x)
    ensures Misled(Chain(s), live, x)
  {
    hide Elements;
    var d :| d in live && Ahead(d, x);
    var i :| 0 <= i < |live| && live[i] == d;
    assert Elements(Chain(s[..|s| - 1])) == s[..|s| - 1];
  }

  // lower_bound(input) counts the elements below the input when all are within HALF of it.
  lemma InputBound(t: Tree, live: seq<int>, x: int)
    requires Sorted(live) && Wrapped(Elements(t), live)
    requires forall i :: 0 <= i < |live| ==> x - HALF <= live[i] <= x + HALF
    ensures LowerBound(t, Wrap(x)) == CountBelow(live, x)
    ensures var q := CountBelow(live, x);
            q < |live| && Elements(t)[q] == Wrap(x) <==> x in live
  {
    hide Wrap, SeqLowerThan, SeqHigherThan, CountBelow, Elements, LowerBound;
    var ds := Elements(t);
    forall i | 0 <= i < |live|
      ensures (SeqLowerThan(ds[i], Wrap(x)) <==> live[i] < x) && (ds[i] == Wrap(x) <==> live[i] == x)
    {
      LowerExact(live[i], x);
    }
    LowerBoundSplits(t, Wrap(x), CountBelow(live, x));
  }

  // The dropped numbers below y: those forgotten and those remembered.
  lemma BelowCount(live: seq<int>, all: set<int>, floor: int, y: int)
    requires Lists(live, all, floor) && y >= floor
    ensures |Below(all, y)| == |Below(all, floor)| + CountBelow(live, y)
  {
    var recent := set d | d in all && floor <= d < y;
    RecentCount(live, all, floor, y, recent);
    assert Below(all, y) == Below(all, floor) + recent;
  }

  lemma RecentCount(live: seq<int>, all: set<int>, floor: int, y: int, recent: set<int>)
    requires Lists(live, all, floor) && forall d :: d in recent <==> d in all && floor <= d < y
    ensures |recent| == CountBelow(live, y)
  {
    var c := CountBelow(live, y);
    hide CountBelow;
    var s := live[..c];
    forall d ensures d in recent <==> d in s {
      if d in recent {
        var i :| 0 <= i < |live| && live[i] == d;
        assert s[i] == d;
      }
      assert d in s ==> d in live;
    }
    SortedCard(s, recent);
  }

  lemma WrapShift(x: int, y: int, k: int)
    requires x == y + SIZE * k
    ensures Wrap(x) == Wrap(y)
  {
    assert x == SIZE * (y / SIZE + k) + y % SIZE;
  }

  lemma WrapSub(a: int, b: int)
    ensures Wrap(Wrap(a) - b) == Wrap(a - b)
  {
    WrapShift(a - b, Wrap(a) - b, a / SIZE);
  }

  lemma WrapAdd(a: int, b: int)
    ensures Wrap(Wrap(a) + Wrap(b)) == Wrap(a + b)
  {
    WrapShift(a + b, Wrap(a) + Wrap(b), a / SIZE + b / SIZE);
  }

  // What is remembered once the old elements have been forgotten.
  function Forgotten(v: View, x: int): View
  {
    v.(live := v.live[CountBelow(v.live, x - HALF)..], floor := if v.floor < x - HALF then x - HALF else v.floor)
  }

  lemma SplitSorted(live: seq<int>, o: nat, k: int)
    requires Sorted(live) && o <= |live|
    requires (forall j :: 0 <= j < o ==> live[j] < k) && (o < |live| ==> live[o] >= k)
    ensures Sorted(live[o..]) && forall d :: d in live[o..] <==> d in live && d >= k
  {
    forall d | d in live && d >= k ensures d in live[o..] {
      var i :| 0 <= i < |live| && live[i] == d;
      assert live[o..][i - o] == d;
    }
  }

  lemma ForgetLists(v: View, x: int)
    requires Lists(v.live, v.all, v.floor) && Narrow(v.live)
    ensures var w := Forgotten(v, x);
            Lists(w.live, w.all, w.floor) && Narrow(w.live)
  {
    var o := CountBelow(v.live, x - HALF);
    hide CountBelow;
    SplitSorted(v.live, o, x - HALF);
  }

  lemma ForgetBase(v: View, x: int)
    requires Lists(v.live, v.all, v.floor)
    ensures |Below(v.all, Forgotten(v, x).floor)| == |Below(v.all, v.floor)| + CountBelow(v.live, x - HALF)
  {
    if v.floor < x - HALF {
      BelowCount(v.live, v.all, v.floor, x - HALF);
    } else {
      assert forall i :: 0 <= i < |v.live| ==> v.live[i] in v.live;
    }
  }

  lemma ForgetTracks(m: Manager, v: View, x: int, t: Tree)
    requires Tracks(m, v) && Elements(t) == Elements(m.dropped)[CountBelow(v.live, x - HALF)..]
    ensures Tracks(m.(dropped := t, base := Wrap(m.base - CountBelow(v.live, x - HALF))), Forgotten(v, x))
  {
    hide Wrap, Below, CountBelow, Lists, Narrow, Elements;
    ForgetLists(v, x);
    ForgetBase(v, x);
    WrapSub(v.offset - |Below(v.all, v.floor)|, CountBelow(v.live, x - HALF));
  }

  // The lookup that is not misled: it tells dropped inputs, and what to add to the others.
  lemma LookedRight(m: Manager, v: View, x: int, balance: Shape)
    requires Tracks(m, v) && InWindow(v, x) && !Misled(m.dropped, v.live, x)
    ensures var (left, add) := Looked(m, Wrap(x), balance);
            && Tracks(left, Forgotten(v, x)) && left.maxOutput == m.maxOutput
            && add == if x in v.all then None else Some(Wrap(v.offset - |Below(v.all, x)|))
  {
    hide Below, Misled, LowerBound, Narrow, Wrap, Wrapped, Looked, CountBelow, Elements, Erased;
    var o, w := CountBelow(v.live, x - HALF), Forgotten(v, x);
    PurgeBound(m.dropped, v.live, x);
    var t := Erased(m.dropped, o, balance);
    ForgetTracks(m, v, x, t);
    ForgetWithin(v, x);
    hide Lists;
    CountWithin(m.(dropped := t, base := Wrap(m.base - o)), w, x);
    LookedIs(m, x, balance);
  }

  lemma ForgetWithin(v: View, x: int)
    requires Lists(v.live, v.all, v.floor) && InWindow(v, x)
    ensures var w := Forgotten(v, x);
            w.floor <= x && forall i :: 0 <= i < |w.live| ==> x - HALF <= w.live[i] <= x + HALF
  {
    var o := CountBelow(v.live, x - HALF);
    hide CountBelow;
  }

  // The lookup, with the empty case included and the input unwrapped.
  lemma LookedIs(m: Manager, x: int, balance: Shape)
    ensures var p := LowerBound(m.dropped, Wrap(x - HALF));
            var left := m.(dropped := Erased(m.dropped, p, balance), base := Wrap(m.base - p));
            var q := LowerBound(left.dropped, Wrap(x));
            Looked(m, Wrap(x), balance)
            == if q < |Elements(left.dropped)| && Elements(left.dropped)[q] == Wrap(x) then (left, None)
               else (left, Some(Wrap(left.base - q)))
  {
    hide Wrap, Elements, LowerBound;
    WrapSub(x, HALF);
    if m.dropped.Leaf? {
      WrapSame(m.base);
      BoundOfLeaf(Wrap(x - HALF));
      BoundOfLeaf(Wrap(x));
    }
  }

  lemma WrapSame(a: U16)
    ensures Wrap(a - 0) == a
  {
  }

  // Looking up an input among elements that are all within HALF of it.
  lemma CountWithin(left: Manager, w: View, x: int)
    requires Tracks(left, w) && w.floor <= x && forall i :: 0 <= i < |w.live| ==> x - HALF <= w.live[i] <= x + HALF
    ensures var s, q := Elements(left.dropped), LowerBound(left.dropped, Wrap(x));
            && (q < |s| && s[q] == Wrap(x) <==> x in w.all)
            && Wrap(left.base - q) == Wrap(w.offset - |Below(w.all, x)|)
  {
    hide Wrap, Elements, LowerBound, CountBelow, Below;
    InputBound(left.dropped, w.live, x);
    BelowCount(w.live, w.all, w.floor, x);
    WrapSub(w.offset - |Below(w.all, w.floor)|, CountBelow(w.live, x));
  }

  lemma {:induction false} SortedLength(live: seq<int>)
    requires Sorted(live) && live != []
    ensures |live| <= live[|live| - 1] - live[0] + 1
    decreases |live|
  {
    if |live| > 1 { SortedLength(live[..|live| - 1]); }
  }

  lemma AllCount(v: View)
    requires Lists(v.live, v.all, v.floor) && v.live != []
    ensures |v.all| == |Below(v.all, v.floor)| + |v.live|
  {
    var y := v.live[|v.live| - 1] + 1;
    assert v.live[|v.live| - 1] in v.live;
    BelowCount(v.live, v.all, v.floor, y);
    assert Below(v.all, y) == v.all by {
      assert forall d :: d in v.all ==> d < y;
    }
    assert CountBelow(v.live, y) == |v.live|;
  }

  // The dropped numbers that are not below x: some, if one is ahead, and at most HALF + 1.
  lemma AheadCount(v: View, x: int)
    requires Lists(v.live, v.all, v.floor) && Narrow(v.live) && v.floor <= x && SomeAhead(v.live, x)
    ensures 0 < |v.all| - |Below(v.all, x)| <= HALF + 1
  {
    hide Below, CountBelow, Wrap;
    AllCount(v);
    BelowCount(v.live, v.all, v.floor, x);
    SortedLength(v.live);
    var d :| d in v.live && Ahead(d, x);
    var i :| 0 <= i < |v.live| && v.live[i] == d;
    assert CountBelow(v.live, x) <= i;
  }

  lemma {:induction false} MisledAhead(t: Tree, live: seq<int>, x: int)
    requires Misled(t, live, x)
    ensures SomeAhead(live, x)
    decreases t
  {
    if !SomeAhead(live, x) { NoneAheadIsRight(t, live, x); }
  }

  lemma SortedOf(v: View)
    requires Lists(v.live, v.all, v.floor)
    ensures Sorted(v.live)
  {
  }

  // The lookup that is misled: everything dropped is forgotten, and counts as below x.
  lemma LookedWrong(m: Manager, v: View, x: int, balance: Shape)
    requires Tracks(m, v) && InWindow(v, x) && Misled(m.dropped, v.live, x)
    ensures 0 < |v.all| - |Below(v.all, x)| <= HALF + 1
    ensures Looked(m, Wrap(x), balance)
         == (m.(dropped := Leaf, base := Wrap(v.offset - |v.all|)), Some(Wrap(v.offset - |v.all|)))
  {
    hide Below, LowerBound, Wrap, Looked, Misled, CountBelow, Elements, Erased, Ahead, SomeAhead, Lists, Narrow;
    SortedOf(v);
    PurgeBound(m.dropped, v.live, x);
    MisledAhead(m.dropped, v.live, x);
    AheadCount(v, x);
    AllCount(v);
    var n := |v.live|;
    LookedIs(m, x, balance);
    WrapSub(v.offset - |Below(v.all, v.floor)|, n);
    WrapSame(Wrap(m.base - n));
    assert Elements(m.dropped)[n..] == [];
    assert Erased(m.dropped, n, balance) == Leaf;
    BoundOfLeaf(Wrap(x));
  }

  lemma BoundOfLeaf(k: U16)
    ensures LowerBound(Leaf, k) == 0
  {
  }

  // What an input should get, given the numbers dropped.
  function Due(offset: int, all: set<int>, x: int): Option<U16>
  {
    if x in all then None else Some(Wrap(offset + Rank(all, x)))
  }

  // A dropped input gets nothing and any other its rank, if and only if the descent is not misled.
  lemma InputIff(m: Manager, v: View, x: int, balance: Shape)
    requires Tracks(m, v) && InWindow(v, x)
    ensures Input(m, Wrap(x), balance).1 == Due(v.offset, v.all, x) <==> !Misled(m.dropped, v.live, x)
  {
    hide Wrap, Looked, Tracks, InWindow, Misled, Below, Sent;
    var y := v.offset - |Below(v.all, x)|;
    WrapAdd(x, y);
    if Misled(m.dropped, v.live, x) {
      LookedWrong(m, v, x, balance);
      var extra := |v.all| - |Below(v.all, x)|;
      WrapAdd(x, y - extra);
      WrapDiffers(x + y, extra);
    } else {
      LookedRight(m, v, x, balance);
    }
  }

  // Whatever tree the set is kept in, an input gets what is due, if and only if no remembered drop is
  // ahead of it.
  lemma InputEveryTree(m: Manager, v: View, x: int, balance: Shape)
    requires Tracks(m, v) && InWindow(v, x)
    ensures (forall t :: Elements(t) == Elements(m.dropped) ==>
               Input(m.(dropped := t), Wrap(x), balance).1 == Due(v.offset, v.all, x)) <==> !SomeAhead(v.live, x)
  {
    hide Wrap, Due, InWindow, Misled, Input, Ahead, Narrow, Below, Elements;
    forall t | Elements(t) == Elements(m.dropped)
      ensures Input(m.(dropped := t), Wrap(x), balance).1 == Due(v.offset, v.all, x) <==> !Misled(t, v.live, x)
      ensures !SomeAhead(v.live, x) ==> !Misled(t, v.live, x)
    {
      InputIff(m.(dropped := t), v, x, balance);
      if !SomeAhead(v.live, x) { NoneAheadIsRight(t, v.live, x); }
    }
    if SomeAhead(v.live, x) {
      var t := Chain(Elements(m.dropped));
      ChainMisleads(Elements(m.dropped), v.live, x);
      assert Elements(t) == Elements(m.dropped);
    }
  }

  lemma WrapDiffers(a: int, extra: int)
    requires 0 < extra <= HALF + 1
    ensures Wrap(a) != Wrap(a - extra)
  {
    assert extra == SIZE * (a / SIZE - (a - extra) / SIZE) + (Wrap(a) - Wrap(a - extra));
  }
}
