/**
 The std::set of sequence numbers that SeqManager keeps (src/RTC/SeqManager.cpp, for uint16_t), ordered
 by a comparison that wraps around. The comparison orders only numbers that are close enough together,
 so what lower_bound finds can depend on the tree that the set is kept in: the set is modelled as a
 search tree, and lower_bound as its descent.
 */
module SeqSet {
  const SIZE: int := 65536
  const HALF: int := 32767 // MaxValue / 2

  type U16 = x: int | 0 <= x < 65536

  function Wrap(x: int): U16 { x % SIZE }

  predicate SeqLowerThan(l: U16, r: U16)
  {
    (r > l && r - l <= HALF) || (l > r && l - r > HALF)
  }

  predicate SeqHigherThan(l: U16, r: U16)
  {
    (l > r && l - r <= HALF) || (r > l && r - l > HALF)
  }

  // What the comparison says of unwrapped numbers less than a circle apart: right up to HALF,
  // reversed from HALF + 2 on, and at HALF + 1 decided by the wrapped values.
  lemma LowerExact(a: int, b: int)
    requires -SIZE < b - a < SIZE
    ensures SeqLowerThan(Wrap(a), Wrap(b)) <==>
              || 1 <= b - a <= HALF || b - a < -(HALF + 1)
              || ((b - a == HALF + 1 || a - b == HALF + 1) && Wrap(a) > Wrap(b))
    ensures -HALF <= b - a <= HALF ==> (SeqHigherThan(Wrap(a), Wrap(b)) <==> a > b)
    ensures -HALF <= b - a <= HALF ==> (Wrap(a) == Wrap(b) <==> a == b)
  {
    var turns := b / SIZE - a / SIZE;
    assert b - a == SIZE * turns + (Wrap(b) - Wrap(a));
    assert -1 <= turns <= 1;
  }

  // ---- The tree ----

  datatype Tree = Leaf | Node(left: Tree, key: U16, right: Tree)

  // The elements in the order in which the set is traversed.
  function Elements(t: Tree): (s: seq<U16>)
    ensures s == [] <==> t.Leaf?
  {
    if t.Leaf? then [] else Elements(t.left) + [t.key] + Elements(t.right)
  }

  // How a set arranges its elements after a change: as any search tree with the same traversal.
  type Shape = b: seq<U16> -> Tree | forall s :: Elements(b(s)) == s ghost witness Chain

  // The arrangement in which every element lies on the way to the one before it.
  function Chain(s: seq<U16>): (t: Tree)
    ensures Elements(t) == s
  {
    if s == [] then Leaf
    else
      var t := Node(Chain(s[..|s| - 1]), s[|s| - 1], Leaf);
      assert s == s[..|s| - 1] + [s[|s| - 1]] + [];
      t
  }

  // std::set::lower_bound: to the right of keys that are lower than k, to the left of the others. The
  // result is a position in the traversal.
  function LowerBound(t: Tree, k: U16): (i: nat)
    ensures i <= |Elements(t)|
  {
    if t.Leaf? then 0
    else if SeqLowerThan(t.key, k) then |Elements(t.left)| + 1 + LowerBound(t.right, k)
    else LowerBound(t.left, k)
  }

  // std::set::insert: nothing changes if an equivalent element is found.
  function Inserted(t: Tree, x: U16, balance: Shape): Tree
  {
    var s, i := Elements(t), LowerBound(t, x);
    if i < |s| && !SeqLowerThan(x, s[i]) then t else balance(s[..i] + [x] + s[i..])
  }

  // std::set::erase of the first p elements.
  function Erased(t: Tree, p: nat, balance: Shape): (r: Tree)
    requires p <= |Elements(t)|
    ensures Elements(r) == Elements(t)[p..]
  {
    if p == 0 then t else balance(Elements(t)[p..])
  }

  // The elements of a tree by position.
  lemma ElementAt(t: Tree, i: nat)
    requires t.Node? && i < |Elements(t)|
    ensures var n := |Elements(t.left)|;
            && |Elements(t)| == n + 1 + |Elements(t.right)|
            && Elements(t)[i] == if i < n then Elements(t.left)[i]
                                 else if i == n then t.key else Elements(t.right)[i - n - 1]
  {
  }

  // When the elements that are lower than k come first, every tree finds where they end.
  lemma {:induction false} LowerBoundSplits(t: Tree, k: U16, c: nat)
    requires c <= |Elements(t)|
    requires forall j :: 0 <= j < c ==> SeqLowerThan(Elements(t)[j], k)
    requires forall j :: c <= j < |Elements(t)| ==> !SeqLowerThan(Elements(t)[j], k)
    ensures LowerBound(t, k) == c
  {
    if t.Node? {
      hide SeqLowerThan;
      var n := |Elements(t.left)|;
      forall i | 0 <= i < n ensures Elements(t)[i] == Elements(t.left)[i] { ElementAt(t, i); }
      forall i | 0 <= i < |Elements(t.right)| ensures Elements(t)[n + 1 + i] == Elements(t.right)[i] {
        ElementAt(t, n + 1 + i);
      }
      ElementAt(t, n);
      if n < c {
        LowerBoundSplits(t.right, k, c - n - 1);
      } else {
        LowerBoundSplits(t.left, k, c);
      }
    }
  }
}
