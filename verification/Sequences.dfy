/** Facts about sequences that are cheaper to cite than to rediscover. */
module Sequences {
  lemma ConcatAssoc<T>(a: seq<T>, b: seq<T>, c: seq<T>)
    ensures a + (b + c) == a + b + c
  {
  }

  lemma ConcatParts<T>(a: seq<T>, b: seq<T>)
    ensures (a + b)[..|a|] == a && (a + b)[|a|..] == b
  {
  }

  lemma SplitAt<T>(s: seq<T>, k: nat)
    requires k <= |s|
    ensures s == s[..k] + s[k..]
  {
  }

  lemma PrefixAfter<T>(a: seq<T>, b: seq<T>, tail: seq<T>)
    requires a + tail <= a + b
    ensures tail <= b
  {
    assert tail == (a + tail)[|a|..] == (a + b)[|a|..|a| + |tail|] == b[..|tail|];
  }

  lemma PrefixCut<T>(s: seq<T>, a: seq<T>, b: seq<T>)
    requires s <= a + b
    ensures |s| < |a| ==> s < a
    ensures |s| >= |a| ==> s == a + s[|a|..] && s[|a|..] <= b
  {
    assert s == (a + b)[..|s|];
    if |s| < |a| {
      assert s == a[..|s|];
    } else {
      assert s[|a|..] == b[..|s| - |a|];
    }
  }

  // A prefix, by head and tail.
  lemma TakeHead<T>(s: seq<T>, k: nat)
    requires 0 < k <= |s|
    ensures s[..k] == [s[0]] + s[1..][..k - 1] && s[..k][0] == s[0] && s[..k][1..] == s[1..][..k - 1]
  {
  }

  // A prefix that is cut in two.
  lemma TakeTake<T>(s: seq<T>, j: nat, k: nat)
    requires j <= k <= |s|
    ensures s[..k] == s[..j] + s[j..][..k - j] && s[..k][..j] == s[..j] && s[..k][j..] == s[j..][..k - j]
  {
  }

  lemma SameHeadTail<T>(a: seq<T>, b: seq<T>)
    requires a != [] && b != []
    ensures a == b <==> a[0] == b[0] && a[1..] == b[1..]
  {
    assert a == [a[0]] + a[1..] && b == [b[0]] + b[1..];
  }

  lemma HeadIn<T>(s: seq<T>)
    ensures s != [] ==> s[0] in s
  {
  }

  // ---- Picking elements ----

  predicate Increasing(at: seq<nat>)
  {
    forall a, b :: 0 <= a < b < |at| ==> at[a] < at[b]
  }

  // r consists of the elements of s at these positions, in order.
  predicate At<T(==)>(s: seq<T>, r: seq<T>, at: seq<nat>)
  {
    |at| == |r| && Increasing(at) && forall a :: 0 <= a < |at| ==> at[a] < |s| && s[at[a]] == r[a]
  }

  // The positions of the elements that satisfy p.
  predicate Marks<T>(s: seq<T>, p: T -> bool, at: seq<nat>)
  {
    forall i: nat :: i < |s| ==> (p(s[i]) <==> i in at)
  }

  // r consists of the elements of s that satisfy p, in order.
  ghost predicate Picks<T(!new)>(s: seq<T>, r: seq<T>, p: T -> bool)
  {
    exists at :: At(s, r, at) && Marks(s, p, at)
  }

  lemma PicksNone<T(!new)>(p: T -> bool)
    ensures Picks([], [], p)
  {
    assert At<T>([], [], []) && Marks<T>([], p, []);
  }

  function Shifted(at: seq<nat>): (r: seq<nat>)
    ensures |r| == |at| && forall a :: 0 <= a < |at| ==> r[a] == at[a] + 1
  {
    seq(|at|, a requires 0 <= a < |at| => at[a] + 1)
  }

  lemma ShiftedIn(at: seq<nat>, i: nat)
    ensures i in Shifted(at) <==> i > 0 && i - 1 in at
  {
    hide Shifted;
    var r := Shifted(at);
    if i in r {
      var a :| 0 <= a < |r| && r[a] == i;
      assert at[a] == i - 1;
    }
    if i > 0 && i - 1 in at {
      var a :| 0 <= a < |at| && at[a] == i - 1;
      assert r[a] == i;
    }
  }

  lemma AtSkip<T>(x: T, s: seq<T>, r: seq<T>, at: seq<nat>)
    requires At(s, r, at)
    ensures At([x] + s, r, Shifted(at))
  {
    hide Shifted;
  }

  lemma AtTake<T>(x: T, s: seq<T>, r: seq<T>, at: seq<nat>)
    requires At(s, r, at)
    ensures At([x] + s, [x] + r, [0] + Shifted(at))
  {
    hide Shifted;
    var now := [0] + Shifted(at);
    assert forall a :: 0 < a < |now| ==> now[a] == at[a - 1] + 1;
  }

  lemma MarksCons<T>(x: T, s: seq<T>, p: T -> bool, at: seq<nat>)
    requires Marks(s, p, at)
    ensures Marks([x] + s, p, if p(x) then [0] + Shifted(at) else Shifted(at))
  {
    hide Shifted;
    var all, later := [x] + s, Shifted(at);
    forall i: nat | i < |all| ensures p(all[i]) <==> i in if p(x) then [0] + later else later {
      ShiftedIn(at, i);
      if i > 0 { assert all[i] == s[i - 1]; }
    }
  }

  lemma PicksCons<T(!new)>(x: T, s: seq<T>, r: seq<T>, p: T -> bool)
    requires Picks(s, r, p)
    ensures Picks([x] + s, if p(x) then [x] + r else r, p)
  {
    hide At, Marks, Shifted;
    var at :| At(s, r, at) && Marks(s, p, at);
    AtSkip(x, s, r, at);
    AtTake(x, s, r, at);
    MarksCons(x, s, p, at);
  }
}
