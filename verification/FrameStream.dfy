/**
 Streams of frames cut into arbitrary chunks: what both receivers are measured against.
 */
module FrameStream {
  import opened Octets
  import opened Sequences
  import opened Netstring

  function Flatten(chunks: seq<Bytes>): Bytes
  {
    if chunks == [] then [] else Flatten(chunks[..|chunks| - 1]) + chunks[|chunks| - 1]
  }

  // How many frames of the stream of ps lie wholly in its first n bytes.
  function Complete(ps: seq<Bytes>, n: nat): (k: nat)
    ensures k <= |ps|
  {
    if ps == [] || n < |Frame(ps[0])| then 0 else 1 + Complete(ps[1..], n - |Frame(ps[0])|)
  }

  // The bytes of the complete frames, and of the frame that is cut.
  lemma {:induction false} CompleteBounds(ps: seq<Bytes>, n: nat)
    ensures var k := Complete(ps, n);
            && |Stream(ps[..k])| <= n
            && (k < |ps| ==> n < |Stream(ps[..k])| + |Frame(ps[k])|)
  {
    if ps != [] && n >= |Frame(ps[0])| {
      CompleteBounds(ps[1..], n - |Frame(ps[0])|);
      TakeHead(ps, Complete(ps, n));
    }
  }

  // Counting may start after any number of complete frames.
  lemma {:induction false} CompleteSplit(ps: seq<Bytes>, j: nat, n: nat)
    requires j <= |ps| && |Stream(ps[..j])| <= n
    ensures Complete(ps, n) == j + Complete(ps[j..], n - |Stream(ps[..j])|)
  {
    if j == 0 {
      assert ps[0..] == ps;
    } else {
      TakeHead(ps, j);
      CompleteSplit(ps[1..], j - 1, n - |Frame(ps[0])|);
      assert ps[1..][j - 1..] == ps[j..];
    }
  }

  lemma NothingComplete(ps: seq<Bytes>)
    ensures Complete(ps, 0) == 0 && Stream([]) == []
  {
  }

  lemma CompleteAll(ps: seq<Bytes>)
    ensures Complete(ps, |Stream(ps)|) == |ps|
  {
    assert ps[..|ps|] == ps;
    CompleteSplit(ps, |ps|, |Stream(ps)|);
  }

  lemma StreamSplit(ps: seq<Bytes>, j: nat)
    requires j <= |ps|
    ensures Stream(ps) == Stream(ps[..j]) + Stream(ps[j..])
  {
    SplitAt(ps, j);
    StreamConcat(ps[..j], ps[j..]);
  }
}
