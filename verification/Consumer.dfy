/**
 canConsume and the codec part of getConsumerRtpParameters (mediasouptestcase/src/ortc.ts).
 */
module Consumer {
  import opened Options
  import opened Sequences
  import opened Codecs
  import opened RouterCapabilities
  import opened Negotiation
  import opened Consumable

  // Some capability strictly matches the codec.
  predicate Supports(caps: seq<Capability>, c: Codec, h: H264)
  {
    exists k :: 0 <= k < |caps| && Match(caps[k].Sig(), c.Sig(), true, h)
  }

  function FindCap(caps: seq<Capability>, c: Codec, h: H264): (r: Option<nat>)
    ensures r.Some? <==> Supports(caps, c, h)
  {
    hide Match;
    First(caps, (k: Capability) => Match(k.Sig(), c.Sig(), true, h))
  }

  function Matching(codecs: seq<Codec>, caps: seq<Capability>, h: H264): (r: seq<Codec>)
    ensures forall c :: c in r <==> c in codecs && Supports(caps, c, h)
  {
    if codecs == [] then []
    else (if Supports(caps, codecs[0], h) then [codecs[0]] else []) + Matching(codecs[1..], caps, h)
  }

  method MatchingCodecs(codecs: seq<Codec>, caps: seq<Capability>, h: H264) returns (r: seq<Codec>)
    ensures r == Matching(codecs, caps, h)
  {
    hide Supports, First;
    r := [];
    assert codecs[0..] == codecs && [] + Matching(codecs, caps, h) == Matching(codecs, caps, h);
    for n := 0 to |codecs|
      invariant r + Matching(codecs[n..], caps, h) == Matching(codecs, caps, h)
    {
      var codec := codecs[n];
      assert codecs[n..][0] == codec && codecs[n..][1..] == codecs[n + 1..];
      var matched := FindCap(caps, codec, h);
      if matched.None? {
        assert [] + Matching(codecs[n + 1..], caps, h) == Matching(codecs[n + 1..], caps, h);
        continue;
      }
      ConcatAssoc(r, [codec], Matching(codecs[n + 1..], caps, h));
      r := r + [codec];
    }
    assert codecs[|codecs|..] == [] && r + [] == r;
  }

  predicate StartsWithMedia(codecs: seq<Codec>) { codecs != [] && !RtxCodec(codecs[0]) }

  function CanConsume(consumable: seq<Codec>, caps: seq<Capability>, h: H264): Result<bool>
  {
    match ValidateAll(caps)
    case Err(e) => Err(e)
    case Ok(valid) => Ok(StartsWithMedia(Matching(consumable, valid, h)))
  }

  method CanConsumeProducer(consumable: seq<Codec>, caps: seq<Capability>, h: H264) returns (r: Result<bool>)
    ensures r == CanConsume(consumable, caps, h)
  {
    hide Matching;
    var valid := ValidateAll(caps);
    if valid.Err? { return Err(valid.error); }
    var matching := MatchingCodecs(consumable, valid.value, h);
    if |matching| == 0 || RtxCodec(matching[0]) { return Ok(false); }
    return Ok(true);
  }

  // Some capability is compatible with the codec.
  predicate HasFormat(caps: seq<Capability>, c: Codec, h: H264)
  {
    exists k :: 0 <= k < |caps| && Compatible(caps[k].Sig(), c.Sig(), h)
  }

  // A peer supports exactly the codecs that one of its capabilities is compatible with.
  lemma SupportsExact(caps: seq<Capability>, c: Codec, h: H264)
    ensures Supports(caps, c, h) <==> HasFormat(caps, c, h)
  {
    hide Match, Compatible;
    forall k | 0 <= k < |caps|
      ensures Match(caps[k].Sig(), c.Sig(), true, h) <==> Compatible(caps[k].Sig(), c.Sig(), h)
    {
      MatchExact(caps[k].Sig(), c.Sig(), h);
    }
  }

  // ---- The backward loop that removes useless RTX codecs ----

  predicate HasPt(codecs: seq<Codec>, apt: Option<Value>)
  {
    exists d :: d in codecs && Some(Num(d.payloadType)) == apt
  }

  // The loop on a list whose part "swept" has been dealt with.
  function Sweep(left: seq<Codec>, swept: seq<Codec>): seq<Codec>
    decreases |left|
  {
    if left == [] then swept
    else
      var c, before := left[|left| - 1], left[..|left| - 1];
      if RtxCodec(c) && !HasPt(left + swept, Apt(c.parameters)) then Sweep(before, swept)
      else Sweep(before, [c] + swept)
  }

  method RemoveUselessRtx(matched: seq<Codec>) returns (codecs: seq<Codec>, rtxSupported: bool)
    ensures codecs == Sweep(matched, [])
    ensures rtxSupported <==> exists i :: 0 <= i < |codecs| && RtxCodec(codecs[i])
  {
    hide RtxCodec, Sweep;
    codecs, rtxSupported := matched, false;
    var idx := |codecs| - 1;
    assert codecs[..idx + 1] == codecs && codecs[idx + 1..] == [];
    while idx >= 0
      invariant -1 <= idx < |codecs|
      invariant Sweep(codecs[..idx + 1], codecs[idx + 1..]) == Sweep(matched, [])
      invariant rtxSupported <==> exists i :: idx < i < |codecs| && RtxCodec(codecs[i])
    {
      var codec := codecs[idx];
      SweepStep(codecs, idx);
      if RtxCodec(codec) {
        var associated := Associated(codecs, Apt(codec.parameters));
        if associated.Some? {
          rtxSupported := true;
        } else {
          ghost var was := codecs;
          codecs := codecs[..idx] + codecs[idx + 1..];
          assert codecs[..idx] == was[..idx] && codecs[idx..] == was[idx + 1..];
          assert forall i :: idx <= i < |codecs| ==> codecs[i] == was[i + 1];
          assert forall i :: idx < i < |was| ==> was[i] == codecs[i - 1];
        }
      }
      idx := idx - 1;
    }
    assert codecs[..0] == [] && codecs[0..] == codecs;
    SweepDone(codecs);
  }

  lemma SweepDone(swept: seq<Codec>)
    ensures Sweep([], swept) == swept
  {
  }

  lemma SweepStep(codecs: seq<Codec>, idx: nat)
    requires idx < |codecs|
    ensures var c := codecs[idx];
            Sweep(codecs[..idx + 1], codecs[idx + 1..])
            == if RtxCodec(c) && Associated(codecs, Apt(c.parameters)).None?
               then Sweep(codecs[..idx], codecs[idx + 1..]) else Sweep(codecs[..idx], codecs[idx..])
  {
    hide RtxCodec;
    var left, swept := codecs[..idx + 1], codecs[idx + 1..];
    assert left + swept == codecs && left[..|left| - 1] == codecs[..idx];
    assert [codecs[idx]] + swept == codecs[idx..];
    var a := Apt(codecs[idx].parameters);
    var j := Associated(codecs, a);
    assert j.Some? ==> codecs[j.value] in codecs;
    assert HasPt(codecs, a) <==> j.Some?;
  }

  // What should be left of a list: everything but the RTX codecs whose media codec is not in all.
  function Kept(codecs: seq<Codec>, all: seq<Codec>): (r: seq<Codec>)
    ensures forall c :: c in r <==> c in codecs && (RtxCodec(c) ==> HasPt(all, Apt(c.parameters)))
  {
    if codecs == [] then []
    else (if RtxCodec(codecs[0]) && !HasPt(all, Apt(codecs[0].parameters)) then [] else [codecs[0]])
         + Kept(codecs[1..], all)
  }

  // No RTX codec names an RTX codec.
  predicate AptsNameMedia(codecs: seq<Codec>)
  {
    forall c, d :: c in codecs && d in codecs && RtxCodec(c) && Some(Num(d.payloadType)) == Apt(c.parameters) ==>
      !RtxCodec(d)
  }

  lemma {:induction false} SweepKept(all: seq<Codec>, n: nat)
    requires n <= |all| && AptsNameMedia(all)
    ensures Sweep(all[..n], Kept(all[n..], all)) == Kept(all, all)
  {
    hide RtxCodec, HasPt, AptsNameMedia, Apt, Sweep, Kept;
    if n == 0 {
      assert all[0..] == all && all[..0] == [];
      SweepDone(Kept(all, all));
    } else {
      var c, left, swept := all[n - 1], all[..n - 1], Kept(all[n..], all);
      assert all[..n] == left + [c] && all[n - 1..] == [c] + all[n..];
      if RtxCodec(c) { NothingLost(all, n, c); }
      SweepLast(left, c, swept);
      KeptFirst(c, all[n..], all);
      SweepKept(all, n - 1);
    }
  }

  lemma SweepLast(left: seq<Codec>, c: Codec, swept: seq<Codec>)
    ensures Sweep(left + [c], swept)
         == if RtxCodec(c) && !HasPt(left + [c] + swept, Apt(c.parameters)) then Sweep(left, swept)
            else Sweep(left, [c] + swept)
  {
    hide RtxCodec, HasPt, Apt;
    var all := left + [c];
    assert all[..|all| - 1] == left && all[|all| - 1] == c;
  }

  lemma KeptFirst(c: Codec, rest: seq<Codec>, all: seq<Codec>)
    ensures Kept([c] + rest, all)
         == if RtxCodec(c) && !HasPt(all, Apt(c.parameters)) then Kept(rest, all) else [c] + Kept(rest, all)
  {
    hide RtxCodec, HasPt, Apt;
    assert ([c] + rest)[1..] == rest && [] + Kept(rest, all) == Kept(rest, all);
  }

  // Sweeping removes no codec that an RTX codec still to be looked at could name.
  lemma NothingLost(all: seq<Codec>, n: nat, c: Codec)
    requires n <= |all| && AptsNameMedia(all) && c in all && RtxCodec(c)
    ensures HasPt(all[..n] + Kept(all[n..], all), Apt(c.parameters)) <==> HasPt(all, Apt(c.parameters))
  {
    hide RtxCodec, Kept, Apt;
    var apt, now := Apt(c.parameters), all[..n] + Kept(all[n..], all);
    forall d | d in all && Some(Num(d.payloadType)) == apt ensures d in now {
      assert d in all[..n] || d in all[n..] by { SplitAt(all, n); }
    }
    forall d | d in now ensures d in all {
      assert d in all[..n] || d in all[n..];
    }
  }

  function ConsumerCodecs(consumable: seq<Codec>, caps: seq<Capability>, h: H264): Result<seq<Codec>>
  {
    match ValidateAll(caps)
    case Err(e) => Err(e)
    case Ok(valid) =>
      var codecs := Sweep(Matching(consumable, valid, h), []);
      if StartsWithMedia(codecs) then Ok(codecs) else Err(Unsupported)
  }

  method GetConsumerCodecs(consumable: seq<Codec>, caps: seq<Capability>, h: H264)
    returns (r: Result<seq<Codec>>, rtxSupported: bool)
    ensures r == ConsumerCodecs(consumable, caps, h)
    ensures r.Ok? ==> (rtxSupported <==> exists i :: 0 <= i < |r.value| && RtxCodec(r.value[i]))
  {
    hide Matching, Sweep;
    rtxSupported := false;
    var valid := ValidateAll(caps);
    if valid.Err? { return Err(valid.error), false; }
    var matched := MatchingCodecs(consumable, valid.value, h);
    var codecs;
    codecs, rtxSupported := RemoveUselessRtx(matched);
    if |codecs| == 0 || RtxCodec(codecs[0]) { return Err(Unsupported), rtxSupported; }
    r := Ok(codecs);
  }

  lemma {:induction false} SweepWithin(left: seq<Codec>, swept: seq<Codec>)
    ensures forall c :: c in Sweep(left, swept) ==> c in left || c in swept
    decreases |left|
  {
    hide RtxCodec, HasPt;
    if left != [] {
      var c, before := left[|left| - 1], left[..|left| - 1];
      SweepWithin(before, swept);
      SweepWithin(before, [c] + swept);
    }
  }

  // Every codec that a consumer gets was offered, and has a capability of the peer in its very format.
  lemma ConsumerFormats(consumable: seq<Codec>, caps: seq<Capability>, h: H264)
    requires ConsumerCodecs(consumable, caps, h).Ok?
    ensures var valid := ValidateAll(caps).value;
            forall c :: c in ConsumerCodecs(consumable, caps, h).value ==>
              c in consumable && HasFormat(valid, c, h)
  {
    hide Supports, Sweep, ValidateAll, HasFormat, RtxCodec;
    var valid := ValidateAll(caps).value;
    var matched := Matching(consumable, valid, h);
    SweepWithin(matched, []);
    forall c | c in ConsumerCodecs(consumable, caps, h).value
      ensures c in consumable && HasFormat(valid, c, h)
    {
      assert c in matched;
      SupportsExact(valid, c, h);
    }
  }

  // ---- Lists that come from the negotiation ----

  predicate MediaFrom(c: Codec, caps: seq<Capability>, k: nat, h: H264)
    requires HavePts(caps)
  {
    k < |caps| && !Rtx(caps[k]) && c == MediaOf(caps, k, c.parameters) && Lookup(c.Sig(), caps, h) == Some(k)
  }

  predicate RtxFrom(c: Codec, caps: seq<Capability>, k: nat)
    requires HavePts(caps)
  {
    0 < k < |caps| && Rtx(caps[k]) && c == RtxCodecOf(caps, k)
  }

  predicate Pipelined(codecs: seq<Codec>, caps: seq<Capability>, h: H264)
    requires HavePts(caps)
  {
    forall c :: c in codecs ==> exists k :: 0 <= k < |caps| && (MediaFrom(c, caps, k, h) || RtxFrom(c, caps, k))
  }

  lemma {:induction false} BlocksPipelined(choices: seq<Choice>, caps: seq<Capability>, h: H264)
    requires RouterCaps(caps) && HavePts(caps) && AllChosen(choices, caps, h)
    ensures ChoicesWithin(choices, caps) && Pipelined(Blocks(choices, caps), caps, h)
  {
    hide RouterCaps, IsRtxMime, Lookup, Block;
    if choices != [] {
      var k, p := choices[0].cap, choices[0].parameters;
      BlocksPipelined(choices[1..], caps, h);
      BlockIs(choices[0], caps, h);
      assert MediaFrom(MediaOf(caps, k, p), caps, k, h);
      if caps[k].kind == Video { assert RtxFrom(RtxCodecOf(caps, k + 1), caps, k + 1); }
      assert Pipelined(Block(caps, k, p), caps, h);
    }
  }

  // In the router's list an RTX codec names the media codec before it, and payload types tell codecs
  // apart.
  lemma RtxNames(caps: seq<Capability>, i: nat, j: nat)
    requires RouterCaps(caps) && HavePts(caps) && i < |caps| && j < |caps|
    ensures Rtx(caps[i]) ==> i > 0 && !Rtx(caps[i - 1]) && Apt(caps[i].parameters) == Some(Num(Pt(caps, i - 1)))
    ensures Pt(caps, i) == Pt(caps, j) ==> i == j
  {
    hide Validate, IsRtxMime;
  }

  lemma PipelinedApts(codecs: seq<Codec>, caps: seq<Capability>, h: H264)
    requires RouterCaps(caps) && HavePts(caps) && Pipelined(codecs, caps, h)
    ensures AptsNameMedia(codecs)
  {
    hide RouterCaps, IsRtxMime, Lookup, Apt;
    forall c, d | c in codecs && d in codecs && RtxCodec(c) && Some(Num(d.payloadType)) == Apt(c.parameters)
      ensures !RtxCodec(d)
    {
      var i :| 0 <= i < |caps| && (MediaFrom(c, caps, i, h) || RtxFrom(c, caps, i));
      var j :| 0 <= j < |caps| && (MediaFrom(d, caps, j, h) || RtxFrom(d, caps, j));
      RtxNames(caps, i, i);
      RtxNames(caps, i - 1, j);
    }
  }

  // What the loop leaves, for codecs that come from the negotiation: exactly the matched codecs
  // without the RTX codecs whose media codec is absent; every RTX codec left has its media codec.
  lemma UselessRtxRemoved(choices: seq<Choice>, caps: seq<Capability>, peer: seq<Capability>, h: H264)
    requires RouterCaps(caps) && HavePts(caps) && AllChosen(choices, caps, h) && ChoicesWithin(choices, caps)
    ensures var matched := Matching(Blocks(choices, caps), peer, h);
            var left := Sweep(matched, []);
            && left == Kept(matched, matched)
            && forall c :: c in left && RtxCodec(c) ==>
                 exists d :: d in left && !RtxCodec(d) && Some(Num(d.payloadType)) == Apt(c.parameters)
  {
    hide Blocks, Supports, RtxCodec, Apt, RouterCaps, Sweep;
    var matched := Matching(Blocks(choices, caps), peer, h);
    BlocksPipelined(choices, caps, h);
    assert Pipelined(matched, caps, h);
    PipelinedApts(matched, caps, h);
    SweepKept(matched, |matched|);
    assert matched[..|matched|] == matched && matched[|matched|..] == [];
    hide AllChosen, Pipelined, ChoicesWithin;
    var left := Sweep(matched, []);
    forall c | c in left && RtxCodec(c)
      ensures exists d :: d in left && !RtxCodec(d) && Some(Num(d.payloadType)) == Apt(c.parameters)
    {
      var d :| d in matched && Some(Num(d.payloadType)) == Apt(c.parameters);
      assert d in left;
    }
  }

  // ---- canConsume against getConsumerRtpParameters ----

  lemma {:induction false} SweepHead(left: seq<Codec>, swept: seq<Codec>)
    requires StartsWithMedia(left)
    ensures Sweep(left, swept) != [] && Sweep(left, swept)[0] == left[0]
    decreases |left|
  {
    hide RtxCodec, HasPt;
    if |left| == 1 {
      assert left[..0] == [];
    } else {
      var c, before := left[|left| - 1], left[..|left| - 1];
      assert before[0] == left[0];
      if RtxCodec(c) && !HasPt(left + swept, Apt(c.parameters)) {
        SweepHead(before, swept);
      } else {
        SweepHead(before, [c] + swept);
      }
    }
  }

  // canConsume is sound for every codec list and every capabilities.
  lemma CanConsumeSound(consumable: seq<Codec>, caps: seq<Capability>, h: H264)
    requires CanConsume(consumable, caps, h) == Ok(true)
    ensures ConsumerCodecs(consumable, caps, h).Ok?
  {
    hide Matching, Sweep;
    SweepHead(Matching(consumable, ValidateAll(caps).value, h), []);
  }

  // A peer supports a codec or not whatever parameters it went through the same capability with.
  lemma SameSupport(c: Codec, d: Codec, caps: seq<Capability>, k: nat, peer: seq<Capability>, h: H264)
    requires HavePts(caps) && h.Stable() && MediaFrom(c, caps, k, h) && MediaFrom(d, caps, k, h)
    requires Supports(peer, c, h)
    ensures Supports(peer, d, h)
  {
    var i :| 0 <= i < |peer| && Match(peer[i].Sig(), c.Sig(), true, h);
    hide Match, Rtx;
    MatchTransitive(peer[i].Sig(), c.Sig(), caps[k].Sig(), h);
    MatchSymmetric(caps[k].Sig(), d.Sig(), true, h);
    MatchTransitive(peer[i].Sig(), caps[k].Sig(), d.Sig(), h);
  }

  lemma {:induction false} MatchingConcat(a: seq<Codec>, b: seq<Codec>, caps: seq<Capability>, h: H264)
    ensures Matching(a + b, caps, h) == Matching(a, caps, h) + Matching(b, caps, h)
  {
    hide Supports;
    if a == [] {
      assert a + b == b;
    } else {
      assert (a + b)[1..] == a[1..] + b;
      MatchingConcat(a[1..], b, caps, h);
      ConcatAssoc(if Supports(caps, a[0], h) then [a[0]] else [], Matching(a[1..], caps, h), Matching(b, caps, h));
    }
  }

  lemma {:induction false} KeptConcat(a: seq<Codec>, b: seq<Codec>, all: seq<Codec>)
    ensures Kept(a + b, all) == Kept(a, all) + Kept(b, all)
  {
    hide RtxCodec, HasPt;
    if a == [] {
      assert a + b == b;
    } else {
      assert (a + b)[1..] == a[1..] + b;
      KeptConcat(a[1..], b, all);
      ConcatAssoc(if RtxCodec(a[0]) && !HasPt(all, Apt(a[0].parameters)) then [] else [a[0]],
                  Kept(a[1..], all), Kept(b, all));
    }
  }

  // The block of an unsupported media codec leaves nothing behind.
  lemma UnsupportedBlock(choice: Choice, all: seq<Codec>, caps: seq<Capability>, peer: seq<Capability>, h: H264)
    requires RouterCaps(caps) && HavePts(caps) && h.Stable() && Chosen(choice, caps, h)
    requires Pipelined(all, caps, h) && forall c :: c in all ==> Supports(peer, c, h)
    requires !Supports(peer, MediaOf(caps, choice.cap, choice.parameters), h)
    ensures Kept(Matching(Block(caps, choice.cap, choice.parameters), peer, h), all) == []
  {
    hide Supports, Lookup, Validate, IsRtxMime;
    var k := choice.cap;
    var m := MediaOf(caps, k, choice.parameters);
    RtxIsNext(caps, k);
    forall d | d in all ensures d.payloadType != Pt(caps, k) {
      var j :| 0 <= j < |caps| && (MediaFrom(d, caps, j, h) || RtxFrom(d, caps, j));
      if d.payloadType == Pt(caps, k) {
        assert j == k;
        SameSupport(d, m, caps, k, peer, h);
      }
    }
    var block := Block(caps, k, choice.parameters);
    assert forall c :: c in block ==> c == m || (RtxCodec(c) && Apt(c.parameters) == Some(Num(Pt(caps, k))));
    assert !HasPt(all, Some(Num(Pt(caps, k))));
    var left := Kept(Matching(block, peer, h), all);
    HeadIn(left);
  }

  // What is left of the negotiated codecs never begins with an RTX codec.
  lemma {:induction false} LeftStartsWithMedia(
    choices: seq<Choice>, all: seq<Codec>, caps: seq<Capability>, peer: seq<Capability>, h: H264)
    requires RouterCaps(caps) && HavePts(caps) && h.Stable()
    requires AllChosen(choices, caps, h) && ChoicesWithin(choices, caps)
    requires Pipelined(all, caps, h) && forall c :: c in all ==> Supports(peer, c, h)
    ensures var left := Kept(Matching(Blocks(choices, caps), peer, h), all);
            left == [] || StartsWithMedia(left)
  {
    hide Supports, Lookup, RouterCaps, Rtx, RtxOf;
    if choices != [] {
      var first, rest := choices[0], choices[1..];
      var m, block := MediaOf(caps, first.cap, first.parameters), Block(caps, first.cap, first.parameters);
      LeftStartsWithMedia(rest, all, caps, peer, h);
      MatchingConcat(block, Blocks(rest, caps), peer, h);
      KeptConcat(Matching(block, peer, h), Matching(Blocks(rest, caps), peer, h), all);
      if Supports(peer, m, h) {
        assert block[0] == m && Matching(block, peer, h)[0] == m;
        assert !RtxCodec(m) by { assert Chosen(first, caps, h); NotRtx(first, caps, h); }
        assert Kept(Matching(block, peer, h), all)[0] == m;
      } else {
        UnsupportedBlock(first, all, caps, peer, h);
        var later := Kept(Matching(Blocks(rest, caps), peer, h), all);
        assert [] + later == later;
      }
    }
  }

  lemma NotRtx(choice: Choice, caps: seq<Capability>, h: H264)
    requires HavePts(caps) && Chosen(choice, caps, h)
    ensures !RtxCodec(MediaOf(caps, choice.cap, choice.parameters))
  {
  }

  // For negotiated codecs getConsumerRtpParameters succeeds if and only if some media codec is
  // supported.
  lemma ConsumerOkIff(choices: seq<Choice>, caps: seq<Capability>, peer: seq<Capability>, h: H264)
    requires RouterCaps(caps) && HavePts(caps) && h.Stable()
    requires AllChosen(choices, caps, h) && ChoicesWithin(choices, caps)
    requires ValidateAll(peer).Ok?
    ensures var valid := ValidateAll(peer).value;
            var consumable := Blocks(choices, caps);
            ConsumerCodecs(consumable, peer, h).Ok? <==>
              exists c :: c in consumable && !RtxCodec(c) && Supports(valid, c, h)
  {
    var valid, consumable := ValidateAll(peer).value, Blocks(choices, caps);
    var matched := Matching(consumable, valid, h);
    UselessRtxRemoved(choices, caps, valid, h);
    BlocksPipelined(choices, caps, h);
    assert Pipelined(matched, caps, h);
    LeftStartsWithMedia(choices, matched, caps, valid, h);
    hide Supports, RtxCodec, Blocks, Pipelined, AllChosen, RouterCaps, HasPt, Sweep;
    var left := Kept(matched, matched);
    if c :| c in consumable && !RtxCodec(c) && Supports(valid, c, h) {
      assert c in left;
    }
    if left != [] {
      assert left[0] in left && left[0] in matched;
    }
  }

  // The first codec that the peer supports is an RTX codec.
  predicate RtxComesFirst(consumable: seq<Codec>, peer: seq<Capability>, h: H264)
  {
    exists i :: 0 <= i < |consumable| && RtxCodec(consumable[i]) && Supports(peer, consumable[i], h)
      && forall l :: 0 <= l < i ==> !Supports(peer, consumable[l], h)
  }

  // The matched codecs begin with the first supported one.
  lemma {:induction false} MatchingHead(codecs: seq<Codec>, caps: seq<Capability>, h: H264) returns (i: nat)
    ensures i <= |codecs| && forall l :: 0 <= l < i ==> !Supports(caps, codecs[l], h)
    ensures i < |codecs| ==>
              && Supports(caps, codecs[i], h)
              && Matching(codecs, caps, h) != [] && Matching(codecs, caps, h)[0] == codecs[i]
    ensures i == |codecs| ==> Matching(codecs, caps, h) == []
  {
    hide Supports, Matching;
    MatchingFirst(codecs, caps, h);
    if codecs == [] || Supports(caps, codecs[0], h) { return 0; }
    i := MatchingHead(codecs[1..], caps, h);
    i := i + 1;
    assert forall l :: 0 < l < i ==> codecs[l] == codecs[1..][l - 1];
  }

  lemma MatchingFirst(codecs: seq<Codec>, caps: seq<Capability>, h: H264)
    ensures codecs == [] ==> Matching(codecs, caps, h) == []
    ensures codecs != [] && Supports(caps, codecs[0], h) ==>
              Matching(codecs, caps, h) == [codecs[0]] + Matching(codecs[1..], caps, h)
    ensures codecs != [] && !Supports(caps, codecs[0], h) ==>
              Matching(codecs, caps, h) == Matching(codecs[1..], caps, h)
  {
    hide Supports;
    if codecs != [] {
      var rest := Matching(codecs[1..], caps, h);
      assert [] + rest == rest;
    }
  }

  // Exactly when canConsume refuses what getConsumerRtpParameters accepts, for any codec list.
  lemma CanConsumeIff(consumable: seq<Codec>, peer: seq<Capability>, h: H264)
    requires ValidateAll(peer).Ok? && ConsumerCodecs(consumable, peer, h).Ok?
    ensures CanConsume(consumable, peer, h) == Ok(true) <==> !RtxComesFirst(consumable, ValidateAll(peer).value, h)
  {
    hide Supports, RtxCodec, Matching, Sweep, ValidateAll;
    var i := MatchingHead(consumable, ValidateAll(peer).value, h);
    SweepDone([]);
  }

  // The peer supports something of what a choice contributes.
  predicate Touches(peer: seq<Capability>, choice: Choice, caps: seq<Capability>, h: H264)
    requires HavePts(caps) && choice.cap < |caps|
  {
    exists c :: c in Block(caps, choice.cap, choice.parameters) && Supports(peer, c, h)
  }

  // The choice is a video codec that the peer does not support, although it supports its RTX codec.
  predicate Orphaned(peer: seq<Capability>, choice: Choice, caps: seq<Capability>, h: H264)
    requires HavePts(caps) && choice.cap < |caps|
  {
    && caps[choice.cap].kind == Video && choice.cap + 1 < |caps|
    && !Supports(peer, MediaOf(caps, choice.cap, choice.parameters), h)
    && Supports(peer, RtxCodecOf(caps, choice.cap + 1), h)
  }

  // The first choice of which the peer supports anything is orphaned.
  predicate OrphanFirst(peer: seq<Capability>, choices: seq<Choice>, caps: seq<Capability>, h: H264)
    requires HavePts(caps) && ChoicesWithin(choices, caps)
  {
    exists b :: 0 <= b < |choices| && Orphaned(peer, choices[b], caps, h)
      && forall a :: 0 <= a < b ==> !Touches(peer, choices[a], caps, h)
  }

  lemma BlockIs(choice: Choice, caps: seq<Capability>, h: H264)
    requires RouterCaps(caps) && HavePts(caps) && Chosen(choice, caps, h)
    ensures var k := choice.cap;
            var m := MediaOf(caps, k, choice.parameters);
            && !RtxCodec(m)
            && if caps[k].kind == Video
               then && k + 1 < |caps| && RtxCodec(RtxCodecOf(caps, k + 1))
                    && Block(caps, k, choice.parameters) == [m, RtxCodecOf(caps, k + 1)]
               else Block(caps, k, choice.parameters) == [m]
  {
    hide Lookup, Validate, IsRtxMime;
    RtxIsNext(caps, choice.cap);
  }

  lemma BlockMatched(choice: Choice, caps: seq<Capability>, peer: seq<Capability>, h: H264)
    requires RouterCaps(caps) && HavePts(caps) && Chosen(choice, caps, h)
    ensures var matched := Matching(Block(caps, choice.cap, choice.parameters), peer, h);
            && (matched != [] <==> Touches(peer, choice, caps, h))
            && (matched != [] && RtxCodec(matched[0]) <==> Orphaned(peer, choice, caps, h))
  {
    hide RouterCaps, Lookup, Rtx, Supports, RtxCodec, Block, Matching, MediaOf, RtxCodecOf;
    BlockIs(choice, caps, h);
    var block := Block(caps, choice.cap, choice.parameters);
    var i := MatchingHead(block, peer, h);
    if c :| c in block && Supports(peer, c, h) {
      var j :| 0 <= j < |block| && block[j] == c;
    }
    assert i < |block| ==> block[i] in block;
  }

  // The matched codecs begin with an RTX codec if and only if the first choice that is touched is
  // orphaned.
  lemma {:induction false} RtxHeads(choices: seq<Choice>, caps: seq<Capability>, peer: seq<Capability>, h: H264)
    requires RouterCaps(caps) && HavePts(caps) && AllChosen(choices, caps, h) && ChoicesWithin(choices, caps)
    ensures var matched := Matching(Blocks(choices, caps), peer, h);
            matched != [] && RtxCodec(matched[0]) <==> OrphanFirst(peer, choices, caps, h)
  {
    hide RouterCaps, Chosen, Supports, RtxCodec, Block, Touches, Orphaned, Matching;
    if choices == [] {
      assert Matching([], peer, h) == [] by { NoneMatched(peer, h); }
    } else {
      var first, rest := choices[0], choices[1..];
      var block := Block(caps, first.cap, first.parameters);
      RtxHeads(rest, caps, peer, h);
      MatchingConcat(block, Blocks(rest, caps), peer, h);
      BlockMatched(first, caps, peer, h);
      OrphanShift(choices, caps, peer, h);
    }
  }

  lemma NoneMatched(peer: seq<Capability>, h: H264)
    ensures Matching([], peer, h) == []
  {
  }

  lemma OrphanShift(choices: seq<Choice>, caps: seq<Capability>, peer: seq<Capability>, h: H264)
    requires HavePts(caps) && ChoicesWithin(choices, caps) && choices != []
    requires Orphaned(peer, choices[0], caps, h) ==> Touches(peer, choices[0], caps, h)
    ensures OrphanFirst(peer, choices, caps, h) <==>
              if Touches(peer, choices[0], caps, h) then Orphaned(peer, choices[0], caps, h)
              else OrphanFirst(peer, choices[1..], caps, h)
  {
    hide Touches, Orphaned;
    var rest := choices[1..];
    assert forall i :: 0 < i < |choices| ==> choices[i] == rest[i - 1];
    if OrphanFirst(peer, rest, caps, h) && !Touches(peer, choices[0], caps, h) {
      var b :| 0 <= b < |rest| && Orphaned(peer, rest[b], caps, h)
        && forall a :: 0 <= a < b ==> !Touches(peer, rest[a], caps, h);
      assert Orphaned(peer, choices[b + 1], caps, h);
    }
    if OrphanFirst(peer, choices, caps, h) {
      var b :| 0 <= b < |choices| && Orphaned(peer, choices[b], caps, h)
        && forall a :: 0 <= a < b ==> !Touches(peer, choices[a], caps, h);
      if b > 0 {
        assert Orphaned(peer, rest[b - 1], caps, h);
        assert forall a :: 0 <= a < b - 1 ==> choices[a + 1] == rest[a];
      }
    }
  }

  // For negotiated codecs: canConsume refuses what getConsumerRtpParameters accepts if and only if the
  // peer supports some media codec, and the first choice of which it supports anything is a video codec
  // that it does not support.
  lemma RefusedIff(choices: seq<Choice>, caps: seq<Capability>, peer: seq<Capability>, h: H264)
    requires RouterCaps(caps) && HavePts(caps) && h.Stable()
    requires AllChosen(choices, caps, h) && ChoicesWithin(choices, caps)
    requires ValidateAll(peer).Ok?
    ensures var valid := ValidateAll(peer).value;
            var consumable := Blocks(choices, caps);
            ConsumerCodecs(consumable, peer, h).Ok? && CanConsume(consumable, peer, h) != Ok(true) <==>
              && (exists c :: c in consumable && !RtxCodec(c) && Supports(valid, c, h))
              && OrphanFirst(valid, choices, caps, h)
  {
    hide RouterCaps, Supports, RtxCodec, Blocks, Sweep, ValidateAll, OrphanFirst, AllChosen, ChoicesWithin;
    var valid, consumable := ValidateAll(peer).value, Blocks(choices, caps);
    ConsumerOkIff(choices, caps, peer, h);
    RtxHeads(choices, caps, valid, h);
    if c :| c in consumable && !RtxCodec(c) && Supports(valid, c, h) {
      assert c in Matching(consumable, valid, h);
    }
  }

  // The two agree for a producer with a single media codec.
  lemma SingleCodecAgrees(choice: Choice, caps: seq<Capability>, peer: seq<Capability>, h: H264)
    requires RouterCaps(caps) && HavePts(caps) && h.Stable() && Chosen(choice, caps, h) && ValidateAll(peer).Ok?
    ensures ChoicesWithin([choice], caps)
    ensures CanConsume(Blocks([choice], caps), peer, h) == Ok(true) <==>
              ConsumerCodecs(Blocks([choice], caps), peer, h).Ok?
  {
    hide RouterCaps, Lookup, Rtx, Supports, RtxCodec, Block, ValidateAll, MediaOf, RtxCodecOf;
    hide CanConsume, ConsumerCodecs;
    var consumable := Blocks([choice], caps);
    RefusedIff([choice], caps, peer, h);
    BlockIs(choice, caps, h);
    assert Blocks([choice][1..], caps) == [];
    assert consumable == Block(caps, choice.cap, choice.parameters);
    if CanConsume(consumable, peer, h) == Ok(true) { CanConsumeSound(consumable, peer, h); }
  }

  // ---- The router's own capabilities ----

  lemma RouterCapsValid(caps: seq<Capability>)
    requires RouterCaps(caps)
    ensures ValidateAll(caps) == Ok(caps)
  {
    hide Validate;
    var r := ValidateAll(caps);
    if r.Ok? { assert r.value == caps; }
  }

  // Anything producible is consumable by the router's own capabilities, as soon as there is a
  // media codec at all.
  lemma RouterConsumesOwn(choices: seq<Choice>, caps: seq<Capability>, h: H264)
    requires RouterCaps(caps) && HavePts(caps) && h.Stable()
    requires AllChosen(choices, caps, h) && ChoicesWithin(choices, caps)
    ensures CanConsume(Blocks(choices, caps), caps, h) == Ok(choices != [])
  {
    RouterCapsValid(caps);
    if choices != [] {
      var k := choices[0].cap;
      var m := MediaOf(caps, k, choices[0].parameters);
      MatchSymmetric(m.Sig(), caps[k].Sig(), true, h);
      assert Supports(caps, m, h);
      NotRtx(choices[0], caps, h);
      hide Supports, Rtx, RouterCaps, Lookup;
      assert Blocks(choices, caps)[0] == m;
      assert Matching(Blocks(choices, caps), caps, h)[0] == m;
    }
  }
}
