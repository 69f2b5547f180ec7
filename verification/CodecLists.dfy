/**
 The codec lists that the negotiation hands on (mediasouptestcase/src/ortc.ts), entry by entry: what is
 consumable of a producer, what a consumer gets of that, and what is piped.
 */
module CodecLists {
  import opened Options
  import opened Sequences
  import opened Codecs
  import opened RouterCapabilities
  import opened Negotiation
  import opened Consumable
  import opened Consumer
  import opened Pipe
  import opened MappingExact

  // r is the RTX codec of capability k.
  predicate RtxOffered(r: Codec, k: Capability)
  {
    && r.mimeType == k.mimeType && Some(r.payloadType) == k.preferredPayloadType
    && r.clockRate == k.clockRate && r.channels.None? && r.parameters == k.parameters
  }

  // The consumable codecs of these media codecs: for each, under the first capability that it is
  // compatible with, the codec that is offered and, for video, the RTX codec of the next capability.
  ghost predicate Laid(media: seq<Codec>, consumable: seq<Codec>, caps: seq<Capability>, h: H264)
  {
    if media == [] then consumable == []
    else exists k: nat :: LaidUnder(media, consumable, caps, h, k)
  }

  ghost predicate LaidUnder(media: seq<Codec>, consumable: seq<Codec>, caps: seq<Capability>, h: H264, k: nat)
    requires media != []
  {
    && FirstCompatible(media[0].Sig(), caps, h, k)
    && |consumable| > 0 && Offered(media[0], caps[k], consumable[0], h)
    && if caps[k].kind == Video then
         && k + 1 < |caps| && |consumable| > 1 && RtxOffered(consumable[1], caps[k + 1])
         && Apt(consumable[1].parameters) == Some(Num(consumable[0].payloadType))
         && Laid(media[1..], consumable[2..], caps, h)
       else Laid(media[1..], consumable[1..], caps, h)
  }

  // What one media codec contributes.
  ghost predicate BlockOk(c: Codec, block: seq<Codec>, caps: seq<Capability>, h: H264, k: nat)
  {
    && FirstCompatible(c.Sig(), caps, h, k)
    && |block| == (if caps[k].kind == Video then 2 else 1) && Offered(c, caps[k], block[0], h)
    && (caps[k].kind == Video ==>
          && k + 1 < |caps| && RtxOffered(block[1], caps[k + 1])
          && Apt(block[1].parameters) == Some(Num(block[0].payloadType)))
  }

  lemma BlockLaid(c: Codec, caps: seq<Capability>, h: H264)
    requires RouterCaps(caps) && HavePts(caps) && !RtxCodec(c) && Lookup(c.Sig(), caps, h).Some?
    ensures var choice := ChoiceOf(c, caps, h);
            BlockOk(c, Block(caps, choice.cap, choice.parameters), caps, h, choice.cap)
  {
    var k := Lookup(c.Sig(), caps, h).value;
    hide RouterCaps, Lookup, RtxCodec, FirstCompatible, Offered, Rtx, RtxOf;
    FoundMedia(c, caps, h, k);
    RtxIsNext(caps, k);
    MediaOffered(c, caps, h);
    if caps[k].kind == Video {
      VideoHasNext(caps, k);
      RtxNames(caps, k + 1, k);
    }
  }

  lemma LaidCons(
    c: Codec, media: seq<Codec>, block: seq<Codec>, rest: seq<Codec>, caps: seq<Capability>, h: H264, k: nat)
    requires Laid(media, rest, caps, h) && BlockOk(c, block, caps, h, k)
    ensures Laid([c] + media, block + rest, caps, h)
  {
    hide FirstCompatible, Offered, RtxOffered, Apt;
    var all := block + rest;
    assert ([c] + media)[1..] == media && all[|block|..] == rest && all[..|block|] == block;
    assert LaidUnder([c] + media, all, caps, h, k);
  }

  lemma LaidNone(caps: seq<Capability>, h: H264)
    requires HavePts(caps)
    ensures Laid([], Blocks([], caps), caps, h)
  {
  }

  lemma BlocksCons(choice: Choice, rest: seq<Choice>, caps: seq<Capability>)
    requires HavePts(caps) && choice.cap < |caps| && ChoicesWithin(rest, caps)
    ensures ChoicesWithin([choice] + rest, caps)
    ensures Blocks([choice] + rest, caps) == Block(caps, choice.cap, choice.parameters) + Blocks(rest, caps)
  {
    hide Block;
    assert ([choice] + rest)[1..] == rest;
  }

  lemma {:induction false} ChoicesLaid(codecs: seq<Codec>, caps: seq<Capability>, h: H264)
    requires RouterCaps(caps) && HavePts(caps) && MediaMatched(codecs, caps, h)
    ensures ChoicesWithin(Choices(codecs, caps, h), caps)
    ensures Laid(PipeCodecs(codecs, false), Blocks(Choices(codecs, caps, h), caps), caps, h)
  {
    hide RouterCaps, Lookup, RtxCodec, ChoiceOf, Block, BlockOk, Blocks, Laid;
    if codecs == [] {
      LaidNone(caps, h);
    } else {
      assert forall i :: 0 <= i < |codecs[1..]| ==> codecs[1..][i] == codecs[i + 1];
      ChoicesLaid(codecs[1..], caps, h);
      var rest, media := Choices(codecs[1..], caps, h), PipeCodecs(codecs[1..], false);
      if RtxCodec(codecs[0]) {
        assert [] + rest == rest && [] + media == media;
      } else {
        var choice := ChoiceOf(codecs[0], caps, h);
        BlocksCons(choice, rest, caps);
        BlockLaid(codecs[0], caps, h);
        var block := Block(caps, choice.cap, choice.parameters);
        LaidCons(codecs[0], media, block, Blocks(rest, caps), caps, h, choice.cap);
      }
    }
  }

  // The consumable codecs of a producer that is accepted, entry by entry.
  lemma ConsumableLaid(codecs: seq<Codec>, caps: seq<Capability>, h: H264)
    requires RouterCaps(caps) && HavePts(caps) && DistinctPts(codecs) && MapProducer(codecs, caps, h).Ok?
    ensures Consumables(codecs, caps, h).Ok?
    ensures Laid(PipeCodecs(codecs, false), Consumables(codecs, caps, h).value, caps, h)
  {
    ConsumableIsBlocks(codecs, caps, h, MapProducer(codecs, caps, h).value.entries, 0);
    hide RtxCodec, Lookup, RouterCaps, RtxCaps, Laid;
    assert codecs[0..] == codecs && ModifiedCodecs(codecs, caps, h)[0..] == ModifiedCodecs(codecs, caps, h);
    ChoicesLaid(codecs, caps, h);
  }

  // ---- What a consumer gets ----

  // A codec of the list "all" that the peer has a capability for and, if it is an RTX codec, whose media
  // codec is such a codec as well.
  ghost predicate Wanted(c: Codec, all: seq<Codec>, peer: seq<Capability>, h: H264)
  {
    && HasFormat(peer, c, h)
    && (RtxCodec(c) ==>
          exists d :: d in all && !RtxCodec(d) && HasFormat(peer, d, h)
            && Apt(c.parameters) == Some(Num(d.payloadType)))
  }

  // What is kept of what is matched.
  lemma {:induction false} KeptPicks(
    codecs: seq<Codec>, all: seq<Codec>, peer: seq<Capability>, h: H264, p: Codec -> bool)
    requires forall c :: c in codecs ==>
               (p(c) <==> Supports(peer, c, h) && (RtxCodec(c) ==> HasPt(all, Apt(c.parameters))))
    ensures Picks(codecs, Kept(Matching(codecs, peer, h), all), p)
  {
    hide Supports, RtxCodec, HasPt, Matching, Kept, Picks;
    MatchingFirst(codecs, peer, h);
    if codecs == [] {
      KeptNone(all);
      PicksNone(p);
    } else {
      var c, rest := codecs[0], codecs[1..];
      assert codecs == [c] + rest;
      KeptPicks(rest, all, peer, h, p);
      KeptFirst(c, Matching(rest, peer, h), all);
      PicksCons(c, rest, Kept(Matching(rest, peer, h), all), p);
    }
  }

  lemma KeptNone(all: seq<Codec>)
    ensures Kept([], all) == []
  {
  }

  // Of the consumable codecs a consumer gets exactly those that are wanted, in order; it gets any if and
  // only if the peer has a capability for some media codec.
  lemma ConsumerGets(codecs: seq<Codec>, caps: seq<Capability>, peer: seq<Capability>, h: H264)
    requires RouterCaps(caps) && HavePts(caps) && h.Stable() && DistinctPts(codecs) && MapProducer(codecs, caps, h).Ok?
    requires ValidateAll(peer).Ok?
    ensures Consumables(codecs, caps, h).Ok?
    ensures var consumable, valid := Consumables(codecs, caps, h).value, ValidateAll(peer).value;
            var r := ConsumerCodecs(consumable, peer, h);
            && (r.Ok? <==> exists c :: c in consumable && !RtxCodec(c) && HasFormat(valid, c, h))
            && (r.Ok? ==> Picks(consumable, r.value, c => Wanted(c, consumable, valid, h)))
  {
    hide RouterCaps, Lookup, MapProducer, Consumables, Matching, Sweep, Picks, Blocks, ValidateAll, RtxCodec;
    ConsumablesAre(codecs, caps, h);
    var choices, valid := Choices(codecs, caps, h), ValidateAll(peer).value;
    var consumable := Consumables(codecs, caps, h).value;
    ConsumerOkIff(choices, caps, peer, h);
    UselessRtxRemoved(choices, caps, valid, h);
    BlocksPipelined(choices, caps, h);
    PipelinedApts(consumable, caps, h);
    forall c | c in consumable
      ensures Wanted(c, consumable, valid, h) <==>
              && Supports(valid, c, h)
              && (RtxCodec(c) ==> HasPt(Matching(consumable, valid, h), Apt(c.parameters)))
    {
      WantedIs(c, consumable, valid, h);
    }
    KeptPicks(consumable, Matching(consumable, valid, h), valid, h, c => Wanted(c, consumable, valid, h));
  }

  lemma WantedIs(c: Codec, all: seq<Codec>, peer: seq<Capability>, h: H264)
    requires AptsNameMedia(all) && c in all
    ensures Wanted(c, all, peer, h) <==>
            Supports(peer, c, h) && (RtxCodec(c) ==> HasPt(Matching(all, peer, h), Apt(c.parameters)))
  {
    hide Supports, RtxCodec, HasFormat, Apt;
    forall d ensures Supports(peer, d, h) <==> HasFormat(peer, d, h) { SupportsExact(peer, d, h); }
  }

  // ---- What is piped ----

  lemma {:induction false} PipePicks(codecs: seq<Codec>, enableRtx: bool)
    ensures Picks(codecs, PipeCodecs(codecs, enableRtx), c => enableRtx || !RtxCodec(c))
  {
    hide RtxCodec, Picks;
    var p := (c: Codec) => enableRtx || !RtxCodec(c);
    if codecs == [] {
      PicksNone(p);
    } else {
      var rest := PipeCodecs(codecs[1..], enableRtx);
      assert codecs == [codecs[0]] + codecs[1..] && [] + rest == rest;
      PipePicks(codecs[1..], enableRtx);
      PicksCons(codecs[0], codecs[1..], rest, p);
    }
  }
}
