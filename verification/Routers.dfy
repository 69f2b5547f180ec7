/**
 The negotiation for routers as they are created: the capabilities come from generateRouterRtpCapabilities
 and the actual table of supported codecs.
 */
module Routers {
  import opened Options
  import opened Codecs
  import opened RouterCapabilities
  import opened Negotiation
  import opened Consumable
  import opened Consumer
  import opened Pipe
  import opened SecondRouter

  lemma Created(media: seq<Capability>, h: H264)
    requires Generate(media, SUPPORTED, h).Ok?
    ensures var caps := Generate(media, SUPPORTED, h).value.codecs;
            RouterCaps(caps) && HavePts(caps)
  {
    hide TableOk, Generate, Fresh;
    SupportedOk();
    GenerateShape(media, SUPPORTED, h);
  }

  // For two routers created from the same media codecs: a producer that the first accepts is accepted,
  // piped, by the second with every payload type mapped to itself; the second router's consumable codecs
  // are the first one's; and the first can consume the producer if and only if it has a media codec.
  lemma RoutersPipe(media: seq<Capability>, codecs: seq<Codec>, h: H264, enableRtx: bool)
    requires h.Stable() && DistinctPts(codecs) && Generate(media, SUPPORTED, h).Ok?
    ensures var caps := Generate(media, SUPPORTED, h).value.codecs;
            && RouterCaps(caps) && HavePts(caps)
            && (MapProducer(codecs, caps, h).Ok? ==>
                  && Consumables(codecs, caps, h).Ok?
                  && var consumable := Consumables(codecs, caps, h).value;
                     var pipe := PipeCodecs(consumable, enableRtx);
                     var again := MapProducer(pipe, caps, h);
                     && again.Ok? && MapsToItself(pipe, again.value.entries)
                     && Consumables(pipe, caps, h).Ok? && AllAlike(consumable, Consumables(pipe, caps, h).value)
                     && (CanConsume(consumable, caps, h) == Ok(true) <==>
                           exists i :: 0 <= i < |codecs| && !RtxCodec(codecs[i])))
  {
    hide Generate, Consumables, MapProducer, CanConsume, MapsToItself, RtxCodec, RouterCaps, AllAlike, PipeCodecs;
    Created(media, h);
    var caps := Generate(media, SUPPORTED, h).value.codecs;
    if MapProducer(codecs, caps, h).Ok? {
      PipePreservesPayloadTypes(codecs, caps, h, enableRtx);
      SecondRouterRestores(codecs, caps, h, enableRtx);
      ProducibleIsConsumable(codecs, caps, h);
    }
  }

  lemma {:induction false} ChoicesCount(codecs: seq<Codec>, caps: seq<Capability>, h: H264)
    requires MediaMatched(codecs, caps, h)
    ensures |Choices(codecs, caps, h)| == |PipeCodecs(codecs, false)|
  {
    hide RtxCodec, Lookup, ChoiceOf;
    if codecs != [] {
      assert forall i :: 0 <= i < |codecs[1..]| ==> codecs[1..][i] == codecs[i + 1];
      ChoicesCount(codecs[1..], caps, h);
    }
  }

  // What the codec list of a consumer is, for consumable codecs and the peer's validated capabilities.
  ghost predicate ConsumerExact(consumable: seq<Codec>, peer: seq<Capability>, valid: seq<Capability>, h: H264)
  {
    var matched := Matching(consumable, valid, h);
    && Sweep(matched, []) == Kept(matched, matched) && Anchored(Sweep(matched, []))
    && (ConsumerCodecs(consumable, peer, h).Ok? <==>
          exists c :: c in consumable && !RtxCodec(c) && Supports(valid, c, h))
  }

  lemma NegotiatedExact(choices: seq<Choice>, caps: seq<Capability>, peer: seq<Capability>, h: H264)
    requires RouterCaps(caps) && HavePts(caps) && h.Stable()
    requires AllChosen(choices, caps, h) && ChoicesWithin(choices, caps)
    requires ValidateAll(peer).Ok?
    ensures ConsumerExact(Blocks(choices, caps), peer, ValidateAll(peer).value, h)
  {
    hide RouterCaps, AllChosen, ChoicesWithin, Blocks, Matching, Sweep, Kept, Supports, RtxCodec;
    hide ConsumerCodecs, ValidateAll;
    UselessRtxRemoved(choices, caps, ValidateAll(peer).value, h);
    ConsumerOkIff(choices, caps, peer, h);
  }

  // For any router, any producer that it accepts and any peer with valid capabilities: the consumable
  // codecs mirror the producer's; of those that the peer supports a consumer gets all but the RTX codecs
  // without their media codec; it gets any if and only if the peer supports some media codec; canConsume
  // refuses such a peer if and only if the first choice it supports anything of is a video codec it does
  // not support; and with a single media codec it never does.
  lemma RoutersConsume(media: seq<Capability>, codecs: seq<Codec>, peer: seq<Capability>, h: H264)
    requires h.Stable() && DistinctPts(codecs) && Generate(media, SUPPORTED, h).Ok? && ValidateAll(peer).Ok?
    ensures var caps, valid := Generate(media, SUPPORTED, h).value.codecs, ValidateAll(peer).value;
            && RouterCaps(caps) && HavePts(caps)
            && (MapProducer(codecs, caps, h).Ok? ==>
                  && Consumables(codecs, caps, h).Ok? && MediaMatched(codecs, caps, h)
                  && var consumable, choices := Consumables(codecs, caps, h).value, Choices(codecs, caps, h);
                     && MirrorsAll(PipeCodecs(codecs, false), PipeCodecs(consumable, false), caps, h)
                     && ConsumerExact(consumable, peer, valid, h) && ChoicesWithin(choices, caps)
                     && (ConsumerCodecs(consumable, peer, h).Ok? && CanConsume(consumable, peer, h) != Ok(true) <==>
                           && (exists c :: c in consumable && !RtxCodec(c) && Supports(valid, c, h))
                           && OrphanFirst(valid, choices, caps, h))
                     && (|PipeCodecs(codecs, false)| == 1 ==>
                           (CanConsume(consumable, peer, h) == Ok(true) <==> ConsumerCodecs(consumable, peer, h).Ok?)))
  {
    hide Generate, Consumables, MapProducer, CanConsume, RtxCodec, RouterCaps, PipeCodecs, MirrorsAll, ConsumerExact,
         ChoicesWithin, AllChosen, MediaMatched, Choices, Blocks, Supports, OrphanFirst, ConsumerCodecs, ValidateAll;
    Created(media, h);
    var caps := Generate(media, SUPPORTED, h).value.codecs;
    if MapProducer(codecs, caps, h).Ok? {
      ConsumablesAre(codecs, caps, h);
      var choices := Choices(codecs, caps, h);
      ConsumableMirrors(codecs, caps, h);
      NegotiatedExact(choices, caps, peer, h);
      RefusedIff(choices, caps, peer, h);
      ChoicesCount(codecs, caps, h);
      if |choices| == 1 { OneChoice(choices, caps, peer, h); }
    }
  }

  lemma OneChoice(choices: seq<Choice>, caps: seq<Capability>, peer: seq<Capability>, h: H264)
    requires RouterCaps(caps) && HavePts(caps) && h.Stable()
    requires AllChosen(choices, caps, h) && ChoicesWithin(choices, caps)
    requires |choices| == 1 && ValidateAll(peer).Ok?
    ensures CanConsume(Blocks(choices, caps), peer, h) == Ok(true) <==>
              ConsumerCodecs(Blocks(choices, caps), peer, h).Ok?
  {
    hide RouterCaps, Chosen, Blocks, CanConsume, ConsumerCodecs, ValidateAll;
    assert choices == [choices[0]];
    SingleCodecAgrees(choices[0], caps, peer, h);
  }
}
