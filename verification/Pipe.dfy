/**
 getPipeConsumerRtpParameters (mediasouptestcase/src/ortc.ts) and the negotiation as a whole:
 what a producer's codecs become on their way through one router and into the next.
 */
module Pipe {
  import opened Options
  import opened Sequences
  import opened Codecs
  import opened RouterCapabilities
  import opened Negotiation
  import opened Consumable
  import opened Consumer

  function PipeCodecs(codecs: seq<Codec>, enableRtx: bool): (r: seq<Codec>)
    ensures forall c :: c in r <==> c in codecs && (enableRtx || !RtxCodec(c))
  {
    if codecs == [] then []
    else (if !enableRtx && RtxCodec(codecs[0]) then [] else [codecs[0]]) + PipeCodecs(codecs[1..], enableRtx)
  }

  method GetPipeConsumerCodecs(consumable: seq<Codec>, enableRtx: bool) returns (r: seq<Codec>)
    ensures r == PipeCodecs(consumable, enableRtx)
  {
    hide RtxCodec;
    r := [];
    assert consumable[0..] == consumable && [] + PipeCodecs(consumable, enableRtx) == PipeCodecs(consumable, enableRtx);
    for n := 0 to |consumable|
      invariant r + PipeCodecs(consumable[n..], enableRtx) == PipeCodecs(consumable, enableRtx)
    {
      var codec := consumable[n];
      ghost var rest := PipeCodecs(consumable[n + 1..], enableRtx);
      assert consumable[n..][0] == codec && consumable[n..][1..] == consumable[n + 1..];
      if !enableRtx && RtxCodec(codec) {
        assert [] + rest == rest;
        continue;
      }
      ConcatAssoc(r, [codec], rest);
      r := r + [codec];
    }
    assert consumable[|consumable|..] == [] && r + [] == r;
  }

  // Every RTX codec of the list has its media codec in the list.
  predicate Anchored(codecs: seq<Codec>)
  {
    forall c :: c in codecs && RtxCodec(c) ==>
      exists d :: d in codecs && !RtxCodec(d) && Some(Num(d.payloadType)) == Apt(c.parameters)
  }

  lemma {:induction false} BlocksAnchored(choices: seq<Choice>, caps: seq<Capability>, h: H264)
    requires RouterCaps(caps) && HavePts(caps) && AllChosen(choices, caps, h) && ChoicesWithin(choices, caps)
    ensures Anchored(Blocks(choices, caps))
  {
    hide Validate, IsRtxMime, Lookup;
    if choices != [] {
      var k, p := choices[0].cap, choices[0].parameters;
      BlocksAnchored(choices[1..], caps, h);
      RtxIsNext(caps, k);
      var m, block := MediaOf(caps, k, p), Block(caps, k, p);
      NotRtx(choices[0], caps, h);
      assert m in block;
      assert forall c :: c in block && RtxCodec(c) ==> Some(Num(m.payloadType)) == Apt(c.parameters);
    }
  }

  // ---- Mapping a piped list again ----

  // What the map holds carries each codec's own payload type.
  predicate Identity(m: CapOf, pipe: seq<Codec>, caps: seq<Capability>)
    requires HavePts(caps)
  {
    |m| == |pipe| && Within(m, caps)
    && forall i :: 0 <= i < |m| && m[i].Some? ==> Pt(caps, m[i].value) == pipe[i].payloadType
  }

  lemma PipedMediaFound(pipe: seq<Codec>, caps: seq<Capability>, h: H264)
    requires RouterCaps(caps) && HavePts(caps) && Pipelined(pipe, caps, h)
    ensures MediaMatched(pipe, caps, h) && Identity(MediaCaps(pipe, caps, h), pipe, caps)
  {
    hide Lookup, Validate, IsRtxMime;
    forall i | 0 <= i < |pipe| && !RtxCodec(pipe[i])
      ensures var r := Lookup(pipe[i].Sig(), caps, h);
              r.Some? && Pt(caps, r.value) == pipe[i].payloadType
    {
      assert pipe[i] in pipe;
      var k :| 0 <= k < |caps| && (MediaFrom(pipe[i], caps, k, h) || RtxFrom(pipe[i], caps, k));
    }
  }

  // One RTX codec of the list finds the RTX capability it came from.
  lemma PipedRtxFound(pipe: seq<Codec>, caps: seq<Capability>, h: H264, m: CapOf, i: nat)
    requires RouterCaps(caps) && HavePts(caps) && Pipelined(pipe, caps, h) && Anchored(pipe)
    requires Identity(m, pipe, caps) && i < |pipe|
    requires forall j :: 0 <= j < |pipe| && !RtxCodec(pipe[j]) ==> m[j].Some?
    ensures var r := RtxStep(pipe, caps, m, i);
            r.Ok? && Identity(r.value, pipe, caps)
  {
    hide Paired, Distinct, Pipelined, Anchored, RtxCodec, RtxOf, Associated, Apt;
    if RtxCodec(pipe[i]) {
      var k := RtxOrigin(pipe, caps, h, pipe[i]);
      var j := NamedMedia(pipe, caps, h, pipe[i]);
      assert Pt(caps, m[j].value) == Pt(caps, k - 1);
    }
  }

  // The RTX capability that an RTX codec of the list came from.
  lemma RtxOrigin(pipe: seq<Codec>, caps: seq<Capability>, h: H264, c: Codec) returns (k: nat)
    requires RouterCaps(caps) && HavePts(caps) && Pipelined(pipe, caps, h) && c in pipe && RtxCodec(c)
    ensures 0 < k < |caps| && Pt(caps, k) == c.payloadType && Apt(c.parameters) == Some(Num(Pt(caps, k - 1)))
    ensures RtxOf(caps, Pt(caps, k - 1)) == Some(k)
  {
    hide Lookup, Validate, IsRtxMime, RtxOf;
    k :| 0 <= k < |caps| && (MediaFrom(c, caps, k, h) || RtxFrom(c, caps, k));
    assert RtxFrom(c, caps, k);
    RtxIsNext(caps, k - 1);
  }

  // The first codec with the payload type that an RTX codec names is a media codec.
  lemma NamedMedia(pipe: seq<Codec>, caps: seq<Capability>, h: H264, c: Codec) returns (j: nat)
    requires RouterCaps(caps) && HavePts(caps) && Pipelined(pipe, caps, h) && Anchored(pipe)
    requires c in pipe && RtxCodec(c)
    ensures Associated(pipe, Apt(c.parameters)) == Some(j) && j < |pipe| && !RtxCodec(pipe[j])
    ensures Some(Num(pipe[j].payloadType)) == Apt(c.parameters)
  {
    PipelinedApts(pipe, caps, h);
    hide RtxCodec, Pipelined;
    var d :| d in pipe && !RtxCodec(d) && Some(Num(d.payloadType)) == Apt(c.parameters);
    var i :| 0 <= i < |pipe| && pipe[i] == d;
    var r := Associated(pipe, Apt(c.parameters));
    assert r.Some?;
    j := r.value;
    assert pipe[j] in pipe;
  }

  lemma {:induction false} PipedRtxAllFound(pipe: seq<Codec>, caps: seq<Capability>, h: H264, n: nat)
    requires RouterCaps(caps) && HavePts(caps) && Pipelined(pipe, caps, h) && Anchored(pipe) && n <= |pipe|
    requires MediaMatched(pipe, caps, h)
    ensures var r := RtxCaps(pipe, caps, MediaCaps(pipe, caps, h), n);
            r.Ok? && Identity(r.value, pipe, caps)
  {
    hide Lookup, RtxCodec, RtxStep, Pipelined, RouterCaps, Anchored;
    if n == 0 {
      PipedMediaFound(pipe, caps, h);
    } else {
      PipedRtxAllFound(pipe, caps, h, n - 1);
      RtxCapsTotal(pipe, caps, h, n - 1);
      PipedRtxFound(pipe, caps, h, RtxCaps(pipe, caps, MediaCaps(pipe, caps, h), n - 1).value, n - 1);
    }
  }

  predicate MapsToItself(pipe: seq<Codec>, entries: seq<Entry>)
  {
    && (forall i :: 0 <= i < |entries| ==> entries[i].payloadType == entries[i].mappedPayloadType)
    && (forall c :: c in pipe ==> Entry(c.payloadType, c.payloadType) in entries)
  }

  lemma PipedMapsToItself(pipe: seq<Codec>, caps: seq<Capability>, h: H264)
    requires RouterCaps(caps) && HavePts(caps) && Pipelined(pipe, caps, h) && Anchored(pipe)
    ensures var again := MapProducer(pipe, caps, h);
            again.Ok? && MapsToItself(pipe, again.value.entries)
  {
    hide Lookup, RtxCodec, RtxCaps, MediaCaps, MediaMatched, Pipelined, RouterCaps, Anchored, Indices;
    PipedMediaFound(pipe, caps, h);
    PipedRtxAllFound(pipe, caps, h, |pipe|);
    RtxCapsTotal(pipe, caps, h, |pipe|);
    var entries, order := MapProducer(pipe, caps, h).value.entries, Order(pipe);
    forall c | c in pipe ensures Entry(c.payloadType, c.payloadType) in entries {
      var i :| 0 <= i < |pipe| && pipe[i] == c;
      assert i in order;
      var a :| 0 <= a < |order| && order[a] == i;
      assert entries[a].payloadType == c.payloadType;
    }
  }

  // ---- The pipeline as a whole ----

  // What getConsumableRtpParameters makes of a producer's codecs.
  function Consumables(codecs: seq<Codec>, caps: seq<Capability>, h: H264): Result<seq<Codec>>
    requires HavePts(caps) && MapProducer(codecs, caps, h).Ok?
  {
    var mapped := MapProducer(codecs, caps, h).value;
    ConsumableCodecs(mapped.codecs, caps, mapped.entries)
  }

  lemma ConsumablesAre(codecs: seq<Codec>, caps: seq<Capability>, h: H264)
    requires RouterCaps(caps) && HavePts(caps) && h.Stable() && DistinctPts(codecs) && MapProducer(codecs, caps, h).Ok?
    ensures MediaMatched(codecs, caps, h)
    ensures var choices := Choices(codecs, caps, h);
            && ChoicesWithin(choices, caps) && AllChosen(choices, caps, h)
            && Consumables(codecs, caps, h) == Ok(Blocks(choices, caps))
            && (choices != [] <==> exists i :: 0 <= i < |codecs| && !RtxCodec(codecs[i]))
  {
    ConsumableIsBlocks(codecs, caps, h, MapProducer(codecs, caps, h).value.entries, 0);
    hide RtxCodec, Lookup, RouterCaps, RtxCaps;
    assert codecs[0..] == codecs && ModifiedCodecs(codecs, caps, h)[0..] == ModifiedCodecs(codecs, caps, h);
    ChoicesChosen(codecs, caps, h);
  }

  // Piping preserves payload types, with and without RTX: the piped codecs are accepted by a
  // router with the same capabilities and every payload type maps to itself.
  lemma PipePreservesPayloadTypes(codecs: seq<Codec>, caps: seq<Capability>, h: H264, enableRtx: bool)
    requires RouterCaps(caps) && HavePts(caps) && h.Stable() && DistinctPts(codecs) && MapProducer(codecs, caps, h).Ok?
    ensures Consumables(codecs, caps, h).Ok?
    ensures var pipe := PipeCodecs(Consumables(codecs, caps, h).value, enableRtx);
            var again := MapProducer(pipe, caps, h);
            again.Ok? && MapsToItself(pipe, again.value.entries)
  {
    ConsumablesAre(codecs, caps, h);
    var choices := Choices(codecs, caps, h);
    hide Consumables, RtxCodec, RouterCaps, MapProducer, Pipelined, Anchored, AllChosen, ChoicesWithin;
    PipedShape(choices, caps, h, enableRtx);
    PipedMapsToItself(PipeCodecs(Blocks(choices, caps), enableRtx), caps, h);
  }

  lemma PipedShape(choices: seq<Choice>, caps: seq<Capability>, h: H264, enableRtx: bool)
    requires RouterCaps(caps) && HavePts(caps) && AllChosen(choices, caps, h) && ChoicesWithin(choices, caps)
    ensures var pipe := PipeCodecs(Blocks(choices, caps), enableRtx);
            Pipelined(pipe, caps, h) && Anchored(pipe)
  {
    hide RtxCodec, RouterCaps, Blocks, MediaFrom, RtxFrom, Chosen, Apt;
    BlocksPipelined(choices, caps, h);
    BlocksAnchored(choices, caps, h);
    var consumable := Blocks(choices, caps);
    var pipe := PipeCodecs(consumable, enableRtx);
    forall c | c in pipe && RtxCodec(c)
      ensures exists d :: d in pipe && !RtxCodec(d) && Some(Num(d.payloadType)) == Apt(c.parameters)
    {
      var d :| d in consumable && !RtxCodec(d) && Some(Num(d.payloadType)) == Apt(c.parameters);
      assert d in pipe;
    }
  }

  // A producer's own router can consume it if and only if it has a media codec.
  lemma ProducibleIsConsumable(codecs: seq<Codec>, caps: seq<Capability>, h: H264)
    requires RouterCaps(caps) && HavePts(caps) && h.Stable() && DistinctPts(codecs) && MapProducer(codecs, caps, h).Ok?
    ensures Consumables(codecs, caps, h).Ok?
    ensures CanConsume(Consumables(codecs, caps, h).value, caps, h)
         == Ok(exists i :: 0 <= i < |codecs| && !RtxCodec(codecs[i]))
  {
    ConsumablesAre(codecs, caps, h);
    hide Consumables, RouterCaps, MapProducer, CanConsume;
    RouterConsumesOwn(Choices(codecs, caps, h), caps, h);
  }

  // ---- The consumable codecs mirror the producer's ----

  // c is the codec p as the router offers it under capability k: in the capability's format, with the
  // producer's parameters, and for H264 with the profile-level-id that was answered, if any.
  ghost predicate Offered(p: Codec, k: Capability, c: Codec, h: H264)
  {
    && c.mimeType == k.mimeType && Some(c.payloadType) == k.preferredPayloadType
    && SameFormat(p.Sig(), c.Sig()) && SameFormat(c.Sig(), k.Sig())
    && (forall key :: key != "profile-level-id" ==>
          (key in c.parameters <==> key in p.parameters)
          && (key in p.parameters ==> c.parameters[key] == p.parameters[key]))
    && (Lower(p.mimeType) != "video/h264" ==> c.parameters == p.parameters)
    && (Lower(p.mimeType) == "video/h264" ==>
          match h.answer(p.parameters, k.parameters)
          case Id(x) =>
            if x == "" then "profile-level-id" !in c.parameters
            else "profile-level-id" in c.parameters && c.parameters["profile-level-id"] == Str(x)
          case _ => "profile-level-id" !in c.parameters)
  }

  // c is what p becomes under the first capability that it is compatible with.
  ghost predicate Mirrors(p: Codec, c: Codec, caps: seq<Capability>, h: H264)
  {
    exists k: nat :: FirstCompatible(p.Sig(), caps, h, k) && Offered(p, caps[k], c, h)
  }

  lemma {:induction false} PipeConcat(a: seq<Codec>, b: seq<Codec>, enableRtx: bool)
    ensures PipeCodecs(a + b, enableRtx) == PipeCodecs(a, enableRtx) + PipeCodecs(b, enableRtx)
  {
    hide RtxCodec;
    if a == [] {
      assert a + b == b;
    } else {
      assert (a + b)[1..] == a[1..] + b;
      PipeConcat(a[1..], b, enableRtx);
      ConcatAssoc(if !enableRtx && RtxCodec(a[0]) then [] else [a[0]],
                  PipeCodecs(a[1..], enableRtx), PipeCodecs(b, enableRtx));
    }
  }

  lemma BlockMedia(choice: Choice, caps: seq<Capability>, h: H264)
    requires RouterCaps(caps) && HavePts(caps) && Chosen(choice, caps, h)
    ensures PipeCodecs(Block(caps, choice.cap, choice.parameters), false)
         == [MediaOf(caps, choice.cap, choice.parameters)]
  {
    hide RouterCaps, Lookup, IsRtxMime, Block, RtxCodec;
    var k := choice.cap;
    BlockIs(choice, caps, h);
    var m, block := MediaOf(caps, k, choice.parameters), Block(caps, k, choice.parameters);
    if caps[k].kind == Video {
      assert block == [m, RtxCodecOf(caps, k + 1)] && block[1..] == [RtxCodecOf(caps, k + 1)];
      assert block[1..][1..] == [] && PipeCodecs(block[1..], false) == [];
    } else {
      assert block == [m] && block[1..] == [];
    }
  }

  ghost predicate MirrorsAll(produced: seq<Codec>, consumable: seq<Codec>, caps: seq<Capability>, h: H264)
  {
    && |consumable| == |produced|
    && forall i :: 0 <= i < |produced| ==> Mirrors(produced[i], consumable[i], caps, h)
  }

  lemma MirrorsCons(p: Codec, ps: seq<Codec>, c: Codec, cs: seq<Codec>, caps: seq<Capability>, h: H264)
    requires MirrorsAll(ps, cs, caps, h) && Mirrors(p, c, caps, h)
    ensures MirrorsAll([p] + ps, [c] + cs, caps, h)
  {
    hide Mirrors;
  }

  lemma RewrittenKeeps(a: Params, b: Params, h: H264)
    ensures var r := h.Rewritten(a, b);
            && (forall key :: key != "profile-level-id" ==>
                  (key in r <==> key in a) && (key in a ==> r[key] == a[key]))
            && Counted(r, "packetization-mode") == Counted(a, "packetization-mode")
  {
  }

  lemma MediaOffered(c: Codec, caps: seq<Capability>, h: H264)
    requires HavePts(caps) && Lookup(c.Sig(), caps, h).Some?
    ensures var choice := ChoiceOf(c, caps, h);
            && FirstCompatible(c.Sig(), caps, h, choice.cap)
            && Offered(c, caps[choice.cap], MediaOf(caps, choice.cap, choice.parameters), h)
  {
    hide Lookup, Lower, FirstCompatible;
    LookupExact(c.Sig(), caps, h);
    var k := ChoiceOf(c, caps, h).cap;
    FoundCompatible(c.Sig(), caps, h, k);
    RewrittenKeeps(c.parameters, caps[k].parameters, h);
  }

  lemma FoundCompatible(c: Sig, caps: seq<Capability>, h: H264, k: nat)
    requires FirstCompatible(c, caps, h, k)
    ensures k < |caps| && Compatible(c, caps[k].Sig(), h)
  {
    hide Compatible;
  }

  lemma MediaMirrors(c: Codec, caps: seq<Capability>, h: H264)
    requires HavePts(caps) && Lookup(c.Sig(), caps, h).Some?
    ensures var choice := ChoiceOf(c, caps, h);
            Mirrors(c, MediaOf(caps, choice.cap, choice.parameters), caps, h)
  {
    hide Lookup, Offered, FirstCompatible;
    MediaOffered(c, caps, h);
  }

  // One consumable media codec for each media codec of the producer, in order.
  lemma {:induction false} ChoicesMirror(codecs: seq<Codec>, caps: seq<Capability>, h: H264)
    requires RouterCaps(caps) && HavePts(caps) && h.Stable() && MediaMatched(codecs, caps, h)
    ensures ChoicesWithin(Choices(codecs, caps, h), caps)
    ensures MirrorsAll(PipeCodecs(codecs, false), PipeCodecs(Blocks(Choices(codecs, caps, h), caps), false), caps, h)
  {
    hide Blocks, MediaOf, Mirrors, MirrorsAll, ChoiceOf, RouterCaps, Lookup, RtxCodec, Chosen;
    ChoicesChosen(codecs, caps, h);
    if codecs == [] {
      MirrorsNone(caps, h);
    } else {
      assert forall i :: 0 <= i < |codecs[1..]| ==> codecs[1..][i] == codecs[i + 1];
      ChoicesMirror(codecs[1..], caps, h);
      var rest, media := Choices(codecs[1..], caps, h), PipeCodecs(codecs[1..], false);
      if RtxCodec(codecs[0]) {
        assert [] + rest == rest && [] + media == media;
      } else {
        var choice := ChoiceOf(codecs[0], caps, h);
        ChoiceStable(codecs[0], caps, h);
        MediaMirrors(codecs[0], caps, h);
        BlocksMedia(choice, rest, caps, h);
        MirrorsCons(codecs[0], media, MediaOf(caps, choice.cap, choice.parameters),
                    PipeCodecs(Blocks(rest, caps), false), caps, h);
      }
    }
  }

  lemma BlocksMedia(choice: Choice, rest: seq<Choice>, caps: seq<Capability>, h: H264)
    requires RouterCaps(caps) && HavePts(caps) && Chosen(choice, caps, h) && ChoicesWithin(rest, caps)
    ensures ChoicesWithin([choice] + rest, caps)
    ensures PipeCodecs(Blocks([choice] + rest, caps), false)
         == [MediaOf(caps, choice.cap, choice.parameters)] + PipeCodecs(Blocks(rest, caps), false)
  {
    hide Block, MediaOf, RouterCaps, Lookup, RtxCodec;
    BlockMedia(choice, caps, h);
    assert ([choice] + rest)[1..] == rest;
    PipeConcat(Block(caps, choice.cap, choice.parameters), Blocks(rest, caps), false);
  }

  lemma MirrorsNone(caps: seq<Capability>, h: H264)
    requires HavePts(caps)
    ensures MirrorsAll([], PipeCodecs(Blocks([], caps), false), caps, h)
  {
  }

  // One consumable media codec for each media codec of the producer, in order: in the format, and with
  // the parameters, that the producer's codec has under the first capability it is compatible with.
  lemma ConsumableMirrors(codecs: seq<Codec>, caps: seq<Capability>, h: H264)
    requires RouterCaps(caps) && HavePts(caps) && h.Stable() && DistinctPts(codecs) && MapProducer(codecs, caps, h).Ok?
    ensures Consumables(codecs, caps, h).Ok?
    ensures MirrorsAll(PipeCodecs(codecs, false), PipeCodecs(Consumables(codecs, caps, h).value, false), caps, h)
  {
    hide Consumables, RouterCaps, MapProducer, MirrorsAll, AllChosen, ChoicesWithin;
    ConsumablesAre(codecs, caps, h);
    ChoicesMirror(codecs, caps, h);
  }
}
