/**
 What a second router with the same capabilities makes of a piped producer (mediasouptestcase/src/ortc.ts:
 getPipeConsumerRtpParameters, then getProducerRtpParametersMapping and getConsumableRtpParameters again).
 */
module SecondRouter {
  import opened Options
  import opened Sequences
  import opened Codecs
  import opened RouterCapabilities
  import opened Negotiation
  import opened Consumable
  import opened Consumer
  import opened Pipe

  // The same codec, up to the profile-level-id that H264 matching selects anew.
  predicate Alike(a: Codec, b: Codec)
  {
    && a.mimeType == b.mimeType && a.payloadType == b.payloadType
    && a.clockRate == b.clockRate && a.channels == b.channels
    && a.parameters - {"profile-level-id"} == b.parameters - {"profile-level-id"}
    && (Lower(a.mimeType) != "video/h264" ==> a.parameters == b.parameters)
  }

  predicate AllAlike(a: seq<Codec>, b: seq<Codec>)
  {
    |a| == |b| && forall i :: 0 <= i < |a| ==> Alike(a[i], b[i])
  }

  // The choice that a codec leads to when it is matched with its own capability once more.
  function Again(choice: Choice, caps: seq<Capability>, h: H264): (r: Choice)
    requires HavePts(caps) && choice.cap < |caps|
    ensures r.cap == choice.cap
  {
    Choice(choice.cap, Modified(MediaOf(caps, choice.cap, choice.parameters).Sig(), caps[choice.cap].Sig(), h))
  }

  function AllAgain(choices: seq<Choice>, caps: seq<Capability>, h: H264): (r: seq<Choice>)
    requires HavePts(caps) && ChoicesWithin(choices, caps)
    ensures |r| == |choices| && ChoicesWithin(r, caps)
  {
    if choices == [] then [] else [Again(choices[0], caps, h)] + AllAgain(choices[1..], caps, h)
  }

  // A mapping in which every entry maps to itself and that has the payload types of the choices.
  predicate Covers(entries: seq<Entry>, choices: seq<Choice>, caps: seq<Capability>)
    requires HavePts(caps) && ChoicesWithin(choices, caps)
  {
    && (forall i :: 0 <= i < |entries| ==> entries[i].payloadType == entries[i].mappedPayloadType)
    && (forall i :: 0 <= i < |choices| ==> Entry(Pt(caps, choices[i].cap), Pt(caps, choices[i].cap)) in entries)
  }

  lemma EntryMaps(entries: seq<Entry>, pt: int)
    requires forall i :: 0 <= i < |entries| ==> entries[i].payloadType == entries[i].mappedPayloadType
    requires Entry(pt, pt) in entries
    ensures var e := EntryFor(entries, pt);
            e.Some? && entries[e.value].mappedPayloadType == pt
  {
    var i :| 0 <= i < |entries| && entries[i] == Entry(pt, pt);
  }

  // The media codec of a choice, mapped again, gives the block of the choice made again.
  lemma MediaAgain(choice: Choice, caps: seq<Capability>, h: H264, entries: seq<Entry>)
    requires RouterCaps(caps) && HavePts(caps) && Chosen(choice, caps, h) && Covers(entries, [choice], caps)
    ensures var m := MediaOf(caps, choice.cap, choice.parameters);
            BlockFor(ModifiedCodec(m, caps, h), caps, entries)
            == Ok(Block(caps, choice.cap, Again(choice, caps, h).parameters))
  {
    hide Lookup, Paired, Block, EntryFor, CapWithPt, Modified;
    var m := MediaOf(caps, choice.cap, choice.parameters);
    NotRtx(choice, caps, h);
    hide IsRtxMime;
    assert [choice][0] == choice;
    EntryMaps(entries, Pt(caps, choice.cap));
    CapFound(caps, choice.cap);
  }

  lemma {:induction false} ConsumableConcat(a: seq<Codec>, b: seq<Codec>, caps: seq<Capability>, entries: seq<Entry>)
    requires HavePts(caps) && ConsumableCodecs(a, caps, entries).Ok? && ConsumableCodecs(b, caps, entries).Ok?
    ensures ConsumableCodecs(a + b, caps, entries)
         == Ok(ConsumableCodecs(a, caps, entries).value + ConsumableCodecs(b, caps, entries).value)
  {
    hide BlockFor;
    if a == [] {
      var rest := ConsumableCodecs(b, caps, entries).value;
      assert a + b == b && [] + rest == rest;
    } else {
      assert (a + b)[1..] == a[1..] + b;
      ConsumableConcat(a[1..], b, caps, entries);
      ConcatAssoc(BlockFor(a[0], caps, entries).value, ConsumableCodecs(a[1..], caps, entries).value,
                  ConsumableCodecs(b, caps, entries).value);
    }
  }

  lemma ModifiedConcat(a: seq<Codec>, b: seq<Codec>, caps: seq<Capability>, h: H264)
    ensures ModifiedCodecs(a + b, caps, h) == ModifiedCodecs(a, caps, h) + ModifiedCodecs(b, caps, h)
  {
    hide ModifiedCodec;
  }

  // A media codec, alone or with an RTX codec behind it, through the second mapping.
  lemma MediaWith(m: Codec, tail: seq<Codec>, caps: seq<Capability>, h: H264, entries: seq<Entry>, block: seq<Codec>)
    requires HavePts(caps) && BlockFor(ModifiedCodec(m, caps, h), caps, entries) == Ok(block)
    requires tail == [] || (|tail| == 1 && RtxCodec(tail[0]))
    ensures ConsumableCodecs(ModifiedCodecs([m] + tail, caps, h), caps, entries) == Ok(block)
  {
    if tail != [] { RtxSkipped(tail[0], caps, h, entries); }
    hide BlockFor, ModifiedCodec;
    var all := ModifiedCodecs([m] + tail, caps, h);
    var none: seq<Codec> := [];
    assert block + none == block && none + none == none;
    if tail == [] {
      assert all[1..] == [];
    } else {
      assert all[1..] == [ModifiedCodec(tail[0], caps, h)] && all[1..][1..] == [];
      assert ConsumableCodecs(all[1..], caps, entries) == Ok(none);
    }
  }

  lemma BlockAgain(choice: Choice, caps: seq<Capability>, h: H264, entries: seq<Entry>, enableRtx: bool)
    requires RouterCaps(caps) && HavePts(caps) && Chosen(choice, caps, h) && Covers(entries, [choice], caps)
    ensures var pipe := PipeCodecs(Block(caps, choice.cap, choice.parameters), enableRtx);
            ConsumableCodecs(ModifiedCodecs(pipe, caps, h), caps, entries)
            == Ok(Block(caps, choice.cap, Again(choice, caps, h).parameters))
  {
    hide RouterCaps, Lookup, Rtx, RtxCodec, Block, BlockFor, ModifiedCodec, ConsumableCodecs, ModifiedCodecs;
    hide Covers, MediaOf, RtxCodecOf;
    BlockIs(choice, caps, h);
    MediaAgain(choice, caps, h, entries);
    var k := choice.cap;
    var m, block := MediaOf(caps, k, choice.parameters), Block(caps, k, choice.parameters);
    var tail := PipeCodecs(block[1..], enableRtx);
    if caps[k].kind == Video {
      var r := RtxCodecOf(caps, k + 1);
      assert block[1..] == [r] && [r][1..] == [];
      assert PipeCodecs([r], enableRtx) == if enableRtx then [r] else [];
    } else {
      assert block[1..] == [];
    }
    MediaWith(m, tail, caps, h, entries, Block(caps, k, Again(choice, caps, h).parameters));
  }

  lemma CoversParts(entries: seq<Entry>, choices: seq<Choice>, caps: seq<Capability>)
    requires HavePts(caps) && ChoicesWithin(choices, caps) && choices != [] && Covers(entries, choices, caps)
    ensures ChoicesWithin([choices[0]], caps) && Covers(entries, [choices[0]], caps)
    ensures ChoicesWithin(choices[1..], caps) && Covers(entries, choices[1..], caps)
  {
    assert forall i :: 0 <= i < |choices[1..]| ==> choices[1..][i] == choices[i + 1];
  }

  // Piped with or without RTX, the consumable codecs of the second router are the blocks of the same
  // capabilities.
  lemma {:induction false} BlocksAgain(
    choices: seq<Choice>, caps: seq<Capability>, h: H264, entries: seq<Entry>, enableRtx: bool)
    requires RouterCaps(caps) && HavePts(caps) && AllChosen(choices, caps, h) && ChoicesWithin(choices, caps)
    requires Covers(entries, choices, caps)
    ensures ConsumableCodecs(ModifiedCodecs(PipeCodecs(Blocks(choices, caps), enableRtx), caps, h), caps, entries)
         == Ok(Blocks(AllAgain(choices, caps, h), caps))
  {
    hide RouterCaps, Chosen, Block, ConsumableCodecs, ModifiedCodecs, PipeCodecs, Covers, Again;
    if choices == [] {
      NothingAgain(caps, h, entries, enableRtx);
    } else {
      var first, rest := choices[0], choices[1..];
      var block, later := Block(caps, first.cap, first.parameters), Blocks(rest, caps);
      CoversParts(entries, choices, caps);
      BlocksAgain(rest, caps, h, entries, enableRtx);
      BlockAgain(first, caps, h, entries, enableRtx);
      PipeConcat(block, later, enableRtx);
      ModifiedConcat(PipeCodecs(block, enableRtx), PipeCodecs(later, enableRtx), caps, h);
      ConsumableConcat(ModifiedCodecs(PipeCodecs(block, enableRtx), caps, h),
                       ModifiedCodecs(PipeCodecs(later, enableRtx), caps, h), caps, entries);
      assert ([Again(first, caps, h)] + AllAgain(rest, caps, h))[1..] == AllAgain(rest, caps, h);
    }
  }

  lemma NothingAgain(caps: seq<Capability>, h: H264, entries: seq<Entry>, enableRtx: bool)
    requires HavePts(caps)
    ensures ConsumableCodecs(ModifiedCodecs(PipeCodecs([], enableRtx), caps, h), caps, entries) == Ok([])
  {
  }

  lemma BlockAlike(choice: Choice, caps: seq<Capability>, h: H264)
    requires RouterCaps(caps) && HavePts(caps) && Chosen(choice, caps, h)
    ensures AllAlike(Block(caps, choice.cap, choice.parameters),
                     Block(caps, choice.cap, Again(choice, caps, h).parameters))
  {
    hide RouterCaps, Lookup, Rtx, RtxOf, Lower;
    var p := choice.parameters;
    if Lower(caps[choice.cap].mimeType) == "video/h264" {
      var q := Again(choice, caps, h).parameters;
      assert q - {"profile-level-id"} == p - {"profile-level-id"};
    }
  }

  lemma AlikeConcat(a: seq<Codec>, b: seq<Codec>, c: seq<Codec>, d: seq<Codec>)
    requires AllAlike(a, b) && AllAlike(c, d)
    ensures AllAlike(a + c, b + d)
  {
    hide Alike;
  }

  lemma {:induction false} BlocksAlike(choices: seq<Choice>, caps: seq<Capability>, h: H264)
    requires RouterCaps(caps) && HavePts(caps) && AllChosen(choices, caps, h) && ChoicesWithin(choices, caps)
    ensures AllAlike(Blocks(choices, caps), Blocks(AllAgain(choices, caps, h), caps))
  {
    hide RouterCaps, Chosen, Block, Again, Alike;
    if choices != [] {
      var first, rest := choices[0], choices[1..];
      BlocksAlike(rest, caps, h);
      BlockAlike(first, caps, h);
      assert ([Again(first, caps, h)] + AllAgain(rest, caps, h))[1..] == AllAgain(rest, caps, h);
      AlikeConcat(Block(caps, first.cap, first.parameters), Block(caps, first.cap, Again(first, caps, h).parameters),
                  Blocks(rest, caps), Blocks(AllAgain(rest, caps, h), caps));
    }
  }

  lemma {:induction false} MediaPiped(choices: seq<Choice>, caps: seq<Capability>, h: H264, enableRtx: bool)
    requires RouterCaps(caps) && HavePts(caps) && AllChosen(choices, caps, h) && ChoicesWithin(choices, caps)
    ensures forall i :: 0 <= i < |choices| ==>
              MediaOf(caps, choices[i].cap, choices[i].parameters) in PipeCodecs(Blocks(choices, caps), enableRtx)
  {
    hide RouterCaps, Chosen, Block, MediaOf, RtxCodec;
    if choices != [] {
      var first, rest := choices[0], choices[1..];
      MediaPiped(rest, caps, h, enableRtx);
      BlockIs(first, caps, h);
      assert MediaOf(caps, first.cap, first.parameters) in Block(caps, first.cap, first.parameters);
      assert forall i :: 0 < i < |choices| ==> choices[i] == rest[i - 1];
    }
  }

  lemma PipedCovers(choices: seq<Choice>, caps: seq<Capability>, h: H264, enableRtx: bool, entries: seq<Entry>)
    requires RouterCaps(caps) && HavePts(caps) && AllChosen(choices, caps, h) && ChoicesWithin(choices, caps)
    requires MapsToItself(PipeCodecs(Blocks(choices, caps), enableRtx), entries)
    ensures Covers(entries, choices, caps)
  {
    hide RouterCaps, AllChosen, Blocks, PipeCodecs;
    MediaPiped(choices, caps, h, enableRtx);
    forall i | 0 <= i < |choices| ensures Entry(Pt(caps, choices[i].cap), Pt(caps, choices[i].cap)) in entries {
      assert MediaOf(caps, choices[i].cap, choices[i].parameters).payloadType == Pt(caps, choices[i].cap);
    }
  }

  // The second router's consumable codecs are the first one's, in the same order and with the same
  // payload types, RTX codecs included even when they were not piped; only the profile-level-id of
  // H264 codecs may be another.
  lemma SecondRouterRestores(codecs: seq<Codec>, caps: seq<Capability>, h: H264, enableRtx: bool)
    requires RouterCaps(caps) && HavePts(caps) && h.Stable() && DistinctPts(codecs) && MapProducer(codecs, caps, h).Ok?
    ensures Consumables(codecs, caps, h).Ok?
    ensures var consumable := Consumables(codecs, caps, h).value;
            var pipe := PipeCodecs(consumable, enableRtx);
            && MapProducer(pipe, caps, h).Ok? && Consumables(pipe, caps, h).Ok?
            && AllAlike(consumable, Consumables(pipe, caps, h).value)
  {
    ConsumablesAre(codecs, caps, h);
    PipePreservesPayloadTypes(codecs, caps, h, enableRtx);
    var choices := Choices(codecs, caps, h);
    var pipe := PipeCodecs(Blocks(choices, caps), enableRtx);
    MappedCodecs(pipe, caps, h);
    hide RouterCaps, AllChosen, ChoicesWithin, Blocks, PipeCodecs, MapProducer, AllAlike, MapsToItself, Choices;
    PipedCovers(choices, caps, h, enableRtx, MapProducer(pipe, caps, h).value.entries);
    BlocksAgain(choices, caps, h, MapProducer(pipe, caps, h).value.entries, enableRtx);
    BlocksAlike(choices, caps, h);
  }

  lemma MappedCodecs(codecs: seq<Codec>, caps: seq<Capability>, h: H264)
    requires HavePts(caps) && MapProducer(codecs, caps, h).Ok?
    ensures MapProducer(codecs, caps, h).value.codecs == ModifiedCodecs(codecs, caps, h)
  {
    hide ModifiedCodecs, RtxCaps, MediaMatched;
  }
}
