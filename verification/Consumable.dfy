/**
 getConsumableRtpParameters (mediasouptestcase/src/ortc.ts): the codecs and encodings that
 consumers of a producer start from.
 */
module Consumable {
  import opened Options
  import opened Sequences
  import opened Codecs
  import opened RouterCapabilities
  import opened Negotiation

  // What capability k contributes: the codec itself, with the producer's parameters, and the RTX
  // codec that names it.
  function MediaOf(caps: seq<Capability>, k: nat, parameters: Params): Codec
    requires HavePts(caps) && k < |caps|
  {
    Codec(caps[k].mimeType, Pt(caps, k), caps[k].clockRate, caps[k].channels, parameters)
  }

  function RtxCodecOf(caps: seq<Capability>, k: nat): Codec
    requires HavePts(caps) && k < |caps|
  {
    Codec(caps[k].mimeType, Pt(caps, k), caps[k].clockRate, None, caps[k].parameters)
  }

  function Block(caps: seq<Capability>, k: nat, parameters: Params): (r: seq<Codec>)
    requires HavePts(caps) && k < |caps|
    ensures r != []
  {
    var rtx := RtxOf(caps, Pt(caps, k));
    [MediaOf(caps, k, parameters)] + if rtx.Some? then [RtxCodecOf(caps, rtx.value)] else []
  }

  function CapWithPt(caps: seq<Capability>, pt: int): (r: Option<nat>)
    ensures r.Some? ==> r.value < |caps|
  {
    First(caps, (k: Capability) => k.preferredPayloadType == Some(pt))
  }

  function EntryFor(entries: seq<Entry>, pt: int): (r: Option<nat>)
    ensures r.Some? ==> r.value < |entries|
  {
    First(entries, (e: Entry) => e.payloadType == pt)
  }

  // What one codec of the producer contributes; Crash is a lookup that the source does not check.
  function BlockFor(c: Codec, caps: seq<Capability>, entries: seq<Entry>): Result<seq<Codec>>
    requires HavePts(caps)
  {
    if RtxCodec(c) then Ok([])
    else match EntryFor(entries, c.payloadType)
         case None => Err(Crash)
         case Some(e) =>
           match CapWithPt(caps, entries[e].mappedPayloadType)
           case None => Err(Crash)
           case Some(k) => Ok(Block(caps, k, c.parameters))
  }

  function ConsumableCodecs(codecs: seq<Codec>, caps: seq<Capability>, entries: seq<Entry>): Result<seq<Codec>>
    requires HavePts(caps)
  {
    if codecs == [] then Ok([])
    else match BlockFor(codecs[0], caps, entries)
         case Err(e) => Err(e)
         case Ok(block) =>
           match ConsumableCodecs(codecs[1..], caps, entries)
           case Err(e) => Err(e)
           case Ok(rest) => Ok(block + rest)
  }

  method GetConsumableCodecs(codecs: seq<Codec>, caps: seq<Capability>, entries: seq<Entry>)
    returns (r: Result<seq<Codec>>)
    requires HavePts(caps)
    ensures r == ConsumableCodecs(codecs, caps, entries)
  {
    hide Block, EntryFor, CapWithPt, RtxCodec;
    var consumable: seq<Codec> := [];
    assert codecs[0..] == codecs;
    assert forall rest: seq<Codec> :: [] + rest == rest;
    for n := 0 to |codecs|
      invariant ConsumableCodecs(codecs, caps, entries)
             == match ConsumableCodecs(codecs[n..], caps, entries)
                case Err(e) => Err(e)
                case Ok(rest) => Ok(consumable + rest)
    {
      var codec := codecs[n];
      assert codecs[n..][0] == codec && codecs[n..][1..] == codecs[n + 1..];
      if RtxCodec(codec) { continue; }
      var entry := EntryFor(entries, codec.payloadType);
      if entry.None? { return Err(Crash); }
      var matched := CapWithPt(caps, entries[entry.value].mappedPayloadType);
      if matched.None? { return Err(Crash); }
      var block := Block(caps, matched.value, codec.parameters);
      var rest := ConsumableCodecs(codecs[n + 1..], caps, entries);
      if rest.Ok? { ConcatAssoc(consumable, block, rest.value); }
      consumable := consumable + block;
    }
    assert codecs[|codecs|..] == [] && consumable + [] == consumable;
    r := Ok(consumable);
  }

  // ---- Composition with the mapping ----

  // A capability chosen for a media codec, and the parameters the codec goes on with.
  datatype Choice = Choice(cap: nat, parameters: Params)

  function ChoiceOf(c: Codec, caps: seq<Capability>, h: H264): (r: Choice)
    requires Lookup(c.Sig(), caps, h).Some?
    ensures r.cap < |caps|
  {
    var k := Lookup(c.Sig(), caps, h).value;
    Choice(k, Modified(c.Sig(), caps[k].Sig(), h))
  }

  // One choice for each media codec of the producer, in order.
  function Choices(codecs: seq<Codec>, caps: seq<Capability>, h: H264): seq<Choice>
    requires MediaMatched(codecs, caps, h)
  {
    if codecs == [] then []
    else
      assert forall i :: 0 <= i < |codecs[1..]| ==> codecs[1..][i] == codecs[i + 1];
      (if RtxCodec(codecs[0]) then [] else [ChoiceOf(codecs[0], caps, h)]) + Choices(codecs[1..], caps, h)
  }

  predicate ChoicesWithin(choices: seq<Choice>, caps: seq<Capability>)
  {
    forall i :: 0 <= i < |choices| ==> choices[i].cap < |caps|
  }

  function Blocks(choices: seq<Choice>, caps: seq<Capability>): seq<Codec>
    requires HavePts(caps) && ChoicesWithin(choices, caps)
  {
    if choices == [] then []
    else Block(caps, choices[0].cap, choices[0].parameters) + Blocks(choices[1..], caps)
  }

  predicate DistinctPts(codecs: seq<Codec>)
  {
    forall i, j :: 0 <= i < j < |codecs| ==> codecs[i].payloadType != codecs[j].payloadType
  }

  // The mapping has an entry for every codec, and with distinct payload types it is that codec's own.
  lemma EntryFound(codecs: seq<Codec>, caps: seq<Capability>, m: CapOf, i: nat)
    requires HavePts(caps) && Total(m, codecs, caps) && i < |codecs|
    ensures var entries := Entries(codecs, caps, m);
            var e := EntryFor(entries, codecs[i].payloadType);
            && e.Some?
            && CapWithPt(caps, entries[e.value].mappedPayloadType).Some?
            && (DistinctPts(codecs) ==> entries[e.value].mappedPayloadType == Pt(caps, m[i].value))
  {
    hide Indices;
    var entries, order := Entries(codecs, caps, m), Order(codecs);
    assert i in order;
    var a :| 0 <= a < |order| && order[a] == i;
    assert entries[a].payloadType == codecs[i].payloadType;
    var e := EntryFor(entries, codecs[i].payloadType).value;
    var k := m[order[e]].value;
    assert caps[k].preferredPayloadType == Some(entries[e].mappedPayloadType);
  }

  lemma CapFound(caps: seq<Capability>, k: nat)
    requires HavePts(caps) && Distinct(caps) && k < |caps|
    ensures CapWithPt(caps, Pt(caps, k)) == Some(k)
  {
    var r := CapWithPt(caps, Pt(caps, k));
    assert caps[k].preferredPayloadType == Some(Pt(caps, k));
  }

  lemma ModifiedKeeps(c: Codec, caps: seq<Capability>, h: H264)
    ensures var d := ModifiedCodec(c, caps, h);
            d.payloadType == c.payloadType && d.mimeType == c.mimeType && (RtxCodec(d) <==> RtxCodec(c))
    ensures !RtxCodec(c) && Lookup(c.Sig(), caps, h).Some? ==>
              ModifiedCodec(c, caps, h).parameters == ChoiceOf(c, caps, h).parameters
  {
  }

  // Whatever the payload types: after a successful mapping no lookup misses.
  lemma {:induction false} NeverMisses(codecs: seq<Codec>, caps: seq<Capability>, h: H264, entries: seq<Entry>, n: nat)
    requires HavePts(caps) && n <= |codecs|
    requires MapProducer(codecs, caps, h).Ok? && entries == MapProducer(codecs, caps, h).value.entries
    ensures ConsumableCodecs(ModifiedCodecs(codecs, caps, h)[n..], caps, entries).Ok?
    decreases |codecs| - n
  {
    hide RtxCodec, Lookup, Modified, RtxCaps, EntryFor, CapWithPt, Block;
    if n < |codecs| {
      var mod := ModifiedCodecs(codecs, caps, h);
      NeverMisses(codecs, caps, h, entries, n + 1);
      assert mod[n..][0] == mod[n] && mod[n..][1..] == mod[n + 1..];
      ModifiedKeeps(codecs[n], caps, h);
      RtxCapsTotal(codecs, caps, h, |codecs|);
      EntryFound(codecs, caps, RtxCaps(codecs, caps, MediaCaps(codecs, caps, h), |codecs|).value, n);
    }
  }

  lemma BlockFound(codecs: seq<Codec>, caps: seq<Capability>, h: H264, entries: seq<Entry>, n: nat)
    requires HavePts(caps) && Distinct(caps) && DistinctPts(codecs) && n < |codecs|
    requires MapProducer(codecs, caps, h).Ok? && entries == MapProducer(codecs, caps, h).value.entries
    requires !RtxCodec(codecs[n])
    ensures Lookup(codecs[n].Sig(), caps, h).Some?
    ensures var choice := ChoiceOf(codecs[n], caps, h);
            BlockFor(ModifiedCodec(codecs[n], caps, h), caps, entries) == Ok(Block(caps, choice.cap, choice.parameters))
  {
    hide RtxCodec, Lookup, Modified, RtxCaps, EntryFor, CapWithPt, Block;
    ModifiedKeeps(codecs[n], caps, h);
    RtxCapsTotal(codecs, caps, h, |codecs|);
    var m := RtxCaps(codecs, caps, MediaCaps(codecs, caps, h), |codecs|).value;
    EntryFound(codecs, caps, m, n);
    CapFound(caps, m[n].value);
  }

  // With distinct payload types on both sides the consumable codecs are exactly the blocks of the
  // chosen capabilities, in the producer's order.
  lemma {:induction false} ConsumableIsBlocks(
    codecs: seq<Codec>, caps: seq<Capability>, h: H264, entries: seq<Entry>, n: nat)
    requires HavePts(caps) && Distinct(caps) && DistinctPts(codecs) && n <= |codecs|
    requires MapProducer(codecs, caps, h).Ok? && entries == MapProducer(codecs, caps, h).value.entries
    ensures MediaMatched(codecs[n..], caps, h) && ChoicesWithin(Choices(codecs[n..], caps, h), caps)
    ensures ConsumableCodecs(ModifiedCodecs(codecs, caps, h)[n..], caps, entries)
         == Ok(Blocks(Choices(codecs[n..], caps, h), caps))
    decreases |codecs| - n
  {
    hide RtxCodec, Lookup, Modified, Block, BlockFor, MapProducer, ChoiceOf, ModifiedCodec, Distinct, DistinctPts;
    MappedMatched(codecs, caps, h, n);
    if n < |codecs| {
      var mod := ModifiedCodecs(codecs, caps, h);
      ConsumableIsBlocks(codecs, caps, h, entries, n + 1);
      assert mod[n..][0] == ModifiedCodec(codecs[n], caps, h) && mod[n..][1..] == mod[n + 1..];
      assert codecs[n..][0] == codecs[n] && codecs[n..][1..] == codecs[n + 1..];
      hide MediaMatched;
      var later := Choices(codecs[n + 1..], caps, h);
      if RtxCodec(codecs[n]) {
        RtxSkipped(codecs[n], caps, h, entries);
        assert [] + later == later && [] + Blocks(later, caps) == Blocks(later, caps);
      } else {
        BlockFound(codecs, caps, h, entries, n);
        assert ([ChoiceOf(codecs[n], caps, h)] + later)[1..] == later;
      }
    }
  }

  lemma MappedMatched(codecs: seq<Codec>, caps: seq<Capability>, h: H264, n: nat)
    requires HavePts(caps) && n <= |codecs| && MapProducer(codecs, caps, h).Ok?
    ensures MediaMatched(codecs[n..], caps, h)
  {
    hide RtxCodec, Lookup;
  }

  lemma RtxSkipped(c: Codec, caps: seq<Capability>, h: H264, entries: seq<Entry>)
    requires HavePts(caps) && RtxCodec(c)
    ensures BlockFor(ModifiedCodec(c, caps, h), caps, entries) == Ok([])
  {
  }

  // ---- What the choices are, over the router's capabilities ----

  // A media capability, which the codec it gives rise to finds again.
  predicate Chosen(choice: Choice, caps: seq<Capability>, h: H264)
    requires HavePts(caps)
  {
    && choice.cap < |caps| && !Rtx(caps[choice.cap])
    && Lookup(MediaOf(caps, choice.cap, choice.parameters).Sig(), caps, h) == Some(choice.cap)
  }

  predicate AllChosen(choices: seq<Choice>, caps: seq<Capability>, h: H264)
    requires HavePts(caps)
  {
    forall i :: 0 <= i < |choices| ==> Chosen(choices[i], caps, h)
  }

  lemma ChoiceStable(c: Codec, caps: seq<Capability>, h: H264)
    requires HavePts(caps) && h.Stable() && !RtxCodec(c) && Lookup(c.Sig(), caps, h).Some?
    ensures Chosen(ChoiceOf(c, caps, h), caps, h)
  {
    var k := Lookup(c.Sig(), caps, h).value;
    var b := caps[k].Sig();
    MatchRtx(c.Sig(), b, true, h);
    var after := MediaOf(caps, k, Modified(c.Sig(), b, h)).Sig();
    assert after == b.(parameters := Modified(c.Sig(), b, h));
    forall j | 0 <= j < |caps|
      ensures Match(after, caps[j].Sig(), true, h) <==> Match(c.Sig(), caps[j].Sig(), true, h)
    {
      MatchStable(c.Sig(), b, caps[j].Sig(), h);
    }
    hide Match, Modified;
  }

  lemma {:induction false} ChoicesChosen(codecs: seq<Codec>, caps: seq<Capability>, h: H264)
    requires HavePts(caps) && h.Stable() && MediaMatched(codecs, caps, h)
    ensures AllChosen(Choices(codecs, caps, h), caps, h)
    ensures Choices(codecs, caps, h) != [] <==> exists i :: 0 <= i < |codecs| && !RtxCodec(codecs[i])
  {
    hide RtxCodec, Lookup, Chosen, ChoiceOf;
    if codecs != [] {
      assert forall i :: 0 <= i < |codecs[1..]| ==> codecs[1..][i] == codecs[i + 1];
      ChoicesChosen(codecs[1..], caps, h);
      if !RtxCodec(codecs[0]) {
        ChoiceStable(codecs[0], caps, h);
      } else if i :| 0 <= i < |codecs| && !RtxCodec(codecs[i]) {
        assert !RtxCodec(codecs[1..][i - 1]);
      }
    }
  }

  // In the router's list, the RTX codec of a video codec is the next entry; audio has none.
  lemma RtxIsNext(caps: seq<Capability>, k: nat)
    requires RouterCaps(caps) && k < |caps| && !Rtx(caps[k])
    ensures HavePts(caps)
    ensures RtxOf(caps, Pt(caps, k)) == if caps[k].kind == Video then Some(k + 1) else None
  {
    hide Validate, IsRtxMime;
    var r := RtxOf(caps, Pt(caps, k));
    assert caps[k].kind == Video ==> Rtx(caps[k + 1]) && Apt(caps[k + 1].parameters) == Some(Num(Pt(caps, k)));
    if r.Some? {
      assert Pt(caps, r.value - 1) == Pt(caps, k);
      assert r.value - 1 == k;
    }
  }

  // ---- Encodings ----

  datatype Encoding = Encoding(
    ssrc: Option<int>,
    rid: Option<string>,
    rtxSsrc: Option<int>,
    codecPayloadType: Option<int>,
    scalabilityMode: Option<string>,
    maxBitrate: Option<int>)

  datatype MappedEncoding = MappedEncoding(
    ssrc: Option<int>, rid: Option<string>, scalabilityMode: Option<string>, mappedSsrc: int)

  // "if (encoding.rid)": absent and empty strings are not copied; likewise a zero SSRC.
  function GivenStr(s: Option<string>): Option<string> { if s == Some("") then None else s }

  function GivenInt(n: Option<int>): Option<int> { if n == Some(0) then None else n }

  // The encodings part of the mapping: consecutive SSRCs from a random first one.
  method MapEncodings(encodings: seq<Encoding>, first: int) returns (r: seq<MappedEncoding>)
    ensures |r| == |encodings|
    ensures forall i, j :: 0 <= i < j < |r| ==> r[i].mappedSsrc != r[j].mappedSsrc
    ensures forall i :: 0 <= i < |r| ==>
              && r[i].mappedSsrc == first + i
              && r[i].ssrc == (if encodings[i].ssrc == Some(0) then None else encodings[i].ssrc)
              && r[i].rid == (if encodings[i].rid == Some("") then None else encodings[i].rid)
              && r[i].scalabilityMode
                 == if encodings[i].scalabilityMode == Some("") then None else encodings[i].scalabilityMode
  {
    r := [];
    var mappedSsrc := first;
    for n := 0 to |encodings|
      invariant |r| == n && mappedSsrc == first + n
      invariant forall i :: 0 <= i < n ==>
                  r[i] == MappedEncoding(GivenInt(encodings[i].ssrc), GivenStr(encodings[i].rid),
                                         GivenStr(encodings[i].scalabilityMode), first + i)
    {
      var e := encodings[n];
      r := r + [MappedEncoding(GivenInt(e.ssrc), GivenStr(e.rid), GivenStr(e.scalabilityMode), mappedSsrc)];
      mappedSsrc := mappedSsrc + 1;
    }
  }

  // The consumable encodings: encoding i carries the mapped SSRC i, and nothing that identifies the
  // producer's own stream.
  method ConsumableEncodings(encodings: seq<Encoding>, mapped: seq<MappedEncoding>) returns (r: seq<Encoding>)
    requires |mapped| == |encodings|
    ensures |r| == |encodings|
    ensures forall i :: 0 <= i < |r| ==>
              && r[i].ssrc == Some(mapped[i].mappedSsrc)
              && r[i].rid.None? && r[i].rtxSsrc.None? && r[i].codecPayloadType.None?
              && r[i].scalabilityMode == encodings[i].scalabilityMode && r[i].maxBitrate == encodings[i].maxBitrate
  {
    r := [];
    for n := 0 to |encodings|
      invariant |r| == n
      invariant forall i :: 0 <= i < n ==>
                  r[i] == Encoding(Some(mapped[i].mappedSsrc), None, None, None,
                                   encodings[i].scalabilityMode, encodings[i].maxBitrate)
    {
      var e := encodings[n].(rid := None, rtxSsrc := None, codecPayloadType := None);
      r := r + [e.(ssrc := Some(mapped[n].mappedSsrc))];
    }
  }
}
