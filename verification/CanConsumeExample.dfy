/**
 A router and a producer for which canConsume refuses what getConsumerRtpParameters accepts
 (mediasouptestcase/src/ortc.ts).
 */
module CanConsumeExample {
  import opened Options
  import opened Codecs
  import opened RouterCapabilities
  import opened Negotiation
  import opened Consumable
  import opened Consumer
  import opened Pipe

  // The router's media codecs, which are entries 18 and 19 of the table of supported codecs.
  const MEDIA: seq<Capability> := [
    Capability(Video, "video/VP8", None, 90000, None, map[]),
    Capability(Video, "video/VP9", None, 90000, None, map[])]

  const PRODUCER: seq<Codec> := [
    Codec("video/VP8", 96, 90000, None, map[]),
    Codec("video/VP9", 97, 90000, None, map[])]

  const CAPS: seq<Capability> := [
    Capability(Video, "video/VP8", Some(100), 90000, None, map[]),
    Capability(Video, "video/rtx", Some(101), 90000, None, map["apt" := Num(100)]),
    Capability(Video, "video/VP9", Some(102), 90000, None, map[]),
    Capability(Video, "video/rtx", Some(103), 90000, None, map["apt" := Num(102)])]

  const VP8 := Codec("video/VP8", 100, 90000, None, map[])
  const VP8_RTX := Codec("video/rtx", 101, 90000, None, map["apt" := Num(100)])
  const VP9 := Codec("video/VP9", 102, 90000, None, map[])
  const VP9_RTX := Codec("video/rtx", 103, 90000, None, map["apt" := Num(102)])

  // A peer that knows VP9 and RTX but not VP8.
  const PEER: seq<Capability> := [
    Capability(Video, "video/VP9", Some(96), 90000, None, map[]),
    Capability(Video, "video/rtx", Some(97), 90000, None, map["apt" := Num(96)])]

  lemma Names()
    ensures Lower("video/VP8") == "video/vp8" && Lower("video/VP9") == "video/vp9" && Lower("video/rtx") == "video/rtx"
    ensures "video/vp8" != "video/vp9" && "video/vp8" != "video/rtx" && "video/vp9" != "video/rtx"
    ensures "video/vp8" != "video/h264" && "video/vp9" != "video/h264" && "video/rtx" != "video/h264"
  {
    assert Lower("video/VP8") == "video/vp8";
    assert Lower("video/VP9") == "video/vp9";
    assert Lower("video/rtx") == "video/rtx";
    assert "video/vp8"[8] != "video/vp9"[8] && "video/vp8"[8] != "video/rtx"[8] && "video/vp9"[8] != "video/rtx"[8];
  }

  lemma Kinds()
    ensures RtxCodec(VP8_RTX) && RtxCodec(VP9_RTX) && !RtxCodec(VP9) && !RtxCodec(VP8)
    ensures MimeKind("video/VP8") == MimeKind("video/VP9") == MimeKind("video/rtx") == Some(Video)
    ensures !RtxCodec(PRODUCER[0]) && !RtxCodec(PRODUCER[1])
  {
    Names();
    assert "video/vp8"[5..] == "/vp8" && "video/vp9"[5..] == "/vp9" && "video/rtx"[5..] == "/rtx";
    assert "video/vp8"[..6] == "video/" && "video/vp9"[..6] == "video/" && "video/rtx"[..6] == "video/";
    assert "/vp8"[1] != "/rtx"[1] && "/vp9"[1] != "/rtx"[1];
    hide Lower;
  }

  lemma PeerValid()
    ensures ValidateAll(PEER) == Ok(PEER)
  {
    Kinds();
    hide MimeKind, IsRtxMime;
    assert forall i :: 0 <= i < |PEER| ==> Validate(PEER[i]) == Ok(PEER[i]);
    hide Validate;
    var r := ValidateAll(PEER);
    if r.Ok? { assert r.value == PEER; }
  }

  // ---- The router ----

  lemma TableNames()
    ensures |SUPPORTED| == 24 && SUPPORTED[18] == MEDIA[0] && SUPPORTED[19] == MEDIA[1]
    ensures forall j :: 0 <= j < 18 ==> SUPPORTED[j].kind == Audio
    ensures forall j :: 20 <= j < 24 ==> |SUPPORTED[j].mimeType| == 10
  {
    assert "video/" + "VP8" == "video/VP8" && "video/" + "VP9" == "video/VP9";
  }

  // Neither entry matches another entry of the table.
  lemma MatchesOnly(i: nat, j: nat, h: H264)
    requires (i == 18 || i == 19) && j < |SUPPORTED|
    ensures Match(SUPPORTED[i].Sig(), SUPPORTED[j].Sig(), false, h) <==> i == j
  {
    TableNames();
    Names();
    SupportedOk();
    hide SUPPORTED, Lower;
    assert EntryOk(SUPPORTED[i]) && EntryOk(SUPPORTED[j]);
  }

  lemma AddSupported(g: Gen, i: nat, h: H264)
    requires (i == 18 || i == 19) && |g.dynamic| >= 2 && !Used(g.codecs, g.dynamic[0]) && |SUPPORTED| == 24
    ensures var c := SUPPORTED[i].(preferredPayloadType := Some(g.dynamic[0]));
            AddCodec(g, SUPPORTED[i], SUPPORTED, h)
            == Ok(Gen(g.codecs + [c, RtxFor(c, g.dynamic[0], g.dynamic[1])], g.dynamic[2..]))
  {
    TableNames();
    SupportedOk();
    hide SUPPORTED, Match, Used, IsRtxMime;
    var s := SUPPORTED[i];
    assert EntryOk(s);
    hide Validate;
    forall j | 0 <= j < |SUPPORTED| ensures Match(s.Sig(), SUPPORTED[j].Sig(), false, h) <==> i == j {
      MatchesOnly(i, j, h);
    }
    var found := First(SUPPORTED, (t: Capability) => Match(s.Sig(), t.Sig(), false, h));
    assert found == Some(i);
    assert s.parameters + s.parameters == s.parameters;
    assert g.dynamic[1..][1..] == g.dynamic[2..];
  }

  lemma DynamicStart()
    ensures |DYNAMIC| == 32 && DYNAMIC[0] == 100 && DYNAMIC[1] == 101 && DYNAMIC[2] == 102 && DYNAMIC[3] == 103
  {
  }

  lemma FirstAdded(h: H264)
    ensures AddCodec(Gen([], DYNAMIC), MEDIA[0], SUPPORTED, h) == Ok(Gen(CAPS[..2], DYNAMIC[2..]))
  {
    hide SUPPORTED, DYNAMIC, AddCodec;
    TableNames();
    DynamicStart();
    AddSupported(Gen([], DYNAMIC), 18, h);
    assert CAPS[..2] == [] + [CAPS[0], CAPS[1]];
  }

  lemma SecondAdded(h: H264)
    ensures var r := AddCodec(Gen(CAPS[..2], DYNAMIC[2..]), MEDIA[1], SUPPORTED, h);
            r.Ok? && r.value.codecs == CAPS
  {
    hide SUPPORTED, DYNAMIC, AddCodec;
    TableNames();
    DynamicStart();
    assert !Used(CAPS[..2], 102);
    AddSupported(Gen(CAPS[..2], DYNAMIC[2..]), 19, h);
    assert CAPS == CAPS[..2] + [CAPS[2], CAPS[3]];
  }

  lemma Router(h: H264)
    ensures Generate(MEDIA, SUPPORTED, h).Ok? && Generate(MEDIA, SUPPORTED, h).value.codecs == CAPS
    ensures RouterCaps(CAPS) && HavePts(CAPS)
  {
    hide SUPPORTED, DYNAMIC, CAPS, AddCodec, TableOk, Fresh;
    SupportedOk();
    GenerateShape(MEDIA, SUPPORTED, h);
    hide Distinct;
    FirstAdded(h);
    SecondAdded(h);
    var one := MEDIA[..1];
    assert one == [MEDIA[0]] && one[..0] == [] && MEDIA[1] == MEDIA[|MEDIA| - 1];
    assert Generate([], SUPPORTED, h) == Ok(Gen([], DYNAMIC));
    assert Generate(one, SUPPORTED, h) == AddCodec(Gen([], DYNAMIC), MEDIA[0], SUPPORTED, h);
  }

  // ---- The producer ----

  lemma Found(h: H264)
    ensures Lookup(PRODUCER[0].Sig(), CAPS, h) == Some(0) && Lookup(PRODUCER[1].Sig(), CAPS, h) == Some(2)
  {
    Names();
    hide Lower;
    assert Match(PRODUCER[0].Sig(), CAPS[0].Sig(), true, h);
    assert Match(PRODUCER[1].Sig(), CAPS[2].Sig(), true, h);
    assert !Match(PRODUCER[1].Sig(), CAPS[0].Sig(), true, h) && !Match(PRODUCER[1].Sig(), CAPS[1].Sig(), true, h);
  }

  lemma Mapping(h: H264)
    requires HavePts(CAPS)
    ensures MapProducer(PRODUCER, CAPS, h).Ok? && MediaMatched(PRODUCER, CAPS, h)
  {
    hide Lookup, RtxCodec, CAPS, HavePts;
    Kinds();
    Found(h);
    var m := MediaCaps(PRODUCER, CAPS, h);
    assert RtxCaps(PRODUCER, CAPS, m, 0) == Ok(m);
    assert RtxCaps(PRODUCER, CAPS, m, 1) == Ok(m);
    assert RtxCaps(PRODUCER, CAPS, m, 2) == Ok(m);
  }

  lemma Chosen8And9(h: H264)
    requires MediaMatched(PRODUCER, CAPS, h)
    ensures Choices(PRODUCER, CAPS, h) == [Choice(0, map[]), Choice(2, map[])]
  {
    hide Lower, Lookup, RtxCodec, CAPS;
    Names();
    Kinds();
    Found(h);
    var last := PRODUCER[1..];
    assert last == [PRODUCER[1]] && last[1..] == [];
    assert Choices(last, CAPS, h) == [ChoiceOf(PRODUCER[1], CAPS, h)];
    assert ChoiceOf(PRODUCER[0], CAPS, h) == Choice(0, map[]) && ChoiceOf(PRODUCER[1], CAPS, h) == Choice(2, map[]);
  }

  // What consumers of the producer start from.
  lemma Negotiated(h: H264)
    ensures HavePts(CAPS) && MapProducer(PRODUCER, CAPS, h).Ok?
    ensures Consumables(PRODUCER, CAPS, h) == Ok([VP8, VP8_RTX, VP9, VP9_RTX])
  {
    hide MapProducer, Choices, Blocks, MediaMatched, CAPS, ConsumableCodecs, Paired, ModifiedCodecs, HavePts, Distinct;
    hide PRODUCER, DistinctPts, ChoicesWithin, VP8, VP8_RTX, VP9, VP9_RTX;
    ProducerDistinct();
    Router(h);
    Mapping(h);
    Chosen8And9(h);
    var entries := MapProducer(PRODUCER, CAPS, h).value.entries;
    ConsumableIsBlocks(PRODUCER, CAPS, h, entries, 0);
    assert PRODUCER[0..] == PRODUCER;
    MappedWhole(h);
    BlocksAre();
  }

  lemma ProducerDistinct()
    ensures DistinctPts(PRODUCER)
  {
  }

  lemma MappedWhole(h: H264)
    requires HavePts(CAPS) && MapProducer(PRODUCER, CAPS, h).Ok?
    ensures MapProducer(PRODUCER, CAPS, h).value.codecs == ModifiedCodecs(PRODUCER, CAPS, h)[0..]
  {
    hide ModifiedCodec, RtxCaps, MediaMatched, CAPS;
  }

  lemma BlocksAre()
    requires HavePts(CAPS)
    ensures ChoicesWithin([Choice(0, map[]), Choice(2, map[])], CAPS)
    ensures Blocks([Choice(0, map[]), Choice(2, map[])], CAPS) == [VP8, VP8_RTX, VP9, VP9_RTX]
  {
    hide Block, CAPS, VP8, VP8_RTX, VP9, VP9_RTX;
    Contributed();
    var choices := [Choice(0, map[]), Choice(2, map[])];
    assert choices[1..] == [choices[1]] && choices[1..][1..] == [];
    assert Blocks(choices[1..], CAPS) == [VP9, VP9_RTX] + [];
    assert [VP8, VP8_RTX] + ([VP9, VP9_RTX] + []) == [VP8, VP8_RTX, VP9, VP9_RTX];
  }

  lemma Contributed()
    requires HavePts(CAPS)
    ensures |CAPS| == 4
    ensures Block(CAPS, 0, map[]) == [VP8, VP8_RTX] && Block(CAPS, 2, map[]) == [VP9, VP9_RTX]
  {
    Kinds();
    assert Rtx(CAPS[1]) && Rtx(CAPS[3]) && !Rtx(CAPS[0]) && !Rtx(CAPS[2]);
    hide Rtx;
    assert RtxOf(CAPS, 100) == Some(1);
    assert RtxOf(CAPS, 102) == Some(3);
  }

  // ---- The peer ----

  lemma Support(h: H264)
    ensures !Supports(PEER, VP8, h) && Supports(PEER, VP8_RTX, h)
    ensures Supports(PEER, VP9, h) && Supports(PEER, VP9_RTX, h)
  {
    Names();
    hide Lower;
    assert Match(PEER[0].Sig(), VP9.Sig(), true, h);
    assert Match(PEER[1].Sig(), VP8_RTX.Sig(), true, h) && Match(PEER[1].Sig(), VP9_RTX.Sig(), true, h);
  }

  lemma FirstUnmatched(a: Codec, rest: seq<Codec>, caps: seq<Capability>, h: H264)
    requires !Supports(caps, a, h) && forall c :: c in rest ==> Supports(caps, c, h)
    ensures Matching([a] + rest, caps, h) == rest
  {
    hide Supports;
    AllMatched(rest, caps, h);
    assert ([a] + rest)[1..] == rest && [] + rest == rest;
  }

  lemma {:induction false} AllMatched(codecs: seq<Codec>, caps: seq<Capability>, h: H264)
    requires forall c :: c in codecs ==> Supports(caps, c, h)
    ensures Matching(codecs, caps, h) == codecs
  {
    hide Supports;
    if codecs != [] { AllMatched(codecs[1..], caps, h); }
  }

  lemma Matched(h: H264)
    ensures Matching([VP8, VP8_RTX, VP9, VP9_RTX], PEER, h) == [VP8_RTX, VP9, VP9_RTX]
  {
    Support(h);
    hide Supports, Matching;
    FirstUnmatched(VP8, [VP8_RTX, VP9, VP9_RTX], PEER, h);
    assert [VP8] + [VP8_RTX, VP9, VP9_RTX] == [VP8, VP8_RTX, VP9, VP9_RTX];
  }

  lemma Swept()
    ensures Sweep([VP8_RTX, VP9, VP9_RTX], []) == [VP9, VP9_RTX]
  {
    Kinds();
    hide RtxCodec;
    assert VP9 in [VP8_RTX, VP9, VP9_RTX] + [];
    assert [VP8_RTX, VP9, VP9_RTX][..2] == [VP8_RTX, VP9] && [VP9_RTX] + [] == [VP9_RTX];
    assert Sweep([VP8_RTX, VP9, VP9_RTX], []) == Sweep([VP8_RTX, VP9], [VP9_RTX]);
    assert [VP8_RTX, VP9][..1] == [VP8_RTX] && [VP9] + [VP9_RTX] == [VP9, VP9_RTX];
    assert Sweep([VP8_RTX, VP9], [VP9_RTX]) == Sweep([VP8_RTX], [VP9, VP9_RTX]);
    assert [VP8_RTX] + [VP9, VP9_RTX] == [VP8_RTX, VP9, VP9_RTX] && [VP8_RTX][..0] == [];
    assert !HasPt([VP8_RTX, VP9, VP9_RTX], Apt(VP8_RTX.parameters));
    assert Sweep([VP8_RTX], [VP9, VP9_RTX]) == Sweep([], [VP9, VP9_RTX]);
  }

  // The first codec that the peer supports is the RTX codec of VP8, so canConsume says no; the backward
  // loop removes it, so getConsumerRtpParameters succeeds.
  lemma CanConsumeIncomplete(h: H264)
    ensures Generate(MEDIA, SUPPORTED, h).Ok?
    ensures var caps := Generate(MEDIA, SUPPORTED, h).value.codecs;
            && HavePts(caps) && MapProducer(PRODUCER, caps, h).Ok? && Consumables(PRODUCER, caps, h).Ok?
            && var consumable := Consumables(PRODUCER, caps, h).value;
               && CanConsume(consumable, PEER, h) == Ok(false)
               && ConsumerCodecs(consumable, PEER, h) == Ok([VP9, VP9_RTX])
  {
    Kinds();
    PeerValid();
    Router(h);
    Negotiated(h);
    Matched(h);
    Swept();
    hide Matching, Sweep, RtxCodec, ValidateAll, Generate, Consumables, MapProducer, CAPS, SUPPORTED, RouterCaps;
  }
}
