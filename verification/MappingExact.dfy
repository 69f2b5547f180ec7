/**
 Which producers getProducerRtpParametersMapping accepts, and what it maps their payload types to
 (mediasouptestcase/src/ortc.ts), in terms of the codecs and capabilities alone.
 */
module MappingExact {
  import opened Options
  import opened Codecs
  import opened RouterCapabilities
  import opened Negotiation
  import opened Consumable

  // RTX codec i names media codec j, whose first compatible capability k is a video codec.
  predicate Names(codecs: seq<Codec>, caps: seq<Capability>, h: H264, i: nat, j: nat, k: nat)
  {
    && i < |codecs| && j < |codecs| && !RtxCodec(codecs[j])
    && Apt(codecs[i].parameters) == Some(Num(codecs[j].payloadType))
    && FirstCompatible(codecs[j].Sig(), caps, h, k) && caps[k].kind == Video
  }

  ghost predicate Named(codecs: seq<Codec>, caps: seq<Capability>, h: H264, i: nat)
  {
    exists j: nat, k: nat :: Names(codecs, caps, h, i, j, k)
  }

  // Every media codec is compatible with some capability, and every RTX codec names a video codec.
  ghost predicate Acceptable(codecs: seq<Codec>, caps: seq<Capability>, h: H264)
  {
    && (forall i :: 0 <= i < |codecs| && !RtxCodec(codecs[i]) ==>
          exists k :: 0 <= k < |caps| && Compatible(codecs[i].Sig(), caps[k].Sig(), h))
    && (forall i :: 0 <= i < |codecs| && RtxCodec(codecs[i]) ==> Named(codecs, caps, h, i))
  }

  lemma MatchedIff(codecs: seq<Codec>, caps: seq<Capability>, h: H264)
    ensures MediaMatched(codecs, caps, h) <==>
              forall i :: 0 <= i < |codecs| && !RtxCodec(codecs[i]) ==>
                exists k :: 0 <= k < |caps| && Compatible(codecs[i].Sig(), caps[k].Sig(), h)
  {
    hide Lookup, Compatible, RtxCodec;
    forall i | 0 <= i < |codecs|
      ensures Lookup(codecs[i].Sig(), caps, h).Some? <==>
                exists k :: 0 <= k < |caps| && Compatible(codecs[i].Sig(), caps[k].Sig(), h)
    {
      LookupExact(codecs[i].Sig(), caps, h);
    }
  }

  // While the RTX codecs are looked up: media codecs have their first compatible capability, RTX codecs
  // an RTX capability or none yet.
  predicate Sorted(codecs: seq<Codec>, caps: seq<Capability>, h: H264, m: CapOf)
  {
    && |m| == |codecs| && Within(m, caps)
    && (forall i :: 0 <= i < |m| && !RtxCodec(codecs[i]) ==> m[i] == Lookup(codecs[i].Sig(), caps, h))
    && (forall i :: 0 <= i < |m| && RtxCodec(codecs[i]) && m[i].Some? ==> Rtx(caps[m[i].value]))
  }

  // No RTX capability belongs to an RTX capability.
  lemma NoRtxOfRtx(caps: seq<Capability>, k: nat)
    requires RouterCaps(caps) && HavePts(caps) && k < |caps| && Rtx(caps[k])
    ensures RtxOf(caps, Pt(caps, k)).None?
  {
    hide Validate, IsRtxMime;
    forall r | 0 <= r < |caps| && Rtx(caps[r]) ensures Apt(caps[r].parameters) != Some(Num(Pt(caps, k))) {
      assert Pt(caps, r - 1) != Pt(caps, k);
    }
  }

  // The first compatible capability of a media codec is a media capability.
  lemma FoundMedia(c: Codec, caps: seq<Capability>, h: H264, k: nat)
    requires !RtxCodec(c) && Lookup(c.Sig(), caps, h) == Some(k)
    ensures k < |caps| && !Rtx(caps[k])
  {
    MatchRtx(c.Sig(), caps[k].Sig(), true, h);
  }

  lemma AssociatedIs(codecs: seq<Codec>, apt: Option<Value>, j: nat)
    requires DistinctPts(codecs) && j < |codecs| && apt == Some(Num(codecs[j].payloadType))
    ensures Associated(codecs, apt) == Some(j)
  {
    var r := Associated(codecs, apt);
    assert Some(Num(codecs[j].payloadType)) == apt;
    assert r.Some?;
  }

  // Looking up one RTX codec succeeds if and only if it names a video codec, and then finds the capability
  // after that codec's.
  lemma RtxStepFinds(codecs: seq<Codec>, caps: seq<Capability>, h: H264, m: CapOf, i: nat, j: nat, k: nat)
    requires RouterCaps(caps) && HavePts(caps) && DistinctPts(codecs) && Sorted(codecs, caps, h, m)
    requires Names(codecs, caps, h, i, j, k) && RtxCodec(codecs[i])
    ensures k + 1 < |caps| && Rtx(caps[k + 1]) && RtxStep(codecs, caps, m, i) == Ok(m[i := Some(k + 1)])
  {
    hide RouterCaps, Lookup, RtxOf, RtxCodec, Associated, FirstCompatible, DistinctPts;
    LookupExact(codecs[j].Sig(), caps, h);
    AssociatedIs(codecs, Apt(codecs[i].parameters), j);
    FoundMedia(codecs[j], caps, h, k);
    RtxIsNext(caps, k);
    VideoHasNext(caps, k);
  }

  lemma VideoHasNext(caps: seq<Capability>, k: nat)
    requires RouterCaps(caps) && k < |caps| && !Rtx(caps[k]) && caps[k].kind == Video
    ensures k + 1 < |caps| && Rtx(caps[k + 1])
  {
    hide Validate, IsRtxMime;
  }

  lemma RtxStepOnly(codecs: seq<Codec>, caps: seq<Capability>, h: H264, m: CapOf, i: nat)
    requires RouterCaps(caps) && HavePts(caps) && DistinctPts(codecs) && Sorted(codecs, caps, h, m)
    requires i < |codecs| && RtxCodec(codecs[i]) && RtxStep(codecs, caps, m, i).Ok?
    ensures Named(codecs, caps, h, i)
  {
    hide RouterCaps, Lookup, RtxOf, RtxCodec, FirstCompatible, DistinctPts;
    var j := Associated(codecs, Apt(codecs[i].parameters)).value;
    var k := m[j].value;
    if RtxCodec(codecs[j]) {
      NoRtxOfRtx(caps, k);
      assert false;
    } else {
      LookupExact(codecs[j].Sig(), caps, h);
      FoundMedia(codecs[j], caps, h, k);
      RtxIsNext(caps, k);
      assert Names(codecs, caps, h, i, j, k);
    }
  }

  // Each RTX codec among the first n has the capability after that of the codec it names.
  ghost predicate RtxFound(codecs: seq<Codec>, caps: seq<Capability>, h: H264, m: CapOf, n: nat)
    requires |m| == |codecs|
  {
    forall i: nat, j: nat, k: nat ::
      i < n && i < |codecs| && RtxCodec(codecs[i]) && Names(codecs, caps, h, i, j, k) ==> m[i] == Some(k + 1)
  }

  lemma {:induction false} RtxCapsExact(codecs: seq<Codec>, caps: seq<Capability>, h: H264, n: nat)
    requires RouterCaps(caps) && HavePts(caps) && DistinctPts(codecs) && n <= |codecs|
    ensures var r := RtxCaps(codecs, caps, MediaCaps(codecs, caps, h), n);
            && (r.Ok? <==> forall i :: 0 <= i < n && RtxCodec(codecs[i]) ==> Named(codecs, caps, h, i))
            && (r.Ok? ==> Sorted(codecs, caps, h, r.value) && RtxFound(codecs, caps, h, r.value, n))
  {
    hide RouterCaps, Lookup, RtxStep, RtxCodec, Names, Named, DistinctPts;
    if n > 0 {
      RtxCapsExact(codecs, caps, h, n - 1);
      var before := RtxCaps(codecs, caps, MediaCaps(codecs, caps, h), n - 1);
      if before.Ok? {
        if RtxCodec(codecs[n - 1]) {
          RtxTurn(codecs, caps, h, before.value, n - 1);
        } else {
          MediaTurn(codecs, caps, before.value, n - 1);
        }
      }
    }
  }

  lemma MediaTurn(codecs: seq<Codec>, caps: seq<Capability>, m: CapOf, i: nat)
    requires HavePts(caps) && |m| == |codecs| && Within(m, caps) && i < |codecs| && !RtxCodec(codecs[i])
    ensures RtxStep(codecs, caps, m, i) == Ok(m)
  {
  }

  lemma RtxTurn(codecs: seq<Codec>, caps: seq<Capability>, h: H264, m: CapOf, i: nat)
    requires RouterCaps(caps) && HavePts(caps) && DistinctPts(codecs) && Sorted(codecs, caps, h, m)
    requires i < |codecs| && RtxCodec(codecs[i]) && RtxFound(codecs, caps, h, m, i)
    ensures var r := RtxStep(codecs, caps, m, i);
            && (r.Ok? <==> Named(codecs, caps, h, i))
            && (r.Ok? ==> Sorted(codecs, caps, h, r.value) && RtxFound(codecs, caps, h, r.value, i + 1))
  {
    hide RouterCaps, Lookup, RtxStep, RtxCodec, Names, DistinctPts;
    var r := RtxStep(codecs, caps, m, i);
    if r.Ok? { RtxStepOnly(codecs, caps, h, m, i); }
    if Named(codecs, caps, h, i) {
      forall j: nat, k: nat | Names(codecs, caps, h, i, j, k)
        ensures k + 1 < |caps| && Rtx(caps[k + 1]) && r == Ok(m[i := Some(k + 1)])
      {
        RtxStepFinds(codecs, caps, h, m, i, j, k);
      }
    }
  }

  // The mapping has an entry for payload type a, and every such entry says b.
  predicate MapsTo(entries: seq<Entry>, a: int, b: int)
  {
    && Entry(a, b) in entries
    && forall e :: e in entries && e.payloadType == a ==> e.mappedPayloadType == b
  }

  lemma EntryMapsTo(codecs: seq<Codec>, caps: seq<Capability>, m: CapOf, i: nat)
    requires HavePts(caps) && Total(m, codecs, caps) && DistinctPts(codecs) && i < |codecs|
    ensures MapsTo(Entries(codecs, caps, m), codecs[i].payloadType, Pt(caps, m[i].value))
  {
    hide Indices;
    var entries, order := Entries(codecs, caps, m), Order(codecs);
    assert i in order;
    var a :| 0 <= a < |order| && order[a] == i;
    assert entries[a] == Entry(codecs[i].payloadType, Pt(caps, m[i].value));
  }

  // With the router's capabilities and distinct payload types: a producer is accepted if and only if its
  // media codecs are compatible and its RTX codecs name video codecs.
  lemma MappingIff(codecs: seq<Codec>, caps: seq<Capability>, h: H264)
    requires RouterCaps(caps) && HavePts(caps) && DistinctPts(codecs)
    ensures MapProducer(codecs, caps, h).Ok? <==> Acceptable(codecs, caps, h)
  {
    hide RouterCaps, Lookup, RtxCaps, MediaCaps, RtxCodec, Entries, Named, Compatible;
    MatchedIff(codecs, caps, h);
    RtxCapsExact(codecs, caps, h, |codecs|);
  }

  // What the entries of an accepted producer were made from.
  lemma MappedFrom(codecs: seq<Codec>, caps: seq<Capability>, h: H264) returns (m: CapOf)
    requires RouterCaps(caps) && HavePts(caps) && DistinctPts(codecs) && MapProducer(codecs, caps, h).Ok?
    ensures Total(m, codecs, caps) && Sorted(codecs, caps, h, m) && RtxFound(codecs, caps, h, m, |codecs|)
    ensures MapProducer(codecs, caps, h).value.entries == Entries(codecs, caps, m)
  {
    hide RouterCaps, Lookup, RtxCaps, MediaCaps, RtxCodec, Entries, Named, Names, Sorted, DistinctPts;
    RtxCapsExact(codecs, caps, h, |codecs|);
    RtxCapsTotal(codecs, caps, h, |codecs|);
    m := RtxCaps(codecs, caps, MediaCaps(codecs, caps, h), |codecs|).value;
  }

  // A media codec is mapped to the first capability that it is compatible with.
  lemma MediaMapsTo(codecs: seq<Codec>, caps: seq<Capability>, h: H264, i: nat, k: nat)
    requires RouterCaps(caps) && HavePts(caps) && DistinctPts(codecs) && MapProducer(codecs, caps, h).Ok?
    requires i < |codecs| && !RtxCodec(codecs[i]) && FirstCompatible(codecs[i].Sig(), caps, h, k)
    ensures MapsTo(MapProducer(codecs, caps, h).value.entries, codecs[i].payloadType, Pt(caps, k))
  {
    hide RouterCaps, Lookup, RtxCodec, MapsTo, Entries, DistinctPts, MapProducer;
    var m := MappedFrom(codecs, caps, h);
    LookupExact(codecs[i].Sig(), caps, h);
    EntryMapsTo(codecs, caps, m, i);
  }

  // An RTX codec is mapped to the capability after that of the codec it names, which is an RTX capability.
  lemma RtxMapsTo(codecs: seq<Codec>, caps: seq<Capability>, h: H264, i: nat, j: nat, k: nat)
    requires RouterCaps(caps) && HavePts(caps) && DistinctPts(codecs) && MapProducer(codecs, caps, h).Ok?
    requires i < |codecs| && RtxCodec(codecs[i]) && Names(codecs, caps, h, i, j, k)
    ensures k + 1 < |caps| && Rtx(caps[k + 1])
    ensures MapsTo(MapProducer(codecs, caps, h).value.entries, codecs[i].payloadType, Pt(caps, k + 1))
  {
    hide RouterCaps, Lookup, RtxCodec, MapsTo, Entries, DistinctPts, MapProducer, Names;
    var m := MappedFrom(codecs, caps, h);
    EntryMapsTo(codecs, caps, m, i);
  }

  // ---- The order of the entries ----

  // The payload types of the RTX codecs, or of the others, among the first n.
  function Types(codecs: seq<Codec>, n: nat, rtx: bool): seq<int>
    requires n <= |codecs|
  {
    if n == 0 then []
    else Types(codecs, n - 1, rtx) + if RtxCodec(codecs[n - 1]) == rtx then [codecs[n - 1].payloadType] else []
  }

  lemma {:induction false} TypesAre(codecs: seq<Codec>, n: nat, rtx: bool)
    requires n <= |codecs|
    ensures var s, t := Indices(codecs, n, rtx), Types(codecs, n, rtx);
            |s| == |t| && forall a :: 0 <= a < |s| ==> s[a] < |codecs| && codecs[s[a]].payloadType == t[a]
  {
    hide RtxCodec;
    if n > 0 { TypesAre(codecs, n - 1, rtx); }
  }

  // One entry for each codec: the media codecs in order, then the RTX codecs in order.
  lemma EntriesInOrder(codecs: seq<Codec>, caps: seq<Capability>, h: H264)
    requires HavePts(caps) && MapProducer(codecs, caps, h).Ok?
    ensures var entries := MapProducer(codecs, caps, h).value.entries;
            var types := Types(codecs, |codecs|, false) + Types(codecs, |codecs|, true);
            |entries| == |types| && forall a :: 0 <= a < |entries| ==> entries[a].payloadType == types[a]
  {
    hide RtxCaps, MediaMatched, Indices, Types;
    RtxCapsTotal(codecs, caps, h, |codecs|);
    TypesAre(codecs, |codecs|, false);
    TypesAre(codecs, |codecs|, true);
  }
}
