/**
 getProducerRtpParametersMapping (mediasouptestcase/src/ortc.ts): which capability of the router each
 codec of a producer stands for.
 */
module Negotiation {
  import opened Options
  import opened Codecs
  import opened RouterCapabilities

  datatype Entry = Entry(payloadType: int, mappedPayloadType: int)

  // codecs: the producer's codecs after matching has rewritten their parameters.
  datatype Mapped = Mapped(codecs: seq<Codec>, entries: seq<Entry>)

  // The source asserts (with "!") that every router capability has a payload type.
  predicate HavePts(caps: seq<Capability>)
  {
    forall i :: 0 <= i < |caps| ==> caps[i].preferredPayloadType.Some?
  }

  function Pt(caps: seq<Capability>, i: nat): int
    requires HavePts(caps) && i < |caps|
  {
    caps[i].preferredPayloadType.value
  }

  predicate RtxCodec(c: Codec) { IsRtxMime(c.mimeType) }

  // The first capability that a codec strictly matches.
  function Lookup(c: Sig, caps: seq<Capability>, h: H264): (r: Option<nat>)
    ensures r.Some? ==> r.value < |caps|
  {
    First(caps, (k: Capability) => Match(c, k.Sig(), true, h))
  }

  // Capability k is the first that a codec is compatible with.
  predicate FirstCompatible(c: Sig, caps: seq<Capability>, h: H264, k: nat)
  {
    && k < |caps| && Compatible(c, caps[k].Sig(), h)
    && forall j :: 0 <= j < k ==> !Compatible(c, caps[j].Sig(), h)
  }

  lemma LookupExact(c: Sig, caps: seq<Capability>, h: H264)
    ensures forall k: nat :: Lookup(c, caps, h) == Some(k) <==> FirstCompatible(c, caps, h, k)
    ensures Lookup(c, caps, h).None? <==> forall j :: 0 <= j < |caps| ==> !Compatible(c, caps[j].Sig(), h)
  {
    hide Match, Compatible;
    forall j | 0 <= j < |caps| ensures Match(c, caps[j].Sig(), true, h) <==> Compatible(c, caps[j].Sig(), h) {
      MatchExact(c, caps[j].Sig(), h);
    }
    var r := Lookup(c, caps, h);
    forall k: nat | FirstCompatible(c, caps, h, k) ensures r == Some(k) {
      assert Match(c, caps[k].Sig(), true, h);
    }
  }

  // The RTX capability whose apt is pt.
  function RtxOf(caps: seq<Capability>, pt: int): (r: Option<nat>)
    ensures r.Some? ==> r.value < |caps|
  {
    First(caps, (k: Capability) => Rtx(k) && Apt(k.parameters) == Some(Num(pt)))
  }

  // The codec that an RTX codec names.
  function Associated(codecs: seq<Codec>, apt: Option<Value>): (r: Option<nat>)
    ensures r.Some? ==> r.value < |codecs|
  {
    First(codecs, (c: Codec) => Some(Num(c.payloadType)) == apt)
  }

  // ---- getProducerRtpParametersMapping ----

  // What codecToCapCodec holds: the capability of each codec, as an index.
  type CapOf = seq<Option<nat>>

  predicate Within(m: CapOf, caps: seq<Capability>)
  {
    forall i :: 0 <= i < |m| && m[i].Some? ==> m[i].value < |caps|
  }

  function MediaCaps(codecs: seq<Codec>, caps: seq<Capability>, h: H264): (m: CapOf)
    ensures |m| == |codecs| && Within(m, caps)
    ensures forall i :: 0 <= i < |m| ==>
              m[i] == if RtxCodec(codecs[i]) then None else Lookup(codecs[i].Sig(), caps, h)
  {
    seq(|codecs|, i requires 0 <= i < |codecs| =>
      if RtxCodec(codecs[i]) then None else Lookup(codecs[i].Sig(), caps, h))
  }

  predicate MediaMatched(codecs: seq<Codec>, caps: seq<Capability>, h: H264)
  {
    forall i :: 0 <= i < |codecs| && !RtxCodec(codecs[i]) ==> Lookup(codecs[i].Sig(), caps, h).Some?
  }

  // The map after the RTX codecs among the first n have been looked up as well.
  function RtxCaps(codecs: seq<Codec>, caps: seq<Capability>, m: CapOf, n: nat): (r: Result<CapOf>)
    requires HavePts(caps) && |m| == |codecs| && n <= |codecs| && Within(m, caps)
    ensures r.Ok? ==> |r.value| == |codecs| && Within(r.value, caps)
  {
    if n == 0 then Ok(m)
    else match RtxCaps(codecs, caps, m, n - 1)
         case Err(e) => Err(e)
         case Ok(before) => RtxStep(codecs, caps, before, n - 1)
  }

  function RtxStep(codecs: seq<Codec>, caps: seq<Capability>, m: CapOf, i: nat): (r: Result<CapOf>)
    requires HavePts(caps) && |m| == |codecs| && i < |codecs| && Within(m, caps)
    ensures r.Ok? ==> |r.value| == |codecs| && Within(r.value, caps)
  {
    if !RtxCodec(codecs[i]) then Ok(m)
    else match Associated(codecs, Apt(codecs[i].parameters))
         case None => Err(TypeError)
         case Some(j) =>
           if m[j].None? then Err(TypeError)
           else match RtxOf(caps, Pt(caps, m[j].value))
                case None => Err(Unsupported)
                case Some(k) => Ok(m[i := Some(k)])
  }

  // The positions of the RTX codecs, or of the others, among the first n.
  function Indices(codecs: seq<Codec>, n: nat, rtx: bool): (r: seq<nat>)
    requires n <= |codecs|
    ensures forall a :: 0 <= a < |r| ==> r[a] < n && RtxCodec(codecs[r[a]]) == rtx
    ensures forall i :: 0 <= i < n && RtxCodec(codecs[i]) == rtx ==> i in r
  {
    if n == 0 then []
    else Indices(codecs, n - 1, rtx) + if RtxCodec(codecs[n - 1]) == rtx then [n - 1] else []
  }

  // The order in which codecToCapCodec was filled.
  function Order(codecs: seq<Codec>): (r: seq<nat>)
    ensures forall a :: 0 <= a < |r| ==> r[a] < |codecs|
    ensures forall i :: 0 <= i < |codecs| ==> i in r
  {
    Indices(codecs, |codecs|, false) + Indices(codecs, |codecs|, true)
  }

  // Every codec has a capability.
  predicate Total(m: CapOf, codecs: seq<Codec>, caps: seq<Capability>)
  {
    |m| == |codecs| && Within(m, caps) && forall i :: 0 <= i < |m| ==> m[i].Some?
  }

  function Entries(codecs: seq<Codec>, caps: seq<Capability>, m: CapOf): (r: seq<Entry>)
    requires HavePts(caps) && Total(m, codecs, caps)
    ensures |r| == |Order(codecs)|
  {
    var order := Order(codecs);
    seq(|order|, a requires 0 <= a < |order| =>
      Entry(codecs[order[a]].payloadType, Pt(caps, m[order[a]].value)))
  }

  function ModifiedCodec(c: Codec, caps: seq<Capability>, h: H264): Codec
  {
    var k := Lookup(c.Sig(), caps, h);
    if RtxCodec(c) || k.None? then c else c.(parameters := Modified(c.Sig(), caps[k.value].Sig(), h))
  }

  function ModifiedCodecs(codecs: seq<Codec>, caps: seq<Capability>, h: H264): (r: seq<Codec>)
    ensures |r| == |codecs|
  {
    seq(|codecs|, i requires 0 <= i < |codecs| => ModifiedCodec(codecs[i], caps, h))
  }

  lemma RtxStepKeeps(codecs: seq<Codec>, caps: seq<Capability>, m: CapOf, i: nat)
    requires HavePts(caps) && |m| == |codecs| && i < |codecs| && Within(m, caps)
    ensures var r := RtxStep(codecs, caps, m, i);
            r.Ok? ==>
              && (forall j :: 0 <= j < |codecs| && (j != i || !RtxCodec(codecs[j])) ==> r.value[j] == m[j])
              && (RtxCodec(codecs[i]) ==> r.value[i].Some?)
  {
    hide RtxOf, Associated, RtxCodec;
  }

  // Looking up RTX codecs neither drops nor changes what the other codecs map to.
  lemma {:induction false} RtxCapsTotal(codecs: seq<Codec>, caps: seq<Capability>, h: H264, n: nat)
    requires HavePts(caps) && n <= |codecs| && MediaMatched(codecs, caps, h)
    ensures var r := RtxCaps(codecs, caps, MediaCaps(codecs, caps, h), n);
            r.Ok? ==>
              && (forall i :: 0 <= i < |codecs| && !RtxCodec(codecs[i]) ==>
                    r.value[i] == Lookup(codecs[i].Sig(), caps, h))
              && (forall i :: 0 <= i < n ==> r.value[i].Some?)
  {
    hide Lookup, RtxStep, RtxCodec;
    if n > 0 {
      RtxCapsTotal(codecs, caps, h, n - 1);
      var m := MediaCaps(codecs, caps, h);
      if RtxCaps(codecs, caps, m, n).Ok? {
        RtxStepKeeps(codecs, caps, RtxCaps(codecs, caps, m, n - 1).value, n - 1);
      }
    }
  }

  function MapProducer(codecs: seq<Codec>, caps: seq<Capability>, h: H264): (r: Result<Mapped>)
    requires HavePts(caps)
  {
    if !MediaMatched(codecs, caps, h) then Err(Unsupported)
    else
      match RtxCaps(codecs, caps, MediaCaps(codecs, caps, h), |codecs|)
      case Err(e) => Err(e)
      case Ok(m) =>
        RtxCapsTotal(codecs, caps, h, |codecs|);
        Ok(Mapped(ModifiedCodecs(codecs, caps, h), Entries(codecs, caps, m)))
  }

  method GetProducerRtpParametersMapping(codecs: seq<Codec>, caps: seq<Capability>, h: H264)
    returns (r: Result<Mapped>)
    requires HavePts(caps)
    ensures r == MapProducer(codecs, caps, h)
  {
    hide MediaCaps, RtxCaps, Indices, MediaMatched;
    var media := MapMediaCodecs(codecs, caps, h);
    if media.Err? { return Err(media.error); }
    var (params, mediaCapOf, mediaOrder) := media.value;
    var rtx := MapRtxCodecs(codecs, caps, mediaCapOf, mediaOrder);
    if rtx.Err? { return Err(rtx.error); }
    var (capOf, order) := rtx.value;
    RtxCapsTotal(codecs, caps, h, |codecs|);
    var entries: seq<Entry> := [];
    for a := 0 to |order|
      invariant entries == Entries(codecs, caps, capOf)[..a]
    {
      entries := entries + [Entry(codecs[order[a]].payloadType, Pt(caps, capOf[order[a]].value))];
    }
    assert entries == Entries(codecs, caps, capOf);
    r := Ok(Mapped(params, entries));
  }

  // The loop over the media codecs: their capabilities, their rewritten parameters, the order.
  method MapMediaCodecs(codecs: seq<Codec>, caps: seq<Capability>, h: H264)
    returns (r: Result<(seq<Codec>, CapOf, seq<nat>)>)
    ensures r == if MediaMatched(codecs, caps, h)
                 then Ok((ModifiedCodecs(codecs, caps, h), MediaCaps(codecs, caps, h),
                          Indices(codecs, |codecs|, false)))
                 else Err(Unsupported)
  {
    hide Lookup, RtxCodec, Modified, Progress, Indices;
    var params: seq<Codec> := codecs;
    var capOf: CapOf := seq(|codecs|, i => None);
    var order: seq<nat> := [];
    ProgressStart(codecs, caps, h);
    for n := 0 to |codecs|
      invariant |capOf| == |params| == |codecs|
      invariant order == Indices(codecs, n, false)
      invariant Progress(codecs, caps, h, n, params, capOf)
    {
      ProgressStep(codecs, caps, h, n, params, capOf);
      if RtxCodec(codecs[n]) { continue; }
      var matched := Lookup(codecs[n].Sig(), caps, h);
      if matched.None? { return Err(Unsupported); }
      params := params[n := codecs[n].(parameters := Modified(codecs[n].Sig(), caps[matched.value].Sig(), h))];
      capOf := capOf[n := matched];
      order := order + [n];
    }
    ProgressEnd(codecs, caps, h, params, capOf);
    return Ok((params, capOf, order));
  }

  // The first n codecs have been dealt with.
  ghost predicate Progress(
    codecs: seq<Codec>, caps: seq<Capability>, h: H264, n: nat, params: seq<Codec>, capOf: CapOf)
  {
    && n <= |capOf| == |params| == |codecs|
    && (forall i :: 0 <= i < n && !RtxCodec(codecs[i]) ==> Lookup(codecs[i].Sig(), caps, h).Some?)
    && (forall i :: 0 <= i < |codecs| ==>
          capOf[i] == if i < n && !RtxCodec(codecs[i]) then Lookup(codecs[i].Sig(), caps, h) else None)
    && (forall i :: 0 <= i < |codecs| ==>
          params[i] == if i < n then ModifiedCodec(codecs[i], caps, h) else codecs[i])
  }

  lemma ProgressStart(codecs: seq<Codec>, caps: seq<Capability>, h: H264)
    ensures Progress(codecs, caps, h, 0, codecs, seq(|codecs|, i => None)) && Indices(codecs, 0, false) == []
  {
  }

  lemma ProgressStep(
    codecs: seq<Codec>, caps: seq<Capability>, h: H264, n: nat, params: seq<Codec>, capOf: CapOf)
    requires n < |codecs| && Progress(codecs, caps, h, n, params, capOf)
    ensures |capOf| == |params| == |codecs|
    ensures Indices(codecs, n + 1, false) == Indices(codecs, n, false) + if RtxCodec(codecs[n]) then [] else [n]
    ensures Indices(codecs, n, false) + [] == Indices(codecs, n, false)
    ensures RtxCodec(codecs[n]) ==> Progress(codecs, caps, h, n + 1, params, capOf)
    ensures var k := Lookup(codecs[n].Sig(), caps, h);
            !RtxCodec(codecs[n]) ==>
              if k.None? then !MediaMatched(codecs, caps, h)
              else var c := codecs[n].(parameters := Modified(codecs[n].Sig(), caps[k.value].Sig(), h));
                   Progress(codecs, caps, h, n + 1, params[n := c], capOf[n := k])
  {
    hide Lookup, RtxCodec, Modified;
  }

  lemma ProgressEnd(codecs: seq<Codec>, caps: seq<Capability>, h: H264, params: seq<Codec>, capOf: CapOf)
    requires Progress(codecs, caps, h, |codecs|, params, capOf)
    ensures MediaMatched(codecs, caps, h)
    ensures capOf == MediaCaps(codecs, caps, h) && params == ModifiedCodecs(codecs, caps, h)
  {
    hide Lookup, RtxCodec, Modified;
  }

  // The loop over the RTX codecs.
  method MapRtxCodecs(codecs: seq<Codec>, caps: seq<Capability>, mediaCapOf: CapOf, mediaOrder: seq<nat>)
    returns (r: Result<(CapOf, seq<nat>)>)
    requires HavePts(caps) && |mediaCapOf| == |codecs| && Within(mediaCapOf, caps)
    ensures r == match RtxCaps(codecs, caps, mediaCapOf, |codecs|)
                 case Err(e) => Err(e)
                 case Ok(m) => Ok((m, mediaOrder + Indices(codecs, |codecs|, true)))
  {
    hide RtxCodec, RtxStep;
    var capOf, order := mediaCapOf, mediaOrder;
    for n := 0 to |codecs|
      invariant |capOf| == |codecs| && Within(capOf, caps)
      invariant order == mediaOrder + Indices(codecs, n, true)
      invariant RtxCaps(codecs, caps, mediaCapOf, n) == Ok(capOf)
    {
      RtxCapsErr(codecs, caps, mediaCapOf, n + 1, |codecs|);
      var step := MapRtx(codecs, caps, capOf, n);
      if step.Err? { return Err(step.error); }
      capOf := step.value;
      if RtxCodec(codecs[n]) { order := order + [n]; }
    }
    return Ok((capOf, order));
  }

  method MapRtx(codecs: seq<Codec>, caps: seq<Capability>, capOf: CapOf, n: nat) returns (r: Result<CapOf>)
    requires HavePts(caps) && |capOf| == |codecs| && n < |codecs| && Within(capOf, caps)
    ensures r == RtxStep(codecs, caps, capOf, n)
  {
    if !RtxCodec(codecs[n]) { return Ok(capOf); }
    var associated := Associated(codecs, Apt(codecs[n].parameters));
    if associated.None? { return Err(TypeError); }
    var capMedia := capOf[associated.value];
    if capMedia.None? { return Err(TypeError); }
    var capRtx := RtxOf(caps, Pt(caps, capMedia.value));
    if capRtx.None? { return Err(Unsupported); }
    return Ok(capOf[n := capRtx]);
  }

  lemma {:induction false} RtxCapsErr(codecs: seq<Codec>, caps: seq<Capability>, m: CapOf, k: nat, n: nat)
    requires HavePts(caps) && |m| == |codecs| && k <= n <= |codecs| && Within(m, caps)
    ensures RtxCaps(codecs, caps, m, k).Err? ==> RtxCaps(codecs, caps, m, n) == RtxCaps(codecs, caps, m, k)
    decreases n
  {
    hide RtxStep;
    if k < n { RtxCapsErr(codecs, caps, m, k, n - 1); }
  }
}
