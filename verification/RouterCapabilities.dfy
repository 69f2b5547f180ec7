/**
 generateRouterRtpCapabilities (mediasouptestcase/src/ortc.ts): the router's codec list, with
 payload types allocated and an RTX codec after every video codec.
 */
module RouterCapabilities {
  import opened Options
  import opened Codecs

  const DYNAMIC: seq<int> := [
    100, 101, 102, 103, 104, 105, 106, 107, 108, 109, 110,
    111, 112, 113, 114, 115, 116, 117, 118, 119, 120, 121,
    122, 123, 124, 125, 126, 127, 96, 97, 98, 99]

  // What is still to be handed out, and what has been built.
  datatype Gen = Gen(codecs: seq<Capability>, dynamic: seq<int>)

  // indexOf and splice: the list without the first occurrence of x.
  function Without(s: seq<int>, x: int): (r: seq<int>)
    ensures forall y :: y in r ==> y in s
  {
    if s == [] then [] else if s[0] == x then s[1..] else [s[0]] + Without(s[1..], x)
  }

  predicate Used(cs: seq<Capability>, pt: int)
  {
    exists i :: 0 <= i < |cs| && cs[i].preferredPayloadType == Some(pt)
  }

  // The payload type of a media codec, and the dynamic types left.
  function Choose(media: Capability, supported: Capability, dynamic: seq<int>): Result<(int, seq<int>)>
  {
    if media.preferredPayloadType.Some? then
      Ok((media.preferredPayloadType.value, Without(dynamic, media.preferredPayloadType.value)))
    else if supported.preferredPayloadType.Some? then Ok((supported.preferredPayloadType.value, dynamic))
    else if dynamic == [] then Err(Exhausted)
    else Ok((dynamic[0], dynamic[1..]))
  }

  function RtxFor(c: Capability, mediaPt: int, pt: int): Capability
  {
    Capability(c.kind, "video/rtx", Some(pt), c.clockRate, None, map["apt" := Num(mediaPt)])
  }

  // Media codec m, supported as s: its entry and, for video, that of its RTX codec.
  function Place(g: Gen, m: Capability, s: Capability): Result<Gen>
  {
    match Choose(m, s, g.dynamic)
    case Err(e) => Err(e)
    case Ok((pt, left)) =>
      if Used(g.codecs, pt) then Err(TypeError)
      else
        var codec := s.(preferredPayloadType := Some(pt), parameters := s.parameters + m.parameters);
        if codec.kind == Audio then Ok(Gen(g.codecs + [codec], left))
        else if left == [] then Err(Exhausted)
        else Ok(Gen(g.codecs + [codec, RtxFor(codec, pt, left[0])], left[1..]))
  }

  function AddCodec(g: Gen, media: Capability, table: seq<Capability>, h: H264): Result<Gen>
  {
    match Validate(media)
    case Err(e) => Err(e)
    case Ok(m) =>
      match First(table, (s: Capability) => Match(m.Sig(), s.Sig(), false, h))
      case None => Err(Unsupported)
      case Some(i) => Place(g, m, table[i])
  }

  function Generate(media: seq<Capability>, table: seq<Capability>, h: H264): Result<Gen>
  {
    if media == [] then Ok(Gen([], DYNAMIC))
    else match Generate(media[..|media| - 1], table, h)
         case Err(e) => Err(e)
         case Ok(g) => AddCodec(g, media[|media| - 1], table, h)
  }

  method GenerateRouterRtpCapabilities(media: seq<Capability>, table: seq<Capability>, h: H264)
    returns (r: Result<Gen>)
    ensures r == Generate(media, table, h)
  {
    hide AddCodec;
    var dynamic, codecs: seq<Capability> := DYNAMIC, [];
    for n := 0 to |media|
      invariant Generate(media[..n], table, h) == Ok(Gen(codecs, dynamic))
    {
      GenerateErr(media, n + 1, table, h);
      assert media[..n + 1][..n] == media[..n];
      var step := AddMediaCodec(codecs, dynamic, media[n], table, h);
      if step.Err? { return step; }
      codecs, dynamic := step.value.codecs, step.value.dynamic;
    }
    assert media[..|media|] == media;
    r := Ok(Gen(codecs, dynamic));
  }

  // One turn of the loop.
  method AddMediaCodec(codecs: seq<Capability>, available: seq<int>, media: Capability, table: seq<Capability>, h: H264)
    returns (r: Result<Gen>)
    ensures r == AddCodec(Gen(codecs, available), media, table, h)
  {
    hide Validate, Without, Used, Match;
    var dynamic := available;
    var v := Validate(media);
    if v.Err? { return Err(v.error); }
    var m := v.value;
    var found := First(table, (s: Capability) => Match(m.Sig(), s.Sig(), false, h));
    if found.None? { return Err(Unsupported); }
    var codec := table[found.value];
    if m.preferredPayloadType.Some? {
      codec := codec.(preferredPayloadType := m.preferredPayloadType);
      dynamic := Without(dynamic, m.preferredPayloadType.value);
    } else if codec.preferredPayloadType.None? {
      if dynamic == [] { return Err(Exhausted); }
      codec := codec.(preferredPayloadType := Some(dynamic[0]));
      dynamic := dynamic[1..];
    }
    var pt := codec.preferredPayloadType.value;
    if Used(codecs, pt) { return Err(TypeError); }
    codec := codec.(parameters := codec.parameters + m.parameters);
    if codec.kind == Audio { return Ok(Gen(codecs + [codec], dynamic)); }
    if dynamic == [] { return Err(Exhausted); }
    return Ok(Gen(codecs + [codec, RtxFor(codec, pt, dynamic[0])], dynamic[1..]));
  }

  // An error on a prefix of the media codecs is the error of the whole list.
  lemma {:induction false} GenerateErr(media: seq<Capability>, n: nat, table: seq<Capability>, h: H264)
    requires n <= |media|
    ensures Generate(media[..n], table, h).Err? ==> Generate(media, table, h) == Generate(media[..n], table, h)
    decreases |media|
  {
    hide AddCodec;
    if n == |media| {
      assert media[..n] == media;
    } else {
      var before := media[..|media| - 1];
      assert before[..n] == media[..n];
      GenerateErr(before, n, table, h);
    }
  }

  // ---- The shape of the result ----

  predicate Rtx(c: Capability) { IsRtxMime(c.mimeType) }

  predicate IsDynamic(pt: int) { 96 <= pt <= 127 }

  // RTX codecs and video codecs come in adjacent pairs, the RTX codec naming its media codec and
  // sharing its clock rate; RTX payload types are dynamic; every entry is normalised.
  predicate Paired(cs: seq<Capability>)
  {
    && (forall i :: 0 <= i < |cs| ==> cs[i].preferredPayloadType.Some? && Validate(cs[i]) == Ok(cs[i]))
    && (forall i :: 0 <= i < |cs| && Rtx(cs[i]) ==>
          && i > 0 && !Rtx(cs[i - 1]) && cs[i - 1].kind == Video
          && cs[i].channels.None? && cs[i].clockRate == cs[i - 1].clockRate
          && IsDynamic(cs[i].preferredPayloadType.value)
          && Apt(cs[i].parameters) == Some(Num(cs[i - 1].preferredPayloadType.value)))
    && (forall i :: 0 <= i < |cs| && !Rtx(cs[i]) && cs[i].kind == Video ==> i + 1 < |cs| && Rtx(cs[i + 1]))
  }

  predicate Distinct(cs: seq<Capability>)
  {
    forall i, j :: 0 <= i < j < |cs| ==> cs[i].preferredPayloadType != cs[j].preferredPayloadType
  }

  predicate RouterCaps(cs: seq<Capability>) { Paired(cs) && Distinct(cs) }

  // The table of supported codecs: normalised media codecs whose fixed payload types are not dynamic.
  predicate EntryOk(c: Capability)
  {
    && Validate(c) == Ok(c) && !Rtx(c)
    && (c.preferredPayloadType.Some? ==> !IsDynamic(c.preferredPayloadType.value))
  }

  predicate TableOk(table: seq<Capability>)
  {
    forall i :: 0 <= i < |table| ==> EntryOk(table[i])
  }

  predicate Fresh(dynamic: seq<int>, cs: seq<Capability>)
  {
    && (forall x :: x in dynamic ==> IsDynamic(x) && !Used(cs, x))
    && (forall i, j :: 0 <= i < j < |dynamic| ==> dynamic[i] != dynamic[j])
  }

  lemma {:induction false} WithoutRemoves(s: seq<int>, x: int)
    requires forall i, j :: 0 <= i < j < |s| ==> s[i] != s[j]
    ensures var r := Without(s, x);
            x !in r && forall i, j :: 0 <= i < j < |r| ==> r[i] != r[j]
  {
    if s != [] && s[0] != x {
      WithoutRemoves(s[1..], x);
      var rest := Without(s[1..], x);
      hide Without;
      assert s[0] !in s[1..] && s[0] !in rest;
      assert forall i :: 0 < i < |[s[0]] + rest| ==> ([s[0]] + rest)[i] == rest[i - 1] && rest[i - 1] in rest;
    }
  }

  lemma VideoRtx()
    ensures IsRtxMime("video/rtx") && MimeKind("video/rtx") == Some(Video)
  {
    var l := Lower("video/rtx");
    assert l == "video/rtx";
    hide Lower;
    assert l[5..] == "/rtx" && l[..6] == "video/" && l[4] == 'o' && l[6] == 'r';
  }

  lemma AppendDistinct(cs: seq<Capability>, c: Capability)
    requires Distinct(cs) && c.preferredPayloadType.Some? && !Used(cs, c.preferredPayloadType.value)
    ensures Distinct(cs + [c])
  {
  }

  lemma AppendMedia(cs: seq<Capability>, c: Capability)
    requires RouterCaps(cs) && !Rtx(c) && Validate(c) == Ok(c) && c.kind == Audio
    requires c.preferredPayloadType.Some? && !Used(cs, c.preferredPayloadType.value)
    ensures RouterCaps(cs + [c])
  {
    hide Validate, IsRtxMime;
    AppendDistinct(cs, c);
  }

  lemma AppendPair(cs: seq<Capability>, c: Capability, pt: int)
    requires RouterCaps(cs) && !Rtx(c) && Validate(c) == Ok(c) && c.kind == Video
    requires c.preferredPayloadType.Some? && !Used(cs, c.preferredPayloadType.value)
    requires IsDynamic(pt) && !Used(cs, pt) && c.preferredPayloadType.value != pt
    ensures RouterCaps(cs + [c, RtxFor(c, c.preferredPayloadType.value, pt)])
  {
    hide Paired, Distinct;
    var r := RtxFor(c, c.preferredPayloadType.value, pt);
    VideoRtx();
    PairedAppend(cs, c, r);
    AppendDistinct(cs, c);
    AppendDistinct(cs + [c], r);
    assert cs + [c] + [r] == cs + [c, r];
  }

  lemma PairedAppend(cs: seq<Capability>, c: Capability, r: Capability)
    requires Paired(cs) && !Rtx(c) && Validate(c) == Ok(c) && c.kind == Video && c.preferredPayloadType.Some?
    requires Rtx(r) && Validate(r) == Ok(r) && r.channels.None? && r.clockRate == c.clockRate
    requires r.preferredPayloadType.Some? && IsDynamic(r.preferredPayloadType.value)
    requires Apt(r.parameters) == Some(Num(c.preferredPayloadType.value))
    ensures Paired(cs + [c, r])
  {
    hide Validate, IsRtxMime, Apt;
    var all := cs + [c, r];
    assert all[|cs|] == c && all[|cs| + 1] == r;
    assert forall i :: 0 <= i < |cs| ==> all[i] == cs[i];
  }

  lemma AddCodecKeeps(g: Gen, media: Capability, table: seq<Capability>, h: H264)
    requires TableOk(table) && RouterCaps(g.codecs) && Fresh(g.dynamic, g.codecs)
    ensures var r := AddCodec(g, media, table, h);
            r.Ok? ==> RouterCaps(r.value.codecs) && Fresh(r.value.dynamic, r.value.codecs)
  {
    hide Validate, Without, Used, Paired, Distinct, Match, IsRtxMime;
    if AddCodec(g, media, table, h).Ok? {
      var m := Validate(media).value;
      var i := First(table, (s: Capability) => Match(m.Sig(), s.Sig(), false, h)).value;
      var (pt, left) := Choose(m, table[i], g.dynamic).value;
      WithoutRemoves(g.dynamic, pt);
      var codec := table[i].(preferredPayloadType := Some(pt), parameters := table[i].parameters + m.parameters);
      ValidateIdempotent(media);
      MergedValid(table[i], m, pt);
      LeftFresh(g, m, table[i]);
      if codec.kind == Audio {
        AppendMedia(g.codecs, codec);
        StillFresh(left, g.codecs, [codec]);
      } else {
        AppendPair(g.codecs, codec, left[0]);
        StillFresh(left[1..], g.codecs, [codec, RtxFor(codec, pt, left[0])]);
      }
    }
  }

  // Merging validated parameters into a table entry keeps it validated.
  lemma MergedValid(s: Capability, m: Capability, pt: int)
    requires Validate(s) == Ok(s) && Validate(m) == Ok(m)
    ensures var c := s.(preferredPayloadType := Some(pt), parameters := s.parameters + m.parameters);
            Validate(c) == Ok(c)
  {
    hide MimeKind;
  }

  lemma LeftFresh(g: Gen, m: Capability, s: Capability)
    requires Fresh(g.dynamic, g.codecs) && Choose(m, s, g.dynamic).Ok?
    requires s.preferredPayloadType.Some? ==> !IsDynamic(s.preferredPayloadType.value)
    ensures var (pt, left) := Choose(m, s, g.dynamic).value;
            Fresh(left, g.codecs) && pt !in left
  {
    var (pt, left) := Choose(m, s, g.dynamic).value;
    WithoutRemoves(g.dynamic, pt);
    assert forall x :: x in left ==> x in g.dynamic;
  }

  lemma StillFresh(left: seq<int>, cs: seq<Capability>, more: seq<Capability>)
    requires Fresh(left, cs)
    requires forall i :: 0 <= i < |more| ==>
               more[i].preferredPayloadType.Some? && more[i].preferredPayloadType.value !in left
    ensures Fresh(left, cs + more)
  {
    var all := cs + more;
    assert forall i :: 0 <= i < |all| ==> all[i] == if i < |cs| then cs[i] else more[i - |cs|];
    forall x | x in left ensures !Used(all, x) {
      assert !Used(cs, x);
    }
  }

  lemma DynamicDistinct()
    ensures Fresh(DYNAMIC, [])
  {
    assert forall i :: 0 <= i < |DYNAMIC| ==> DYNAMIC[i] == if i < 28 then 100 + i else 68 + i;
  }

  // For every list of media codecs: what is returned has the shape above.
  lemma {:induction false} GenerateShape(media: seq<Capability>, table: seq<Capability>, h: H264)
    requires TableOk(table)
    ensures var r := Generate(media, table, h);
            r.Ok? ==> RouterCaps(r.value.codecs) && Fresh(r.value.dynamic, r.value.codecs)
  {
    if media == [] {
      DynamicDistinct();
    } else {
      var before := media[..|media| - 1];
      GenerateShape(before, table, h);
      hide RouterCaps, Fresh, AddCodec;
      var g := Generate(before, table, h);
      if g.Ok? {
        AddCodecKeeps(g.value, media[|media| - 1], table, h);
      }
    }
  }

  // ---- What the entries are ----

  // c is media codec m as the router offers it.
  predicate Carries(m: Capability, c: Capability)
  {
    && Lower(c.mimeType) == Lower(m.mimeType) && c.clockRate == m.clockRate && c.channels == m.channels
    && (m.preferredPayloadType.Some? ==> c.preferredPayloadType == m.preferredPayloadType)
    && (forall k :: k in m.parameters ==> k in c.parameters && c.parameters[k] == m.parameters[k])
  }

  // cs lists the media codecs in order, each video codec followed by its RTX codec.
  predicate Lists(media: seq<Capability>, cs: seq<Capability>)
  {
    if media == [] then cs == []
    else
      var v := Validate(media[|media| - 1]);
      var before := media[..|media| - 1];
      var n := |cs|;
      v.Ok? &&
      if v.value.kind == Audio then
        n >= 1 && Carries(v.value, cs[n - 1]) && cs[n - 1].kind == Audio && Lists(before, cs[..n - 1])
      else
        && n >= 2 && Carries(v.value, cs[n - 2]) && cs[n - 2].kind == Video && Lists(before, cs[..n - 2])
        && cs[n - 2].preferredPayloadType.Some? && cs[n - 1].preferredPayloadType.Some?
        && cs[n - 1] == RtxFor(cs[n - 2], cs[n - 2].preferredPayloadType.value, cs[n - 1].preferredPayloadType.value)
  }

  lemma {:induction false} GenerateLists(media: seq<Capability>, table: seq<Capability>, h: H264)
    requires TableOk(table) && Generate(media, table, h).Ok?
    ensures Lists(media, Generate(media, table, h).value.codecs)
  {
    hide AddCodec, Carries, Validate, RtxFor, TableOk;
    if media != [] {
      var before, last := media[..|media| - 1], media[|media| - 1];
      GenerateLists(before, table, h);
      AddCodecCarries(Generate(before, table, h).value, last, table, h);
    }
  }

  lemma AddCodecCarries(g: Gen, media: Capability, table: seq<Capability>, h: H264)
    requires TableOk(table) && AddCodec(g, media, table, h).Ok?
    ensures var cs := AddCodec(g, media, table, h).value.codecs;
            var n, k := |cs|, |g.codecs|;
            && Validate(media).Ok?
            && var m := Validate(media).value;
            if m.kind == Audio then
              n == k + 1 && Carries(m, cs[n - 1]) && cs[n - 1].kind == Audio && cs[..n - 1] == g.codecs
            else
              && n == k + 2 && Carries(m, cs[n - 2]) && cs[n - 2].kind == Video && cs[..n - 2] == g.codecs
              && cs[n - 2].preferredPayloadType.Some? && cs[n - 1].preferredPayloadType.Some?
              && cs[n - 1]
              == RtxFor(cs[n - 2], cs[n - 2].preferredPayloadType.value, cs[n - 1].preferredPayloadType.value)
  {
    hide Without, Used;
    var m := Validate(media).value;
    var i := First(table, (s: Capability) => Match(m.Sig(), s.Sig(), false, h)).value;
    assert MimeKind(m.mimeType) == MimeKind(table[i].mimeType);
  }

  // ---- supportedRtpCapabilities.ts ----

  function Fixed(name: string, pt: Option<int>, clockRate: int, channels: int): Capability
  {
    Capability(Audio, "audio/" + name, pt, clockRate, Some(channels), map[])
  }

  function Vid(name: string, parameters: Params): Capability
  {
    Capability(Video, "video/" + name, None, 90000, None, parameters)
  }

  function Packetization(mode: int): Params
  {
    map["packetization-mode" := Num(mode), "level-asymmetry-allowed" := Num(1)]
  }

  const SUPPORTED: seq<Capability> := [
    Fixed("opus", None, 48000, 2),
    Fixed("PCMU", Some(0), 8000, 1),
    Fixed("PCMA", Some(8), 8000, 1),
    Fixed("ISAC", None, 32000, 1),
    Fixed("ISAC", None, 16000, 1),
    Fixed("G722", Some(9), 8000, 1),
    Fixed("iLBC", None, 8000, 1),
    Fixed("SILK", None, 24000, 1),
    Fixed("SILK", None, 16000, 1),
    Fixed("SILK", None, 12000, 1),
    Fixed("SILK", None, 8000, 1),
    Fixed("CN", Some(13), 32000, 1),
    Fixed("CN", Some(13), 16000, 1),
    Fixed("CN", Some(13), 8000, 1),
    Fixed("telephone-event", None, 48000, 1),
    Fixed("telephone-event", None, 32000, 1),
    Fixed("telephone-event", None, 16000, 1),
    Fixed("telephone-event", None, 8000, 1),
    Vid("VP8", map[]),
    Vid("VP9", map[]),
    Vid("H264", Packetization(1)),
    Vid("H264", Packetization(0)),
    Vid("H265", Packetization(1)),
    Vid("H265", Packetization(0))]

  // The last character of the name tells that it is not RTX.
  lemma AudioEntry(name: string, pt: Option<int>, clockRate: int, channels: int)
    requires name != [] && !LineEnd(name[0]) && LowerChar(name[|name| - 1]) != 'x'
    requires pt.Some? ==> !IsDynamic(pt.value)
    ensures EntryOk(Fixed(name, pt, clockRate, channels))
  {
    var l := Lower("audio/" + name);
    assert l[..6] == "audio/";
    assert l[6] == LowerChar(name[0]);
    if |l| >= 5 { assert l[|l| - 4..][3] == LowerChar(name[|name| - 1]); }
  }

  lemma VideoEntry(name: string, parameters: Params)
    requires name != [] && !LineEnd(name[0]) && LowerChar(name[|name| - 1]) != 'x'
    requires forall k :: k in parameters ==> k != "apt" && parameters[k].Num?
    ensures EntryOk(Vid(name, parameters))
  {
    var l := Lower("video/" + name);
    assert l[..6] == "video/";
    assert l[6] == LowerChar(name[0]);
    if |l| >= 5 { assert l[|l| - 4..][3] == LowerChar(name[|name| - 1]); }
  }

  lemma SupportedOk()
    ensures TableOk(SUPPORTED)
  {
    hide EntryOk, Fixed, Vid;
    AudioEntry("opus", None, 48000, 2);
    AudioEntry("PCMU", Some(0), 8000, 1);
    AudioEntry("PCMA", Some(8), 8000, 1);
    AudioEntry("ISAC", None, 32000, 1);
    AudioEntry("ISAC", None, 16000, 1);
    AudioEntry("G722", Some(9), 8000, 1);
    AudioEntry("iLBC", None, 8000, 1);
    AudioEntry("SILK", None, 24000, 1);
    AudioEntry("SILK", None, 16000, 1);
    AudioEntry("SILK", None, 12000, 1);
    AudioEntry("SILK", None, 8000, 1);
    AudioEntry("CN", Some(13), 32000, 1);
    AudioEntry("CN", Some(13), 16000, 1);
    AudioEntry("CN", Some(13), 8000, 1);
    AudioEntry("telephone-event", None, 48000, 1);
    AudioEntry("telephone-event", None, 32000, 1);
    AudioEntry("telephone-event", None, 16000, 1);
    AudioEntry("telephone-event", None, 8000, 1);
    VideoEntry("VP8", map[]);
    VideoEntry("VP9", map[]);
    VideoEntry("H264", Packetization(1));
    VideoEntry("H264", Packetization(0));
    VideoEntry("H265", Packetization(1));
    VideoEntry("H265", Packetization(0));
  }
}
