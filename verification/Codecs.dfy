/**
 Codecs and codec matching of the ORTC negotiation (mediasouptestcase/src/ortc.ts).
 */
module Codecs {
  import opened Options

  // Undefined: a key without a value. Other: a value that is neither a number nor a string.
  datatype Value = Num(n: int) | Str(s: string) | Undefined | Other
  type Params = map<string, Value>

  datatype Kind = Audio | Video

  // RtpCodecCapability: kind is meaningful once the capability has been validated.
  datatype Capability = Capability(
    kind: Kind,
    mimeType: string,
    preferredPayloadType: Option<int>,
    clockRate: int,
    channels: Option<int>,
    parameters: Params)
  {
    function Sig(): Sig { Signature(mimeType, clockRate, channels, parameters) }
  }

  // RtpCodecParameters.
  datatype Codec = Codec(
    mimeType: string,
    payloadType: int,
    clockRate: int,
    channels: Option<int>,
    parameters: Params)
  {
    function Sig(): Sig { Signature(mimeType, clockRate, channels, parameters) }
  }

  // The part of either that matchCodecs compares.
  datatype Sig = Signature(mimeType: string, clockRate: int, channels: Option<int>, parameters: Params)

  // ---- Strings ----

  function LowerChar(c: char): char
  {
    if 'A' <= c <= 'Z' then (c as int + 32) as char else c
  }

  function Lower(s: string): (r: string)
    ensures |r| == |s|
  {
    seq(|s|, i requires 0 <= i < |s| => LowerChar(s[i]))
  }

  // What "." does not match in a regular expression.
  predicate LineEnd(c: char) { c == '\n' || c == '\r' || c as int == 0x2028 || c as int == 0x2029 }

  // /.+\/rtx$/i
  predicate IsRtxMime(m: string)
  {
    var l := Lower(m);
    |l| >= 5 && l[|l| - 4..] == "/rtx" && !LineEnd(l[|l| - 5])
  }

  // /^(audio|video)\/(.+)/i
  function MimeKind(m: string): Option<Kind>
  {
    var l := Lower(m);
    if |l| < 7 || LineEnd(l[6]) then None
    else if l[..6] == "audio/" then Some(Audio)
    else if l[..6] == "video/" then Some(Video)
    else None
  }

  // ---- Parameters ----

  predicate Truthy(v: Value) { v != Num(0) && v != Str("") && !v.Undefined? }

  // parameters[key] || 0
  function OrZero(p: Params, key: string): Value
  {
    if key in p && Truthy(p[key]) then p[key] else Num(0)
  }

  function Apt(p: Params): Option<Value>
  {
    if "apt" in p then Some(p["apt"]) else None
  }

  // ---- The h264-profile-level-id library ----

  datatype Answer = Throws | NoId | Id(id: string)

  datatype H264 = H264(sameProfile: (Params, Params) -> bool, answer: (Params, Params) -> Answer) {
    predicate Agree(a: Params, b: Params)
    {
      sameProfile(a, b) && !answer(a, b).Throws?
    }

    // The parameters of a once matchCodecs has stored the selected profile-level-id in them.
    function Rewritten(a: Params, b: Params): Params
    {
      var x := answer(a, b);
      if x.Id? && x.id != "" then a["profile-level-id" := Str(x.id)] else a - {"profile-level-id"}
    }

    // What the negotiation needs of the library: agreement is symmetric and transitive, and
    // storing an answer does not change with whom one agrees.
    ghost predicate Stable()
    {
      && (forall a: Params, b: Params :: Agree(a, b) ==> Agree(b, a))
      && (forall a: Params, b: Params, c: Params :: Agree(a, b) && Agree(b, c) ==> Agree(a, c))
      && (forall a: Params, b: Params, c: Params :: Agree(a, b) ==> (Agree(Rewritten(a, b), c) <==> Agree(a, c)))
    }
  }

  // ---- matchCodecs ----

  predicate Match(a: Sig, b: Sig, strict: bool, h: H264)
  {
    var mime := Lower(a.mimeType);
    && mime == Lower(b.mimeType)
    && a.clockRate == b.clockRate
    && a.channels == b.channels
    && (mime == "video/h264" ==>
          && OrZero(a.parameters, "packetization-mode") == OrZero(b.parameters, "packetization-mode")
          && (strict ==> h.Agree(a.parameters, b.parameters)))
    && (mime == "video/vp9" && strict ==>
          OrZero(a.parameters, "profile-id") == OrZero(b.parameters, "profile-id"))
  }

  // The parameters of a after a strict match with b that modifies a.
  function Modified(a: Sig, b: Sig, h: H264): Params
  {
    if Lower(a.mimeType) == "video/h264" then h.Rewritten(a.parameters, b.parameters) else a.parameters
  }

  // A parameter as matching counts it: an absent, zero or empty value is 0.
  function Counted(p: Params, key: string): Value
  {
    if key !in p || p[key] == Num(0) || p[key] == Str("") || p[key] == Undefined then Num(0) else p[key]
  }

  // The same kind of codec, apart from its profile.
  predicate Like(a: Sig, b: Sig)
  {
    && Lower(a.mimeType) == Lower(b.mimeType) && a.clockRate == b.clockRate && a.channels == b.channels
    && (Lower(a.mimeType) == "video/h264" ==>
          Counted(a.parameters, "packetization-mode") == Counted(b.parameters, "packetization-mode"))
  }

  // The same format: also the same VP9 profile.
  predicate SameFormat(a: Sig, b: Sig)
  {
    && Like(a, b)
    && (Lower(a.mimeType) == "video/vp9" ==>
          Counted(a.parameters, "profile-id") == Counted(b.parameters, "profile-id"))
  }

  // The same format and, for H264, profiles that agree.
  predicate Compatible(a: Sig, b: Sig, h: H264)
  {
    SameFormat(a, b) && (Lower(a.mimeType) == "video/h264" ==> h.Agree(a.parameters, b.parameters))
  }

  // What matchCodecs compares.
  lemma MatchExact(a: Sig, b: Sig, h: H264)
    ensures Match(a, b, true, h) <==> Compatible(a, b, h)
    ensures Match(a, b, false, h) <==> Like(a, b)
  {
    hide Lower;
  }

  lemma MatchSymmetric(a: Sig, b: Sig, strict: bool, h: H264)
    requires h.Stable()
    ensures Match(a, b, strict, h) <==> Match(b, a, strict, h)
  {
    assert h.Agree(a.parameters, b.parameters) ==> h.Agree(b.parameters, a.parameters);
    assert h.Agree(b.parameters, a.parameters) ==> h.Agree(a.parameters, b.parameters);
  }

  lemma MatchTransitive(a: Sig, b: Sig, c: Sig, h: H264)
    requires h.Stable() && Match(a, b, true, h) && Match(b, c, true, h)
    ensures Match(a, c, true, h)
  {
    hide Lower;
    assert h.Agree(a.parameters, b.parameters) && h.Agree(b.parameters, c.parameters) ==>
             h.Agree(a.parameters, c.parameters);
  }

  // Once matched with b and modified, a codec carried on under b's own mime type matches exactly
  // what it matched before.
  lemma MatchStable(a: Sig, b: Sig, c: Sig, h: H264)
    requires h.Stable() && Match(a, b, true, h)
    ensures Match(b.(parameters := Modified(a, b, h)), c, true, h) <==> Match(a, c, true, h)
  {
    hide Lower;
    if Lower(a.mimeType) == "video/h264" {
      var p := h.Rewritten(a.parameters, b.parameters);
      assert OrZero(p, "packetization-mode") == OrZero(a.parameters, "packetization-mode");
      assert h.Agree(p, c.parameters) <==> h.Agree(a.parameters, c.parameters);
    }
  }

  // RTX codecs match only RTX codecs.
  lemma MatchRtx(a: Sig, b: Sig, strict: bool, h: H264)
    requires Match(a, b, strict, h)
    ensures IsRtxMime(a.mimeType) <==> IsRtxMime(b.mimeType)
  {
  }

  // ---- Validation ----

  // A key without a value gets the empty string.
  function Filled(p: Params): (r: Params)
    ensures r.Keys == p.Keys && (Filled(p) == p <==> forall k :: k in p ==> !p[k].Undefined?)
  {
    var r := map k | k in p :: if p[k].Undefined? then Str("") else p[k];
    assert (forall k :: k in p ==> !p[k].Undefined?) ==> r == p;
    r
  }

  // Values are numbers or strings once filled in, and apt is a number.
  predicate Acceptable(p: Params)
  {
    (forall k :: k in p ==> !p[k].Other?) && ("apt" in p ==> p["apt"].Num?)
  }

  // validateRtpCodecCapability: derives kind, fills in channels for audio and drops it for video, and
  // checks the parameters.
  function Validate(c: Capability): Result<Capability>
  {
    match MimeKind(c.mimeType)
    case None => Err(TypeError)
    case Some(kind) =>
      if !Acceptable(c.parameters) then Err(TypeError)
      else Ok(c.(kind := kind,
                 channels := if kind == Video then None else if c.channels.Some? then c.channels else Some(1),
                 parameters := Filled(c.parameters)))
  }

  // A capability is accepted if and only if its mime type names a kind, its parameters are numbers, strings
  // or absent, and apt is a number. Then the kind is filled in, one channel for audio that names none, no
  // channels for video, and the empty string for a parameter without a value; all else is kept.
  lemma ValidateExact(c: Capability)
    ensures Validate(c).Ok? <==>
              && MimeKind(c.mimeType).Some? && (forall k :: k in c.parameters ==> c.parameters[k] != Other)
              && ("apt" in c.parameters ==> c.parameters["apt"].Num?)
    ensures Validate(c).Err? ==> Validate(c).error == TypeError
    ensures Validate(c).Ok? ==>
              var v := Validate(c).value;
              && MimeKind(c.mimeType) == Some(v.kind)
              && (v.kind == Audio && c.channels.None? ==> v.channels == Some(1))
              && (v.kind == Audio && c.channels.Some? ==> v.channels == c.channels)
              && (v.kind == Video ==> v.channels.None?)
              && v.mimeType == c.mimeType && v.clockRate == c.clockRate
              && v.preferredPayloadType == c.preferredPayloadType
              && v.parameters.Keys == c.parameters.Keys
              && forall k :: k in c.parameters ==>
                   v.parameters[k] == if c.parameters[k] == Undefined then Str("") else c.parameters[k]
  {
    hide MimeKind;
  }

  lemma ValidateIdempotent(c: Capability)
    requires Validate(c).Ok?
    ensures Validate(Validate(c).value) == Validate(c)
  {
  }

  function ValidateAll(cs: seq<Capability>): (r: Result<seq<Capability>>)
    ensures r.Ok? ==> |r.value| == |cs| && forall i :: 0 <= i < |cs| ==> Validate(cs[i]) == Ok(r.value[i])
    ensures r.Err? ==> exists i :: 0 <= i < |cs| && Validate(cs[i]).Err?
  {
    if cs == [] then Ok([])
    else match Validate(cs[0])
         case Err(e) => assert Validate(cs[0]).Err?; Err(e)
         case Ok(c) =>
           match ValidateAll(cs[1..])
           case Err(e) =>
             assert exists i :: 0 <= i < |cs[1..]| && Validate(cs[1..][i]).Err?;
             assert forall i :: 0 <= i < |cs[1..]| ==> cs[1..][i] == cs[i + 1];
             Err(e)
           case Ok(rest) => Ok([c] + rest)
  }
}
