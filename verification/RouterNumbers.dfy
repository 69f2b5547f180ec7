/**
 The payload types and the parameters of the router's codecs (generateRouterRtpCapabilities of
 mediasouptestcase/src/ortc.ts), in terms of the media codecs and the table of supported codecs alone.
 */
module RouterNumbers {
  import opened Options
  import opened Codecs
  import opened RouterCapabilities

  // ---- The dynamic payload types ----

  // The order in which they are handed out: 100 to 127, then 96 to 99.
  function Rank(pt: int): int { if pt >= 100 then pt - 100 else pt - 68 }

  // pt is the first dynamic payload type that no entry of cs has.
  ghost predicate NextDynamic(cs: seq<Capability>, pt: int)
  {
    && IsDynamic(pt) && !Used(cs, pt)
    && forall q :: IsDynamic(q) && Rank(q) < Rank(pt) ==> Used(cs, q)
  }

  ghost predicate NoneLeft(cs: seq<Capability>)
  {
    forall q :: IsDynamic(q) ==> Used(cs, q)
  }

  // The numbers that no entry of cs has.
  function Unused(numbers: seq<int>, cs: seq<Capability>): seq<int>
  {
    if numbers == [] then []
    else (if Used(cs, numbers[0]) then [] else [numbers[0]]) + Unused(numbers[1..], cs)
  }

  predicate Ranked(numbers: seq<int>)
  {
    forall i, j :: 0 <= i < j < |numbers| ==> Rank(numbers[i]) < Rank(numbers[j])
  }

  lemma {:induction false} UnusedFirst(numbers: seq<int>, cs: seq<Capability>)
    requires Ranked(numbers)
    ensures var u := Unused(numbers, cs);
            && (u == [] ==> forall q :: q in numbers ==> Used(cs, q))
            && (u != [] ==> u[0] in numbers && !Used(cs, u[0]) &&
                            forall q :: q in numbers && Rank(q) < Rank(u[0]) ==> Used(cs, q))
  {
    hide Used;
    if numbers != [] {
      assert numbers == [numbers[0]] + numbers[1..];
      UnusedFirst(numbers[1..], cs);
    }
  }

  lemma AllDynamic()
    ensures Ranked(DYNAMIC)
    ensures forall q :: q in DYNAMIC <==> IsDynamic(q)
  {
    assert forall i :: 0 <= i < |DYNAMIC| ==> DYNAMIC[i] == if i < 28 then 100 + i else 68 + i;
    forall q | IsDynamic(q) ensures q in DYNAMIC {
      assert DYNAMIC[Rank(q)] == q;
    }
  }

  // The list of the code begins with the first that is unused.
  lemma UnusedDynamic(cs: seq<Capability>)
    ensures var u := Unused(DYNAMIC, cs);
            && (u == [] <==> NoneLeft(cs))
            && (forall pt :: u != [] && u[0] == pt <==> NextDynamic(cs, pt))
  {
    hide Used, DYNAMIC, Unused;
    AllDynamic();
    UnusedFirst(DYNAMIC, cs);
  }

  lemma {:induction false} UnusedOthers(numbers: seq<int>, cs: seq<Capability>, c: Capability)
    requires forall q :: q in numbers ==> c.preferredPayloadType != Some(q)
    ensures Unused(numbers, cs + [c]) == Unused(numbers, cs)
  {
    if numbers != [] {
      UnusedOthers(numbers[1..], cs, c);
      UsedAppend(cs, c, numbers[0]);
    }
  }

  lemma UsedAppend(cs: seq<Capability>, c: Capability, pt: int)
    ensures Used(cs + [c], pt) <==> Used(cs, pt) || c.preferredPayloadType == Some(pt)
  {
    if Used(cs, pt) {
      var i :| 0 <= i < |cs| && cs[i].preferredPayloadType == Some(pt);
      assert (cs + [c])[i] == cs[i];
    }
    if c.preferredPayloadType == Some(pt) { assert (cs + [c])[|cs|] == c; }
  }

  lemma WithoutCons(x: int, s: seq<int>, y: int)
    ensures Without([x] + s, y) == if x == y then s else [x] + Without(s, y)
    ensures [] + s == s
  {
    assert ([x] + s)[1..] == s;
  }

  // An entry takes its payload type from the list.
  lemma {:induction false} UnusedAppend(numbers: seq<int>, cs: seq<Capability>, c: Capability)
    requires Ranked(numbers) && c.preferredPayloadType.Some?
    ensures Unused(numbers, cs + [c]) == Without(Unused(numbers, cs), c.preferredPayloadType.value)
  {
    hide Used;
    if numbers != [] {
      var rest := numbers[1..];
      UsedAppend(cs, c, numbers[0]);
      WithoutCons(numbers[0], Unused(rest, cs), c.preferredPayloadType.value);
      if numbers[0] == c.preferredPayloadType.value {
        UnusedOthers(rest, cs, c);
        if Used(cs, numbers[0]) { WithoutAbsent(rest, cs, numbers[0]); }
      } else {
        UnusedAppend(rest, cs, c);
      }
    }
  }

  lemma {:induction false} WithoutAbsent(numbers: seq<int>, cs: seq<Capability>, x: int)
    requires x !in numbers
    ensures Without(Unused(numbers, cs), x) == Unused(numbers, cs)
  {
    hide Used;
    if numbers != [] {
      WithoutAbsent(numbers[1..], cs, x);
      WithoutCons(numbers[0], Unused(numbers[1..], cs), x);
    }
  }

  // ---- One media codec ----

  // Entry i is the first of the table that is the same kind of codec as m.
  predicate FirstLike(table: seq<Capability>, m: Capability, i: nat)
  {
    && i < |table| && Like(m.Sig(), table[i].Sig())
    && forall j :: 0 <= j < i ==> !Like(m.Sig(), table[j].Sig())
  }

  // The payload type of media codec m, supported as s, after the entries cs.
  ghost predicate Numbered(cs: seq<Capability>, m: Capability, s: Capability, pt: int)
  {
    if m.preferredPayloadType.Some? then m.preferredPayloadType == Some(pt)
    else if s.preferredPayloadType.Some? then s.preferredPayloadType == Some(pt)
    else NextDynamic(cs, pt)
  }

  // Entry c: the supported codec s under a payload type, with the parameters of m over its own.
  ghost predicate Offers(c: Capability, m: Capability, s: Capability, pt: int)
  {
    && c.kind == s.kind && c.mimeType == s.mimeType && c.clockRate == s.clockRate && c.channels == s.channels
    && c.preferredPayloadType == Some(pt)
    && (forall k :: k in c.parameters <==> k in m.parameters || k in s.parameters)
    && (forall k :: k in m.parameters ==> c.parameters[k] == m.parameters[k])
    && (forall k :: k in s.parameters && k !in m.parameters ==> c.parameters[k] == s.parameters[k])
  }

  // Entry r: the RTX codec of entry c.
  ghost predicate RtxEntry(r: Capability, c: Capability, cs: seq<Capability>)
  {
    && r.kind == c.kind && r.mimeType == "video/rtx" && r.clockRate == c.clockRate && r.channels.None?
    && r.preferredPayloadType.Some? && NextDynamic(cs, r.preferredPayloadType.value)
    && c.preferredPayloadType.Some? && r.parameters == map["apt" := Num(c.preferredPayloadType.value)]
  }

  // more: the entries that follow cs for media codec m, supported as s.
  ghost predicate Adds(cs: seq<Capability>, m: Capability, s: Capability, more: seq<Capability>)
  {
    && |more| == (if s.kind == Audio then 1 else 2)
    && more[0].preferredPayloadType.Some?
    && var pt := more[0].preferredPayloadType.value;
    && Numbered(cs, m, s, pt) && !Used(cs, pt) && Offers(more[0], m, s, pt)
    && (s.kind == Video ==> RtxEntry(more[1], more[0], cs + [more[0]]))
  }

  lemma FirstLikeFound(table: seq<Capability>, m: Capability, h: H264)
    ensures var r := First(table, (s: Capability) => Match(m.Sig(), s.Sig(), false, h));
            && (r.None? <==> forall j :: 0 <= j < |table| ==> !Like(m.Sig(), table[j].Sig()))
            && forall i: nat :: r == Some(i) <==> FirstLike(table, m, i)
  {
    hide Match, Like;
    forall j | 0 <= j < |table| ensures Match(m.Sig(), table[j].Sig(), false, h) <==> Like(m.Sig(), table[j].Sig()) {
      MatchExact(m.Sig(), table[j].Sig(), h);
    }
    var r := First(table, (s: Capability) => Match(m.Sig(), s.Sig(), false, h));
    forall i: nat | FirstLike(table, m, i) ensures r == Some(i) {
      assert Match(m.Sig(), table[i].Sig(), false, h);
    }
  }

  // Choose draws the payload type and takes it from the list.
  lemma ChooseExact(cs: seq<Capability>, m: Capability, s: Capability)
    requires s.preferredPayloadType.Some? ==> !IsDynamic(s.preferredPayloadType.value)
    ensures var u := Unused(DYNAMIC, cs);
            match Choose(m, s, u)
            case Err(e) =>
              && e == Exhausted && m.preferredPayloadType.None? && s.preferredPayloadType.None? && NoneLeft(cs)
              && forall q :: !Numbered(cs, m, s, q)
            case Ok((pt, left)) => left == Without(u, pt) && forall q :: Numbered(cs, m, s, q) <==> q == pt
  {
    hide DYNAMIC, Unused, NextDynamic, NoneLeft;
    UnusedDynamic(cs);
    if s.preferredPayloadType.Some? {
      AllDynamic();
      WithoutAbsent(DYNAMIC, cs, s.preferredPayloadType.value);
    }
  }

  lemma OffersExact(c: Capability, m: Capability, s: Capability, pt: int)
    ensures Offers(c, m, s, pt) <==>
              c == s.(preferredPayloadType := Some(pt), parameters := s.parameters + m.parameters)
  {
    var d := s.(preferredPayloadType := Some(pt), parameters := s.parameters + m.parameters);
    if Offers(c, m, s, pt) { assert c.parameters == d.parameters; }
  }

  // The list of the code is the dynamic payload types that no entry has.
  predicate Honest(g: Gen) { g.dynamic == Unused(DYNAMIC, g.codecs) }

  lemma AppendsSame<T>(a: seq<T>, b: seq<T>, c: seq<T>)
    ensures a + b == a + c <==> b == c
  {
    assert b == (a + b)[|a|..] && c == (a + c)[|a|..];
  }

  // With its payload type known, Adds leaves one choice.
  lemma AddsOnly(cs: seq<Capability>, m: Capability, s: Capability, pt: int, more: seq<Capability>)
    requires forall q :: Numbered(cs, m, s, q) <==> q == pt
    ensures var codec := s.(preferredPayloadType := Some(pt), parameters := s.parameters + m.parameters);
            Adds(cs, m, s, more) <==>
            && !Used(cs, pt)
            && if s.kind == Audio then more == [codec]
               else |more| == 2 && more[0] == codec && RtxEntry(more[1], codec, cs + [codec])
  {
    hide Used, Numbered, RtxEntry, Offers;
    if more != [] { OffersExact(more[0], m, s, pt); }
    if Adds(cs, m, s, more) { OffersExact(more[0], m, s, more[0].preferredPayloadType.value); }
  }

  lemma RtxOnly(r: Capability, c: Capability, cs: seq<Capability>, pt: int)
    requires c.preferredPayloadType.Some? && forall q :: NextDynamic(cs, q) <==> q == pt
    ensures RtxEntry(r, c, cs) <==> r == RtxFor(c, c.preferredPayloadType.value, pt)
  {
    hide NextDynamic;
  }

  lemma PlaceExact(g: Gen, m: Capability, s: Capability, more: seq<Capability>)
    requires Honest(g) && EntryOk(s)
    ensures var r := Place(g, m, s);
            && (r.Ok? ==> Honest(r.value))
            && (r.Ok? && r.value.codecs == g.codecs + more <==> Adds(g.codecs, m, s, more))
  {
    hide Unused, Without, Used, DYNAMIC, NextDynamic, NoneLeft, EntryOk, Adds, Choose;
    var cs := g.codecs;
    EntryNumber(s);
    ChooseExact(cs, m, s);
    AllDynamic();
    if Choose(m, s, g.dynamic).Ok? {
      var (pt, left) := Choose(m, s, g.dynamic).value;
      AddsOnly(cs, m, s, pt, more);
      var codec := s.(preferredPayloadType := Some(pt), parameters := s.parameters + m.parameters);
      UnusedAppend(DYNAMIC, cs, codec);
      UnusedDynamic(cs + [codec]);
      AppendsSame(cs, [codec], more);
      if s.kind == Video && left != [] {
        var rtx := RtxFor(codec, pt, left[0]);
        if |more| == 2 { RtxOnly(more[1], codec, cs + [codec], left[0]); }
        AppendsSame(cs, [codec, rtx], more);
        WithoutCons(left[0], left[1..], left[0]);
        assert left == [left[0]] + left[1..];
        UnusedAppend(DYNAMIC, cs + [codec], rtx);
        assert cs + [codec] + [rtx] == cs + [codec, rtx];
      }
    } else if Adds(cs, m, s, more) {
      AddsNumbered(cs, m, s, more);
    }
  }

  lemma AddsNumbered(cs: seq<Capability>, m: Capability, s: Capability, more: seq<Capability>)
    requires Adds(cs, m, s, more)
    ensures exists pt :: Numbered(cs, m, s, pt)
  {
  }

  lemma EntryNumber(s: Capability)
    requires EntryOk(s)
    ensures s.preferredPayloadType.Some? ==> !IsDynamic(s.preferredPayloadType.value)
  {
  }

  // The entries that AddCodec appends are those that Adds describes, and the list stays honest.
  lemma AddCodecIff(g: Gen, media: Capability, table: seq<Capability>, h: H264, more: seq<Capability>)
    requires TableOk(table) && Honest(g)
    ensures var r := AddCodec(g, media, table, h);
            && (r.Ok? ==> Honest(r.value))
            && (r.Ok? && r.value.codecs == g.codecs + more <==>
                Validate(media).Ok? && AddsFrom(g.codecs, Validate(media).value, table, more))
  {
    hide Validate, Match, Like, Unused, Without, Used, DYNAMIC, NextDynamic, EntryOk, RtxFor, Adds;
    if Validate(media).Ok? {
      var m := Validate(media).value;
      FirstLikeFound(table, m, h);
      var found := First(table, (s: Capability) => Match(m.Sig(), s.Sig(), false, h));
      if found.Some? { PlaceExact(g, m, table[found.value], more); }
    }
  }

  ghost predicate AddsFrom(cs: seq<Capability>, m: Capability, table: seq<Capability>, more: seq<Capability>)
  {
    exists i: nat :: FirstLike(table, m, i) && Adds(cs, m, table[i], more)
  }

  // Why a media codec that is in the table is refused.
  lemma PlaceErrors(g: Gen, m: Capability, s: Capability)
    requires Honest(g) && EntryOk(s)
    ensures m.preferredPayloadType.None? && s.preferredPayloadType.None? && NoneLeft(g.codecs) ==>
              Place(g, m, s) == Err(Exhausted)
    ensures forall pt :: Numbered(g.codecs, m, s, pt) && Used(g.codecs, pt) ==> Place(g, m, s) == Err(TypeError)
    ensures forall pt, c ::
              && Numbered(g.codecs, m, s, pt) && !Used(g.codecs, pt) && Offers(c, m, s, pt)
              && s.kind == Video && NoneLeft(g.codecs + [c])
              ==> Place(g, m, s) == Err(Exhausted)
  {
    hide Unused, Without, Used, DYNAMIC, NextDynamic, NoneLeft, EntryOk, Offers;
    var cs := g.codecs;
    EntryNumber(s);
    ChooseExact(cs, m, s);
    UnusedDynamic(cs);
    AllDynamic();
    if Choose(m, s, g.dynamic).Ok? {
      var (pt, left) := Choose(m, s, g.dynamic).value;
      forall c | Offers(c, m, s, pt) && NoneLeft(cs + [c]) ensures left == [] {
        OffersExact(c, m, s, pt);
        UnusedAppend(DYNAMIC, cs, c);
        UnusedDynamic(cs + [c]);
      }
    }
  }

  // ---- Whole lists ----

  // cs: the entries of the media codecs, in order.
  ghost predicate Listed(media: seq<Capability>, table: seq<Capability>, cs: seq<Capability>)
  {
    if media == [] then cs == []
    else
      exists n: nat :: n <= |cs| && Listed(media[..|media| - 1], table, cs[..n]) &&
                       Follows(cs, n, media[|media| - 1], table)
  }

  // The entries from n on are those of one more media codec.
  ghost predicate Follows(cs: seq<Capability>, n: nat, media: Capability, table: seq<Capability>)
    requires n <= |cs|
  {
    Validate(media).Ok? && AddsFrom(cs[..n], Validate(media).value, table, cs[n..])
  }

  lemma {:induction false} GenerateIff(media: seq<Capability>, table: seq<Capability>, h: H264, cs: seq<Capability>)
    requires TableOk(table)
    ensures var r := Generate(media, table, h);
            && (r.Ok? ==> Honest(r.value))
            && (r.Ok? && r.value.codecs == cs <==> Listed(media, table, cs))
    decreases |media|
  {
    hide AddCodec, Validate, Follows, DYNAMIC, Unused, TableOk;
    if media == [] {
      NothingUsed(DYNAMIC);
    } else {
      var before, last := media[..|media| - 1], media[|media| - 1];
      var g := Generate(before, table, h);
      forall n: nat | n <= |cs|
        ensures && (g.Ok? ==> Honest(g.value))
                && (g.Ok? && g.value.codecs == cs[..n] <==> Listed(before, table, cs[..n]))
      {
        GenerateIff(before, table, h, cs[..n]);
      }
      GenerateIff(before, table, h, cs);
      if g.Ok? { AddCodecFollows(g.value, last, table, h, cs); }
    }
  }

  lemma AddCodecFollows(g: Gen, media: Capability, table: seq<Capability>, h: H264, cs: seq<Capability>)
    requires TableOk(table) && Honest(g)
    ensures var r := AddCodec(g, media, table, h);
            && (r.Ok? ==> Honest(r.value))
            && (r.Ok? && r.value.codecs == cs <==>
                exists n: nat :: n <= |cs| && cs[..n] == g.codecs && Follows(cs, n, media, table))
  {
    hide AddsFrom, Validate, TableOk, Honest;
    var r, n := AddCodec(g, media, table, h), |g.codecs|;
    AddCodecIff(g, media, table, h, []);
    AddCodecExtends(g, media, table, h);
    hide AddCodec;
    if n <= |cs| && cs[..n] == g.codecs {
      assert cs == g.codecs + cs[n..];
      AddCodecIff(g, media, table, h, cs[n..]);
      assert r.Ok? && r.value.codecs == cs <==> Follows(cs, n, media, table);
    }
  }

  lemma AddCodecExtends(g: Gen, media: Capability, table: seq<Capability>, h: H264)
    ensures AddCodec(g, media, table, h).Ok? ==> g.codecs <= AddCodec(g, media, table, h).value.codecs
  {
    hide Validate, Match, Used, Without;
  }

  lemma {:induction false} NothingUsed(numbers: seq<int>)
    ensures Unused(numbers, []) == numbers
  {
    if numbers != [] {
      NothingUsed(numbers[1..]);
      assert numbers == [numbers[0]] + numbers[1..];
    }
  }

  // ---- supportedRtpCapabilities.ts ----

  // The fixed payload type of an audio codec.
  function FixedType(name: string): Option<int>
  {
    if name == "pcmu" then Some(0)
    else if name == "pcma" then Some(8)
    else if name == "g722" then Some(9)
    else if name == "cn" then Some(13)
    else None
  }

  // The payload type of a table entry is the fixed one of its name, or none.
  predicate TypeOk(c: Capability)
  {
    var l := Lower(c.mimeType);
    c.preferredPayloadType == if |l| >= 6 && l[..6] == "audio/" then FixedType(l[6..]) else None
  }

  lemma AudioType(name: string, clockRate: int, channels: int)
    ensures TypeOk(Fixed(name, FixedType(Lower(name)), clockRate, channels))
  {
    hide FixedType;
    var l := Lower("audio/" + name);
    assert l[..6] == "audio/";
    assert l[6..] == Lower(name);
  }

  lemma VideoType(name: string, parameters: Params)
    ensures TypeOk(Vid(name, parameters))
  {
    assert Lower("video/" + name)[0] == 'v';
  }

  // The length or the first character tells that a name is not among the four.
  lemma NoFixedType(name: string)
    requires |name| > 4 || (|name| == 4 && LowerChar(name[0]) != 'p' && LowerChar(name[0]) != 'g')
    ensures FixedType(Lower(name)).None?
  {
    var l := Lower(name);
    assert |l| == 4 ==> l[0] == LowerChar(name[0]);
    hide Lower;
  }

  lemma FourFixedTypes()
    ensures FixedType(Lower("PCMU")) == Some(0) && FixedType(Lower("PCMA")) == Some(8)
    ensures FixedType(Lower("G722")) == Some(9) && FixedType(Lower("CN")) == Some(13)
  {
    assert Lower("PCMU") == "pcmu";
    assert Lower("PCMA") == "pcma" && "pcma"[3] == 'a';
    assert Lower("G722") == "g722" && "g722"[0] == 'g';
    assert Lower("CN") == "cn";
  }

  lemma SupportedTypes()
    ensures forall i :: 0 <= i < |SUPPORTED| ==> TypeOk(SUPPORTED[i])
  {
    hide FixedType, TypeOk, Lower, Fixed, Vid;
    FourFixedTypes();
    NoFixedType("opus");
    NoFixedType("ISAC");
    NoFixedType("iLBC");
    NoFixedType("SILK");
    NoFixedType("telephone-event");
    AudioType("opus", 48000, 2);
    AudioType("PCMU", 8000, 1);
    AudioType("PCMA", 8000, 1);
    AudioType("ISAC", 32000, 1);
    AudioType("ISAC", 16000, 1);
    AudioType("G722", 8000, 1);
    AudioType("iLBC", 8000, 1);
    AudioType("SILK", 24000, 1);
    AudioType("SILK", 16000, 1);
    AudioType("SILK", 12000, 1);
    AudioType("SILK", 8000, 1);
    AudioType("CN", 32000, 1);
    AudioType("CN", 16000, 1);
    AudioType("CN", 8000, 1);
    AudioType("telephone-event", 48000, 1);
    AudioType("telephone-event", 32000, 1);
    AudioType("telephone-event", 16000, 1);
    AudioType("telephone-event", 8000, 1);
    VideoType("VP8", map[]);
    VideoType("VP9", map[]);
    VideoType("H264", Packetization(1));
    VideoType("H264", Packetization(0));
    VideoType("H265", Packetization(1));
    VideoType("H265", Packetization(0));
  }

  // A media codec that asks for no payload type gets the fixed one of its name (0, 8, 9 and 13 for PCMU,
  // PCMA, G722 and CN), or else the first dynamic one that is unused.
  lemma FixedTypes(cs: seq<Capability>, m: Capability, i: nat, pt: int)
    requires FirstLike(SUPPORTED, m, i) && m.preferredPayloadType.None?
    ensures var l := Lower(m.mimeType);
            Numbered(cs, m, SUPPORTED[i], pt) <==>
            if |l| >= 6 && l[..6] == "audio/" && FixedType(l[6..]).Some? then FixedType(l[6..]) == Some(pt)
            else NextDynamic(cs, pt)
  {
    hide Lower, NextDynamic, FixedType, SUPPORTED;
    SupportedTypes();
    assert TypeOk(SUPPORTED[i]);
  }
}
