/**
 The netstring format that both ends of the worker channel speak, and the C reader
 of deps/netstring. `Frame` is D. J. Bernstein's definition of the format; `Read`
 is what `netstring_read` returns on a buffer.
 */
module Netstring {
  import opened Octets
  import opened Sequences

  const ZERO: Byte := 48
  const COLON: Byte := 58
  const COMMA: Byte := 44

  // The reader refuses a tenth length digit.
  const MAX_LENGTH: nat := 999999999

  predicate IsDigit(b: Byte) { 48 <= b <= 57 }

  predicate AllDigits(s: Bytes) { forall i :: 0 <= i < |s| ==> IsDigit(s[i]) }

  function Pow10(k: nat): (r: nat)
    ensures r > 0
  {
    if k == 0 then 1 else 10 * Pow10(k - 1)
  }

  // ---- Decimal numerals ----

  function Digits(n: nat): (r: Bytes)
    ensures |r| > 0 && AllDigits(r)
  {
    if n < 10 then [48 + n] else Digits(n / 10) + [48 + n % 10]
  }

  function Value(s: Bytes): (v: nat)
    requires AllDigits(s)
    ensures s == [] ==> v == 0
  {
    if s == [] then 0 else 10 * Value(s[..|s| - 1]) + (s[|s| - 1] - 48)
  }

  predicate Canonical(s: Bytes) {
    |s| > 0 && AllDigits(s) && (s[0] == ZERO ==> |s| == 1)
  }

  // The numeral of n is canonical, reads back as n, and its length is the least k with
  // n + 1 <= 10^k: that is ceil(log10(n + 1)), or 1 for n = 0.
  lemma {:induction false} DigitsOfNat(n: nat)
    ensures Canonical(Digits(n)) && Value(Digits(n)) == n
    ensures n == 0 ==> |Digits(n)| == 1
    ensures n > 0 ==> Pow10(|Digits(n)| - 1) < n + 1 <= Pow10(|Digits(n)|) && Digits(n)[0] != ZERO
  {
    var d := Digits(n);
    if n < 10 {
      assert d[..0] == [];
      assert Pow10(1) == 10 * Pow10(0);
    } else {
      DigitsOfNat(n / 10);
      assert d[..|d| - 1] == Digits(n / 10);
      assert d[0] == Digits(n / 10)[0];
    }
  }

  // A canonical numeral is the numeral of its value.
  lemma {:induction false} DigitsOfValue(s: Bytes)
    requires Canonical(s)
    ensures Digits(Value(s)) == s
    ensures s[0] != ZERO ==> Value(s) > 0
  {
    var init := s[..|s| - 1];
    assert s == init + [s[|s| - 1]];
    if init == [] {
      assert Value(init) == 0;
    } else {
      assert init[0] == s[0];
      DigitsOfValue(init);
      assert Value(s) / 10 == Value(init) && Value(s) % 10 == s[|s| - 1] - 48;
    }
  }

  lemma {:induction false} Pow10Monotone(j: nat, k: nat)
    requires j <= k
    ensures Pow10(j) <= Pow10(k)
  {
    if j < k { Pow10Monotone(j, k - 1); }
  }

  lemma NumeralLength(n: nat)
    ensures |Digits(n)| <= 9 <==> n <= MAX_LENGTH
  {
    DigitsOfNat(n);
    assert Pow10(9) == 1000000000 by {
      assert Pow10(3) == 1000 && Pow10(6) == 1000 * Pow10(3) && Pow10(9) == 1000 * Pow10(6);
    }
    if n > 0 {
      if |Digits(n)| <= 9 {
        Pow10Monotone(|Digits(n)|, 9);
      } else {
        Pow10Monotone(9, |Digits(n)| - 1);
      }
    }
  }

  // ---- The format ----

  function Frame(p: Bytes): (r: Bytes)
    ensures |r| >= 3 && |r| == |Digits(|p|)| + |p| + 2
  {
    Digits(|p|) + [COLON] + p + [COMMA]
  }

  function Stream(ps: seq<Bytes>): Bytes
  {
    if ps == [] then [] else Frame(ps[0]) + Stream(ps[1..])
  }

  lemma {:induction false} StreamConcat(ps: seq<Bytes>, qs: seq<Bytes>)
    ensures Stream(ps + qs) == Stream(ps) + Stream(qs)
  {
    hide Frame;
    if ps == [] {
      assert ps + qs == qs;
    } else {
      assert (ps + qs)[1..] == ps[1..] + qs;
      StreamConcat(ps[1..], qs);
      ConcatAssoc(Frame(ps[0]), Stream(ps[1..]), Stream(qs));
    }
  }

  lemma StreamSnoc(ps: seq<Bytes>, p: Bytes)
    ensures Stream(ps + [p]) == Stream(ps) + Frame(p)
  {
    StreamConcat(ps, [p]);
    assert Stream([p]) == Frame(p) + Stream([]);
  }

  // ---- The C reader ----

  datatype ReadResult =
    | Message(start: nat, len: nat)
    | TooLong
    | NoColon
    | TooShort
    | NoComma
    | LeadingZero
    | NoLength

  // The length of the longest run of digits that s begins with.
  function DigitRun(s: Bytes): (k: nat)
    ensures k <= |s| && AllDigits(s[..k])
    ensures k < |s| ==> !IsDigit(s[k])
  {
    if s == [] || !IsDigit(s[0]) then 0
    else
      var k := 1 + DigitRun(s[1..]);
      assert s[..k] == [s[0]] + s[1..][..k - 1];
      k
  }

  function Read(s: Bytes): (r: ReadResult)
    ensures r.Message? ==> 0 < r.start && r.start + r.len < |s|
    ensures |s| < 3 ==> r == TooShort
  {
    if |s| < 3 then TooShort
    else if s[0] == ZERO && IsDigit(s[1]) then LeadingZero
    else if !IsDigit(s[0]) then NoLength
    else
      var i := DigitRun(s);
      if i > 9 then TooLong
      else
        var len := Value(s[..i]);
        if i + len + 1 >= |s| then TooShort
        else if s[i] != COLON then NoColon
        else if s[i + 1 + len] != COMMA then NoComma
        else Message(i + 1, len)
  }

  lemma DigitRunUnique(s: Bytes, k: nat)
    requires k <= |s| && AllDigits(s[..k])
    requires k < |s| ==> !IsDigit(s[k])
    ensures DigitRun(s) == k
  {
    var r := DigitRun(s);
    assert forall j :: 0 <= j < k ==> IsDigit(s[..k][j]) && s[..k][j] == s[j];
    assert forall j :: 0 <= j < r ==> IsDigit(s[..r][j]) && s[..r][j] == s[j];
  }

  // How a buffer that begins with (part of) a frame starts.
  lemma FramePrefix(p: Bytes, s: Bytes)
    requires s <= Frame(p) || Frame(p) <= s
    ensures |s| <= |Digits(|p|)| ==> s == Digits(|p|)[..|s|] && DigitRun(s) == |s|
    ensures |s| > |Digits(|p|)| ==>
              DigitRun(s) == |Digits(|p|)| && s[..DigitRun(s)] == Digits(|p|) && s[DigitRun(s)] == COLON
  {
    var d := Digits(|p|);
    var f := Frame(p);
    assert f[..|d|] == d && f[|d|] == COLON;
    if |s| <= |d| {
      assert s == f[..|s|] == d[..|s|];
      assert s[..|s|] == s;
      DigitRunUnique(s, |s|);
    } else {
      assert s[..|d|] == d && s[|d|] == f[|d|];
      DigitRunUnique(s, |d|);
    }
  }

  // A complete frame is recognised whatever follows it.
  lemma ReadComplete(p: Bytes, s: Bytes)
    requires |p| <= MAX_LENGTH && Frame(p) <= s
    ensures var m := Read(s);
            m.Message? && m.start + m.len + 1 == |Frame(p)| && s[m.start..m.start + m.len] == p
  {
    FramePrefix(p, s);
    DigitsOfNat(|p|);
    NumeralLength(|p|);
    var d := Digits(|p|);
    assert s[0] == d[0];
    assert s[..|Frame(p)|] == Frame(p);
    assert s[|Frame(p)| - 1] == COMMA;
    assert Frame(p)[|d| + 1..|Frame(p)| - 1] == p;
    if |d| > 1 { assert s[0] != ZERO; }
  }

  // Every strict prefix of a frame asks for more input.
  lemma ReadIncomplete(p: Bytes, s: Bytes)
    requires |p| <= MAX_LENGTH && s < Frame(p)
    ensures Read(s) == TooShort
  {
    FramePrefix(p, s);
    DigitsOfNat(|p|);
    NumeralLength(|p|);
    var d := Digits(|p|);
    if |s| >= 3 {
      assert s[0] == Frame(p)[0] == d[0];
      assert s[1] == Frame(p)[1];
      if |d| == 1 { assert Frame(p)[1] == COLON; }
    }
  }

  // What the reader accepts is a frame of the format, ending where it says.
  lemma ReadSound(s: Bytes)
    requires Read(s).Message?
    ensures var m := Read(s);
            && m.start + m.len < |s| && m.len <= MAX_LENGTH
            && Frame(s[m.start..m.start + m.len]) == s[..m.start + m.len + 1]
  {
    var m := Read(s);
    var i := DigitRun(s);
    var d := s[..i];
    assert Canonical(d) by {
      if i > 1 { assert s[1] == d[1]; }
    }
    DigitsOfValue(d);
    NumeralLength(m.len);
    hide Read, DigitRun, Digits, Value;
    ThreeParts(s, i, m.len);
  }

  // A buffer up to the comma, in its parts.
  lemma ThreeParts(s: Bytes, i: nat, len: nat)
    requires i + 1 + len < |s| && s[i] == COLON && s[i + 1 + len] == COMMA
    ensures s[..i + len + 2] == s[..i] + [COLON] + s[i + 1..i + 1 + len] + [COMMA]
  {
  }

  ghost predicate BeginsWithFrame(s: Bytes, p: Bytes) {
    |p| <= MAX_LENGTH && Frame(p) <= s
  }

  // The reader accepts exactly the buffers that begin with a frame it can count.
  lemma ReadExact(s: Bytes)
    ensures Read(s).Message? <==> exists p: Bytes :: BeginsWithFrame(s, p)
  {
    if Read(s).Message? {
      ReadSound(s);
      assert BeginsWithFrame(s, s[Read(s).start..Read(s).start + Read(s).len]);
    } else if exists p: Bytes :: BeginsWithFrame(s, p) {
      var p: Bytes :| BeginsWithFrame(s, p);
      ReadComplete(p, s);
    }
  }

  // More input never changes a verdict other than "too short".
  lemma ReadStable(s: Bytes, t: Bytes)
    requires Read(s) != TooShort
    ensures Read(s + t) == Read(s)
  {
    var u := s + t;
    assert u[..|s|] == s;
    assert u[0] == s[0] && u[1] == s[1];
    if IsDigit(s[0]) && !(s[0] == ZERO && IsDigit(s[1])) {
      var i := DigitRun(s);
      if i < |s| {
        assert u[..i] == s[..i];
        DigitRunUnique(u, i);
      } else {
        assert AllDigits(s[..i]) && s[..i] == s;
        assert forall j :: 0 <= j < i ==> u[j] == s[..i][j];
        assert DigitRun(u) >= i;
      }
    }
  }

  // One more digit of the length.
  lemma ValueSnoc(s: Bytes, i: nat)
    requires i < |s| && AllDigits(s[..i]) && IsDigit(s[i]) && i <= DigitRun(s)
    ensures AllDigits(s[..i + 1]) && i + 1 <= DigitRun(s)
    ensures Value(s[..i + 1]) == 10 * Value(s[..i]) + (s[i] - 48)
  {
    hide DigitRun;
    var t := s[..i + 1];
    assert t[..|t| - 1] == s[..i] && t[|t| - 1] == s[i];
    assert forall j :: 0 <= j < |t| ==> t[j] == if j < i then s[..i][j] else s[i];
  }

  // netstring_read: the loop that accumulates the length, then the three checks.
  method NetstringRead(buffer: array<Byte>, offset: nat, bufferLength: nat) returns (r: ReadResult)
    requires offset + bufferLength <= buffer.Length
    ensures r == Read(buffer[offset..offset + bufferLength])
  {
    hide Value, DigitRun;
    ghost var s := buffer[offset..offset + bufferLength];
    assert forall j :: 0 <= j < bufferLength ==> s[j] == buffer[offset + j];
    if bufferLength < 3 { return TooShort; }
    if buffer[offset] == ZERO && IsDigit(buffer[offset + 1]) { return LeadingZero; }
    if !IsDigit(buffer[offset]) { return NoLength; }
    var i: nat, len: nat := 0, 0;
    while i < bufferLength && IsDigit(buffer[offset + i])
      invariant i <= bufferLength && i <= 9
      invariant AllDigits(s[..i]) && len == Value(s[..i]) && i <= DigitRun(s)
    {
      ValueSnoc(s, i);
      if i >= 9 {
        return TooLong;
      }
      len := len * 10 + (buffer[offset + i] - 48);
      i := i + 1;
    }
    DigitRunUnique(s, i);
    if i + len + 1 >= bufferLength { return TooShort; }
    assert s[i + 1 + len] == buffer[offset + (i + 1 + len)];
    if buffer[offset + i] != COLON { return NoColon; }
    i := i + 1;
    if buffer[offset + i + len] != COMMA { return NoComma; }
    return Message(i, len);
  }
}
