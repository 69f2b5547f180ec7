/**
 Wrapping times (include/Utils.hpp, Utils::Time and Utils::Byte).
 */
module Time {
  import opened Cyclic
  import opened Octets

  const TWO_24: nat := 0x100_0000
  const TWO_31: nat := 0x8000_0000
  const TWO_32: nat := 0x1_0000_0000
  const TWO_64: nat := 0x1_0000_0000_0000_0000

  type Uint32 = x: int | 0 <= x < 0x1_0000_0000

  // ---- Serial comparison ----

  function Sub32(a: Uint32, b: Uint32): Uint32 { (a - b) % TWO_32 }

  predicate IsNewerTimestamp(t: Uint32, prev: Uint32)
  {
    if Sub32(t, prev) == TWO_31 then t > prev else t != prev && Sub32(t, prev) < TWO_31
  }

  function LatestTimestamp(a: Uint32, b: Uint32): Uint32 { if IsNewerTimestamp(a, b) then a else b }

  // Of two distinct timestamps exactly one is newer, also when they are half the circle apart.
  lemma ExactlyOneNewer(a: Uint32, b: Uint32)
    requires a != b
    ensures IsNewerTimestamp(a, b) <==> !IsNewerTimestamp(b, a)
  {
    assert Sub32(a, b) == if a >= b then a - b else a - b + TWO_32;
    assert Sub32(b, a) == if b >= a then b - a else b - a + TWO_32;
  }

  // Section 3.2 of RFC 1982: s1 is greater than s2.
  predicate SerialGreater(a: Uint32, b: Uint32)
  {
    a != b && ((a < b && b - a > TWO_31) || (a > b && a - b < TWO_31))
  }

  // The comparison is that of RFC 1982, decided at distance 2^31, where the RFC leaves it undefined.
  lemma AgreesWithRfc1982(a: Uint32, b: Uint32)
    ensures Sub32(a, b) != TWO_31 ==> (IsNewerTimestamp(a, b) <==> SerialGreater(a, b))
    ensures Sub32(a, b) == TWO_31 ==>
              !SerialGreater(a, b) && !SerialGreater(b, a) && (IsNewerTimestamp(a, b) <==> a > b)
  {
    assert Sub32(a, b) == if a >= b then a - b else a - b + TWO_32;
  }

  function Wrap(x: nat): Uint32 { x % TWO_32 }

  // Less than half the circle apart, the wrapped comparison is the comparison of the true values.
  lemma NewerIsLater(x: nat, y: nat)
    requires x < y + TWO_31 && y < x + TWO_31
    ensures IsNewerTimestamp(Wrap(x), Wrap(y)) <==> x > y
  {
    var a, b := Wrap(x), Wrap(y);
    var w: int, turns: int := TWO_32, x / TWO_32 - y / TWO_32;
    assert (x - y) - (a - b) == w * turns;
    assert -1 <= turns <= 1;
    assert Sub32(a, b) == if a >= b then a - b else a - b + TWO_32;
  }

  function Max(xs: seq<nat>): nat
    requires xs != []
  {
    if |xs| == 1 then xs[0]
    else
      var m := Max(xs[..|xs| - 1]);
      if xs[|xs| - 1] > m then xs[|xs| - 1] else m
  }

  function Latest(ts: seq<Uint32>): Uint32
    requires ts != []
  {
    if |ts| == 1 then ts[0] else LatestTimestamp(ts[|ts| - 1], Latest(ts[..|ts| - 1]))
  }

  function WrapAll(xs: seq<nat>): (r: seq<Uint32>)
    ensures |r| == |xs|
  {
    seq(|xs|, i requires 0 <= i < |xs| => Wrap(xs[i]))
  }

  lemma {:induction false} MaxInWindow(xs: seq<nat>, lo: nat)
    requires xs != [] && forall i :: 0 <= i < |xs| ==> lo <= xs[i] < lo + TWO_31
    ensures lo <= Max(xs) < lo + TWO_31 && Max(xs) in xs && forall i :: 0 <= i < |xs| ==> xs[i] <= Max(xs)
  {
    if |xs| > 1 {
      var before := xs[..|xs| - 1];
      MaxInWindow(before, lo);
      assert forall i :: 0 <= i < |before| ==> xs[i] == before[i];
    }
  }

  // Keeping the latest timestamp of a stream whose true values stay within a window of less than
  // 2^31 yields the wrap of their maximum, wherever the window lies.
  lemma {:induction false} LatestIsMax(xs: seq<nat>, lo: nat)
    requires xs != [] && forall i :: 0 <= i < |xs| ==> lo <= xs[i] < lo + TWO_31
    ensures Latest(WrapAll(xs)) == Wrap(Max(xs))
  {
    if |xs| > 1 {
      hide IsNewerTimestamp, Wrap;
      var before, last := xs[..|xs| - 1], xs[|xs| - 1];
      LatestIsMax(before, lo);
      MaxInWindow(before, lo);
      assert WrapAll(xs)[..|xs| - 1] == WrapAll(before);
      NewerIsLater(last, Max(before));
    }
  }

  // ---- NTP ----

  datatype Ntp = Ntp(seconds: Uint32, fractions: Uint32)

  function TimeMs2Ntp(ms: nat): Ntp
    requires ms < TWO_64
  {
    var f := (((ms % 1000) as real / 1000.0) * 4294967296.0).Floor;
    Ntp(ms / 1000 % TWO_32, f)
  }

  function Ntp2TimeMs(ntp: Ntp): nat
  {
    // std::round of a non-negative number.
    ntp.seconds * 1000 + ((ntp.fractions as real * 1000.0) / 4294967296.0 + 0.5).Floor
  }

  // The milliseconds of a second survive the fraction and the rounding back.
  lemma FractionRoundTrip(r: nat)
    requires r < 1000
    ensures var f := ((r as real / 1000.0) * 4294967296.0).Floor;
            0 <= f < TWO_32 && ((f as real * 1000.0) / 4294967296.0 + 0.5).Floor == r
  {
    var x := (r as real / 1000.0) * 4294967296.0;
    var f := x.Floor;
    assert f as real <= x < f as real + 1.0;
    var y := (f as real * 1000.0) / 4294967296.0;
    assert r as real - 0.5 < y <= r as real;
  }

  // The NTP value itself: whole seconds, modulo 2^32, and the fraction of a second rounded down.
  lemma NtpExact(ms: nat)
    requires ms < TWO_64
    ensures var ntp := TimeMs2Ntp(ms);
            && ntp.seconds == ms / 1000 % TWO_32
            && ntp.fractions * 1000 <= ms % 1000 * TWO_32 < (ntp.fractions + 1) * 1000
  {
    var r := ms % 1000;
    var x := (r as real / 1000.0) * 4294967296.0;
    var f := x.Floor;
    assert f as real <= x < f as real + 1.0;
    assert x * 1000.0 == r as real * 4294967296.0;
    assert (f * 1000) as real <= (r * 4294967296) as real < ((f + 1) * 1000) as real;
  }

  lemma WholeSeconds(ms: nat)
    ensures ms % (1000 * TWO_32) == ms / 1000 % TWO_32 * 1000 + ms % 1000
    ensures ms % (1000 * TWO_32) == ms <==> ms < 1000 * TWO_32
  {
    var s := ms / 1000;
    assert ms == 1000 * s + ms % 1000;
    assert s == TWO_32 * (s / TWO_32) + s % TWO_32;
    assert ms == 1000 * TWO_32 * (s / TWO_32) + (1000 * (s % TWO_32) + ms % 1000);
  }

  lemma BackAgain(ms: nat)
    requires ms < TWO_64
    ensures Ntp2TimeMs(TimeMs2Ntp(ms)) == ms / 1000 % TWO_32 * 1000 + ms % 1000
  {
    FractionRoundTrip(ms % 1000);
  }

  // The conversion to NTP and back is exact if and only if the seconds fit in 32 bits.
  lemma NtpRoundTripIff(ms: nat)
    requires ms < TWO_64
    ensures Ntp2TimeMs(TimeMs2Ntp(ms)) == ms <==> ms < 1000 * TWO_32
    ensures Ntp2TimeMs(TimeMs2Ntp(ms)) == ms % (1000 * TWO_32)
  {
    hide TimeMs2Ntp, Ntp2TimeMs;
    BackAgain(ms);
    WholeSeconds(ms);
  }

  // ---- Absolute send time ----

  function TimeMsToAbsSendTime(ms: nat): (r: nat)
    requires ms < TWO_64
    ensures r < TWO_24
  {
    // ms << 18 and the addition wrap at 64 bits; the result is cut to 24 bits.
    ((((ms * 0x40000) % TWO_64 + 500) % TWO_64 / 1000) % TWO_32) % TWO_24
  }

  // ms in units of 2^-18 seconds, rounded to the nearest.
  function Units(ms: nat): nat { (ms * 0x40000 + 500) / 1000 }

  predicate NearestUnits(ms: nat, u: nat)
  {
    u * 1000 - 500 <= ms * 0x40000 <= u * 1000 + 500
  }

  // Below 2^46 ms nothing wraps before the cut: the result is the nearest 6.18 fixed-point number of
  // seconds, modulo 64 seconds.
  lemma AbsSendTimeIsNearest(ms: nat)
    requires ms < 0x4000_0000_0000
    ensures TimeMsToAbsSendTime(ms) == Units(ms) % TWO_24 && NearestUnits(ms, Units(ms))
  {
    var x := ms * 0x40000;
    assert x + 500 < TWO_64;
    Small(x);
    Small(x + 500);
    CutTwice(Units(ms));
  }

  lemma Small(x: nat)
    requires x < TWO_64
    ensures x % TWO_64 == x
  {
  }

  lemma CutTwice(u: nat)
    ensures u % TWO_32 % TWO_24 == u % TWO_24
  {
    var r := u % TWO_32;
    assert u == TWO_24 * (0x100 * (u / TWO_32) + r / TWO_24) + r % TWO_24;
    ModShift(0x100 * (u / TWO_32) + r / TWO_24, r % TWO_24, TWO_24);
  }

  lemma AbsSendTimePeriod(ms: nat)
    requires ms + 64000 < 0x4000_0000_0000
    ensures TimeMsToAbsSendTime(ms + 64000) == TimeMsToAbsSendTime(ms)
  {
    AbsSendTimeIsNearest(ms);
    AbsSendTimeIsNearest(ms + 64000);
    hide TimeMsToAbsSendTime;
    UnitsPeriod(ms);
    hide Units;
    var u := Units(ms);
    assert u + TWO_24 == TWO_24 * (u / TWO_24 + 1) + u % TWO_24;
    ModShift(u / TWO_24 + 1, u % TWO_24, TWO_24);
  }

  lemma UnitsPeriod(ms: nat)
    ensures Units(ms + 64000) == Units(ms) + TWO_24
  {
  }

  // Within a period distinct times have distinct values.
  lemma AbsSendTimeInjective(a: nat, b: nat)
    requires a < b < a + 64000 && b < 0x4000_0000_0000
    ensures TimeMsToAbsSendTime(a) != TimeMsToAbsSendTime(b)
  {
    AbsSendTimeIsNearest(a);
    AbsSendTimeIsNearest(b);
    hide TimeMsToAbsSendTime;
    UnitsAdvance(a, b);
    hide Units;
    ModDiffers(Units(a), Units(b));
  }

  lemma UnitsAdvance(a: nat, b: nat)
    requires a < b < a + 64000
    ensures Units(a) < Units(b) < Units(a) + TWO_24
  {
    UnitsPeriod(a);
  }

  lemma ModDiffers(u: nat, v: nat)
    requires u < v < u + TWO_24
    ensures u % TWO_24 != v % TWO_24
  {
    assert v - u == TWO_24 * (v / TWO_24 - u / TWO_24) + (v % TWO_24 - u % TWO_24);
  }

  // ---- Bytes ----

  function Get3Bytes(data: seq<Byte>, i: nat): nat
    requires i + 3 <= |data|
  {
    var high: int, mid: int, low: int := data[i], data[i + 1], data[i + 2];
    low + mid * 0x100 + high * 0x10000
  }

  method Set3Bytes(data: array<Byte>, i: nat, value: Uint32)
    requires i + 3 <= data.Length
    modifies data
    ensures Get3Bytes(data[..], i) == value % TWO_24
    ensures data[i] == value / 0x10000 % 0x100 // the most significant byte comes first
    ensures data[i + 1] == value / 0x100 % 0x100 && data[i + 2] == value % 0x100
    ensures forall j :: 0 <= j < data.Length && !(i <= j < i + 3) ==> data[j] == old(data[j])
  {
    data[i + 2] := value % 0x100;
    data[i + 1] := value / 0x100 % 0x100;
    data[i] := value / 0x10000 % 0x100;
    ThreeBytes(value);
  }

  lemma ThreeBytes(v: Uint32)
    ensures v % 0x100 + (v / 0x100 % 0x100) * 0x100 + (v / 0x10000 % 0x100) * 0x10000 == v % TWO_24
  {
    var low, rest := v % 0x100, v / 0x100;
    var mid, high := rest % 0x100, rest / 0x100;
    assert v == 0x100 * rest + low && rest == 0x100 * high + mid;
    assert v == 0x10000 * high + (0x100 * mid + low) && v / 0x10000 == high;
    var top, over := high % 0x100, high / 0x100;
    assert v == TWO_24 * over + (0x10000 * top + 0x100 * mid + low);
    ModShift(over, 0x10000 * top + 0x100 * mid + low, TWO_24);
  }

  // An absolute send time written to a packet is read back.
  method WriteAbsSendTime(data: array<Byte>, i: nat, ms: nat) returns (back: nat)
    requires i + 3 <= data.Length && ms < TWO_64
    modifies data
    ensures back == TimeMsToAbsSendTime(ms)
  {
    Set3Bytes(data, i, TimeMsToAbsSendTime(ms));
    back := Get3Bytes(data[..], i);
  }
}
