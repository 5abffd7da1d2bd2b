/** TAI64N labels: packing, the "@" stamp that names and orders old logs, and
    the shift register with which tai64nlocal reads a stamp back. */
module Stamp {

  type Byte = x: int | 0 <= x < 256

  const TWO28 := 0x1000_0000
  const TWO32 := 0x1_0000_0000
  const TWO63 := 0x8000_0000_0000_0000
  const TWO64 := 0x1_0000_0000_0000_0000
  const TWO96 := 0x1_0000_0000_0000_0000_0000_0000

  /** The TAI second that is the Unix epoch. */
  const EPOCH := 4611686018427387914

  /** Entry u of the table "0123456789abcdef". */
  function HexChar(u: nat): char
    requires u < 16
  {
    if u < 10 then ('0' as int + u) as char else ('a' as int + u - 10) as char
  }

  datatype Taia = Taia(sec: nat, nano: nat, atto: nat)

  predicate InRange(t: Taia) {
    t.sec < TWO64 && t.nano < TWO32 && t.atto < TWO32
  }

  /** What gettimeofday says: Unix seconds and microseconds. */
  datatype Timeval = Timeval(sec: int, usec: nat)

  type TimeOfDay = v: Timeval | v.usec < 1000000 witness Timeval(0, 0)

  /** taia_now */
  function TaiaNow(v: TimeOfDay): (t: Taia)
    ensures InRange(t)
  {
    Taia((EPOCH + v.sec) % TWO64, 1000 * v.usec + 500, 0)
  }

  /** The 96-bit number that a TAI64N label writes down. */
  function Label(t: Taia): (v: nat)
  {
    t.sec * TWO32 + t.nano
  }

  predicate TaiaLess(t: Taia, u: Taia) {
    if t.sec < u.sec then true
    else if t.sec > u.sec then false
    else if t.nano < u.nano then true
    else if t.nano > u.nano then false
    else t.atto < u.atto
  }

  // ---------- big-endian packing ----------

  function BigEndian(x: nat, n: nat): (s: seq<Byte>)
    ensures |s| == n
  {
    if n == 0 then [] else BigEndian(x / 256, n - 1) + [x % 256]
  }

  function FromBigEndian(s: seq<Byte>): nat {
    if s == [] then 0 else FromBigEndian(s[..|s| - 1]) * 256 + s[|s| - 1]
  }

  function Pow256(n: nat): (p: nat)
    ensures p > 0
  {
    if n == 0 then 1 else Pow256(n - 1) * 256
  }

  lemma {:induction false} PackRoundTrip(x: nat, n: nat)
    requires x < Pow256(n)
    ensures FromBigEndian(BigEndian(x, n)) == x
  {
    if n > 0 {
      assert Pow256(n) == Pow256(n - 1) * 256;
      PackRoundTrip(x / 256, n - 1);
      assert BigEndian(x, n)[..n - 1] == BigEndian(x / 256, n - 1);
    }
  }

  lemma {:induction false} UnpackRoundTrip(s: seq<Byte>)
    ensures FromBigEndian(s) < Pow256(|s|)
    ensures BigEndian(FromBigEndian(s), |s|) == s
  {
    if s != [] {
      UnpackRoundTrip(s[..|s| - 1]);
      var v := FromBigEndian(s[..|s| - 1]);
      assert FromBigEndian(s) / 256 == v && FromBigEndian(s) % 256 == s[|s| - 1];
    }
  }

  lemma {:induction false} PackConcat(hi: nat, lo: nat, n: nat, k: nat)
    requires lo < Pow256(k)
    ensures BigEndian(hi * Pow256(k) + lo, n + k) == BigEndian(hi, n) + BigEndian(lo, k)
  {
    if k == 0 {
      assert BigEndian(hi, n) + [] == BigEndian(hi, n);
    } else {
      var x := hi * Pow256(k) + lo;
      assert Pow256(k) == Pow256(k - 1) * 256;
      assert hi * (Pow256(k - 1) * 256) == (hi * Pow256(k - 1)) * 256;
      assert x / 256 == hi * Pow256(k - 1) + lo / 256 && x % 256 == lo % 256;
      PackConcat(hi, lo / 256, n, k - 1);
    }
  }

  lemma Pack4(x: nat)
    ensures BigEndian(x, 4) == [x / 256 / 256 / 256 % 256, x / 256 / 256 % 256, x / 256 % 256, x % 256]
  {
    var x1 := x / 256;
    var x2 := x1 / 256;
    var x3 := x2 / 256;
    assert BigEndian(x3, 1) == BigEndian(x3 / 256, 0) + [x3 % 256] == [x3 % 256];
    assert BigEndian(x2, 2) == BigEndian(x3, 1) + [x2 % 256];
    assert BigEndian(x1, 3) == BigEndian(x2, 2) + [x1 % 256];
    assert BigEndian(x, 4) == BigEndian(x1, 3) + [x % 256];
  }

  lemma Pack8(x: nat)
    ensures BigEndian(x, 8) == BigEndian(x / 256 / 256 / 256 / 256, 4) + BigEndian(x, 4)
  {
    var x1 := x / 256;
    var x2 := x1 / 256;
    var x3 := x2 / 256;
    var x4 := x3 / 256;
    Pack4(x);
    assert BigEndian(x3, 5) == BigEndian(x4, 4) + [x3 % 256];
    assert BigEndian(x2, 6) == BigEndian(x3, 5) + [x2 % 256];
    assert BigEndian(x1, 7) == BigEndian(x2, 6) + [x1 % 256];
    assert BigEndian(x, 8) == BigEndian(x1, 7) + [x % 256];
  }

  method TaiPack(s: array<Byte>, off: nat, sec: nat)
    requires sec < TWO64 && off + 8 <= s.Length
    modifies s
    ensures s[off..off + 8] == BigEndian(sec, 8)
    ensures forall k :: 0 <= k < s.Length && !(off <= k < off + 8) ==> s[k] == old(s[k])
  {
    var x := sec;
    s[off + 7] := x % 256; x := x / 256;
    s[off + 6] := x % 256; x := x / 256;
    s[off + 5] := x % 256; x := x / 256;
    s[off + 4] := x % 256; x := x / 256;
    ghost var high := x;
    s[off + 3] := x % 256; x := x / 256;
    s[off + 2] := x % 256; x := x / 256;
    s[off + 1] := x % 256; x := x / 256;
    s[off] := x % 256;
    Pack8(sec);
    Pack4(sec);
    Pack4(high);
    assert s[off + 4..off + 8] == BigEndian(sec, 4);
    assert s[off..off + 4] == BigEndian(high, 4);
    assert s[off..off + 8] == s[off..off + 4] + s[off + 4..off + 8];
  }

  lemma UnpackStep(s: seq<Byte>, k: nat, x: nat)
    requires k < |s| && k < 8 && x == FromBigEndian(s[..k])
    ensures (x * 256) % TWO64 + s[k] as int == FromBigEndian(s[..k + 1])
  {
    UnpackRoundTrip(s[..k]);
    assert Pow256(8) == TWO64;
    Pow256Grows(k, 7);
    assert s[..k + 1][..k] == s[..k];
  }

  lemma {:induction false} Pow256Grows(k: nat, n: nat)
    requires k <= n
    ensures Pow256(k) <= Pow256(n)
  {
    if k < n {
      Pow256Grows(k, n - 1);
    }
  }

  method TaiUnpack(s: seq<Byte>) returns (x: nat)
    requires |s| >= 8
    ensures x < TWO64 && x == FromBigEndian(s[..8]) && BigEndian(x, 8) == s[..8]
  {
    assert FromBigEndian(s[..0]) == 0;
    UnpackStep(s, 0, 0);
    x := s[0];
    UnpackStep(s, 1, x);
    x := (x * 256) % TWO64 + s[1] as int;
    UnpackStep(s, 2, x);
    x := (x * 256) % TWO64 + s[2] as int;
    UnpackStep(s, 3, x);
    x := (x * 256) % TWO64 + s[3] as int;
    UnpackStep(s, 4, x);
    x := (x * 256) % TWO64 + s[4] as int;
    UnpackStep(s, 5, x);
    x := (x * 256) % TWO64 + s[5] as int;
    UnpackStep(s, 6, x);
    x := (x * 256) % TWO64 + s[6] as int;
    UnpackStep(s, 7, x);
    x := (x * 256) % TWO64 + s[7] as int;
    UnpackRoundTrip(s[..8]);
    assert Pow256(8) == TWO64;
  }

  /** The four lines of taia_pack that store a 32-bit count. */
  method PackCount(s: array<Byte>, off: nat, count: nat)
    requires count < TWO32 && off + 4 <= s.Length
    modifies s
    ensures s[off..off + 4] == BigEndian(count, 4)
    ensures forall k :: 0 <= k < s.Length && !(off <= k < off + 4) ==> s[k] == old(s[k])
  {
    var x := count;
    s[off + 3] := x % 256; x := x / 256;
    s[off + 2] := x % 256; x := x / 256;
    s[off + 1] := x % 256; x := x / 256;
    s[off] := x % 256;
    Pack4(count);
  }

  method TaiaPack(s: array<Byte>, off: nat, t: Taia)
    requires InRange(t) && off + 16 <= s.Length
    modifies s
    ensures s[off..off + 12] == BigEndian(Label(t), 12)
    ensures s[off + 12..off + 16] == BigEndian(t.atto, 4)
    ensures forall k :: 0 <= k < s.Length && !(off <= k < off + 16) ==> s[k] == old(s[k])
  {
    TaiPack(s, off, t.sec);
    ghost var sec := s[off..off + 8];
    PackCount(s, off + 12, t.atto);
    assert s[off..off + 8] == sec;
    ghost var atto := s[off + 12..off + 16];
    PackCount(s, off + 8, t.nano);
    assert s[off..off + 8] == sec;
    assert s[off + 12..off + 16] == atto;
    assert s[off..off + 12] == s[off..off + 8] + s[off + 8..off + 12];
    assert Pow256(4) == TWO32;
    PackConcat(t.sec, t.nano, 8, 4);
  }

  // ---------- the stamp ----------

  /** The n hexadecimal digits of v, most significant first. */
  function Digits(v: nat, n: nat): (s: string)
    ensures |s| == n
  {
    if n == 0 then "" else Digits(v / 16, n - 1) + [HexChar(v % 16)]
  }

  function StampText(v: nat): (s: string)
    ensures |s| == 25
  {
    "@" + Digits(v, 24)
  }

  lemma {:induction false} DigitsOfBytes(v: nat, n: nat, i: nat)
    requires i < n
    ensures Digits(v, 2 * n)[2 * i] == HexChar(BigEndian(v, n)[i] / 16)
    ensures Digits(v, 2 * n)[2 * i + 1] == HexChar(BigEndian(v, n)[i] % 16)
  {
    var d := Digits(v / 16 / 16, 2 * n - 2);
    assert Digits(v, 2 * n) == Digits(v / 16, 2 * n - 1) + [HexChar(v % 16)];
    assert Digits(v / 16, 2 * n - 1) == d + [HexChar(v / 16 % 16)];
    assert v / 16 / 16 == v / 256;
    if i == n - 1 {
      assert (v % 256) / 16 == v / 16 % 16 && (v % 256) % 16 == v % 16;
    } else {
      DigitsOfBytes(v / 256, n - 1, i);
      assert BigEndian(v, n)[i] == BigEndian(v / 256, n - 1)[i];
    }
  }

  lemma StampFromBytes(v: nat, packed: seq<Byte>, digits: string)
    requires packed == BigEndian(v, 12) && digits == Digits(v, 24)
    ensures forall i :: 0 <= i < 12 ==>
              digits[2 * i] == HexChar(packed[i] / 16) && digits[2 * i + 1] == HexChar(packed[i] % 16)
  {
    forall i | 0 <= i < 12
      ensures digits[2 * i] == HexChar(packed[i] / 16) && digits[2 * i + 1] == HexChar(packed[i] % 16)
    {
      DigitsOfBytes(v, 12, i);
    }
  }

  method FmtTai64nStamp(s: array<char>, now: Taia) returns (len: nat)
    requires InRange(now) && s.Length >= 25
    modifies s
    ensures len == 25 && s[..25] == StampText(Label(now))
    ensures forall k :: 25 <= k < s.Length ==> s[k] == old(s[k])
  {
    var nowpack := new Byte[16];
    TaiaPack(nowpack, 0, now);
    ghost var packed, digits := BigEndian(Label(now), 12), Digits(Label(now), 24);
    StampFromBytes(Label(now), packed, digits);
    assert StampText(Label(now)) == "@" + digits;
    assert nowpack[..12] == packed;
    s[0] := '@';
    for i := 0 to 12
      invariant s[0] == '@' && nowpack[..12] == packed
      invariant forall k :: 0 <= k < 2 * i ==> s[k + 1] == digits[k]
      invariant forall k :: 25 <= k < s.Length ==> s[k] == old(s[k])
    {
      assert nowpack[i] == packed[i];
      s[i * 2 + 1] := HexChar(nowpack[i] / 16 % 16);
      s[i * 2 + 2] := HexChar(nowpack[i] % 16);
      assert s[2 * i + 1] == digits[2 * i] && s[2 * i + 2] == digits[2 * i + 1];
    }
    assert s[1..25] == digits;
    return 25;
  }

  // ---------- reading a stamp back ----------

  /** The digit a character stands for, or None at the end of a stamp. */
  predicate IsHex(ch: char) {
    '0' <= ch <= '9' || 'a' <= ch <= 'f'
  }

  function HexValue(ch: char): (v: nat)
    requires IsHex(ch)
    ensures v < 16 && HexChar(v) == ch
  {
    if ch <= '9' then ch as int - '0' as int else ch as int - 'a' as int + 10
  }

  predicate AllHex(s: string) {
    forall i :: 0 <= i < |s| ==> IsHex(s[i])
  }

  function Value(s: string): nat
    requires AllHex(s)
  {
    if s == "" then 0 else Value(s[..|s| - 1]) * 16 + HexValue(s[|s| - 1])
  }

  /** What tai64nlocal makes of a run of hexadecimal digits, on a machine with 64-bit time_t. */
  function Decoded(s: string): (r: (int, nat))
    requires AllHex(s)
  {
    (Signed64(Value(s) / TWO32 - EPOCH), Value(s) % TWO32)
  }

  function Signed64(x: int): (r: int)
    ensures -TWO63 <= r < TWO63 && (r - x) % TWO64 == 0
  {
    if x % TWO64 < TWO63 then x % TWO64 else x % TWO64 - TWO64
  }

  /** The register step: shifting one digit through (secs, nanosecs). */
  lemma ShiftDigit(v: nat, u: nat, secs: nat, nano: nat)
    requires u < 16 && nano == v % TWO32 && secs == v / TWO32 % TWO64
    ensures (16 * v + u) % TWO32 == nano % TWO28 * 16 + u
    ensures (16 * v + u) / TWO32 % TWO64 == (secs * 16 % TWO64 + nano / TWO28) % TWO64
  {
    var q, carry, low := v / TWO32, nano / TWO28, nano % TWO28 * 16 + u;
    SplitAt32(16 * v + u, 16 * q + carry, low);
    SplitAt64(16 * q + carry, 16 * (q / TWO64) + secs * 16 / TWO64, secs * 16 % TWO64 + carry);
  }

  lemma SplitAt32(x: nat, high: nat, low: nat)
    requires x == high * TWO32 + low && low < TWO32
    ensures x / TWO32 == high && x % TWO32 == low
  {
  }

  lemma SplitAt64(x: nat, high: nat, low: nat)
    requires x == high * TWO64 + low
    ensures x % TWO64 == low % TWO64
  {
  }

  /** An unsigned difference is small exactly at a digit. */
  lemma UnsignedDigit(ch: char)
    ensures (ch as int - '0' as int) % TWO64 < 10 <==> '0' <= ch <= '9'
    ensures (ch as int - 'a' as int) % TWO64 < 6 <==> 'a' <= ch <= 'f'
    ensures '0' <= ch <= '9' ==> (ch as int - '0' as int) % TWO64 == HexValue(ch)
    ensures 'a' <= ch <= 'f' ==> (ch as int - 'a' as int) % TWO64 + 10 == HexValue(ch)
  {
    if ch < '0' {
      assert (ch as int - '0' as int) % TWO64 == ch as int - '0' as int + TWO64;
    }
    if ch < 'a' {
      assert (ch as int - 'a' as int) % TWO64 == ch as int - 'a' as int + TWO64;
    }
  }

  lemma ValueSnoc(s: string, k: nat)
    requires k < |s| && AllHex(s[..k]) && IsHex(s[k])
    ensures AllHex(s[..k + 1]) && Value(s[..k + 1]) == 16 * Value(s[..k]) + HexValue(s[k])
  {
    assert s[..k + 1][..k] == s[..k];
  }

  /** The digit loop of tai64nlocal, from just behind the "@". It stops at the first
      character that is no digit; the caller exits if there is none. */
  method ReadStamp(input: string) returns (len: nat, secs: int, nanosecs: nat)
    ensures len <= |input| && AllHex(input[..len])
    ensures len < |input| ==> !IsHex(input[len])
    ensures (secs, nanosecs) == Decoded(input[..len])
  {
    var s: nat := 0;
    nanosecs := 0;
    len := 0;
    ghost var v: nat := 0;
    while len < |input|
      invariant len <= |input| && AllHex(input[..len]) && v == Value(input[..len])
      invariant nanosecs == v % TWO32 && s == v / TWO32 % TWO64
    {
      var ch := input[len];
      UnsignedDigit(ch);
      var u := (ch as int - '0' as int) % TWO64;
      if u >= 10 {
        u := (ch as int - 'a' as int) % TWO64;
        if u >= 6 { break; }
        u := u + 10;
      }
      ValueSnoc(input, len);
      ShiftDigit(v, u, s, nanosecs);
      v := 16 * v + u;
      s := s * 16 % TWO64;
      s := (s + nanosecs / TWO28) % TWO64;
      nanosecs := nanosecs % TWO28;
      nanosecs := nanosecs * 16;
      nanosecs := nanosecs + u;
      len := len + 1;
    }
    SubtractEpoch(v / TWO32);
    secs := Signed64(s - EPOCH);
  }

  lemma SubtractEpoch(q: nat)
    ensures Signed64(q % TWO64 - EPOCH) == Signed64(q - EPOCH)
  {
    assert q == q / TWO64 * TWO64 + q % TWO64;
    assert (q - EPOCH) % TWO64 == (q % TWO64 - EPOCH) % TWO64;
  }

  function Pow16(n: nat): (p: nat)
    ensures p > 0
  {
    if n == 0 then 1 else Pow16(n - 1) * 16
  }

  lemma {:induction false} ValueOfDigits(v: nat, n: nat)
    requires v < Pow16(n)
    ensures AllHex(Digits(v, n)) && Value(Digits(v, n)) == v
  {
    if n > 0 {
      assert Pow16(n) == Pow16(n - 1) * 16;
      ValueOfDigits(v / 16, n - 1);
      var d := Digits(v, n);
      assert d[..n - 1] == Digits(v / 16, n - 1);
      assert HexChar(v % 16) == d[n - 1];
      HexIsHex(v % 16);
    }
  }

  lemma HexIsHex(u: nat)
    requires u < 16
    ensures IsHex(HexChar(u)) && HexValue(HexChar(u)) == u
  {
  }

  lemma Pow16At24()
    ensures Pow16(24) == TWO96
  {
    assert Pow16(8) == TWO32;
    assert Pow16(16) == TWO64;
  }

  lemma LabelBound(t: Taia)
    requires InRange(t)
    ensures Label(t) < TWO96
  {
  }

  /** The digits of a printed stamp are read to their end and give back the moment
      they were printed at, exactly as long as the Unix second fits a signed 64-bit time_t. */
  lemma StampRoundTrip(t: Taia)
    requires InRange(t)
    ensures AllHex(StampText(Label(t))[1..])
    ensures Decoded(StampText(Label(t))[1..]) == (t.sec - EPOCH, t.nano) <==> t.sec - EPOCH < TWO63
    ensures t.sec < TWO63 ==> Decoded(StampText(Label(t))[1..]) == (t.sec - EPOCH, t.nano)
  {
    Pow16At24();
    LabelBound(t);
    ValueOfDigits(Label(t), 24);
    assert StampText(Label(t))[1..] == Digits(Label(t), 24);
    assert Label(t) / TWO32 == t.sec && Label(t) % TWO32 == t.nano;
  }

  /** So the stamp of a reading of the clock tells its second and its microsecond. */
  lemma StampTellsTime(v: TimeOfDay)
    requires -EPOCH <= v.sec < TWO63
    ensures AllHex(StampText(Label(TaiaNow(v)))[1..])
    ensures Decoded(StampText(Label(TaiaNow(v)))[1..]) == (v.sec, 1000 * v.usec + 500)
  {
    StampRoundTrip(TaiaNow(v));
    assert EPOCH + v.sec < TWO64;
  }

  // ---------- string order ----------

  /** str_diff(s,t) < 0 */
  predicate StrLess(s: string, t: string) {
    t != "" && (s == "" || s[0] < t[0] || (s[0] == t[0] && StrLess(s[1..], t[1..])))
  }

  /** str_start(s,t) */
  predicate StrStart(s: string, t: string) {
    |t| <= |s| && s[..|t|] == t
  }

  lemma {:induction false} StrLessSnoc(s: string, t: string, c: char, d: char)
    requires |s| == |t|
    ensures StrLess(s + [c], t + [d]) <==> StrLess(s, t) || (s == t && c < d)
  {
    if s == "" {
      assert (s + [c])[1..] == "" && (t + [d])[1..] == "";
    } else {
      assert (s + [c])[1..] == s[1..] + [c] && (t + [d])[1..] == t[1..] + [d];
      StrLessSnoc(s[1..], t[1..], c, d);
      assert s == [s[0]] + s[1..] && t == [t[0]] + t[1..];
    }
  }

  /** Only as many characters count as the other string has. */
  lemma {:induction false} StrLessPrefix(s: string, tail: string, t: string)
    requires |s| >= |t|
    ensures StrLess(s + tail, t) <==> StrLess(s, t)
  {
    if t != "" {
      assert (s + tail)[1..] == s[1..] + tail;
      StrLessPrefix(s[1..], tail, t[1..]);
    }
  }

  lemma {:induction false} StrLessTransitive(s: string, t: string, u: string)
    requires StrLess(s, t) && StrLess(t, u)
    ensures StrLess(s, u)
    decreases |s|
  {
    if s != "" && s[0] == t[0] == u[0] {
      StrLessTransitive(s[1..], t[1..], u[1..]);
    }
  }

  lemma {:induction false} StrLessIrreflexive(s: string)
    ensures !StrLess(s, s)
  {
    if s != "" {
      StrLessIrreflexive(s[1..]);
    }
  }

  lemma {:induction false} DigitsOrder(v: nat, w: nat, n: nat)
    requires v < Pow16(n) && w < Pow16(n)
    ensures StrLess(Digits(v, n), Digits(w, n)) <==> v < w
    ensures Digits(v, n) == Digits(w, n) <==> v == w
  {
    if n > 0 {
      assert Pow16(n) == Pow16(n - 1) * 16;
      DigitsOrder(v / 16, w / 16, n - 1);
      StrLessSnoc(Digits(v / 16, n - 1), Digits(w / 16, n - 1), HexChar(v % 16), HexChar(w % 16));
      assert HexChar(v % 16) < HexChar(w % 16) <==> v % 16 < w % 16 by { HexOrder(v % 16, w % 16); }
      assert HexChar(v % 16) == HexChar(w % 16) <==> v % 16 == w % 16 by {
        HexOrder(v % 16, w % 16);
        HexOrder(w % 16, v % 16);
      }
      assert Digits(v, n)[..n - 1] == Digits(v / 16, n - 1) && Digits(w, n)[..n - 1] == Digits(w / 16, n - 1);
      assert Digits(v, n)[n - 1] == HexChar(v % 16) && Digits(w, n)[n - 1] == HexChar(w % 16);
    }
  }

  lemma HexOrder(u: nat, v: nat)
    requires u < 16 && v < 16
    ensures HexChar(u) < HexChar(v) <==> u < v
  {
    HexIsHex(u);
    HexIsHex(v);
  }

  lemma StampTextOrder(v: nat, w: nat)
    requires v < TWO96 && w < TWO96
    ensures StrLess(StampText(v), StampText(w)) <==> v < w
    ensures StampText(v) == StampText(w) <==> v == w
  {
    Pow16At24();
    DigitsOrder(v, w, 24);
    assert StampText(v)[1..] == Digits(v, 24) && StampText(w)[1..] == Digits(w, 24);
  }

  /** Old logs sort by name as they were finished in time: string order of stamps is
      the order of taia_less (the clock sets no attoseconds, and stamps print none). */
  lemma StampOrderIsTimeOrder(t: Taia, u: Taia)
    requires InRange(t) && InRange(u)
    ensures StrLess(StampText(Label(t)), StampText(Label(u))) <==> TaiaLess(t.(atto := 0), u.(atto := 0))
    ensures StampText(Label(t)) == StampText(Label(u)) <==> t.sec == u.sec && t.nano == u.nano
  {
    LabelBound(t);
    LabelBound(u);
    StampTextOrder(Label(t), Label(u));
  }
}
