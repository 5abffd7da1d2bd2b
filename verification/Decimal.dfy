/** Decimal numbers as fmt_ulong and fmt_uint0 print them, and the second kind of stamp. */
module Decimal {
  import opened Stamp

  function DigitChar(u: nat): char
    requires u < 10
  {
    ('0' as int + u) as char
  }

  predicate IsDigit(c: char) { '0' <= c <= '9' }

  predicate AllDigits(s: string) {
    forall i :: 0 <= i < |s| ==> IsDigit(s[i])
  }

  /** The number without leading zeros. */
  function Digits10(u: nat): (s: string)
    ensures |s| >= 1 && AllDigits(s)
  {
    if u < 10 then [DigitChar(u)] else Digits10(u / 10) + [DigitChar(u % 10)]
  }

  function Zeros(n: nat): (s: string)
    ensures |s| == n && AllDigits(s)
  {
    if n == 0 then "" else Zeros(n - 1) + "0"
  }

  /** The number with leading zeros, if it has fewer than n digits. */
  function Padded10(u: nat, n: nat): (s: string)
    ensures AllDigits(s)
  {
    Zeros(if |Digits10(u)| < n then n - |Digits10(u)| else 0) + Digits10(u)
  }

  /** What such a text stands for. */
  function ValueOf10(s: string): nat
    requires AllDigits(s)
  {
    if s == "" then 0 else ValueOf10(s[..|s| - 1]) * 10 + (s[|s| - 1] as int - '0' as int)
  }

  lemma {:induction false} Digits10Value(u: nat)
    ensures ValueOf10(Digits10(u)) == u
    ensures u > 0 ==> Digits10(u)[0] != '0'
  {
    if u >= 10 {
      Digits10Value(u / 10);
      assert Digits10(u)[..|Digits10(u)| - 1] == Digits10(u / 10);
    }
  }

  lemma {:induction false} Padded10Value(n: nat, s: string)
    requires AllDigits(s)
    ensures ValueOf10(Zeros(n) + s) == ValueOf10(s)
    decreases n + |s|
  {
    if s != "" {
      assert (Zeros(n) + s)[..n + |s| - 1] == Zeros(n) + s[..|s| - 1];
      Padded10Value(n, s[..|s| - 1]);
    } else if n > 0 {
      assert Zeros(n) + "" == Zeros(n) && Zeros(n)[..n - 1] == Zeros(n - 1);
      Padded10Value(n - 1, "");
      assert Zeros(n - 1) + "" == Zeros(n - 1);
    }
  }

  function Pow10(n: nat): (p: nat)
    ensures p > 0
  {
    if n == 0 then 1 else 10 * Pow10(n - 1)
  }

  lemma {:induction false} Digits10Length(u: nat, n: nat)
    requires n > 0 && u < Pow10(n)
    ensures |Digits10(u)| <= n
  {
    if u >= 10 {
      assert Pow10(1) == 10;
      Digits10Length(u / 10, n - 1);
    }
  }

  method FmtUlong(s: array<char>, off: nat, u: nat) returns (len: nat)
    requires off + |Digits10(u)| <= s.Length
    modifies s
    ensures len == |Digits10(u)| && s[off..off + len] == Digits10(u)
    ensures forall k :: 0 <= k < s.Length && !(off <= k < off + len) ==> s[k] == old(s[k])
  {
    len := 1;
    var q := u;
    while q > 9
      invariant len + |Digits10(q)| == |Digits10(u)| + 1
    {
      len := len + 1;
      q := q / 10;
    }
    FillBack(s, off, u, len);
  }

  /** The digits, from the last one down to the first. */
  method FillBack(s: array<char>, off: nat, u: nat, len: nat)
    requires len == |Digits10(u)| && off + len <= s.Length
    modifies s
    ensures s[off..off + len] == Digits10(u)
    ensures forall k :: 0 <= k < s.Length && !(off <= k < off + len) ==> s[k] == old(s[k])
  {
    ghost var all := Digits10(u);
    var k, rest := len, u;
    assert all[..len] == all;
    while true
      invariant 1 <= k <= len == |all| && Digits10(rest) == all[..k]
      invariant forall i :: k <= i < len ==> s[off + i] == all[i]
      invariant forall i :: 0 <= i < s.Length && !(off + k <= i < off + len) ==> s[i] == old(s[i])
      decreases rest
    {
      LastDigit(all, k, rest);
      k := k - 1;
      s[off + k] := DigitChar(rest % 10);
      rest := rest / 10;
      if rest == 0 { break; }
    }
  }

  lemma LastDigit(all: string, k: nat, rest: nat)
    requires 1 <= k <= |all| && Digits10(rest) == all[..k]
    ensures all[k - 1] == DigitChar(rest % 10)
    ensures if rest < 10 then k == 1 else k > 1 && Digits10(rest / 10) == all[..k - 1]
  {
    assert all[..k][k - 1] == all[k - 1];
    assert all[..k][..k - 1] == all[..k - 1];
  }

  method FmtUint0(s: array<char>, off: nat, u: nat, n: nat) returns (len: nat)
    requires off + |Padded10(u, n)| <= s.Length
    modifies s
    ensures len == |Padded10(u, n)| && s[off..off + len] == Padded10(u, n)
    ensures forall k :: 0 <= k < s.Length && !(off <= k < off + len) ==> s[k] == old(s[k])
  {
    ghost var width := |Digits10(u)|;
    len := |Digits10(u)|;
    var at := off;
    while len < n
      invariant at - off == len - width && off <= at && (len <= n || at == off)
      invariant s[off..at] == Zeros(at - off)
      invariant forall k :: 0 <= k < s.Length && !(off <= k < at) ==> s[k] == old(s[k])
    {
      s[at] := '0';
      assert s[off..at + 1] == s[off..at] + "0";
      at := at + 1;
      len := len + 1;
    }
    ghost var zeros := s[off..at];
    var rest := FmtUlong(s, at, u);
    assert s[off..at] == zeros;
    assert s[off..off + len] == s[off..at] + s[at..at + rest];
  }

  // ---------- the stamp of action T ----------

  /** Seconds of Unix time and microseconds. */
  function AccuText(t: Taia): (s: string)
    requires InRange(t)
  {
    Digits10((t.sec + TWO64 - EPOCH) % TWO64) + "." + Padded10(t.nano / 1000, 6)
  }

  lemma AccuLength(t: Taia)
    requires InRange(t)
    ensures |AccuText(t)| <= 28 && '\n' !in AccuText(t)
  {
    assert Pow10(20) == 100_000_000_000_000_000_000 && Pow10(7) == 10_000_000;
    Digits10Length((t.sec + TWO64 - EPOCH) % TWO64, 20);
    Digits10Length(t.nano / 1000, 7);
  }

  /** Both numbers can be read off the stamp: the second while Unix time has a 64-bit second, and
      the microsecond. */
  lemma AccuStampTells(t: Taia)
    requires InRange(t)
    ensures var sec, usec := Digits10((t.sec + TWO64 - EPOCH) % TWO64), Padded10(t.nano / 1000, 6);
            && AccuText(t) == sec + "." + usec && '.' !in sec && '.' !in usec
            && (ValueOf10(sec) == t.sec - EPOCH <==> t.sec >= EPOCH) && ValueOf10(usec) == t.nano / 1000
            && (t.nano < 1_000_000_000 ==> |usec| == 6)
  {
    Digits10Value((t.sec + TWO64 - EPOCH) % TWO64);
    UnixSecond(t);
    MicrosTell(t.nano / 1000);
  }

  lemma UnixSecond(t: Taia)
    requires InRange(t)
    ensures (t.sec + TWO64 - EPOCH) % TWO64 == t.sec - EPOCH <==> t.sec >= EPOCH
  {
  }

  lemma MicrosTell(u: nat)
    ensures ValueOf10(Padded10(u, 6)) == u && (u < 1_000_000 ==> |Padded10(u, 6)| == 6)
  {
    Digits10Value(u);
    Padded10Value(if |Digits10(u)| < 6 then 6 - |Digits10(u)| else 0, Digits10(u));
    if u < 1_000_000 {
      SixDigits(u);
    }
  }

  lemma SixDigits(u: nat)
    requires u < 1_000_000
    ensures |Digits10(u)| <= 6
  {
    assert Pow10(6) == 1_000_000;
    Digits10Length(u, 6);
  }

  method FmtAccustamp(s: array<char>, now: Taia) returns (len: nat)
    requires InRange(now) && s.Length >= 28
    modifies s
    ensures len == |AccuText(now)| <= 28 && s[..len] == AccuText(now)
    ensures forall k :: len <= k < s.Length ==> s[k] == old(s[k])
  {
    AccuLength(now);
    ghost var sec := Digits10((now.sec + TWO64 - EPOCH) % TWO64);
    len := FmtUlong(s, 0, (now.sec + TWO64 - EPOCH) % TWO64);
    s[len] := '.';
    assert s[..len] == sec;
    var more := FmtUint0(s, len + 1, now.nano / 1000, 6);
    assert s[..len] == sec && s[len] == '.';
    assert s[..len + 1 + more] == s[..len] + [s[len]] + s[len + 1..len + 1 + more];
    len := len + 1 + more;
  }
}
