/** The 20-byte record in which supervise publishes a service, and its two readers. */
module Status {
  import opened Stamp

  datatype SvStatus = Stopped | Starting | Started | Running | Stopping | Failed

  const MAX_PID := 0x8000_0000

  /** What supervise knows of one service that others may read. */
  datatype Record = Record(when: Taia, pid: nat, paused: bool, want: bool, wantup: bool, flag: SvStatus)

  predicate Recordable(r: Record) {
    InRange(r.when) && r.pid < MAX_PID
  }

  function FlagByte(f: SvStatus): Byte {
    match f
    case Stopped => 0
    case Starting => 1
    case Started => 2
    case Running => 3
    case Stopping => 4
    case Failed => 5
  }

  function WantByte(r: Record): Byte {
    if r.want then (if r.wantup then 'u' as int else 'd' as int) else 0
  }

  /** The published bytes: the label, the process id with its low byte first, four flags. */
  function Published(r: Record): (s: seq<Byte>)
    ensures |s| == 20
  {
    BigEndian(Label(r.when), 12) + PidBytes(r.pid) + FlagBytes(r)
  }

  function PidBytes(p: nat): (s: seq<Byte>)
    ensures |s| == 4
  {
    [p % 256, p / 256 % 256, p / 256 / 256 % 256, p / 256 / 256 / 256 % 256]
  }

  function FlagBytes(r: Record): (s: seq<Byte>)
    ensures |s| == 4
  {
    [if r.pid != 0 && r.paused then 1 else 0, WantByte(r), FlagByte(r.flag), 0]
  }

  method MakeStatus(r: Record, status: array<Byte>, off: nat)
    requires Recordable(r) && off + 20 <= status.Length
    modifies status
    ensures status[off..off + 20] == Published(r)
    ensures forall k :: 0 <= k < status.Length && !(off <= k < off + 20) ==> status[k] == old(status[k])
  {
    TaiaPack(status, off, r.when);
    ghost var packed := status[off..off + 12];
    var u := r.pid;
    status[off + 12] := u % 256; u := u / 256;
    status[off + 13] := u % 256; u := u / 256;
    status[off + 14] := u % 256; u := u / 256;
    status[off + 15] := u % 256;
    status[off + 16] := if r.pid != 0 then (if r.paused then 1 else 0) else 0;
    status[off + 17] := if r.want then (if r.wantup then 'u' as int else 'd' as int) else 0;
    status[off + 18] := FlagByte(r.flag);
    status[off + 19] := 0;
    assert status[off..off + 12] == packed;
    assert status[off + 12..off + 16] == PidBytes(r.pid);
    assert status[off + 16..off + 20] == FlagBytes(r);
    ThreeParts(status[..], off);
  }

  lemma ThreeParts(s: seq<Byte>, off: nat)
    requires off + 20 <= |s|
    ensures s[off..off + 20] == s[off..off + 12] + s[off + 12..off + 16] + s[off + 16..off + 20]
  {
  }

  // ---------- svstat ----------

  datatype Word =
    | Up(pid: nat) | Down | Seconds(n: nat)
    | NormallyDown | NormallyUp | Paused | WantUp | WantDown | Once
    | Is(flag: SvStatus) | StatusUnknown

  /** What svstat is meant to say about a service, read off the record itself; files of the older
      format, of 18 bytes, are not full and have no state. */
  function Describe(r: Record, normallyup: bool, now: nat, full: bool): seq<Word> {
    var w := [if r.pid != 0 then Up(r.pid) else Down, Seconds(if now < r.when.sec then 0 else now - r.when.sec)];
    var w := Say(w, r.pid != 0 && !normallyup, NormallyDown);
    var w := Say(w, r.pid == 0 && normallyup, NormallyUp);
    var w := Say(w, r.pid != 0 && r.paused, Word.Paused);
    var w := Say(w, r.pid == 0 && r.want && r.wantup, WantUp);
    var w := Say(w, r.pid != 0 && r.want && !r.wantup, WantDown);
    var w := Say(w, full && r.pid != 0 && !r.want, Once);
    Say(w, full, Is(r.flag))
  }

  function Say(words: seq<Word>, condition: bool, w: Word): seq<Word> {
    if condition then words + [w] else words
  }

  lemma PidFromBytes(p: nat)
    requires p < MAX_PID
    ensures ((p / 256 / 256 / 256 % 256 * 256 + p / 256 / 256 % 256) * 256 + p / 256 % 256) * 256 + p % 256 == p
    ensures p == 0 <==> p % 256 == 0 && p / 256 % 256 == 0 && p / 256 / 256 % 256 == 0 && p / 256 / 256 / 256 % 256 == 0
  {
    assert p / 256 / 256 / 256 < 256;
  }

  /** The first eight bytes of a label are its second. */
  lemma SecondOfLabel(t: Taia)
    requires InRange(t)
    ensures FromBigEndian(BigEndian(Label(t), 12)[..8]) == t.sec
  {
    assert Pow256(4) == TWO32 && Pow256(8) == TWO64;
    PackConcat(t.sec, t.nano, 8, 4);
    assert BigEndian(Label(t), 12)[..8] == BigEndian(t.sec, 8);
    PackRoundTrip(t.sec, 8);
  }

  /** What the reader finds in the published bytes. */
  lemma PublishedFields(r: Record)
    requires Recordable(r)
    ensures FromBigEndian(Published(r)[..8]) == r.when.sec
    ensures var s := Published(r); ((s[15] as int * 256 + s[14]) * 256 + s[13]) * 256 + s[12] == r.pid
    ensures var s := Published(r); s[12] == s[13] == s[14] == s[15] == 0 <==> r.pid == 0
    ensures Published(r)[16] != 0 <==> r.pid != 0 && r.paused
    ensures Published(r)[17] == WantByte(r) && Published(r)[18] == FlagByte(r.flag)
  {
    PidFromBytes(r.pid);
    SecondOfLabel(r.when);
    assert Published(r)[..8] == BigEndian(Label(r.when), 12)[..8];
  }

  function FlagWord(b: Byte): Word {
    match b
    case 0 => Is(Stopped)
    case 1 => Is(Starting)
    case 2 => Is(Started)
    case 3 => Is(Running)
    case 4 => Is(Stopping)
    case 5 => Is(Failed)
    case _ => StatusUnknown
  }

  /** The bytes read from a status file are the beginning of a published record. */
  predicate Shows(status: seq<Byte>, r: Record) {
    var n := if |status| < 20 then |status| else 20;
    n >= 18 && status[..n] == Published(r)[..n]
  }

  lemma ShownFields(status: seq<Byte>, r: Record)
    requires Recordable(r) && Shows(status, r)
    ensures |status| >= 18 && FromBigEndian(status[..8]) == r.when.sec
    ensures forall k :: 12 <= k < 18 ==> status[k] == Published(r)[k]
    ensures |status| > 18 ==> status[18] == FlagByte(r.flag)
  {
    PublishedFields(r);
    var n := if |status| < 20 then |status| else 20;
    assert status[..8] == status[..n][..8] == Published(r)[..n][..8] == Published(r)[..8];
    assert forall k :: 12 <= k < n ==> status[k] == status[..n][k] == Published(r)[..n][k] == Published(r)[k];
  }

  /** showstatus, on all that was read of the file. */
  method ShowStatus(status: seq<Byte>, normallyup: bool, now: nat) returns (out: seq<Word>)
    requires |status| >= 18
    ensures forall r :: Recordable(r) && Shows(status, r) ==> out == Describe(r, normallyup, now, |status| > 18)
  {
    var pid: nat := status[15];
    pid := pid * 256; pid := pid + status[14] as int;
    pid := pid * 256; pid := pid + status[13] as int;
    pid := pid * 256; pid := pid + status[12] as int;
    var paused := status[16];
    var want := status[17];
    var when := TaiUnpack(status);
    if now < when { when := now; }
    var elapsed := now - when;

    out := [if pid != 0 then Up(pid) else Down, Seconds(elapsed)];
    out := Say(out, pid != 0 && !normallyup, NormallyDown);
    out := Say(out, pid == 0 && normallyup, NormallyUp);
    out := Say(out, pid != 0 && paused != 0, Word.Paused);
    out := Say(out, pid == 0 && want == 'u' as int, WantUp);
    out := Say(out, pid != 0 && want == 'd' as int, WantDown);
    if |status| > 18 {
      out := Say(out, pid != 0 && want == 0, Once);
      out := out + [FlagWord(status[18])];
    }

    forall r | Recordable(r) && Shows(status, r)
      ensures out == Describe(r, normallyup, now, |status| > 18)
    {
      PublishedFields(r);
      ShownFields(status, r);
    }
  }

  // ---------- svup ----------

  /** svup calls a service up if it has a process, or is started or running without one. */
  method CheckStatus(status: seq<Byte>) returns (up: bool)
    requires |status| >= 18
    ensures forall r :: Recordable(r) && Shows(status, r) ==>
              (up <==> r.pid != 0 || (|status| > 18 && (r.flag == Started || r.flag == Running)))
  {
    up := status[12] != 0 || status[13] != 0 || status[14] != 0 || status[15] != 0
          || (|status| > 18 && (status[18] == 2 || status[18] == 3));
    forall r | Recordable(r) && Shows(status, r)
      ensures up <==> r.pid != 0 || (|status| > 18 && (r.flag == Started || r.flag == Running))
    {
      PublishedFields(r);
      ShownFields(status, r);
    }
  }
}
