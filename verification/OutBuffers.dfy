/** Output buffers: an array that collects bytes for an operation which may take any positive
    part of what it is offered. The operation here is c_write on a cyclic log. */
module OutBuffers {
  import opened Wrappers
  import opened CyclogModule

  const BUFFER_OUTSIZE := 8192

  class OutBuffer {
    const x: array<char>
    const log: Cyclog
    var p: nat
    ghost var given: string      // everything put into the buffer so far

    constructor (log: Cyclog, size: nat)
      requires log.Condition() == Serving
      ensures Valid() && this.log == log && fresh(x) && x.Length == size && p == 0
      ensures given == log.led.accepted
    {
      this.log := log;
      x := new char[size];
      p, given := 0, log.led.accepted;
    }

    /** What was put in is what the log has taken and what is still held. */
    ghost predicate Valid()
      reads this, x, log
    {
      p <= x.Length && log.Condition() == Serving && given == log.led.accepted + x[..p]
    }

    /** After the death of the process: the log has taken no more than was put in, and is safe. */
    ghost predicate Abandoned()
      reads this, log
    {
      log.Condition() != Ruined && log.led.accepted <= given
    }

    /** The operation is called until everything is taken. When the process dies on the way,
        some first part of the bytes has been. */
    method AllWrite(buf: string) returns (r: Outcome)
      requires log.Condition() == Serving
      modifies log
      ensures log.Condition() != Ruined && (r.Dead? ==> log.MayDie())
      ensures old(log.led).accepted <= log.led.accepted <= old(log.led).accepted + buf
      ensures r.Alive? ==> log.Condition() == Serving && log.led.accepted == old(log.led).accepted + buf
      ensures r.Alive? ==> log.asked == old(log.asked)
    {
      var from := 0;
      assert buf[..0] == "";
      while from < |buf|
        invariant from <= |buf| && log.Condition() == Serving
        invariant log.led.accepted == old(log.led).accepted + buf[..from]
        invariant log.asked == old(log.asked)
        decreases |buf| - from
      {
        var w;
        ghost var took, done;
        r, w, took, done := log.CWrite(buf[from..]);
        if r.Dead? {
          PrefixTaken(old(log.led).accepted, buf, from, took);
          return;
        }
        assert buf[..from] + buf[from..][..w] == buf[..from + w];
        from := from + w;
      }
      assert buf[..|buf|] == buf;
      return Alive;
    }

    method Flush() returns (r: Outcome)
      requires Valid()
      modifies `p, log
      ensures p == 0 && (r.Dead? ==> Abandoned() && log.MayDie())
      ensures old(log.led).accepted <= log.led.accepted
      ensures r.Alive? ==> Valid() && log.asked == old(log.asked)
    {
      var held := p;
      p := 0;
      if held == 0 { return Alive; }
      r := AllWrite(x[..held]);
    }

    /** byte_copy(x + p, |buf|, buf) and the advance of p. */
    method Copy(buf: string)
      requires Valid() && p + |buf| <= x.Length
      modifies `p, `given, x
      ensures Valid() && p == old(p) + |buf| && given == old(given) + buf
    {
      ghost var held := x[..p];
      forall i | 0 <= i < |buf| {
        x[p + i] := buf[i];
      }
      p, given := p + |buf|, given + buf;
      assert x[..p] == held + buf;
    }

    /** All of that for bytes that go past the empty buffer. */
    method WriteThrough(buf: string) returns (r: Outcome)
      requires Valid() && p == 0
      modifies `given, log
      ensures given == old(given) + buf && (r.Dead? ==> Abandoned() && log.MayDie())
      ensures r.Alive? ==> Valid()
    {
      r := AllWrite(buf);
      given := given + buf;
    }

    /** The inner loop of put: what no empty buffer could hold is written directly. */
    method PutDirect(buf: string) returns (r: Outcome, from: nat)
      requires Valid() && p == 0
      modifies `given, log
      ensures r.Dead? ==> Abandoned() && log.MayDie() && given == old(given) + buf
      ensures r.Alive? ==> Valid() && from <= |buf| <= from + x.Length && given == old(given) + buf[..from]
    {
      var n := if x.Length < BUFFER_OUTSIZE then BUFFER_OUTSIZE else x.Length;
      from := 0;
      while |buf| - from > x.Length
        invariant from <= |buf| && Valid() && n > 0 && given == old(given) + buf[..from]
        decreases |buf| - from
      {
        if n > |buf| - from { n := |buf| - from; }
        Extend(old(given), buf, from, n);
        r := WriteThrough(buf[from..from + n]);
        if r.Dead? {
          given := old(given) + buf;
          return;
        }
        from := from + n;
      }
      return Alive, from;
    }

    method Put(buf: string) returns (r: Outcome)
      requires Valid()
      modifies this, x, log
      ensures given == old(given) + buf && (r.Dead? ==> Abandoned() && log.MayDie())
      ensures r.Alive? ==> Valid()
    {
      var from := 0;
      if |buf| > x.Length - p {
        r := Flush();
        if r.Alive? {
          r, from := PutDirect(buf);
        }
        if r.Dead? {
          given := old(given) + buf;
          return;
        }
      }
      assert buf == buf[..from] + buf[from..];
      Copy(buf[from..]);
      return Alive;
    }

    method PutAlign(buf: string) returns (r: Outcome)
      requires Valid() && x.Length > 0
      modifies this, x, log
      ensures given == old(given) + buf && (r.Dead? ==> Abandoned() && log.MayDie())
      ensures r.Alive? ==> Valid()
    {
      var from := 0;
      while true
        invariant from <= |buf| && Valid() && given == old(given) + buf[..from]
        decreases |buf| - from, p
      {
        var n := x.Length - p;
        if |buf| - from <= n { break; }
        Extend(old(given), buf, from, n);
        Copy(buf[from..from + n]);
        from := from + n;
        r := Flush();
        if r.Dead? {
          given := old(given) + buf;
          return;
        }
      }
      assert buf == buf[..from] + buf[from..];
      Copy(buf[from..]);
      return Alive;
    }

    method PutFlush(buf: string) returns (r: Outcome)
      requires Valid()
      modifies `p, `given, log
      ensures given == old(given) + buf && (r.Dead? ==> Abandoned() && log.MayDie())
      ensures r.Alive? ==> Valid() && p == 0
    {
      r := Flush();
      if r.Alive? {
        r := WriteThrough(buf);
      } else {
        given := given + buf;
      }
    }

    method PutC(c: char) returns (r: Outcome)
      requires Valid()
      modifies this, x, log
      ensures given == old(given) + [c] && (r.Dead? ==> Abandoned() && log.MayDie())
      ensures r.Alive? ==> Valid()
    {
      if x.Length != p {
        Copy([c]);
        return Alive;
      }
      r := Put([c]);
    }
  }

  lemma Extend(start: string, buf: string, from: nat, n: nat)
    requires from + n <= |buf|
    ensures start + buf[..from + n] == start + buf[..from] + buf[from..from + n]
    ensures start + buf[..from + n] <= start + buf
  {
    assert buf[..from + n] == buf[..from] + buf[from..from + n];
  }

  lemma PrefixTaken(start: string, buf: string, from: nat, took: string)
    requires from <= |buf| && took <= buf[from..]
    ensures start <= start + buf[..from] + took <= start + buf
  {
    assert buf[..from] + took == buf[..from + |took|];
  }
}
