/** Input buffers: a window of unread bytes at the top of an array, fed by flushread, which
    first flushes the logs and obeys the signals, and then reads standard input. */
module InBuffers {
  import opened Wrappers
  import opened ByteSearch
  import opened CyclogModule
  import opened OutBuffers

  /** The result of read(2): bytes, end of file (or a refusal to read on), an error, or an
      interruption by a signal. */
  datatype ReadResult = Got(n: nat) | Eof | Error | Interrupted

  /** The return value of read(2). */
  function Code(res: ReadResult): int {
    match res
    case Got(n) => n
    case Eof => 0
    case _ => -1
  }

  /** Nothing, or something that ends in a newline. */
  predicate AtLineStart(s: string) { s == "" || s[|s| - 1] == '\n' }

  /** What may be read once TERM was noticed after mark bytes: nothing at a line start, and
      otherwise nothing behind the next newline. */
  predicate OneLineMore(taken: string, mark: nat)
    requires mark <= |taken|
  {
    && (AtLineStart(taken[..mark]) ==> |taken| == mark)
    && (forall i :: mark <= i < |taken| - 1 ==> taken[i] != '\n')
  }

  lemma ReadOneMore(taken: string, more: string, mark: nat)
    requires mark <= |taken|
    ensures more != "" ==> AtLineStart(taken + more) == (more[|more| - 1] == '\n')
    ensures OneLineMore(taken, mark) && |more| == 1 && !AtLineStart(taken) ==> OneLineMore(taken + more, mark)
  {
    assert (taken + more)[..mark] == taken[..mark];
  }

  class Input {
    const logs: seq<OutBuffer>
    const faulty: bool            // reads may fail
    const terminable: bool        // TERM may come
    const alarming: bool          // ALRM may come
    ghost const stdin: string     // all that standard input has to give
    var rest: string              // what it still has to give
    var flagexitasap: bool
    var flagforcerotate: bool
    var flagnewline: bool
    var signals: nat              // how many more reads a signal will interrupt

    ghost var streams: seq<string>  // all that each log was given
    ghost var taken: string       // what standard input has given
    ghost var mark: Option<nat>   // how much that was when TERM was first noticed

    constructor (logs: seq<OutBuffer>, stdin: string, signals: nat, faulty: bool, terminable: bool, alarming: bool,
                 ghost streams: seq<string>)
      requires Separate(logs) && AllValid(logs, streams) && (alarming ==> AllAlarmed(logs))
      ensures Valid() && this.logs == logs && this.stdin == stdin && taken == "" && !flagexitasap
      ensures this.streams == streams
      ensures this.faulty == faulty && this.terminable == terminable && this.alarming == alarming
    {
      this.logs, this.rest, this.signals := logs, stdin, signals;
      this.faulty, this.terminable, this.alarming := faulty, terminable, alarming;
      flagexitasap, flagforcerotate, flagnewline := false, false, true;
      this.stdin, this.streams, taken, mark := stdin, streams, "", None;
    }

    /** What was taken and what is left make up standard input, and TERM is obeyed. */
    ghost predicate ValidReader()
      reads this
    {
      match mark
      case None => Consistent()
      case Some(m) => Consistent() && flagexitasap && m <= |taken| && OneLineMore(taken, m)
    }

    ghost predicate Consistent()
      reads this
    {
      && Separate(logs) && this !in LogsRepr(logs)
      && stdin == taken + rest && (flagexitasap ==> terminable) && flagnewline == AtLineStart(taken)
      && (flagforcerotate ==> alarming) && (alarming ==> AllAlarmed(logs))
    }

    ghost predicate Valid()
      reads this, LogsRepr(logs)
    {
      ValidReader() && AllValid(logs, streams)
    }

    /** Nothing that was taken is given back, and TERM is not forgotten. */
    twostate predicate Onward()
      reads this
    {
      && |old(taken)| <= |taken| && (old(flagexitasap) ==> flagexitasap)
      && (old(mark).Some? ==> mark == old(mark))
    }

    method FlushLog(j: nat) returns (r: Outcome)
      requires Separate(logs) && AllValid(logs, streams) && j < |logs|
      modifies {logs[j]}`p, logs[j].log
      ensures logs[j].p == 0 && (r.Dead? ==> Died(logs, streams))
      ensures r.Alive? ==> AllValid(logs, streams)
      ensures forall k :: 0 <= k < |logs| && k != j ==> logs[k].p == old(logs[k].p)
      ensures r.Alive? ==> forall k :: 0 <= k < |logs| ==> logs[k].log.asked == old(logs[k].log.asked)
    {
      ValidIsAbandoned(logs, streams);
      r := logs[j].Flush();
      assert forall k :: 0 <= k < |logs| && k != j ==> unchanged(logs[k], logs[k].x, logs[k].log);
    }

    method RotateLog(j: nat) returns (r: Outcome)
      requires Separate(logs) && AllValid(logs, streams) && j < |logs| && logs[j].log.alarmed
      modifies logs[j].log
      ensures r.Dead? ==> Died(logs, streams)
      ensures r.Alive? ==> AllValid(logs, streams) && logs[j].log.bytes == 0
      ensures forall k :: 0 <= k < |logs| && k != j ==> logs[k].log.bytes == old(logs[k].log.bytes)
      ensures forall k :: 0 <= k < |logs| ==> logs[k].p == old(logs[k].p)
    {
      ValidIsAbandoned(logs, streams);
      if logs[j].log.bytes > 0 {
        r := logs[j].log.ForceRotation();
      } else {
        r := Alive;
      }
      assert forall k :: 0 <= k < |logs| && k != j ==> unchanged(logs[k], logs[k].x, logs[k].log);
    }

    /** buffer_put to log j. */
    method PutTo(j: nat, bytes: string) returns (r: Outcome)
      requires Separate(logs) && AllValid(logs, streams) && j < |logs| && this !in LogsRepr(logs)
      modifies `streams, logs[j], logs[j].x, logs[j].log
      ensures streams == Grown(old(streams), j, bytes)
      ensures if r.Dead? then Died(logs, streams) else AllValid(logs, streams)
    {
      ValidIsAbandoned(logs, streams);
      r := logs[j].Put(bytes);
      assert forall k :: 0 <= k < |logs| && k != j ==> unchanged(logs[k], logs[k].x, logs[k].log);
      streams := Grown(streams, j, bytes);
    }

    /** buffer_PUTC to log j. */
    method PutCTo(j: nat, c: char) returns (r: Outcome)
      requires Separate(logs) && AllValid(logs, streams) && j < |logs| && this !in LogsRepr(logs)
      modifies `streams, logs[j], logs[j].x, logs[j].log
      ensures streams == Grown(old(streams), j, [c])
      ensures if r.Dead? then Died(logs, streams) else AllValid(logs, streams)
    {
      ValidIsAbandoned(logs, streams);
      r := logs[j].PutC(c);
      assert forall k :: 0 <= k < |logs| && k != j ==> unchanged(logs[k], logs[k].x, logs[k].log);
      streams := Grown(streams, j, [c]);
    }

    /** The first loop of flushread. */
    method FlushLogs() returns (r: Outcome)
      requires Separate(logs) && AllValid(logs, streams)
      modifies LogsRepr(logs)
      ensures r.Dead? ==> Died(logs, streams)
      ensures r.Alive? ==> AllValid(logs, streams) && forall j :: 0 <= j < |logs| ==> logs[j].p == 0
      ensures r.Alive? ==> forall j :: 0 <= j < |logs| ==> logs[j].log.asked == old(logs[j].log.asked)
    {
      for j := 0 to |logs|
        invariant AllValid(logs, streams)
        invariant forall k :: 0 <= k < j ==> logs[k].p == 0
        invariant forall k :: 0 <= k < |logs| ==> logs[k].log.asked == old(logs[k].log.asked)
      {
        r := FlushLog(j);
        if r.Dead? { return; }
      }
      return Alive;
    }

    /** The second loop of flushread, when a rotation was asked for. */
    method RotateLogs() returns (r: Outcome)
      requires Separate(logs) && AllValid(logs, streams) && AllAlarmed(logs)
      modifies LogsRepr(logs), `flagforcerotate
      ensures r.Dead? ==> Died(logs, streams)
      ensures !flagforcerotate || r.Dead?
      ensures r.Alive? ==> AllValid(logs, streams) && forall j :: 0 <= j < |logs| ==> logs[j].log.bytes == 0
      ensures forall j :: 0 <= j < |logs| ==> logs[j].p == old(logs[j].p)
    {
      for j := 0 to |logs|
        invariant AllValid(logs, streams) && forall k :: 0 <= k < |logs| ==> logs[k].p == old(logs[k].p)
        invariant forall k :: 0 <= k < j ==> logs[k].log.bytes == 0
      {
        r := RotateLog(j);
        if r.Dead? { return; }
      }
      flagforcerotate := false;
      return Alive;
    }

    /** read(2) on standard input, with signals let in: it may be interrupted, fail, or give any
        positive number of bytes, up to the end of the file. */
    method Read(buf: array<char>, len: nat) returns (res: ReadResult)
      requires ValidReader() && 0 < len <= buf.Length && (mark.Some? ==> len == 1 && !flagnewline)
      modifies `rest, `flagexitasap, `flagforcerotate, `flagnewline, `signals, `taken, buf
      ensures ValidReader() && Onward() && signals <= old(signals)
      ensures match res
              case Got(n) => 1 <= n <= len && old(rest) == buf[..n] + rest && taken == old(taken) + buf[..n]
              case Eof => rest == "" && rest == old(rest) && taken == old(taken)
              case Error => faulty && rest == old(rest) && taken == old(taken)
              case Interrupted => rest == old(rest) && taken == old(taken) && signals < old(signals)
    {
      var term: bool, alarm: bool := *, *;
      flagexitasap := flagexitasap || (terminable && term);
      flagforcerotate := flagforcerotate || (alarming && alarm);
      var interrupted: bool, failed: bool := *, *;
      if interrupted && signals > 0 {
        signals := signals - 1;
        return Interrupted;
      }
      if faulty && failed { return Error; }
      if rest == "" { return Eof; }
      var n: nat := *;
      if n < 1 || n > len || n > |rest| { n := 1; }
      TakeIn(buf, n);
      return Got(n);
    }

    /** The next bytes of standard input. */
    method TakeIn(buf: array<char>, n: nat)
      requires ValidReader() && 1 <= n <= buf.Length && n <= |rest| && (mark.Some? ==> n == 1 && !flagnewline)
      modifies `rest, `flagnewline, `taken, buf
      ensures ValidReader() && old(rest) == buf[..n] + rest && taken == old(taken) + buf[..n]
    {
      forall i | 0 <= i < n {
        buf[i] := rest[i];
      }
      assert buf[..n] == rest[..n] && rest == rest[..n] + rest[n..];
      ReadOneMore(taken, rest[..n], if mark.Some? then mark.value else |taken|);
      taken := taken + rest[..n];
      rest := rest[n..];
      flagnewline := buf[n - 1] == '\n';
    }

    /** What a read has given: some bytes, or none for a reason. */
    twostate predicate Received(buf: array<char>, len: nat, res: ReadResult)
      reads this, buf
    {
      match res
      case Got(n) =>
        && 1 <= n <= len && n <= buf.Length && old(rest) == buf[..n] + rest && taken == old(taken) + buf[..n]
        && (old(flagexitasap) ==> !old(flagnewline) && n == 1)
      case Eof =>
        && rest == old(rest) && taken == old(taken)
        && (len == 0 || rest == "" || (flagexitasap && flagnewline && mark.Some?))
      case Error => faulty && rest == old(rest) && taken == old(taken)
      case Interrupted => rest == old(rest) && taken == old(taken)
    }

    /** What flushread does to the logs: all are flushed, and rotated if that was asked for. */
    method ServeLogs() returns (r: Outcome)
      requires Separate(logs) && AllValid(logs, streams) && (flagforcerotate ==> AllAlarmed(logs))
      modifies LogsRepr(logs), `flagforcerotate
      ensures r.Dead? ==> Died(logs, streams)
      ensures r.Alive? ==> AllValid(logs, streams) && !flagforcerotate
      ensures r.Alive? ==> Served(old(flagforcerotate))
    {
      r := FlushLogs();
      if r.Dead? { return; }
      if flagforcerotate {
        r := RotateLogs();
      }
    }

    /** Every log was flushed, and was rotated on top of that only if that was asked for. */
    twostate predicate Served(asked: bool)
      reads LogsRepr(logs)
    {
      && (forall j :: 0 <= j < |logs| ==> logs[j].p == 0)
      && (asked ==> forall j :: 0 <= j < |logs| ==> logs[j].log.bytes == 0)
      && (!asked ==> forall j :: 0 <= j < |logs| ==> logs[j].log.asked == old(logs[j].log.asked))
    }

    method FlushRead(buf: array<char>, len: nat) returns (r: Outcome, res: ReadResult)
      requires Valid() && len <= buf.Length && buf !in LogsRepr(logs)
      modifies this, buf, LogsRepr(logs)
      ensures streams == old(streams)
      ensures r.Dead? ==> Died(logs, streams)
      ensures r.Alive? ==> Valid() && Onward() && signals <= old(signals) && Served(old(flagforcerotate))
      ensures r.Alive? ==> Received(buf, len, res) && (res == Interrupted ==> signals < old(signals))
    {
      res := Error;
      :- ServeLogs();
      res := ReadBeside(buf, len);
      return Alive, res;
    }

    /** The rest of flushread, which leaves the logs alone. */
    method ReadBeside(buf: array<char>, len: nat) returns (res: ReadResult)
      requires Valid() && len <= buf.Length && buf !in LogsRepr(logs)
      modifies `rest, `flagexitasap, `flagforcerotate, `flagnewline, `signals, `taken, `mark, buf
      ensures Valid() && Onward() && signals <= old(signals)
      ensures Received(buf, len, res) && (res == Interrupted ==> signals < old(signals))
      ensures forall j :: 0 <= j < |logs| ==>
                && logs[j].p == old(logs[j].p)
                && logs[j].log.bytes == old(logs[j].log.bytes) && logs[j].log.asked == old(logs[j].log.asked)
    {
      res := ReadOn(buf, len);
      assert forall k :: 0 <= k < |logs| ==> unchanged(logs[k], logs[k].x, logs[k].log);
    }

    /** After TERM only the current line is read on, byte by byte. */
    method ReadOn(buf: array<char>, len: nat) returns (res: ReadResult)
      requires ValidReader() && len <= buf.Length
      modifies `rest, `flagexitasap, `flagforcerotate, `flagnewline, `signals, `taken, `mark, buf
      ensures ValidReader() && Onward() && signals <= old(signals)
      ensures Received(buf, len, res) && (res == Interrupted ==> signals < old(signals))
    {
      if len == 0 { return Eof; }
      var room := len;
      if flagexitasap {
        if mark.None? { mark := Some(|taken|); }
        if flagnewline { return Eof; }
        room := 1;
      }
      res := Read(buf, room);
    }

    /** An interrupted read is started again. */
    method OneRead(buf: array<char>, len: nat) returns (r: Outcome, res: ReadResult)
      requires Valid() && len <= buf.Length && buf !in LogsRepr(logs)
      modifies this, buf, LogsRepr(logs)
      ensures streams == old(streams)
      ensures r.Dead? ==> Died(logs, streams)
      ensures r.Alive? ==> Valid() && Onward()
      ensures r.Alive? ==> Received(buf, len, res) && res != Interrupted
    {
      res := Error;
      while true
        invariant Valid()
        invariant rest == old(rest) && taken == old(taken) && Onward()
        invariant flagnewline == old(flagnewline) && streams == old(streams)
        decreases signals
      {
        r, res := FlushRead(buf, len);
        if r.Dead? || res != Interrupted { return; }
      }
    }
  }

  /** byte_copyr(x + to, len, x): upwards within one array, from the last byte down. */
  method ByteCopyr(x: array<char>, to: nat, len: nat)
    requires to + len <= x.Length
    modifies x
    ensures x[to..to + len] == old(x[..len])
  {
    var j := len;
    while j > 0
      invariant 0 <= j <= len
      invariant forall i :: 0 <= i < j ==> x[i] == old(x[i])
      invariant forall i :: j <= i < len ==> x[to + i] == old(x[i])
    {
      j := j - 1;
      x[to + j] := x[j];
    }
  }

  class InBuffer {
    const x: array<char>
    const op: Input
    var p: nat                   // unread bytes, in x[n..n + p]
    var n: nat
    ghost var window: string     // the same
    ghost var handed: string     // bytes handed out or skipped so far

    constructor (op: Input, size: nat)
      requires op.Valid() && op.taken == "" && size > 0
      ensures Valid() && this.op == op && handed == "" && p == 0 && fresh(x) && x.Length == size
    {
      this.op := op;
      x := new char[size];
      p, n, window, handed := 0, size, "", "";
    }

    /** The object itself, without its operation. */
    ghost predicate ValidWindow()
      reads this, op`taken, x
    {
      && p + n == x.Length > 0 && x !in LogsRepr(op.logs) && this !in LogsRepr(op.logs)
      && window == x[n..n + p] && op.taken == handed + window
    }

    ghost predicate Valid()
      reads this, x, op, LogsRepr(op.logs)
    {
      op.Valid() && ValidWindow()
    }

    /** How many bytes are still to come. */
    ghost function Left(): nat
      reads this, op
    {
      |op.rest| + p
    }

    /** Some bytes to read, or 0 at the end, or -1. */
    method Feed() returns (r: Outcome, k: int)
      requires Valid()
      modifies `p, `n, `window, x, op, LogsRepr(op.logs)
      ensures op.streams == old(op.streams)
      ensures r.Dead? ==> Died(op.logs, op.streams)
      ensures r.Alive? ==> Valid() && op.Onward() && k <= p && (k > 0 ==> k == p)
      ensures r.Alive? && old(p) > 0 ==> k == p == old(p) && n == old(n)
      ensures r.Alive? && k <= 0 ==> p == 0 && op.rest == old(op.rest) && (k < 0 ==> op.faulty)
      ensures r.Alive? && k == 0 ==> NoMore()
      ensures r.Alive? ==> Left() <= old(Left())
    {
      if p > 0 { return Alive, p; }
      var res;
      k := -1;
      r, res := op.OneRead(x, n);
      if r.Dead? { return; }
      k := Code(res);
      if k > 0 { Keep(k); }
    }

    /** The bytes just read to the bottom of the array become the window at its top. */
    method Keep(m: nat)
      requires p == 0 && n == x.Length > 0 && 0 < m <= n && op.taken == handed + x[..m]
      requires x !in LogsRepr(op.logs) && this !in LogsRepr(op.logs)
      modifies `p, `n, `window, x
      ensures ValidWindow() && p == m
    {
      p := m;
      n := n - m;
      window := x[..m];
      if n > 0 { ByteCopyr(x, n, m); }
      assert x[n..n + p] == window;
    }

    /** buffer_SEEK, and buffer_seek. */
    method Seek(len: nat)
      requires ValidWindow() && len <= p
      modifies `p, `n, `window, `handed
      ensures ValidWindow() && p == old(p) - len
      ensures window == old(window)[len..] && handed == old(handed) + old(window)[..len]
    {
      Sliced(x, n, p, len);
      assert window == window[..len] + window[len..];
      handed := handed + window[..len];
      window := window[len..];
      p := p - len;
      n := n + len;
    }

    /** The same beside the operation. */
    method SeekOn(len: nat)
      requires Valid() && len <= p
      modifies `p, `n, `window, `handed
      ensures Valid() && p == old(p) - len
      ensures window == old(window)[len..] && handed == old(handed) + old(window)[..len]
    {
      Seek(len);
    }

    /** byte_copy(buf + at, m, PEEK) and SEEK. */
    method Take(buf: array<char>, at: nat, m: nat)
      requires ValidWindow() && m <= p && at + m <= buf.Length && buf != x && buf !in LogsRepr(op.logs)
      modifies `p, `n, `window, `handed, buf
      ensures ValidWindow() && p == old(p) - m
      ensures window == old(window)[m..] && handed == old(handed) + old(window)[..m]
      ensures Wrote(old(buf[..]), buf[..], at, old(window)[..m])
    {
      CopyTo(buf, at, m);
      Seek(m);
    }

    method CopyTo(buf: array<char>, at: nat, m: nat)
      requires ValidWindow() && m <= p && at + m <= buf.Length && buf != x
      modifies buf
      ensures Wrote(old(buf[..]), buf[..], at, window[..m])
    {
      forall i | 0 <= i < m {
        buf[at + i] := x[n + i];
      }
      Sliced(x, n, p, m);
      assert buf[..][at..at + m] == x[n..n + m];
    }

    method GetThis(buf: array<char>, len: nat) returns (k: nat)
      requires ValidWindow() && p > 0 && len <= buf.Length && buf != x && buf !in LogsRepr(op.logs)
      modifies `p, `n, `window, `handed, buf
      ensures ValidWindow() && k == (if len < old(p) then len else old(p)) && handed == old(handed) + buf[..k]
    {
      k := if len > p then p else len;
      Take(buf, 0, k);
      assert buf[..][0..k] == buf[..k];
    }

    /** buffer_bget, and with whole buffer_get: large requests go past the buffer. */
    method Get(buf: array<char>, len: nat, whole: bool) returns (r: Outcome, k: int)
      requires Valid() && len <= buf.Length && buf != x && buf !in LogsRepr(op.logs)
      modifies `p, `n, `window, `handed, x, buf, op, LogsRepr(op.logs)
      ensures op.streams == old(op.streams)
      ensures r.Dead? ==> Died(op.logs, op.streams)
      ensures r.Alive? ==> Valid() && op.Onward() && k <= len
      ensures r.Alive? ==> handed == old(handed) + (if k > 0 then buf[..k] else "")
      ensures r.Alive? ==> (k == 0 && len > 0 ==> NoMore()) && (k < 0 ==> op.faulty)
    {
      k := -1;
      if p == 0 {
        if n <= len {
          r, k := GetDirect(buf, if whole then len else n);
          return;
        }
      }
      r, k := GetFed(buf, len);
    }

    /** The other path, through the window. */
    method GetFed(buf: array<char>, len: nat) returns (r: Outcome, k: int)
      requires Valid() && len <= buf.Length && buf != x && buf !in LogsRepr(op.logs)
      modifies `p, `n, `window, `handed, x, buf, op, LogsRepr(op.logs)
      ensures op.streams == old(op.streams)
      ensures r.Dead? ==> Died(op.logs, op.streams)
      ensures r.Alive? ==> Valid() && op.Onward() && k <= len
      ensures r.Alive? ==> handed == old(handed) + (if k > 0 then buf[..k] else "")
      ensures r.Alive? ==> (k == 0 && len > 0 ==> NoMore()) && (k < 0 ==> op.faulty)
    {
      r, k := Feed();
      if r.Alive? && k > 0 {
        k := GetThis(buf, len);
      }
    }

    /** Bytes that were read past the empty window. */
    ghost method HandOut(bytes: string)
      requires p == 0 && n == x.Length > 0 && window == "" && op.taken == handed + bytes && op.Valid()
      requires x !in LogsRepr(op.logs) && this !in LogsRepr(op.logs)
      modifies `handed
      ensures Valid() && handed == old(handed) + bytes
    {
      handed := handed + bytes;
      assert window == "";
    }

    method GetDirect(buf: array<char>, len: nat) returns (r: Outcome, k: int)
      requires Valid() && p == 0 && len <= buf.Length && buf != x && buf !in LogsRepr(op.logs)
      modifies `handed, buf, op, LogsRepr(op.logs)
      ensures op.streams == old(op.streams)
      ensures r.Dead? ==> Died(op.logs, op.streams)
      ensures r.Alive? ==> Valid() && op.Onward() && k <= len
      ensures r.Alive? ==> handed == old(handed) + (if k > 0 then buf[..k] else "")
      ensures r.Alive? ==> (k == 0 && len > 0 ==> NoMore()) && (k < 0 ==> op.faulty)
    {
      var res;
      k := -1;
      r, res := op.OneRead(buf, len);
      if r.Dead? { return; }
      k := Code(res);
      HandOut(if k > 0 then buf[..k] else "");
    }

    /** buffer_gets into buf[off..off + len]; got is what it adds to *linelen. The line end is
        taken from the window only while there is room left for another byte. */
    method Gets(buf: array<char>, off: nat, len: nat, eol: char)
      returns (r: Outcome, k: int, got: nat, ghost text: string, ghost ended: bool)
      requires Valid() && off + len <= buf.Length && buf != x && buf !in LogsRepr(op.logs)
      modifies `p, `n, `window, `handed, x, buf, op, LogsRepr(op.logs)
      ensures op.streams == old(op.streams)
      ensures r.Dead? ==> Died(op.logs, op.streams)
      ensures r.Alive? ==> Valid() && op.Onward() && got == |text|
      ensures r.Alive? ==> Delivered(old(buf[..]), buf[..], off, len, eol, text, ended)
      ensures r.Alive? ==> HandedOut(old(handed), handed, old(Left()), Left(), text, ended, eol)
      ensures r.Alive? ==> k <= 0 && (ended ==> got < len && k == 0) && (k < 0 ==> op.faulty && got < len && p == 0)
      ensures r.Alive? && old(p) > 0 && len > 0 ==> got > 0 || ended
      ensures r.Alive? && k == 0 && !ended && got < len ==> p == 0 && NoMore()
    {
      got, text, ended, k := 0, "", false, 1;
      assert old(handed) + "" + "" == old(handed);
      var done := false;
      while got < len && k > 0 && !done
        invariant done == ended && got == |text| && (ended ==> got < len && k > 0) && (k <= 0 ==> got < len)
        invariant Valid() && op.Onward() && op.streams == old(op.streams)
        invariant Delivered(old(buf[..]), buf[..], off, len, eol, text, ended)
        invariant HandedOut(old(handed), handed, old(Left()), Left(), text, ended, eol)
        invariant k <= 0 ==> p == 0
        invariant old(p) > 0 && got == 0 && !done ==> p > 0 && k > 0
        invariant (k == 0 ==> NoMore()) && (k < 0 ==> op.faulty)
        decreases len - got, k > 0, !done
      {
        r, k, got, done, text := GetsTurn(buf, off, len, eol, got, text, old(buf[..]), old(handed), old(Left()));
        if r.Dead? { return; }
        ended := done;
      }
      if k > 0 { k := 0; }
      r := Alive;
    }

    /** One turn of that loop, after got bytes of a line that began when the array, the bytes
        handed out and what was left were as given. */
    method GetsTurn(buf: array<char>, off: nat, len: nat, eol: char, got: nat, ghost text: string,
                    ghost start: string, ghost out: string, ghost left: nat)
      returns (r: Outcome, k: int, got': nat, ended: bool, ghost text': string)
      requires Valid() && off + len <= buf.Length && buf != x && buf !in LogsRepr(op.logs) && got == |text| < len
      requires Delivered(start, buf[..], off, len, eol, text, false)
      requires HandedOut(out, handed, left, Left(), text, false, eol)
      modifies `p, `n, `window, `handed, x, buf, op, LogsRepr(op.logs)
      ensures op.streams == old(op.streams)
      ensures r.Dead? ==> Died(op.logs, op.streams)
      ensures r.Alive? ==> Valid() && op.Onward() && got' == |text'|
      ensures r.Alive? ==> Delivered(start, buf[..], off, len, eol, text', ended)
      ensures r.Alive? ==> HandedOut(out, handed, left, Left(), text', ended, eol)
      ensures r.Alive? ==> if k > 0 then got' >= got && ended == (got' == got) else got' == got && !ended && p == 0
      ensures r.Alive? && old(p) > 0 ==> k > 0
      ensures r.Alive? ==> (k == 0 ==> NoMore()) && (k < 0 ==> op.faulty)
    {
      var i;
      ghost var before, h, l, piece := buf[..], handed, Left(), "";
      r, k, i, ended, piece := GetsPart(buf, off + got, len - got, eol);
      got', text' := got + i, text + piece;
      if r.Alive? {
        DeliveredMore(start, before, buf[..], off, len, eol, text, got, piece, ended);
        HandedOutMore(out, h, handed, left, l, Left(), text, piece, ended, eol);
      }
    }

    /** Standard input is at its end, or is not to be read on after TERM. */
    ghost predicate NoMore()
      reads op
    {
      op.rest == "" || (op.flagexitasap && op.flagnewline && op.mark.Some?)
    }

    /** One turn of the loop of buffer_gets. */
    method GetsPart(buf: array<char>, at: nat, room: nat, eol: char)
      returns (r: Outcome, k: int, i: nat, ended: bool, ghost piece: string)
      requires Valid() && 0 < room && at + room <= buf.Length && buf != x && buf !in LogsRepr(op.logs)
      modifies `p, `n, `window, `handed, x, buf, op, LogsRepr(op.logs)
      ensures op.streams == old(op.streams)
      ensures r.Dead? ==> Died(op.logs, op.streams)
      ensures r.Alive? ==> Valid() && op.Onward()
      ensures r.Alive? ==> i == |piece| && Delivered(old(buf[..]), buf[..], at, room, eol, piece, ended)
      ensures r.Alive? ==> HandedOut(old(handed), handed, old(Left()), Left(), piece, ended, eol)
      ensures r.Alive? ==> if k > 0 then ended == (i == 0) else i == 0 && !ended && p == 0
      ensures r.Alive? && old(p) > 0 ==> k > 0
      ensures r.Alive? ==> (k == 0 ==> NoMore()) && (k < 0 ==> op.faulty)
    {
      i, ended, piece := 0, false, "";
      r, k := Feed();
      if r.Dead? { return; }
      if k > 0 {
        i, ended, piece := TakeLine(buf, at, room, eol);
      }
    }

    /** The rest of that turn, on a window that is not empty. */
    method TakeLine(buf: array<char>, at: nat, room: nat, eol: char) returns (i: nat, ended: bool, ghost piece: string)
      requires ValidWindow() && 0 < p && 0 < room && at + room <= buf.Length && buf != x && buf !in LogsRepr(op.logs)
      modifies `p, `n, `window, `handed, buf
      ensures ValidWindow() && i == |piece| <= room && ended == (i == 0)
      ensures Wrote(old(buf[..]), buf[..], at, piece) && eol !in piece
      ensures handed == old(handed) + piece + (if ended then [eol] else "")
      ensures p == old(p) - i - (if ended then 1 else 0)
    {
      i := FirstIndex(x[n..n + p], eol);
      FirstIndexWithin(window, eol, i, if i > room then room else i);
      ended := i == 0;
      if ended {
        assert window[..1] == [eol];
        piece := "";
        Seek(1);
      } else {
        if i > room { i := room; }
        piece := window[..i];
        Take(buf, at, i);
      }
    }

    // ---------- buffer_copyline ----------

    /** buffer_copyline to a log that the operation of this buffer flushes before it reads, as
        buffer_0 flushes buffer_1. All that is handed out is copied: everything through the first
        line end, or everything there is. The result -3, a failed write, is death here. */
    method CopyLine(j: nat, eol: char) returns (r: Outcome, k: int, ghost text: string, ghost ended: bool)
      requires Valid() && j < |op.logs|
      modifies `p, `n, `window, `handed, x, op, LogsRepr(op.logs)
      ensures r.Dead? ==> Died(op.logs, op.streams)
      ensures r.Alive? ==> Valid() && op.Onward() && Copied(j, text, ended, eol)
      ensures r.Alive? ==> (k == 0 || (k == -2 && op.faulty)) && (ended ==> k == 0) && (!ended ==> p == 0)
      ensures r.Alive? && k == 0 && !ended ==> NoMore()
    {
      text, ended, k := "", false, 1;
      GrownByNone(op.streams, j);
      var done := false;
      while k > 0 && !done
        invariant done == ended && Valid() && op.Onward() && (ended ==> k > 0)
        invariant Copied(j, text, ended, eol)
        invariant k <= 0 ==> p == 0
        invariant (k == 0 ==> NoMore()) && (k < 0 ==> op.faulty)
        decreases k > 0, Left(), !done
      {
        ghost var piece;
        r, k, done, piece := CopyTurn(j, eol);
        if r.Dead? { return; }
        CopyGlue(old(handed), text, piece, done, eol);
        GrownTwice(old(op.streams), j, text, WithEnd(piece, done, eol));
        text, ended := text + piece, done;
      }
      k := if k < 0 then -2 else 0;
      r := Alive;
    }

    /** Some bytes were handed out, through the line end if the line ended, and log j was given the
        same. */
    twostate predicate Copied(j: nat, new text: string, ended: bool, eol: char)
      requires j < |op.logs|
      reads this, op
    {
      && eol !in text && handed == old(handed) + WithEnd(text, ended, eol)
      && op.streams == Grown(old(op.streams), j, WithEnd(text, ended, eol))
    }

    /** One turn of the loop of buffer_copyline. The test whether the line end was seen compares
        its index with what is left in the window, so it may take a turn more to find it again. */
    method CopyTurn(j: nat, eol: char) returns (r: Outcome, k: int, done: bool, ghost piece: string)
      requires Valid() && j < |op.logs|
      modifies `p, `n, `window, `handed, x, op, LogsRepr(op.logs)
      ensures r.Dead? ==> Died(op.logs, op.streams)
      ensures r.Alive? ==> Valid() && op.Onward() && Copied(j, piece, done, eol)
      ensures r.Alive? && k > 0 ==> Left() < old(Left())
      ensures r.Alive? && k <= 0 ==> p == 0 && !done && piece == ""
      ensures r.Alive? ==> (k == 0 ==> NoMore()) && (k < 0 ==> op.faulty)
    {
      done, piece := false, "";
      GrownByNone(op.streams, j);
      r, k := Feed();
      if r.Dead? || k <= 0 { return; }
      r, done, piece := CopyWindow(j, eol);
    }

    method CopyWindow(j: nat, eol: char) returns (r: Outcome, done: bool, ghost piece: string)
      requires Valid() && j < |op.logs| && p > 0
      modifies `p, `n, `window, `handed, op`streams, op.logs[j], op.logs[j].x, op.logs[j].log
      ensures r.Dead? ==> Died(op.logs, op.streams)
      ensures r.Alive? ==> Valid() && Copied(j, piece, done, eol) && p < old(p)
    {
      done := false;
      var i := FirstIndex(x[n..n + p], eol);
      FirstIndexWithin(window, eol, i, i);
      piece := window[..i];
      ghost var start, streams := handed, op.streams;
      r := CopyPart(j, i);
      if r.Alive? && i < p {
        r := CopyEnd(j, eol);
        CopyGlue(start, piece, "", true, eol);
        GrownTwice(streams, j, piece, [eol]);
        done := true;
      }
    }

    /** buffer_PUTC and SEEK of the line end. */
    method CopyEnd(j: nat, eol: char) returns (r: Outcome)
      requires Valid() && j < |op.logs| && p > 0 && window[0] == eol
      modifies `p, `n, `window, `handed, op`streams, op.logs[j], op.logs[j].x, op.logs[j].log
      ensures r.Dead? ==> Died(op.logs, op.streams)
      ensures r.Alive? ==> Valid() && p == old(p) - 1 && handed == old(handed) + [eol]
      ensures op.streams == Grown(old(op.streams), j, [eol])
    {
      assert window[..1] == [eol];
      r := op.PutCTo(j, eol);
      if r.Dead? { return; }
      SeekOn(1);
    }

    /** buffer_put and SEEK of the next i bytes, of which none is held back. */
    method CopyPart(j: nat, i: nat) returns (r: Outcome)
      requires Valid() && j < |op.logs| && i <= p
      modifies `p, `n, `window, `handed, op`streams, op.logs[j], op.logs[j].x, op.logs[j].log
      ensures r.Dead? ==> Died(op.logs, op.streams)
      ensures r.Alive? ==> Valid() && p == old(p) - i && window == old(window)[i..]
      ensures r.Alive? ==> handed == old(handed) + old(window)[..i]
      ensures op.streams == Grown(old(op.streams), j, old(window)[..i])
    {
      r := PutPart(j, i);
      if r.Dead? { return; }
      SeekOn(i);
    }

    /** The buffer_put of that. */
    method PutPart(j: nat, i: nat) returns (r: Outcome)
      requires Valid() && j < |op.logs| && i <= p
      modifies op`streams, op.logs[j], op.logs[j].x, op.logs[j].log
      ensures r.Dead? ==> Died(op.logs, op.streams)
      ensures r.Alive? ==> Valid()
      ensures op.streams == Grown(old(op.streams), j, window[..i])
    {
      var bytes := x[n..n + i];
      assert bytes == window[..i] by { Sliced(x, n, p, i); }
      r := op.PutTo(j, bytes);
    }
  }

  lemma Sliced(x: array<char>, n: nat, p: nat, i: nat)
    requires n + p <= x.Length && i <= p
    ensures x[n..n + p][..i] == x[n..n + i] && x[n..n + p][i..] == x[n + i..n + p]
    ensures x[n..n + p] == x[n..n + i] + x[n + i..n + p]
  {
  }

  /** A text, and the line end behind it if the line ended. */
  function WithEnd(text: string, ended: bool, eol: char): string {
    if ended then text + [eol] else text
  }

  /** The streams, once log j was given some more bytes. */
  function Grown(streams: seq<string>, j: nat, bytes: string): seq<string> {
    if j < |streams| then streams[j := streams[j] + bytes] else streams
  }

  lemma GrownByNone(streams: seq<string>, j: nat)
    ensures Grown(streams, j, "") == streams
  {
    if j < |streams| { assert streams[j] + "" == streams[j]; }
  }

  lemma GrownTwice(streams: seq<string>, j: nat, x: string, y: string)
    ensures Grown(Grown(streams, j, x), j, y) == Grown(streams, j, x + y)
  {
    if j < |streams| { assert streams[j] + x + y == streams[j] + (x + y); }
  }

  lemma CopyGlue(start: string, text: string, piece: string, ended: bool, eol: char)
    ensures eol !in text && eol !in piece ==> eol !in text + piece
    ensures start + text + WithEnd(piece, ended, eol) == start + WithEnd(text + piece, ended, eol)
    ensures text + "" == text && [] + [eol] == [eol]
    ensures text + WithEnd(piece, ended, eol) == WithEnd(text + piece, ended, eol)
  {
  }

  /** A text without line end was put into an array, where there was room; if the line ended, for
      one more byte. */
  predicate Delivered(before: string, after: string, off: nat, len: nat, eol: char, text: string, ended: bool) {
    |text| <= len && Wrote(before, after, off, text) && eol !in text && (ended ==> |text| < len)
  }

  lemma DeliveredMore(a: string, b: string, c: string, off: nat, len: nat, eol: char,
                      text: string, got: nat, piece: string, ended: bool)
    requires got == |text| <= len && Delivered(a, b, off, len, eol, text, false)
    requires Delivered(b, c, off + got, len - got, eol, piece, ended)
    ensures Delivered(a, c, off, len, eol, text + piece, ended)
  {
    WroteMore(a, b, c, off, text, piece);
  }

  /** A text was handed out, and the line end behind it if the line ended; so much less is left. */
  predicate HandedOut(before: string, after: string, left: nat, left': nat, text: string, ended: bool, eol: char) {
    && after == before + text + (if ended then [eol] else "")
    && left' <= left - |text| - (if ended then 1 else 0)
  }

  lemma HandedOutMore(a: string, b: string, c: string, l: nat, l': nat, l'': nat,
                      text: string, piece: string, ended: bool, eol: char)
    requires HandedOut(a, b, l, l', text, false, eol) && HandedOut(b, c, l', l'', piece, ended, eol)
    ensures HandedOut(a, c, l, l'', text + piece, ended, eol)
  {
  }

  lemma FirstIndexWithin(s: string, c: char, i: nat, m: nat)
    requires i == FirstIndex(s, c) && m <= i
    ensures c !in s[..m]
  {
    assert s[..m] == s[..i][..m];
  }

  /** An array was overwritten with text from off on, and nowhere else. */
  predicate Wrote(before: string, after: string, off: nat, text: string) {
    && |before| == |after| && off + |text| <= |after|
    && after[off..off + |text|] == text
    && after[..off] == before[..off] && after[off + |text|..] == before[off + |text|..]
  }

  lemma WroteAt(before: string, after: string, off: nat, text: string, i: nat)
    requires Wrote(before, after, off, text) && i < |after|
    ensures after[i] == if off <= i < off + |text| then text[i - off] else before[i]
  {
    if i < off {
      assert after[i] == after[..off][i];
    } else if i < off + |text| {
      assert after[i] == after[off..off + |text|][i - off];
    } else {
      assert after[i] == after[off + |text|..][i - off - |text|];
    }
  }

  lemma WroteMore(a: string, b: string, c: string, off: nat, text: string, piece: string)
    requires Wrote(a, b, off, text) && Wrote(b, c, off + |text|, piece)
    ensures Wrote(a, c, off, text + piece)
  {
    assert c[off..off + |text|] == c[..off + |text|][off..];
    assert c[off..off + |text + piece|] == c[off..off + |text|] + c[off + |text|..off + |text| + |piece|];
    assert c[..off] == c[..off + |text|][..off];
    assert c[off + |text + piece|..] == b[off + |text|..][|piece|..];
  }

  ghost function LogsRepr(logs: seq<OutBuffer>): set<object> {
    (set j | 0 <= j < |logs| :: logs[j])
    + (set j | 0 <= j < |logs| :: logs[j].x) + (set j | 0 <= j < |logs| :: logs[j].log)
  }

  ghost predicate Separate(logs: seq<OutBuffer>) {
    forall i, j :: 0 <= i < j < |logs| ==> logs[i] != logs[j] && logs[i].x != logs[j].x && logs[i].log != logs[j].log
  }

  /** Every buffer is in order, and was given its stream. */
  ghost predicate AllValid(logs: seq<OutBuffer>, streams: seq<string>)
    reads LogsRepr(logs)
  {
    |streams| == |logs| && forall j :: 0 <= j < |logs| ==> logs[j].Valid() && logs[j].given == streams[j]
  }

  /** Signals may ask every log to rotate. */
  ghost predicate AllAlarmed(logs: seq<OutBuffer>) {
    forall j :: 0 <= j < |logs| ==> logs[j].log.alarmed
  }

  /** A process that is no more has left every log recoverable, with no more than its stream, and at
      least one of them is of a kind to end it. */
  ghost predicate Died(logs: seq<OutBuffer>, streams: seq<string>)
    reads LogsRepr(logs)
  {
    AllAbandoned(logs, streams) && exists j :: 0 <= j < |logs| && logs[j].log.MayDie()
  }

  ghost predicate AllAbandoned(logs: seq<OutBuffer>, streams: seq<string>)
    reads LogsRepr(logs)
  {
    |streams| == |logs| && forall j :: 0 <= j < |logs| ==> logs[j].Abandoned() && logs[j].given == streams[j]
  }

  lemma ValidIsAbandoned(logs: seq<OutBuffer>, streams: seq<string>)
    requires AllValid(logs, streams)
    ensures AllAbandoned(logs, streams)
  {
  }
}
