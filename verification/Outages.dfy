/** What the disk invariant means to whoever reads the log directory, and that it holds over
    every life of a log: any mix of writes, rotations, clean exits, deaths and power failures. */
module Outages {
  import opened Wrappers
  import opened Disk
  import opened CyclogModule

  // ---------- reading a directory ----------

  /** The log data that the old logs stand for, oldest first. */
  function Origins(fs: Fs): (s: seq<string>)
    requires WellFormed(fs)
    ensures |s| == |fs.logs|
  {
    seq(|fs.logs|, k requires 0 <= k < |fs.logs| => fs.inodes[fs.logs[k].ino].origin)
  }

  /** What is in the old logs, oldest first. */
  function Contents(fs: Fs): (s: seq<string>)
    requires WellFormed(fs)
    ensures |s| == |fs.logs|
  {
    seq(|fs.logs|, k requires 0 <= k < |fs.logs| => fs.inodes[fs.logs[k].ino].data)
  }

  /** What is in a working file, unless it is an old log too. */
  function SoleData(fs: Fs, n: Work): string {
    if fs.Has(n) && fs.SoleLink(n) then fs.At(n).data else ""
  }

  lemma {:induction false} FlatConcat(a: seq<string>, b: seq<string>)
    ensures Flat(a + b) == Flat(a) + Flat(b)
  {
    if b == [] {
      assert a + b == a;
    } else {
      var init := b[..|b| - 1];
      assert (a + b)[..|a + b| - 1] == a + init;
      FlatConcat(a, init);
    }
  }

  /** At any moment the directory stands for exactly the bytes ever accepted, in order and each
      once, but for whole old logs pruned from the front, and these only once there were as many
      left as some configuration allows. */
  lemma NothingLostOrDoubled(fs: Fs, led: Ledger, now: Instant)
    requires Safe(fs, led, now)
    ensures WellFormed(fs) && |fs.logs| <= |led.settled|
    ensures var pruned := led.settled[..|led.settled| - |fs.logs|];
            && led.accepted == Flat(pruned) + Flat(Origins(fs)) + Pending(fs) + Unfiled(fs, Current)
            && (pruned != [] ==> Kept(|fs.logs|, led.configs))
  {
    assert WellFormed(fs) && Settled(fs, led) && Retained(fs, led) && Whereabouts(fs, led) == led.accepted by {
      assert Opened(Key);
    }
    OriginsSettled(fs, led);
  }

  lemma OriginsSettled(fs: Fs, led: Ledger)
    requires WellFormed(fs) && Settled(fs, led)
    ensures Flat(led.settled) == Flat(led.settled[..|led.settled| - |fs.logs|]) + Flat(Origins(fs))
  {
    var pruned, kept := led.settled[..|led.settled| - |fs.logs|], led.settled[|led.settled| - |fs.logs|..];
    assert Origins(fs) == kept;
    assert led.settled == pruned + kept;
    FlatConcat(pruned, kept);
  }

  /** The directory holds the end of what was accepted: its old logs, then previous and current as
      far as they have one link only, are a suffix of it. All that is missing are the first files
      finished, and none if there were never more than some configuration allows. */
  ghost predicate HoldsTheLog(fs: Fs, led: Ledger)
    requires WellFormed(fs) && |fs.logs| <= |led.settled|
  {
    var pruned := led.settled[..|led.settled| - |fs.logs|];
    && led.accepted == Flat(pruned) + Flat(Contents(fs)) + SoleData(fs, Previous) + SoleData(fs, Current)
    && (pruned != [] ==> Kept(|fs.logs|, led.configs))
  }

  /** Without processor and power failure the files themselves are the log. */
  lemma FilesHoldTheLog(fs: Fs, led: Ledger, now: Instant)
    requires Safe(fs, led, now) && !led.cut && !AnyProcessor(led.configs)
    ensures WellFormed(fs) && |fs.logs| <= |led.settled| && HoldsTheLog(fs, led)
  {
    NothingLostOrDoubled(fs, led, now);
    assert Opened(Key);
    assert forall k :: 0 <= k < |fs.logs| ==> Uncut(fs.inodes[fs.logs[k].ino]);
    assert Contents(fs) == Origins(fs);
    SoleDataIsUnfiled(fs, led, now, Previous);
    SoleDataIsUnfiled(fs, led, now, Current);
  }

  lemma SoleDataIsUnfiled(fs: Fs, led: Ledger, now: Instant, n: Work)
    requires Safe(fs, led, now) && !led.cut && n != Processed
    ensures SoleData(fs, n) == Unfiled(fs, n)
  {
    assert Opened(Key);
    if fs.Has(n) {
      SoleLinkIsUnfiled(fs, led, now, n);
      assert Uncut(fs.At(n));
    }
  }

  /** The finished code is kept: a power failure takes nothing from a file that bears it, and if
      the file is log data, all of that data is in it. */
  lemma FinishedIsDurable(fs: Fs, led: Ledger, now: Instant, k: nat, after: Fs)
    requires Safe(fs, led, now) && k < |fs.logs| && fs.logs[k].code != UNFINISHED && Survives(fs, after)
    ensures fs.logs[k].ino < |fs.inodes| && after.inodes[fs.logs[k].ino] == fs.inodes[fs.logs[k].ino]
    ensures |fs.logs| <= |led.settled|
    ensures fs.inodes[fs.logs[k].ino].raw ==>
              after.inodes[fs.logs[k].ino].data == led.settled[|led.settled| - |fs.logs| + k]
  {
    assert Opened(Key);
    assert CodeTells(fs.logs[k], fs.inodes[fs.logs[k].ino]);
    assert Shortened(fs.inodes[fs.logs[k].ino], after.inodes[fs.logs[k].ino]);
  }

  /** The mode tells, too: an old log that is not called unfinished has mode bit 0100, also after a
      power failure, and so one without that bit is called unfinished. */
  lemma FinishedHasMode(fs: Fs, led: Ledger, now: Instant, k: nat, after: Fs)
    requires Safe(fs, led, now) && k < |fs.logs| && Survives(fs, after)
    ensures fs.logs[k].ino < |fs.inodes| && after.logs == fs.logs && |after.inodes| == |fs.inodes|
    ensures fs.logs[k].code != UNFINISHED ==> fs.inodes[fs.logs[k].ino].exec && after.inodes[fs.logs[k].ino].exec
  {
    assert Opened(Key);
    assert CodeTells(fs.logs[k], fs.inodes[fs.logs[k].ino]);
    assert Shortened(fs.inodes[fs.logs[k].ino], after.inodes[fs.logs[k].ino]);
  }

  /** A finished chunk is in one old log. With a processor all along, that is either its output,
      whole and with the finished code, or the raw data, and then it is called unfinished. */
  lemma ChunkIsOneLog(fs: Fs, led: Ledger, now: Instant, k: nat)
    requires Safe(fs, led, now) && k < |fs.logs|
    ensures fs.logs[k].ino < |fs.inodes| && |fs.logs| <= |led.settled|
    ensures fs.inodes[fs.logs[k].ino].origin == led.settled[|led.settled| - |fs.logs| + k]
    ensures !fs.inodes[fs.logs[k].ino].raw ==> fs.logs[k].code != UNFINISHED && Whole(fs.inodes[fs.logs[k].ino])
    ensures !AnyPlain(led.configs) ==> (fs.inodes[fs.logs[k].ino].raw <==> fs.logs[k].code == UNFINISHED)
    ensures forall j :: 0 <= j < |fs.logs| && j != k ==> fs.logs[j].ino != fs.logs[k].ino
  {
    assert Opened(Key);
    assert CodeTells(fs.logs[k], fs.inodes[fs.logs[k].ino]);
  }

  /** What a clean exit leaves survives a power failure. */
  lemma CleanExitIsDurable(fs: Fs, led: Ledger, now: Instant, after: Fs)
    requires Safe(fs, led, now) && fs.Has(Current) && fs.At(Current).exec && Survives(fs, after)
    ensures after.Has(Current) && after.At(Current) == fs.At(Current)
    ensures fs.previous.None? && fs.processed.None? && !Filed(fs, Current)
    ensures fs.At(Current).data == fs.At(Current).origin
  {
    assert Opened(Key);
    assert Shortened(fs.At(Current), after.inodes[fs.current.value]);
  }

  // ---------- every life of a log ----------

  datatype Event = Start(config: Config) | Write(buf: string) | Alarm | Quit | Death | PowerCut

  predicate Sensible(e: Event) {
    e.Start? ==> Configured(e.config)
  }

  /** A log at one moment: its disk, what is remembered, whether a process is up, and what that
      has rotated. */
  datatype Moment = Moment(fs: Fs, led: Ledger, up: bool, rotated: seq<Rotation>)

  ghost function Now(log: Cyclog, up: bool): Moment
    reads log
  {
    Moment(log.fs, log.led, up, log.rotated)
  }

  /** Whether the process is up after an event that does not kill it on the way. */
  predicate UpAfter(up: bool, e: Event) {
    match e
    case Start(_) => true
    case Write(_) => up
    case Alarm => up
    case Quit => false
    case Death => false
    case PowerCut => false
  }

  /** What only depends on the event: what is remembered. */
  predicate Remembered(m: Moment, e: Event, took: string, m': Moment) {
    && m'.led.accepted == m.led.accepted + took && m.led.settled <= m'.led.settled
    && m'.led.cut == (m.led.cut || e == PowerCut)
    && m'.led.configs == m.led.configs + (if e.Start? && !m.up then [e.config] else [])
    && (m'.up ==> UpAfter(m.up, e))
  }

  /** What a process that is up afterwards, or the failing machine, has done to the disk. */
  ghost predicate Done(m: Moment, e: Event, took: string, m': Moment) {
    match e
    case Start(config) =>
      if m.up then m' == m
      else m'.up ==> Started(m, config, m')
    case Write(buf) =>
      && took <= buf && (!m.up ==> took == "" && m' == m)
      && (m'.up && buf != "" ==> took != "")
      && (m'.up ==> exists done :: Rotating(m, took, m', done))
    case Alarm =>
      && took == "" && (!m.up ==> m' == m)
      && (m'.up && m.fs.Has(Current) && m.fs.At(Current).data != "" ==>
            m.led.configs != [] && RotatedOut(m.fs, m'.fs, m.led.configs[|m.led.configs| - 1]))
      && (m'.up && !(m.fs.Has(Current) && m.fs.At(Current).data != "") ==> m' == m)
    case Quit => took == "" && (!m.up ==> m' == m)
    case Death => took == "" && m' == m.(up := false)
    case PowerCut => took == "" && Survives(m.fs, m'.fs) && m'.led.settled == m.led.settled
  }

  /** A write: what was rotated on the way is on record and finished, the last of it is the newest
      old log, and no signal asked for it. */
  ghost predicate Rotating(m: Moment, took: string, m': Moment, done: seq<Rotation>) {
    && m.led.configs != []
    && RotatedThrough(m.rotated, m'.rotated, done, m.fs, m'.fs, m.led.configs[|m.led.configs| - 1],
                      Took(m.led, took), m'.led)
    && UnaskedSince(m.rotated, m'.rotated)
  }

  /** restart: after a clean exit current goes on, and otherwise all is finished. */
  ghost predicate Started(m: Moment, config: Config, m': Moment) {
    if m.fs.Has(Current) && m.fs.At(Current).exec
    then m'.fs == m.fs.Chmod(Current, false) && m'.led.settled == m.led.settled
    else
      && config.num > 0
      && exists first, second ::
           && m'.fs == Recovered(m.fs, config, first, second)
           && m'.led.settled == RecoveredLedger(m.fs, config, first, m.led).settled
  }

  ghost predicate Stepped(m: Moment, e: Event, took: string, m': Moment) {
    Remembered(m, e, took, m') && Done(m, e, took, m')
  }

  /** One event, for a process that is up or not. Any system call of a mortal process may be its
      last. took is what a write has written. */
  method Step(log: Cyclog, up: bool, e: Event) returns (up': bool, ghost took: string)
    requires log.Condition() != Ruined && Sensible(e) && (up ==> log.Condition() == Serving)
    requires e.Alarm? ==> log.alarmed
    modifies log
    ensures log.Condition() != Ruined && (up' ==> log.Condition() == Serving)
    ensures Stepped(old(Now(log, up)), e, took, Now(log, up'))
    ensures log.DiskSafe() && old(log.now) <= log.now
    ensures log.MayDie() || up' == UpAfter(up, e)
    ensures log.MayDie() || (up && e.Quit? ==> LeftClean(old(log.fs), log.fs) && log.Clean())
  {
    up', took := up, "";
    assert log.led.accepted + "" == log.led.accepted && log.led.configs + [] == log.led.configs;
    NothingRotated(Now(log, up));
    match e
    case Start(config) =>
      if !up {
        up' := StepStart(log, config);
      }
    case Write(buf) =>
      if up && buf != "" {
        up', took := StepWrite(log, buf);
      }
    case Alarm =>
      if up && log.bytes > 0 {
        up' := StepAlarm(log);
      }
    case Quit =>
      if up {
        var r := log.CQuit();
        up' := false;
      }
    case Death =>
      up' := false;
    case PowerCut =>
      log.PowerFailure();
      up' := false;
  }

  method StepStart(log: Cyclog, config: Config) returns (up: bool)
    requires log.Condition() != Ruined && Configured(config)
    modifies log
    ensures log.DiskSafe() && old(log.now) <= log.now && (up ==> log.Condition() == Serving) && (log.MayDie() || up)
    ensures Stepped(old(Now(log, false)), Start(config), "", Now(log, up))
  {
    var r;
    ghost var first;
    r, first := log.Restart(config);
    up := r.Alive?;
    assert old(log.led).accepted + "" == old(log.led).accepted;
    if up && !old(log.Clean()) {
      SameSettled(old(log.fs), config, first, old(log.led));
    }
  }

  lemma SameSettled(fs: Fs, c: Config, first: Instant, led: Ledger)
    requires c.num > 0
    ensures RecoveredLedger(fs, c, first, led.(configs := led.configs + [c])).settled
            == RecoveredLedger(fs, c, first, led).settled
  {
  }

  method StepWrite(log: Cyclog, buf: string) returns (up: bool, ghost took: string)
    requires log.Condition() == Serving && buf != ""
    modifies log
    ensures log.Condition() != Ruined && (up ==> log.Condition() == Serving) && (log.MayDie() || up)
    ensures log.DiskSafe() && old(log.now) <= log.now
    ensures Stepped(old(Now(log, true)), Write(buf), took, Now(log, up))
  {
    var r, w;
    ghost var done;
    r, w, took, done := log.CWrite(buf);
    up := r.Alive?;
    assert log.led.configs + [] == log.led.configs;
    if up {
      UnaskedGoesOn(old(log.rotated), done, old(log.base), log.partial);
      assert Rotating(old(Now(log, true)), took, Now(log, up), done);
    }
  }

  /** Where there was nothing to write. */
  lemma NothingRotated(m: Moment)
    ensures m.led.configs != [] ==> Rotating(m, "", m, [])
  {
    if m.led.configs != [] {
      RotatedNever(m.rotated, m.fs, m.led.configs[|m.led.configs| - 1], m.led);
      assert Took(m.led, "") == m.led;
    }
  }

  method StepAlarm(log: Cyclog) returns (up: bool)
    requires log.Condition() == Serving && log.bytes > 0 && log.alarmed
    modifies log
    ensures log.Condition() != Ruined && (up ==> log.Condition() == Serving) && (log.MayDie() || up)
    ensures log.DiskSafe() && old(log.now) <= log.now
    ensures Stepped(old(Now(log, true)), Alarm, "", Now(log, up))
  {
    var r := log.ForceRotation();
    up := r.Alive?;
    assert log.led.configs + [] == log.led.configs && log.led.accepted + "" == log.led.accepted;
  }

  predicate Plain(e: Event) {
    e != PowerCut && (e.Start? ==> !e.config.processor)
  }

  predicate Processing(e: Event) {
    e.Start? ==> e.config.processor
  }

  const NEW_LOG := Moment(Fs([], None, None, None, []), Ledger([], "", false, []), false, [])

  /** A whole life: trace are the moments between the events, and took what each event wrote. */
  ghost predicate Lived(events: seq<Event>, took: seq<string>, trace: seq<Moment>) {
    && |took| == |events| && |trace| == |events| + 1 && trace[0] == NEW_LOG
    && forall i :: 0 <= i < |events| ==> Stepped(trace[i], events[i], took[i], trace[i + 1])
  }

  /** Whatever happens to a log, the disk is safe at every moment, and what was accepted is what
      the writes took. Without processors and power failures, the files hold all of it but whole old logs
      pruned; with processors only, what is finished is output and what is raw is not. If no
      signal asked for it and no write was short, whatever was rotated ends at a line boundary. A
      process that is not killed does what every event asks for. */
  method Life(mortal: bool, partial: bool, clock: Instant -> Instant, events: seq<Event>)
    returns (log: Cyclog, up: bool, ghost took: seq<string>, ghost trace: seq<Moment>)
    requires forall i :: 0 <= i < |events| ==> Sensible(events[i])
    ensures Lived(events, took, trace) && trace[|events|] == Now(log, up) && log.mortal == mortal
    ensures SafeAllAlong(trace, log.now)
    ensures log.Condition() != Ruined && (up ==> log.Condition() == Serving)
    ensures log.led.accepted == Flat(took)
    ensures RotatedWellAllAlong(trace, partial, Alarm in events)
    ensures !partial && Alarm !in events ==>
              forall i, k :: 0 <= i <= |events| && trace[i].up && 0 <= k < |trace[i].rotated| ==>
                AtBoundary(trace[i].rotated, k)
    ensures (forall i :: 0 <= i < |events| ==> Plain(events[i])) ==>
              WellFormed(log.fs) && |log.fs.logs| <= |log.led.settled| && HoldsTheLog(log.fs, log.led)
    ensures (forall i :: 0 <= i < |events| ==> Processing(events[i])) ==>
              WellFormed(log.fs) && OutputFinished(log.fs)
    ensures log.MayDie() || AllDone(events, trace)
  {
    log, up, took, trace := Live(mortal, partial, clock, events);
    LifeOf(events, took, trace, log.now, trace[|events|]);
    RotatedAtLinesAllAlong(trace, partial, Alarm in events);
  }

  /** The events, one by one. */
  method Live(mortal: bool, partial: bool, clock: Instant -> Instant, events: seq<Event>)
    returns (log: Cyclog, up: bool, ghost took: seq<string>, ghost trace: seq<Moment>)
    requires forall i :: 0 <= i < |events| ==> Sensible(events[i])
    ensures log.Condition() != Ruined && (up ==> log.Condition() == Serving) && log.mortal == mortal
    ensures SoFar(events, |events|, took, trace, log.now, partial) && trace[|events|] == Now(log, up)
    ensures log.MayDie() || AllDone(events, trace)
  {
    log := new Cyclog(mortal, partial, Alarm in events, clock);
    up, took, trace := false, [], [NEW_LOG];
    for i := 0 to |events|
      invariant fresh(log) && log.Condition() != Ruined && (up ==> log.Condition() == Serving)
      invariant log.mortal == mortal && log.partial == partial && log.alarmed == (Alarm in events)
      invariant SoFar(events, i, took, trace, log.now, partial) && trace[i] == Now(log, up)
      invariant log.MayDie() || AllDone(events[..i], trace)
    {
      ghost var before := trace;
      up, took, trace := Turn(log, up, events, i, took, trace);
      OneMoreDone(events, i, before, Now(log, up));
    }
    assert events[..|events|] == events;
  }

  lemma OneMoreDone(events: seq<Event>, i: nat, trace: seq<Moment>, m: Moment)
    requires i < |events| && |trace| == i + 1
    ensures AllDone(events[..i], trace) && m.up == UpAfter(trace[i].up, events[i]) ==>
              AllDone(events[..i + 1], trace + [m])
  {
  }

  /** Nothing but the events themselves has ended the process. */
  predicate AllDone(events: seq<Event>, trace: seq<Moment>) {
    |trace| == |events| + 1 && forall i :: 0 <= i < |events| ==> trace[i + 1].up == UpAfter(trace[i].up, events[i])
  }

  /** One turn of that loop. */
  method Turn(log: Cyclog, up: bool, events: seq<Event>, i: nat, ghost took: seq<string>, ghost trace: seq<Moment>)
    returns (up': bool, ghost took': seq<string>, ghost trace': seq<Moment>)
    requires i < |events| && Sensible(events[i]) && log.alarmed == (Alarm in events)
    requires log.Condition() != Ruined && (up ==> log.Condition() == Serving)
    requires SoFar(events, i, took, trace, log.now, log.partial) && trace[i] == Now(log, up)
    modifies log
    ensures log.Condition() != Ruined && (up' ==> log.Condition() == Serving)
    ensures SoFar(events, i + 1, took', trace', log.now, log.partial)
    ensures trace' == trace + [Now(log, up')]
    ensures log.MayDie() || up' == UpAfter(up, events[i])
    ensures old(log.now) <= log.now
  {
    ghost var written;
    ghost var clock := log.now;
    up', written := Step(log, up, events[i]);
    if up' { log.RecordKept(); }
    took', trace' := took + [written], trace + [Now(log, up')];
    OneEventMore(events, i, took, trace, clock, log.now, log.partial, written, Now(log, up'));
  }

  /** What holds after the first i events. */
  ghost predicate SoFar(events: seq<Event>, i: nat, took: seq<string>, trace: seq<Moment>, now: Instant,
                        partial: bool) {
    && i <= |events| && Lived(events[..i], took, trace) && SafeAllAlong(trace, now)
    && RotatedWellAllAlong(trace, partial, Alarm in events)
    && trace[i].led.accepted == Flat(took)
  }

  lemma OneEventMore(events: seq<Event>, i: nat, took: seq<string>, trace: seq<Moment>, clock: Instant, now: Instant,
                     partial: bool, written: string, m: Moment)
    requires i < |events| && SoFar(events, i, took, trace, clock, partial) && clock <= now
    requires Stepped(trace[i], events[i], written, m) && Safe(m.fs, m.led, now)
    requires m.up ==> AllWellRotated(m.rotated, partial, Alarm in events)
    ensures SoFar(events, i + 1, took + [written], trace + [m], now, partial)
  {
    LivedOn(events, i, took, trace, written, m);
    SafeStill(trace, clock, now);
    FlatSnoc(took, written);
  }

  ghost predicate RotatedWellAllAlong(trace: seq<Moment>, partial: bool, alarmed: bool) {
    forall i :: 0 <= i < |trace| && trace[i].up ==> AllWellRotated(trace[i].rotated, partial, alarmed)
  }

  /** A rotated file ends at a line boundary, unless it is one that the process found there, as
      large as allowed. */
  predicate AtBoundary(rs: seq<Rotation>, k: nat)
    requires k < |rs|
  {
    AtLineBoundary(rs[k]) || (k == 0 && rs[0].base > 0 && |rs[0].data| >= rs[0].size)
  }

  lemma RotatedAtLinesAllAlong(trace: seq<Moment>, partial: bool, alarmed: bool)
    requires RotatedWellAllAlong(trace, partial, alarmed)
    ensures !partial && !alarmed ==>
              forall i, k :: 0 <= i < |trace| && trace[i].up && 0 <= k < |trace[i].rotated| ==>
                AtBoundary(trace[i].rotated, k)
  {
    if !partial && !alarmed {
      forall i, k | 0 <= i < |trace| && trace[i].up && 0 <= k < |trace[i].rotated|
        ensures AtBoundary(trace[i].rotated, k)
      {
        RotatedAtLines(trace[i].rotated, k);
      }
    }
  }

  ghost predicate SafeAllAlong(trace: seq<Moment>, now: Instant) {
    forall k :: 0 <= k < |trace| ==> Safe(trace[k].fs, trace[k].led, now)
  }

  lemma SafeStill(trace: seq<Moment>, now: Instant, later: Instant)
    requires SafeAllAlong(trace, now) && now <= later
    ensures SafeAllAlong(trace, later)
  {
    forall k | 0 <= k < |trace|
      ensures Safe(trace[k].fs, trace[k].led, later)
    {
      ClockGoesOn(trace[k].fs, trace[k].led, now, later);
    }
  }

  lemma ClockGoesOn(fs: Fs, led: Ledger, now: Instant, later: Instant)
    requires Safe(fs, led, now) && now <= later
    ensures Safe(fs, led, later)
  {
    assert Opened(Key);
  }

  lemma LivedOn(events: seq<Event>, i: nat, took: seq<string>, trace: seq<Moment>, written: string, m: Moment)
    requires i < |events| && Lived(events[..i], took, trace) && Stepped(trace[i], events[i], written, m)
    ensures Lived(events[..i + 1], took + [written], trace + [m])
  {
    forall k | 0 <= k < i + 1
      ensures Stepped((trace + [m])[k], events[..i + 1][k], (took + [written])[k], (trace + [m])[k + 1])
    {
      if k < i {
        assert Stepped(trace[k], events[..i][k], took[k], trace[k + 1]);
      }
    }
  }

  lemma LifeOf(events: seq<Event>, took: seq<string>, trace: seq<Moment>, now: Instant, m: Moment)
    requires Lived(events[..|events|], took, trace) && trace[|events|] == m && Safe(m.fs, m.led, now)
    ensures Lived(events, took, trace)
    ensures (forall i :: 0 <= i < |events| ==> Plain(events[i])) ==>
              WellFormed(m.fs) && |m.fs.logs| <= |m.led.settled| && HoldsTheLog(m.fs, m.led)
    ensures (forall i :: 0 <= i < |events| ==> Processing(events[i])) ==> WellFormed(m.fs) && OutputFinished(m.fs)
  {
    assert events[..|events|] == events;
    if forall i :: 0 <= i < |events| ==> Plain(events[i]) {
      PlainSoFar(events, took, trace, |events|);
      FilesHoldTheLog(m.fs, m.led, now);
    }
    if forall i :: 0 <= i < |events| ==> Processing(events[i]) {
      ProcessingSoFar(events, took, trace, |events|);
      assert Opened(Key);
    }
  }

  lemma {:induction false} PlainSoFar(events: seq<Event>, took: seq<string>, trace: seq<Moment>, i: nat)
    requires Lived(events, took, trace) && i <= |events|
    requires forall k :: 0 <= k < |events| ==> Plain(events[k])
    ensures !AnyProcessor(trace[i].led.configs) && !trace[i].led.cut
  {
    if i > 0 {
      PlainSoFar(events, took, trace, i - 1);
      var m, e := trace[i - 1], events[i - 1];
      assert Plain(e) && Remembered(m, e, took[i - 1], trace[i]);
      if e.Start? && !m.up {
        MoreConfigs(m.led.configs, e.config);
      } else {
        assert m.led.configs + [] == m.led.configs;
      }
    }
  }

  lemma {:induction false} ProcessingSoFar(events: seq<Event>, took: seq<string>, trace: seq<Moment>, i: nat)
    requires Lived(events, took, trace) && i <= |events|
    requires forall k :: 0 <= k < |events| ==> Processing(events[k])
    ensures !AnyPlain(trace[i].led.configs)
  {
    if i > 0 {
      ProcessingSoFar(events, took, trace, i - 1);
      var m, e := trace[i - 1], events[i - 1];
      assert Processing(e) && Remembered(m, e, took[i - 1], trace[i]);
      if e.Start? && !m.up {
        MoreConfigs(m.led.configs, e.config);
      } else {
        assert m.led.configs + [] == m.led.configs;
      }
    }
  }
}
