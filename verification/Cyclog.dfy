/** One automatically rotated log: writing, rotating, processing, pruning and recovering, on
    a disk whose machine may die before any system call. */
module CyclogModule {
  import opened Wrappers
  import opened Stamp
  import opened ByteSearch
  import opened Retention
  import opened Disk

  // ---------- the directory as readdir shows it ----------

  function Text(e: Entry): string {
    StampText(e.at) + "." + e.code
  }

  const OTHERS := 6

  /** The names in the directory, numbered: the old logs, then the files that are none. */
  function DirName(logs: seq<Entry>, k: nat): string
    requires k < |logs| + OTHERS
  {
    if k < |logs| then Text(logs[k])
    else ["current", "previous", "processed", "state", "newstate", "lock"][k - |logs|]
  }

  predicate Distinct(p: seq<nat>) {
    forall i, j :: 0 <= i < j < |p| ==> p[i] != p[j]
  }

  /** p is some order of 0, ..., n - 1. */
  predicate Permutes(p: seq<nat>, n: nat) {
    && Distinct(p)
    && (forall i :: 0 <= i < |p| ==> p[i] < n)
    && (forall x :: 0 <= x < n ==> x in p)
  }

  function UpTo(n: nat): (s: set<nat>)
    ensures |s| == n && forall x: nat :: x in s <==> x < n
  {
    if n == 0 then {} else UpTo(n - 1) + {n - 1}
  }

  method Shuffle(n: nat) returns (p: seq<nat>)
    ensures Permutes(p, n)
  {
    var rest: set<nat> := UpTo(n);
    p := [];
    while rest != {}
      invariant Distinct(p) && (forall i :: 0 <= i < |p| ==> p[i] < n && p[i] !in rest)
      invariant forall x :: 0 <= x < n ==> x in p || x in rest
      invariant forall x :: x in rest ==> x < n
      decreases |rest|
    {
      var x :| x in rest;
      p := p + [x];
      rest := rest - {x};
    }
  }

  lemma TextIsOld(e: Entry)
    ensures IsOld(Text(e)) && Text(e)[..25] == StampText(e.at) && StrLess(Text(e), BOUND)
  {
    var t := Text(e);
    assert t == StampText(e.at) + ("." + e.code);
    assert t[..25] == StampText(e.at);
    Pow16At24();
    ValueOfDigits(e.at, 24);
    assert t[1] == Digits(e.at, 24)[0] && IsHex(Digits(e.at, 24)[0]);
    assert t[1..][0] == t[1] && BOUND[1..][0] == 'z';
  }

  lemma TextOrder(d: Entry, e: Entry)
    ensures StrLess(Text(d), Text(e)[..25]) <==> d.at < e.at
  {
    TextIsOld(d);
    TextIsOld(e);
    OldLess(Text(d), StampText(e.at));
    StampTextOrder(d.at, e.at);
  }

  function Listing(logs: seq<Entry>, p: seq<nat>): (dir: seq<string>)
    requires forall i :: 0 <= i < |p| ==> p[i] < |logs| + OTHERS
    ensures |dir| == |p|
    ensures forall i :: 0 <= i < |p| ==> dir[i] == DirName(logs, p[i])
  {
    seq(|p|, i requires 0 <= i < |p| => DirName(logs, p[i]))
  }

  lemma NameIsOld(logs: seq<Entry>, k: nat)
    requires k < |logs| + OTHERS
    ensures IsOld(DirName(logs, k)) <==> k < |logs|
  {
    if k < |logs| {
      TextIsOld(logs[k]);
    }
  }

  function Below(p: seq<nat>, m: nat): set<nat> {
    set x | x in p && x < m
  }

  lemma {:induction false} CountListing(logs: seq<Entry>, p: seq<nat>)
    requires Distinct(p) && forall i :: 0 <= i < |p| ==> p[i] < |logs| + OTHERS
    ensures CountOld(Listing(logs, p)) == |Below(p, |logs|)|
  {
    if p != [] {
      var q, x0 := p[..|p| - 1], p[|p| - 1];
      LastIsNew(p);
      CountListing(logs, q);
      assert Listing(logs, p)[..|p| - 1] == Listing(logs, q);
      NameIsOld(logs, x0);
      BelowSnoc(q, x0, |logs|);
    }
  }

  lemma LastIsNew(p: seq<nat>)
    requires Distinct(p) && p != []
    ensures Distinct(p[..|p| - 1]) && p[|p| - 1] !in p[..|p| - 1] && p == p[..|p| - 1] + [p[|p| - 1]]
  {
  }

  lemma BelowSnoc(q: seq<nat>, x0: nat, m: nat)
    requires x0 !in q
    ensures |Below(q + [x0], m)| == |Below(q, m)| + if x0 < m then 1 else 0
  {
    assert Below(q + [x0], m) == if x0 < m then Below(q, m) + {x0} else Below(q, m);
  }

  lemma CountAll(logs: seq<Entry>, p: seq<nat>)
    requires Permutes(p, |logs| + OTHERS)
    ensures CountOld(Listing(logs, p)) == |logs|
  {
    CountListing(logs, p);
    assert Below(p, |logs|) == UpTo(|logs|);
  }

  /** Whatever the order of the directory, the entry that is chosen is the first log. */
  lemma ChosenIsFirst(fs: Fs, p: seq<nat>, victim: Option<nat>)
    requires Ordered(fs) && Permutes(p, |fs.logs| + OTHERS) && fs.logs != []
    requires Chosen(Listing(fs.logs, p), victim)
    ensures victim.Some? && victim.value < |p| && p[victim.value] == 0
  {
    var dir := Listing(fs.logs, p);
    var j := Place(p, 0);
    TextIsOld(fs.logs[0]);
    assert IsOld(dir[j]) && StrLess(dir[j], BOUND);
    OldestIsFirst(fs, p, victim.value);
  }

  lemma OldestIsFirst(fs: Fs, p: seq<nat>, i: nat)
    requires Ordered(fs) && Permutes(p, |fs.logs| + OTHERS) && i < |p|
    requires Oldest(Listing(fs.logs, p), Listing(fs.logs, p)[i])
    ensures p[i] == 0 && fs.logs != []
  {
    var dir := Listing(fs.logs, p);
    NameIsOld(fs.logs, p[i]);
    var j := Place(p, 0);
    NameIsOld(fs.logs, 0);
    assert !StrLess(dir[j], dir[i][..25]);
    TextOrder(fs.logs[0], fs.logs[p[i]]);
  }

  lemma Place(p: seq<nat>, x: nat) returns (j: nat)
    requires x in p
    ensures j < |p| && p[j] == x
  {
    j :| 0 <= j < |p| && p[j] == x;
  }

  // ---------- rotation at line ends ----------

  /** A rotated file: its data, how much of it a former process had left, whether any write to
      it was short, and whether the rotation was asked for by a signal. */
  datatype Rotation = Rotation(data: string, base: nat, short: bool, forced: bool, size: nat)

  predicate EndsLine(s: string) { s != "" && s[|s| - 1] == '\n' }

  /** No newline from byte size - 2001 on. */
  predicate NoLateNewline(s: string, size: nat) {
    forall i :: 0 <= i < |s| && size - 2001 <= i ==> s[i] != '\n'
  }

  predicate WellRotated(r: Rotation) {
    || r.forced
    || (EndsLine(r.data) && |r.data| + 2000 >= r.size)
    || (|r.data| == r.size && (!r.short && r.base == 0 ==> NoLateNewline(r.data, r.size)))
    || (|r.data| == r.base && r.base > r.size)
  }

  /** Whole lines, at most 2000 bytes fewer than allowed, or, for want of a line end in its last
      2001 bytes, exactly size bytes. */
  predicate AtLineBoundary(r: Rotation) {
    (EndsLine(r.data) && |r.data| + 2000 >= r.size) || (|r.data| == r.size && NoLateNewline(r.data, r.size))
  }

  /** The rotations of a process whose writes may be short, and which may be asked to rotate, or
      not: only its first can be of a file that was there when it started. */
  predicate AllWellRotated(rs: seq<Rotation>, partial: bool, alarmed: bool) {
    forall k :: 0 <= k < |rs| ==>
      && WellRotated(rs[k]) && (rs[k].forced ==> alarmed) && (rs[k].short ==> partial)
      && (k > 0 ==> rs[k].base == 0)
  }

  /** Rotations that no signal asked for, the first of a file of which base bytes were there when
      the process started. */
  predicate Unasked(rs: seq<Rotation>, base: nat, partial: bool) {
    forall k :: 0 <= k < |rs| ==>
      && WellRotated(rs[k]) && !rs[k].forced && (rs[k].short ==> partial)
      && rs[k].base == if k == 0 then base else 0
  }

  /** One list of rotations goes on from another, and no signal asked for what is new. */
  predicate UnaskedSince(before: seq<Rotation>, after: seq<Rotation>) {
    && before <= after
    && forall k :: |before| <= k < |after| ==> WellRotated(after[k]) && !after[k].forced
  }

  lemma UnaskedTwice(a: seq<Rotation>, b: seq<Rotation>, base: nat, mid: nat, partial: bool)
    requires Unasked(a, base, partial) && Unasked(b, mid, partial) && mid == if a == [] then base else 0
    ensures Unasked(a + b, base, partial)
  {
  }

  lemma UnaskedGoesOn(rs: seq<Rotation>, done: seq<Rotation>, base: nat, partial: bool)
    requires Unasked(done, base, partial)
    ensures UnaskedSince(rs, rs + done)
  {
    forall k | |rs| <= k < |rs + done|
      ensures WellRotated((rs + done)[k]) && !(rs + done)[k].forced
    {
      assert (rs + done)[k] == done[k - |rs|];
    }
  }

  /** How many rotations a signal asked for. */
  function Asked(rs: seq<Rotation>): nat {
    if rs == [] then 0 else Asked(rs[..|rs| - 1]) + if rs[|rs| - 1].forced then 1 else 0
  }

  lemma AskedMore(rs: seq<Rotation>, r: Rotation)
    ensures Asked(rs + [r]) == Asked(rs) + if r.forced then 1 else 0
  {
    assert (rs + [r])[..|rs|] == rs;
  }

  /** Without signals and short writes, every file that a process has both begun and rotated ends
      at a line boundary, and so does every later one. */
  lemma RotatedAtLines(rs: seq<Rotation>, k: nat)
    requires AllWellRotated(rs, false, false) && k < |rs|
    ensures k > 0 || rs[k].base == 0 ==> AtLineBoundary(rs[k])
    ensures AtLineBoundary(rs[k]) || (k == 0 && rs[0].base > 0 && |rs[0].data| >= rs[0].size)
  {
    assert WellRotated(rs[k]);
  }

  // ---------- the process ----------

  const LAST_INSTANT := TWO96 - 1

  /** Serving: between two calls of c_write. Recoverable: restart will lose nothing. */
  datatype Condition = Serving | Recoverable | Ruined

  class Cyclog {
    const mortal: bool                // the process may be killed
    const partial: bool               // its writes may be short
    const alarmed: bool               // signals may ask it to rotate
    const clock: Instant -> Instant   // what the clock shows, read after a stamp was taken
    var fs: Fs
    var now: Instant                  // the clock, at the last stamp taken
    var config: Config
    var fdcurrent: nat
    var bytes: nat

    ghost var led: Ledger
    ghost var base: nat               // bytes of current that this process found there
    ghost var short: bool             // a write to current was short
    ghost var rotated: seq<Rotation>  // by this process
    ghost var asked: nat              // how many of these a signal asked for

    /** Every state of the disk, also in the middle of everything. */
    ghost predicate DiskSafe()
      reads `fs, `led, `now
    {
      Safe(fs, led, now)
    }

    /** The process runs with bounds that its ledger knows of. */
    ghost predicate Known()
      reads `config, `led
    {
      Configured(config) && led.configs != [] && led.configs[|led.configs| - 1] == config
    }

    /** The process is in step with its disk. */
    ghost predicate InStep()
      reads `fs, `led, `now, `config, `fdcurrent, `bytes
    {
      && DiskSafe() && Quiet(fs, led, now) && Known()
      && fs.current == Some(fdcurrent) && bytes == |fs.At(Current).data|
    }

    /** Rotations so far were at line ends, as far as promised, and the next can be. */
    ghost predicate InBounds()
      reads `fs, `config, `bytes, `base, `short, `rotated, `asked
    {
      && base <= bytes && (bytes <= config.size || bytes == base)
      && (fs.Has(Current) && !short && base == 0 ==> NoLateNewline(fs.At(Current).data, config.size))
      && OnRecord()
    }

    /** The rotations so far, and what is known of current, are as they may be. */
    ghost predicate OnRecord()
      reads `base, `short, `rotated, `asked
    {
      && (short ==> partial) && (rotated != [] ==> base == 0)
      && AllWellRotated(rotated, partial, alarmed) && asked == Asked(rotated)
    }

    /** Between two calls of c_write. */
    ghost predicate Running()
      reads this
    {
      InStep() && InBounds()
    }

    /** What the users of a log need to know of all this. */
    ghost function Condition(): Condition
      reads this
    {
      if Running() then Serving else if DiskSafe() then Recoverable else Ruined
    }

    /** After a clean exit: current is whole, safe on disk, and marked so. */
    ghost predicate Clean()
      reads `fs, `led, `now
    {
      DiskSafe() && fs.Has(Current) && fs.At(Current).exec
    }

    /** Whoever is not killed only ends early when the clock has no stamp left. */
    ghost predicate MayDie()
      reads `now
    {
      mortal || now == LAST_INSTANT
    }

    /** An empty log directory. */
    constructor (mortal: bool, partial: bool, alarmed: bool, clock: Instant -> Instant)
      ensures this.mortal == mortal && this.partial == partial && this.alarmed == alarmed && now == 0
      ensures this.clock == clock
      ensures rotated == [] && asked == 0
      ensures DiskSafe() && led == Ledger([], "", false, []) && fs == Fs([], None, None, None, [])
    {
      this.mortal, this.partial, this.alarmed, this.clock := mortal, partial, alarmed, clock;
      fs := Fs([], None, None, None, []);
      now, fdcurrent, bytes := 0, 0, 0;
      config := Config(10, 99999, false, "s");
      led, base, short, rotated, asked := Ledger([], "", false, []), 0, false, [], 0;
      new;
      EmptyIsSafe();
    }

    lemma EmptyIsSafe()
      requires fs == Fs([], None, None, None, []) && led == Ledger([], "", false, [])
      ensures DiskSafe()
    {
      assert Opened(Key);
      assert Whereabouts(fs, led) == "";
    }

    /** A system call, or death before it. */
    method Do(next: Fs) returns (r: Outcome)
      modifies `fs
      ensures fs == if r.Alive? then next else old(fs)
      ensures r.Dead? ==> mortal
    {
      var die: bool := *;
      if mortal && die { return Dead; }
      fs := next;
      return Alive;
    }

    /** filesfit up to its unlink, over the directory in whatever order it is read. */
    method ChooseOldest() returns (fits: bool, which: nat)
      requires DiskSafe()
      ensures fits <==> |fs.logs| < config.num
      ensures !fits && fs.logs != [] ==> which == 0
    {
      var p := Shuffle(|fs.logs| + OTHERS);
      var dir := Listing(fs.logs, p);
      CountAll(fs.logs, p);
      var victim;
      fits, victim := FilesFit(dir, config.num);
      which := 0;
      if !fits && fs.logs != [] {
        assert Ordered(fs) by { assert Opened(Key); }
        ChosenIsFirst(fs, p, victim);
        which := p[victim.value];
      }
    }

    /** One pass of filesfit. */
    method FilesFitPass() returns (r: Outcome, fits: bool)
      requires DiskSafe() && NoneFiled(fs) && Known()
      modifies `fs
      ensures DiskSafe() && (r.Dead? ==> MayDie())
      ensures r.Dead? ==> fs == old(fs)
      ensures r.Alive? ==> (fits <==> |old(fs).logs| < config.num)
      ensures r.Alive? ==> if fits then fs == old(fs) else fs == old(fs).Remove(0) && NoneFiled(fs)
    {
      var which;
      fits, which := ChooseOldest();
      r := Alive;
      if !fits {
        ConfigTells(config, led.configs);
        RemoveOldestStep(fs, led, now);
        r := Do(fs.Remove(which));
      }
    }

    /** The stamp after t: what the clock shows then. It is taken to have moved on. */
    function NextReading(t: Instant): (at: Instant) {
      if clock(t) > t || t == LAST_INSTANT then clock(t) else t + 1
    }

    /** The n-th stamp after t. */
    function Readings(t: Instant, n: nat): Instant
      decreases n
    {
      if n == 0 then t else Readings(NextReading(t), n - 1)
    }

    /** The last stamp once n is finished: a reading of the clock, if the file gets a name. */
    function StampedAt(disk: Fs, n: Work, t: Instant): Instant {
      if disk.Has(n) && !Filed(disk, n) then NextReading(t) else t
    }

    method NextStamp() returns (r: Outcome, at: Instant)
      modifies `now
      ensures r.Alive? ==> old(now) < now == at == NextReading(old(now))
      ensures r.Dead? ==> now == old(now) && MayDie()
    {
      at := now;
      if now == LAST_INSTANT { return Dead, at; }
      at := NextReading(now);
      now := at;
      return Alive, at;
    }

    /** The loop at the end of finish: filesfit until it is content. */
    method Prune() returns (r: Outcome)
      requires DiskSafe() && Known() && NoneFiled(fs)
      modifies `fs
      ensures DiskSafe() && (r.Dead? ==> MayDie())
      ensures r.Alive? ==> fs == old(fs).(logs := Latest(old(fs).logs, config.num))
    {
      ghost var gone := 0;
      while true
        invariant DiskSafe() && NoneFiled(fs)
        invariant gone <= |old(fs).logs| && fs == old(fs).(logs := old(fs).logs[gone..])
        invariant gone == 0 || |fs.logs| >= config.num - 1
        decreases |fs.logs|
      {
        var fits :- FilesFitPass();
        if fits { break; }
        RemoveFirst(old(fs).logs, gone);
        gone := gone + 1;
      }
      return Alive;
    }

    /** finish, up to the link. */
    method FileAway(n: Work, code: string) returns (r: Outcome)
      requires DiskSafe() && MayFinish(fs, led, n, code) && fs.Has(n)
      modifies `fs, `led, `now
      ensures DiskSafe() && old(now) <= now && (r.Dead? ==> MayDie())
      ensures r.Dead? ==> led == old(led)
      ensures r.Alive? ==> led == Settling(old(fs), n, old(led)) && Filed(fs, n)
      ensures r.Alive? ==> fs == old(fs).(logs := Finished(old(fs), n, code, now))
      ensures r.Alive? ==> now == StampedAt(old(fs), n, old(now))
    {
      SoleLinkIsUnfiled(fs, led, now, n);
      if fs.SoleLink(n) {
        r := LinkAway(n, code);
      } else {
        r := Alive;
      }
    }

    /** The link of finish. */
    method LinkAway(n: Work, code: string) returns (r: Outcome)
      requires DiskSafe() && MayFinish(fs, led, n, code) && fs.Has(n) && !Filed(fs, n)
      modifies `fs, `led, `now
      ensures DiskSafe() && old(now) <= now && (r.Dead? ==> MayDie())
      ensures r.Dead? ==> led == old(led)
      ensures r.Alive? ==> led == Settling(old(fs), n, old(led)) && Filed(fs, n)
      ensures r.Alive? ==> fs == old(fs).(logs := Finished(old(fs), n, code, now)) && now == NextReading(old(now))
    {
      var at :- NextStamp();
      ghost var after := Settling(fs, n, led);
      LinkSafe(fs, led, n, old(now), at, code);
      :- Do(fs.Link(n, at, code));
      led := after;
      return Alive;
    }

    /** finish, from the unlink on. */
    method DropName(n: Work) returns (r: Outcome)
      requires DiskSafe() && Known() && Filed(fs, n)
      modifies `fs
      ensures DiskSafe() && (r.Dead? ==> MayDie())
      ensures r.Alive? ==> fs == old(fs).(logs := Latest(old(fs).logs, config.num)).Unlink(n)
    {
      SafeShape(fs, led, now);
      UnlinkFiledStep(fs, led, now, n);
      OnlyOneFiled(fs, n);
      :- Do(fs.Unlink(n));
      :- Prune();
      return Alive;
    }

    method Finish(n: Work, code: string) returns (r: Outcome)
      requires DiskSafe() && Known() && MayFinish(fs, led, n, code)
      modifies `fs, `led, `now
      ensures DiskSafe() && old(now) <= now && (r.Dead? ==> MayDie())
      ensures led == old(led) || led == Settling(old(fs), n, old(led))
      ensures r.Alive? ==> led == Settling(old(fs), n, old(led))
      ensures r.Alive? ==> fs == AfterFinish(old(fs), n, code, now, config.num)
      ensures r.Alive? ==> now == StampedAt(old(fs), n, old(now))
    {
      if fs.Slot(n).None? { return Alive; }
      SafeShape(fs, led, now);
      :- FileAway(n, code);
      r := DropName(n);
    }

    // ---------- rotation ----------

    /** current is empty, whole and open; its inode is the one at work. */
    ghost predicate FreshCurrent()
      reads `fs, `fdcurrent
    {
      && fs.Has(Current) && fs.current == Some(fdcurrent) && !Filed(fs, Current)
      && fs.At(Current) == Inode("", 0, false, "", true)
    }

    /** current is synced and moves out of the way. */
    method MoveAway() returns (r: Outcome)
      requires DiskSafe() && Quiet(fs, led, now) && fs.current == Some(fdcurrent)
      modifies `fs
      ensures DiskSafe() && (r.Dead? ==> MayDie())
      ensures r.Alive? ==>
                && fs.current.None? && fs.processed.None? && fs.Has(Previous) && !Filed(fs, Previous)
                && fs.At(Previous).origin == old(fs).At(Current).data && fs.logs == old(fs).logs
    {
      FsyncQuiet(fs, led, now);
      :- Do(fs.Fsync(Current));
      RotateStep(fs, led, now);
      :- Do(fs.Rename(Current, Previous));
      return Alive;
    }

    /** open_append("current") and its mode, when there is none. */
    method NewCurrent() returns (r: Outcome)
      requires DiskSafe() && fs.current.None?
      modifies `fs, `fdcurrent, `bytes
      ensures DiskSafe() && (r.Dead? ==> MayDie())
      ensures r.Alive? ==> FreshCurrent() && bytes == 0 && fs == old(fs).Open(Current)
      ensures r.Alive? ==> CreatedOnly(old(fs), fs, Current, true)
    {
      OpenCurrentStep(fs, led, now);
      :- Do(fs.Open(Current));
      fdcurrent := fs.current.value;
      bytes := 0;
      assert fs.Chmod(Current, false).inodes == fs.inodes;
      assert fs.Chmod(Current, false) == fs;
      :- Do(fs.Chmod(Current, false));
      return Alive;
    }

    /** One run of the processor, which may write anything in any number of pieces, and its exit
        status, not 0 only if it may fail. What it leaves when it exits 0 stands for the data it
        was fed. */
    method RunOnce(mayFail: bool) returns (r: Outcome, status: nat)
      requires DiskSafe() && fs.Has(Previous) && !Filed(fs, Previous) && AnyProcessor(led.configs)
      requires fs.Has(Processed) ==> !fs.At(Processed).exec
      modifies `fs
      ensures DiskSafe() && (r.Dead? ==> MayDie())
      ensures r.Alive? ==> if status == 0 then OutputFor(old(fs), fs, old(fs).At(Previous).origin)
                           else mayFail && (fs == old(fs) || OutputFor(old(fs), fs, ""))
    {
      status := *;
      if !mayFail { status := 0; }
      var absent: bool := *;
      if absent && status != 0 { return Alive, status; }
      TruncProcessedStep(fs, led, now);
      :- Do(fs.Trunc(Processed));
      :- WritePieces();
      if status == 0 {
        OutputStep(fs, led, now, fs.At(Processed).(origin := fs.At(Previous).origin));
        fs := fs.Edit(Processed, fs.At(Processed).(origin := fs.At(Previous).origin));
      }
      r := Alive;
    }

    /** What the processor writes. */
    method WritePieces() returns (r: Outcome)
      requires DiskSafe() && fs.Has(Processed) && !fs.At(Processed).exec
      requires !fs.At(Processed).raw && !Filed(fs, Processed)
      modifies `fs
      ensures DiskSafe() && (r.Dead? ==> MayDie())
      ensures r.Alive? ==> OutputFor(old(fs), fs, old(fs).At(Processed).origin)
    {
      var pieces: nat := *;
      while pieces > 0
        invariant DiskSafe() && OutputFor(old(fs), fs, old(fs).At(Processed).origin)
        decreases pieces
      {
        var bytes: string := *;
        OutputStep(fs, led, now, fs.Output(Processed, bytes).At(Processed));
        :- Do(fs.Output(Processed, bytes));
        pieces := pieces - 1;
      }
      return Alive;
    }

    /** The processor is run until it exits 0; how often it fails is up to the world. */
    method RunProcessor() returns (r: Outcome)
      requires DiskSafe() && fs.Has(Previous) && !Filed(fs, Previous) && AnyProcessor(led.configs)
      requires fs.processed.None?
      modifies `fs
      ensures DiskSafe() && (r.Dead? ==> MayDie())
      ensures r.Alive? ==> OutputFor(old(fs), fs, old(fs).At(Previous).origin)
    {
      var failures: nat := *;
      var status;
      r, status := RunOnce(failures > 0);
      if r.Dead? { return; }
      while status != 0
        invariant DiskSafe() && (status != 0 ==> failures > 0)
        invariant if status == 0 then OutputFor(old(fs), fs, old(fs).At(Previous).origin)
                  else fs == old(fs) || OutputFor(old(fs), fs, "")
        decreases status != 0, failures
      {
        failures := failures - 1;
        r, status := RunOnce(failures > 0);
        if r.Dead? { return; }
      }
      r := Alive;
    }

    /** The output is synced and marked; only then does the raw data go. */
    method Commit() returns (r: Outcome)
      requires DiskSafe() && fs.Has(Previous) && !Filed(fs, Previous)
      requires fs.Has(Processed) && !fs.At(Processed).exec && !Filed(fs, Processed)
      requires fs.At(Processed).origin == fs.At(Previous).origin
      modifies `fs
      ensures DiskSafe() && (r.Dead? ==> MayDie())
      ensures r.Alive? ==> fs.previous.None? && Marked(old(fs), fs)
    {
      r := MarkOutput();
      if r.Dead? { return; }
      DropPreviousStep(fs, led, now);
      :- Do(fs.Unlink(Previous));
      return Alive;
    }

    method MarkOutput() returns (r: Outcome)
      requires DiskSafe() && fs.Has(Previous) && !Filed(fs, Previous)
      requires fs.Has(Processed) && !fs.At(Processed).exec && !Filed(fs, Processed)
      requires fs.At(Processed).origin == fs.At(Previous).origin
      modifies `fs
      ensures DiskSafe() && (r.Dead? ==> MayDie())
      ensures r.Alive? ==> Marked(old(fs), fs)
    {
      FsyncStep(fs, led, now, Processed);
      :- Do(fs.Fsync(Processed));
      CommitStep(fs, led, now);
      :- Do(fs.Chmod(Processed, true));
      return Alive;
    }

    /** A fresh current, and the data rotated out of the old one under a working name n. */
    ghost predicate Switched(n: Work, content: string, olds: seq<Entry>)
      reads `fs, `fdcurrent, `bytes
    {
      && FreshCurrent() && bytes == 0 && n != Current && fs.logs == olds
      && fs.Has(n) && !Filed(fs, n) && fs.At(n).origin == content && fs.At(n).exec
    }

    /** fullcurrent, up to the mode of previous. */
    method Switch() returns (r: Outcome)
      requires DiskSafe() && Quiet(fs, led, now) && fs.current == Some(fdcurrent)
      modifies `fs, `fdcurrent, `bytes
      ensures DiskSafe() && (r.Dead? ==> MayDie())
      ensures r.Alive? ==> Switched(Previous, old(fs).At(Current).data, old(fs).logs) && fs.processed.None?
    {
      r := MoveAway();
      if r.Dead? { return; }
      :- NewCurrent();
      ChmodPreviousStep(fs, led, now);
      :- Do(fs.Chmod(Previous, true));
      return Alive;
    }

    /** The finish call of fullcurrent. */
    method FinishRotated(n: Work, ghost content: string, ghost olds: seq<Entry>) returns (r: Outcome)
      requires DiskSafe() && Known() && Switched(n, content, olds)
      requires if config.processor then n == Processed && fs.previous.None?
               else n == Previous && fs.processed.None?
      modifies `fs, `led, `now
      ensures DiskSafe() && old(now) <= now && (r.Dead? ==> MayDie())
      ensures led == old(led) || led == old(led).(settled := old(led).settled + [content])
      ensures r.Alive? ==> led == old(led).(settled := old(led).settled + [content])
      ensures r.Alive? ==> InStep() && FreshCurrent() && bytes == 0 && FiledAs(fs, config, content, olds)
      ensures r.Alive? ==> now == NextReading(old(now)) && Newest(fs, now)
    {
      ConfigTells(config, led.configs);
      SafeShape(fs, led, now);
      r := Finish(n, config.code);
      if r.Dead? { return; }
      RotatedIsFiled(old(fs), n, now, config, fs);
      MakesQuiet();
    }

    method FullCurrent(ghost forced: bool) returns (r: Outcome)
      requires InStep() && OnRecord() && (forced ==> alarmed)
      requires forced || WellRotated(Rotation(fs.At(Current).data, base, short, false, config.size))
      modifies `fs, `now, `fdcurrent, `bytes, `led, `base, `short, `rotated, `asked
      ensures DiskSafe() && old(now) <= now && (r.Dead? ==> MayDie())
      ensures r.Alive? ==> asked == old(asked) + if forced then 1 else 0
      ensures led == old(led) || led == old(led).(settled := old(led).settled + [old(fs).At(Current).data])
      ensures r.Alive? ==> led == old(led).(settled := old(led).settled + [old(fs).At(Current).data])
      ensures r.Alive? ==> Running() && bytes == base == 0 && RotatedOut(old(fs), fs, config)
      ensures r.Alive? ==> now == NextReading(old(now)) && Newest(fs, now)
      ensures r.Alive? ==>
                var data := old(fs).At(Current).data;
                rotated == old(rotated) + [Rotation(data, old(base), old(short), forced, config.size)]
    {
      ghost var rotation := Rotation(fs.At(Current).data, base, short, forced, config.size);
      assert AllWellRotated(rotated + [rotation], partial, alarmed);
      :- Rotate();
      Record(rotation);
      return Alive;
    }

    ghost method Record(rotation: Rotation)
      requires WellRotated(rotation) && FreshCurrent() && bytes == 0
      requires AllWellRotated(rotated + [rotation], partial, alarmed) && asked == Asked(rotated)
      modifies `rotated, `base, `short, `asked
      ensures InBounds() && rotated == old(rotated) + [rotation] && base == 0
      ensures asked == old(asked) + if rotation.forced then 1 else 0
    {
      AskedMore(rotated, rotation);
      asked := asked + if rotation.forced then 1 else 0;
      rotated := rotated + [rotation];
      base, short := 0, false;
    }

    /** All that fullcurrent does on the disk. */
    method Rotate() returns (r: Outcome)
      requires InStep()
      modifies `fs, `now, `fdcurrent, `bytes, `led
      ensures DiskSafe() && old(now) <= now && (r.Dead? ==> MayDie())
      ensures led == old(led) || led == old(led).(settled := old(led).settled + [old(fs).At(Current).data])
      ensures r.Alive? ==> led == old(led).(settled := old(led).settled + [old(fs).At(Current).data])
      ensures r.Alive? ==> InStep() && FreshCurrent() && bytes == 0
      ensures r.Alive? ==> FiledAs(fs, config, old(fs).At(Current).data, old(fs).logs)
      ensures r.Alive? ==> now == NextReading(old(now)) && Newest(fs, now)
    {
      ghost var content, olds := fs.At(Current).data, fs.logs;
      :- Switch();
      if !config.processor {
        r := FinishRotated(Previous, content, olds);
      } else {
        ConfigTells(config, led.configs);
        :- Process(content, olds);
        r := FinishRotated(Processed, content, olds);
      }
    }

    /** The processor's part of fullcurrent: previous is replaced by processed. */
    method Process(ghost content: string, ghost olds: seq<Entry>) returns (r: Outcome)
      requires DiskSafe() && Switched(Previous, content, olds) && fs.processed.None? && AnyProcessor(led.configs)
      modifies `fs
      ensures DiskSafe() && (r.Dead? ==> MayDie())
      ensures r.Alive? ==> Switched(Processed, content, olds) && fs.previous.None?
    {
      r := RunProcessor();
      if r.Dead? { return; }
      r := Commit();
    }

    // ---------- writing ----------

    /** write(2) to current of the first bytes of buf: any positive number of them is taken, and all
        if writes are not short. */
    method WriteCurrent(buf: string, len: nat) returns (r: Outcome, w: nat)
      requires InStep() && 1 <= len <= |buf|
      modifies `fs, `bytes, `led, `short
      ensures DiskSafe() && (r.Dead? ==> MayDie())
      ensures r.Dead? ==> led == old(led)
      ensures r.Alive? ==> InStep() && 1 <= w <= len && fs.At(Current).data == old(fs).At(Current).data + buf[..w]
      ensures r.Alive? ==> led == Took(old(led), buf[..w]) && LogsKept(old(fs), fs)
      ensures r.Alive? ==> short == (old(short) || w < len) && (w < len ==> partial)
    {
      w := *;
      if w < 1 || w > len || !partial { w := len; }
      AppendStep(fs, led, now, buf[..w]);
      :- Do(fs.Append(Current, buf[..w]));
      led := Took(led, buf[..w]);
      bytes := bytes + w;
      short := short || w < len;
      return Alive, w;
    }

    /** How much of buf c_write offers to write: no more than fits, and close to the end of the
        file no more than whole lines, if there is a line end. */
    method Offer(buf: string) returns (len: nat)
      requires buf != "" && bytes < config.size && config.size >= 4096
      ensures WellOffered(buf, len, bytes, config.size)
    {
      len := |buf|;
      if len >= config.size - bytes {
        len := config.size - bytes;
      }
      if bytes + len >= config.size - 2000 {
        var k := ByteRchr(buf[..len], '\n');
        if k < len {
          assert buf[..len][k] == buf[k];
          assert buf[k + 1..len] == buf[..len][k + 1..];
          len := k + 1;
        }
      }
    }

    /** The middle part of c_write. Only a file that now ends at a late newline is left out of bounds. */
    method WriteSome(buf: string) returns (r: Outcome, w: nat)
      requires Running() && buf != "" && bytes < config.size
      modifies `fs, `bytes, `led, `short
      ensures DiskSafe() && (r.Dead? ==> MayDie())
      ensures r.Dead? ==> led == old(led)
      ensures r.Alive? ==> InStep() && 1 <= w <= |buf| && led == Took(old(led), buf[..w]) && LogsKept(old(fs), fs)
      ensures r.Alive? ==> EndsLine(fs.At(Current).data) == (buf[w - 1] == '\n')
      ensures r.Alive? ==> OnRecord()
      ensures r.Alive? && !(bytes >= config.size - 2000 && buf[w - 1] == '\n') ==> InBounds()
    {
      var len := Offer(buf);
      ghost var before := fs.At(Current).data;
      r, w := WriteCurrent(buf, len);
      if r.Dead? { return r, w; }
      LastTaken(before, buf, w);
      BoundsKept(before, buf, len, w);
      return Alive, w;
    }

    lemma BoundsKept(before: string, buf: string, len: nat, w: nat)
      requires config.size >= 4096 && WellOffered(buf, len, |before|, config.size) && 1 <= w <= len
      requires fs.Has(Current) && fs.At(Current).data == before + buf[..w] && bytes == |before| + w
      requires OnRecord() && base <= |before| && (w < len ==> short)
      requires !short && base == 0 ==> NoLateNewline(before, config.size)
      ensures !(bytes >= config.size - 2000 && buf[w - 1] == '\n') ==> InBounds()
    {
      LateNewline(before, buf, len, w, config.size);
    }

    /** The first rotation of c_write: current was full already. */
    method MakeRoom() returns (r: Outcome, ghost done: seq<Rotation>)
      requires Running()
      modifies `fs, `now, `fdcurrent, `bytes, `led, `base, `short, `rotated, `asked
      ensures DiskSafe() && old(now) <= now && SettledMore(old(led), led) && (r.Dead? ==> MayDie())
      ensures r.Alive? ==> Running() && bytes < config.size
      ensures r.Alive? ==> asked == old(asked) && Stamped(fs, done, old(now), now)
      ensures r.Alive? ==> Unasked(done, old(base), partial) && base == if done == [] then old(base) else 0
      ensures r.Alive? ==> RotatedThrough(old(rotated), rotated, done, old(fs), fs, config, old(led), led)
    {
      done := [];
      RotatedNever(rotated, fs, config, led);
      if bytes >= config.size {
        ghost var rotation := Rotation(fs.At(Current).data, base, short, false, config.size);
        r := FullCurrent(false);
        if r.Dead? { return; }
        done := [rotation];
        RotatedOnce(old(rotated), rotation, old(fs), fs, config, old(led));
      } else {
        r := Alive;
      }
    }

    /** The second rotation of c_write, right after a write that ended in last. */
    method RotateAtLine(last: char) returns (r: Outcome, ghost done: seq<Rotation>)
      requires InStep() && OnRecord() && EndsLine(fs.At(Current).data) == (last == '\n')
      requires !(bytes >= config.size - 2000 && last == '\n') ==> InBounds()
      modifies `fs, `now, `fdcurrent, `bytes, `led, `base, `short, `rotated, `asked
      ensures DiskSafe() && old(now) <= now && SettledMore(old(led), led) && (r.Dead? ==> MayDie())
      ensures r.Alive? ==> Running() && (done == [] ==> fs == old(fs))
      ensures r.Alive? ==> Unasked(done, old(base), partial) && asked == old(asked)
      ensures r.Alive? ==> Stamped(fs, done, old(now), now)
      ensures r.Alive? ==> RotatedThrough(old(rotated), rotated, done, old(fs), fs, config, old(led), led)
    {
      r, done := Alive, [];
      RotatedNever(rotated, fs, config, led);
      if bytes >= config.size - 2000 {
        if last == '\n' {
          ghost var rotation := Rotation(fs.At(Current).data, base, short, false, config.size);
          r := FullCurrent(false);
          if r.Dead? { return; }
          done := [rotation];
          RotatedOnce(old(rotated), rotation, old(fs), fs, config, old(led));
        }
      }
    }

    /** One reading of the clock per rotation; the newest old log bears the last. */
    ghost predicate Stamped(disk: Fs, done: seq<Rotation>, before: Instant, after: Instant) {
      after == Readings(before, |done|) && (done != [] ==> Newest(disk, after))
    }

    lemma StampedTwice(mid: Fs, after: Fs, first: seq<Rotation>, second: seq<Rotation>,
                       t: Instant, t': Instant, t'': Instant)
      requires Stamped(mid, first, t, t') && Stamped(after, second, t', t'')
      requires second == [] ==> LogsKept(mid, after)
      ensures Stamped(after, first + second, t, t'')
    {
      ReadingsAdd(t, |first|, |second|);
    }

    lemma {:induction false} ReadingsAdd(t: Instant, m: nat, n: nat)
      ensures Readings(Readings(t, m), n) == Readings(t, m + n)
      decreases m
    {
      if m > 0 { ReadingsAdd(NextReading(t), m - 1, n); }
    }

    /** c_write. took is what of buf was written, by a process that dies too; done are the
        rotations on the way. */
    method CWrite(buf: string) returns (r: Outcome, w: nat, ghost took: string, ghost done: seq<Rotation>)
      requires Condition() == Serving && buf != ""
      modifies `fs, `now, `fdcurrent, `bytes, `led, `base, `short, `rotated, `asked
      ensures Condition() != Ruined && old(now) <= now && (r.Dead? ==> MayDie())
      ensures took <= buf && SettledMore(Took(old(led), took), led)
      ensures r.Alive? ==> Condition() == Serving && 1 <= w <= |buf| && took == buf[..w]
      ensures r.Alive? ==> Unasked(done, old(base), partial) && asked == old(asked)
      ensures r.Alive? ==> Stamped(fs, done, old(now), now)
      ensures r.Alive? ==>
                RotatedThrough(old(rotated), rotated, done, old(fs), fs, config, Took(old(led), took), led)
    {
      w, took := 0, "";
      assert Took(old(led), "") == old(led);
      ghost var more;
      r, done := MakeRoom();
      if r.Dead? { return; }
      ghost var rotated1, fs1, led1, now1 := rotated, fs, led, now;
      r, w, took, more := WriteAndRotate(buf);
      if r.Dead? { return; }
      RotatedThenTook(old(rotated), rotated1, done, old(fs), fs1, config, old(led), led1, took);
      RotatedTwice(old(rotated), rotated1, rotated, done, more, old(fs), fs1, fs, config,
                   Took(old(led), took), Took(led1, took), led);
      UnaskedTwice(done, more, old(base), if done == [] then old(base) else 0, partial);
      StampedTwice(fs1, fs, done, more, old(now), now1, now);
      done := done + more;
    }

    /** The rest of c_write, once there is room. */
    method WriteAndRotate(buf: string) returns (r: Outcome, w: nat, ghost took: string, ghost done: seq<Rotation>)
      requires Running() && buf != "" && bytes < config.size
      modifies `fs, `now, `fdcurrent, `bytes, `led, `base, `short, `rotated, `asked
      ensures DiskSafe() && old(now) <= now && (r.Dead? ==> MayDie())
      ensures took <= buf && SettledMore(Took(old(led), took), led)
      ensures r.Alive? ==> Running() && 1 <= w <= |buf| && took == buf[..w]
      ensures r.Alive? ==> Unasked(done, old(base), partial) && asked == old(asked)
      ensures r.Alive? ==> Stamped(fs, done, old(now), now)
      ensures r.Alive? ==>
                RotatedThrough(old(rotated), rotated, done, old(fs), fs, config, Took(old(led), took), led)
      ensures r.Alive? && done == [] ==> LogsKept(old(fs), fs)
    {
      took, done := "", [];
      assert Took(led, "") == led;
      r, w := WriteSome(buf);
      if r.Dead? { return; }
      took := buf[..w];
      ghost var fs1, led1 := fs, led;
      r, done := RotateAtLine(buf[w - 1]);
      if r.Dead? { return; }
      WroteThenRotated(old(rotated), rotated, done, old(fs), fs1, fs, config, led1, led);
    }

    // ---------- stopping and starting ----------

    /** The rotation that a signal asks for. */
    method ForceRotation() returns (r: Outcome)
      requires Condition() == Serving && bytes > 0 && alarmed
      modifies `fs, `now, `fdcurrent, `bytes, `led, `base, `short, `rotated, `asked
      ensures Condition() != Ruined && old(now) <= now && SettledMore(old(led), led) && (r.Dead? ==> MayDie())
      ensures r.Alive? ==> Condition() == Serving && bytes == 0 && RotatedOut(old(fs), fs, config)
      ensures r.Alive? ==> now == NextReading(old(now)) && Newest(fs, now)
      ensures r.Alive? ==> asked == old(asked) + 1 && |rotated| == |old(rotated)| + 1 && old(rotated) <= rotated
    {
      r := FullCurrent(true);
    }

    /** c_quit for this log, once its buffer is flushed. */
    method CQuit() returns (r: Outcome)
      requires Condition() == Serving
      modifies `fs
      ensures Condition() != Ruined && (r.Dead? ==> MayDie())
      ensures r.Alive? ==> Clean() && LeftClean(old(fs), fs)
    {
      FsyncQuiet(fs, led, now);
      :- Do(fs.Fsync(Current));
      CleanExitStep(fs, led, now);
      :- Do(fs.Chmod(Current, true));
      return Alive;
    }

    /** restart after a clean exit: current goes on. */
    method Resume() returns (r: Outcome)
      requires Clean() && Known()
      modifies `fs, `fdcurrent, `bytes
      ensures DiskSafe() && (r.Dead? ==> MayDie())
      ensures r.Alive? ==> InStep() && fs == old(fs).Chmod(Current, false)
    {
      var st := fs.At(Current);
      SafeShape(fs, led, now);
      ChmodCurrentStep(fs, led, now);
      :- Do(fs.Chmod(Current, false));
      fdcurrent := fs.current.value;
      bytes := |st.data|;
      return Alive;
    }

    lemma MakesQuiet()
      requires DiskSafe() && FreshCurrent() && fs.previous.None? && fs.processed.None?
      ensures Quiet(fs, led, now)
    {
    }

    /** The processor's output was committed: it becomes an old log, and the raw data goes. */
    method RecoverOutput() returns (r: Outcome)
      requires DiskSafe() && Known() && fs.Has(Processed) && fs.At(Processed).exec
      modifies `fs, `led, `now
      ensures DiskSafe() && old(now) <= now && (r.Dead? ==> MayDie())
      ensures led == old(led) || led == SalvagedLedger(old(fs), old(led))
      ensures r.Alive? ==> led == SalvagedLedger(old(fs), old(led)) && fs == Salvaged(old(fs), config, now)
      ensures r.Alive? ==> now == StampedAt(Sorted(old(fs)), Salvage(old(fs)), old(now))
    {
      DropPreviousStep(fs, led, now);
      :- Do(fs.Unlink(Previous));
      r := Finish(Processed, config.code);
    }

    /** No output was committed: it goes, and the raw data becomes an old log. */
    method RecoverRaw() returns (r: Outcome)
      requires DiskSafe() && Known() && !(fs.Has(Processed) && fs.At(Processed).exec)
      modifies `fs, `led, `now
      ensures DiskSafe() && old(now) <= now && (r.Dead? ==> MayDie())
      ensures led == old(led) || led == SalvagedLedger(old(fs), old(led))
      ensures r.Alive? ==> led == SalvagedLedger(old(fs), old(led)) && fs == Salvaged(old(fs), config, now)
      ensures r.Alive? ==> now == StampedAt(Sorted(old(fs)), Salvage(old(fs)), old(now))
    {
      DropProcessedStep(fs, led, now);
      :- Do(fs.Unlink(Processed));
      r := Finish(Previous, UNFINISHED);
    }

    /** The two stamps that restart after an outage may take: readings of the clock, one for each
        file that gets a name. */
    ghost predicate ReadAt(disk: Fs, c: Config, before: Instant, first: Instant, second: Instant)
      requires c.num > 0
    {
      && first == StampedAt(Sorted(disk), Salvage(disk), before)
      && second == StampedAt(Salvaged(disk, c, first), Current, first)
    }

    /** restart after an outage. */
    method Recover() returns (r: Outcome, ghost first: Instant)
      requires DiskSafe() && Known() && !Clean()
      modifies `fs, `led, `now, `fdcurrent, `bytes
      ensures DiskSafe() && old(now) <= now && (r.Dead? ==> MayDie()) && SettledMore(old(led), led)
      ensures r.Alive? ==> InStep() && bytes == 0 && Flat(led.settled) == led.accepted
      ensures r.Alive? ==> fs == Recovered(old(fs), config, first, now)
      ensures r.Alive? ==> led == RecoveredLedger(old(fs), config, first, old(led))
      ensures r.Alive? ==> ReadAt(old(fs), config, old(now), first, now)
    {
      SafeShape(fs, led, now);
      SalvageSettles(fs, led);
      if fs.Has(Processed) && fs.At(Processed).exec {
        r := RecoverOutput();
      } else {
        r := RecoverRaw();
      }
      first := now;
      if r.Dead? { return; }
      SalvagedShape(old(fs), config, now);
      r := RecoverCurrent();
    }

    /** The rest of restart after an outage: current becomes an old log and a new one is made. */
    method RecoverCurrent() returns (r: Outcome)
      requires DiskSafe() && Known() && fs.previous.None? && fs.processed.None?
      requires fs.Has(Current) ==> !fs.At(Current).exec
      modifies `fs, `led, `now, `fdcurrent, `bytes
      ensures DiskSafe() && old(now) <= now && (r.Dead? ==> MayDie()) && SettledMore(old(led), led)
      ensures r.Alive? ==> InStep() && FreshCurrent() && bytes == 0 && Flat(led.settled) == led.accepted
      ensures r.Alive? ==> fs == AfterFinish(old(fs), Current, UNFINISHED, now, config.num).Open(Current)
      ensures r.Alive? ==> led == Settling(old(fs), Current, old(led))
      ensures r.Alive? ==> now == StampedAt(old(fs), Current, old(now))
    {
      r := FinishCurrent();
      if r.Dead? { return; }
      :- NewCurrent();
      MakesQuiet();
      return Alive;
    }

    /** The finish call of that. */
    method FinishCurrent() returns (r: Outcome)
      requires DiskSafe() && Known() && fs.previous.None? && fs.processed.None?
      requires fs.Has(Current) ==> !fs.At(Current).exec
      modifies `fs, `led, `now
      ensures DiskSafe() && old(now) <= now && (r.Dead? ==> MayDie()) && SettledMore(old(led), led)
      ensures r.Alive? ==> fs.current.None? && fs.previous.None? && fs.processed.None?
      ensures r.Alive? ==> Flat(led.settled) == led.accepted
      ensures r.Alive? ==> fs == AfterFinish(old(fs), Current, UNFINISHED, now, config.num)
      ensures r.Alive? ==> led == Settling(old(fs), Current, old(led))
      ensures r.Alive? ==> now == StampedAt(old(fs), Current, old(now))
    {
      r := Finish(Current, UNFINISHED);
      if r.Alive? { AllSettled(fs, led, now); }
    }

    method Restart(c: Config) returns (r: Outcome, ghost first: Instant)
      requires DiskSafe() && Configured(c)
      modifies this
      ensures DiskSafe() && old(now) <= now && (r.Dead? ==> MayDie())
      ensures SettledMore(old(led).(configs := old(led).configs + [c]), led)
      ensures r.Alive? ==> Running() && config == c && rotated == [] && base == bytes
      ensures r.Alive? && old(Clean()) ==>
                fs == old(fs).Chmod(Current, false) && led == old(led).(configs := old(led).configs + [c])
      ensures r.Alive? && !old(Clean()) ==>
                && bytes == 0 && Flat(led.settled) == led.accepted && fs == Recovered(old(fs), c, first, now)
                && led == RecoveredLedger(old(fs), c, first, old(led).(configs := old(led).configs + [c]))
                && ReadAt(old(fs), c, old(now), first, now)
    {
      config, first := c, now;
      ConfigStep(fs, led, now, c);
      led := led.(configs := led.configs + [c]);
      if fs.Has(Current) && fs.At(Current).exec {
        :- Resume();
      } else {
        r, first := Recover();
        if r.Dead? { return; }
      }
      NewBounds();
      return Alive, first;
    }

    /** For users of the log. */
    lemma RecordKept()
      requires Condition() == Serving
      ensures AllWellRotated(rotated, partial, alarmed)
    {
    }

    ghost method NewBounds()
      requires fs.Has(Current) && bytes == |fs.At(Current).data|
      modifies `base, `short, `rotated, `asked
      ensures InBounds() && base == bytes && rotated == []
    {
      base, short, rotated, asked := bytes, false, [], 0;
    }

    /** A power failure, while no process is at work. */
    method PowerFailure()
      requires DiskSafe()
      modifies `fs, `led
      ensures DiskSafe() && led == old(led).(cut := true) && Survives(old(fs), fs)
    {
      SurvivesItself(fs);
      var after: Fs := *;
      if !Survives(fs, after) { after := fs; }
      PowerCutStep(fs, led, now, after);
      fs := after;
      led := led.(cut := true);
    }
  }

  lemma SurvivesItself(fs: Fs)
    ensures Survives(fs, fs)
  {
  }

  // ---------- what finish does ----------

  /** Who may be finished with which code: what current is linked as may have been truncated,
      processor output is never called unfinished, and log data only without a processor called
      anything else. */
  predicate MayFinish(fs: Fs, led: Ledger, n: Work, code: string) {
    match n
    case Current =>
      && code == UNFINISHED && fs.previous.None? && fs.processed.None?
      && (fs.Has(Current) ==> !fs.At(Current).exec)
    case Previous =>
      && fs.processed.None?
      && (code == UNFINISHED || (AnyPlain(led.configs) && (fs.Has(Previous) ==> fs.At(Previous).exec)))
    case Processed =>
      code != UNFINISHED && fs.previous.None? && (fs.Has(Processed) ==> fs.At(Processed).exec)
  }

  /** The old logs once n is finished, before pruning. */
  function Finished(disk: Fs, n: Work, code: string, at: Instant): seq<Entry> {
    if Filed(disk, n) || !disk.Has(n) then disk.logs else disk.logs + [Entry(at, code, disk.Slot(n).value)]
  }

  /** The directory once n is finished. */
  function AfterFinish(disk: Fs, n: Work, code: string, at: Instant, num: nat): Fs
    requires num > 0
  {
    if disk.Slot(n).None? then disk
    else disk.(logs := Latest(Finished(disk, n, code, at), num)).Unlink(n)
  }

  /** What finish does to the ledger: a file without another name joins the finished ones. */
  function Settling(disk: Fs, n: Work, l: Ledger): Ledger {
    if Filed(disk, n) || !disk.Has(n) then l else l.(settled := l.settled + [disk.At(n).origin])
  }

  /** All that the link of finish does. */
  lemma LinkSafe(disk: Fs, l: Ledger, n: Work, before: Instant, at: Instant, code: string)
    requires Safe(disk, l, before) && before < at
    requires MayFinish(disk, l, n, code) && disk.Has(n) && !Filed(disk, n)
    ensures Safe(disk, l, at) && Safe(disk.Link(n, at, code), Settling(disk, n, l), at)
    ensures disk.Link(n, at, code) == disk.(logs := Finished(disk, n, code, at)) && Filed(disk.Link(n, at, code), n)
  {
    LinkStep(disk, l, before, n, at, code);
  }

  /** The configuration that a process runs with is among those remembered. */
  lemma ConfigTells(c: Config, configs: seq<Config>)
    requires configs != [] && configs[|configs| - 1] == c
    ensures if c.processor then AnyProcessor(configs) else AnyPlain(configs)
    ensures forall n: nat :: c.num <= n + 1 ==> Kept(n, configs)
  {
    var i := |configs| - 1;
    assert configs[i].processor == c.processor;
    forall n: nat | c.num <= n + 1
      ensures Kept(n, configs)
    {
      assert configs[i].num <= n + 1;
    }
  }

  // ---------- what restart does ----------

  /** The working name that holds the rotated data, and the code for it. */
  function Salvage(disk: Fs): Work {
    if disk.Has(Processed) && disk.At(Processed).exec then Processed else Previous
  }

  function SalvageCode(disk: Fs, c: Config): string {
    if Salvage(disk) == Processed then c.code else UNFINISHED
  }

  /** Without the other of the two names. */
  function Sorted(disk: Fs): Fs {
    disk.Unlink(if Salvage(disk) == Processed then Previous else Processed)
  }

  /** The directory once the rotated data is an old log. */
  function Salvaged(disk: Fs, c: Config, at: Instant): Fs
    requires c.num > 0
  {
    AfterFinish(Sorted(disk), Salvage(disk), SalvageCode(disk, c), at, c.num)
  }

  function SalvagedLedger(disk: Fs, l: Ledger): Ledger {
    Settling(Sorted(disk), Salvage(disk), l)
  }

  /** The directory after restart: rotated data and current have become old logs, with stamps
      first and second if they were none yet, and there is a new current. */
  function Recovered(disk: Fs, c: Config, first: Instant, second: Instant): Fs
    requires c.num > 0
  {
    AfterFinish(Salvaged(disk, c, first), Current, UNFINISHED, second, c.num).Open(Current)
  }

  function RecoveredLedger(disk: Fs, c: Config, first: Instant, l: Ledger): Ledger
    requires c.num > 0
  {
    Settling(Salvaged(disk, c, first), Current, SalvagedLedger(disk, l))
  }

  lemma SalvageSettles(disk: Fs, l: Ledger)
    ensures SettledMore(l, SalvagedLedger(disk, l))
  {
  }

  /** What is left for the rest of restart. */
  lemma SalvagedShape(disk: Fs, c: Config, at: Instant)
    requires WellFormed(disk) && Modes(disk) && c.num > 0 && !(disk.Has(Current) && disk.At(Current).exec)
    ensures var mid := Salvaged(disk, c, at);
            && mid.previous.None? && mid.processed.None? && mid.current == disk.current && mid.inodes == disk.inodes
  {
  }

  /** A working file as a list: one chunk, unless there is none or an old log already has it. */
  function Chunk(disk: Fs, n: Work): seq<string> {
    if disk.Has(n) && !Filed(disk, n) then [disk.At(n).origin] else []
  }

  /** The name that a chunk gets as an old log. */
  function Named(disk: Fs, n: Work, code: string, at: Instant): seq<Entry> {
    if disk.Has(n) && !Filed(disk, n) then [Entry(at, code, disk.Slot(n).value)] else []
  }

  /** restart finishes the rotated data and current, each at most once and each as one old log:
      processed output with the finished code, raw data as unfinished. Then old logs are pruned. */
  lemma EachChunkOnce(disk: Fs, led: Ledger, now: Instant, c: Config, first: Instant, second: Instant)
    requires Safe(disk, led, now) && Configured(c) && !(disk.Has(Current) && disk.At(Current).exec)
    ensures RecoveredLedger(disk, c, first, led).settled
            == led.settled + Chunk(disk, Salvage(disk)) + Chunk(disk, Current)
    ensures Recovered(disk, c, first, second).logs
            == if disk.Slot(Salvage(disk)).None? && disk.current.None? then disk.logs
               else Latest(disk.logs + Named(disk, Salvage(disk), SalvageCode(disk, c), first)
                           + Named(disk, Current, UNFINISHED, second), c.num)
  {
    assert WellFormed(disk) && Ordered(disk) && Modes(disk) by { assert Opened(Key); }
    SortedShape(disk);
    SalvagedShape(disk, c, first);
    CurrentStaysFiled(disk, c, first);
    EachChunkSettled(disk, led, c, first);
    EachChunkNamed(disk, c, first, second);
  }

  lemma EachChunkNamed(disk: Fs, c: Config, first: Instant, second: Instant)
    requires WellFormed(disk) && Modes(disk) && c.num >= 2 && !(disk.Has(Current) && disk.At(Current).exec)
    requires Filed(Salvaged(disk, c, first), Current) == Filed(disk, Current)
    ensures Recovered(disk, c, first, second).logs
            == if disk.Slot(Salvage(disk)).None? && disk.current.None? then disk.logs
               else Latest(disk.logs + Named(disk, Salvage(disk), SalvageCode(disk, c), first)
                           + Named(disk, Current, UNFINISHED, second), c.num)
  {
    SortedShape(disk);
    SalvagedShape(disk, c, first);
    var n, code, mid := Salvage(disk), SalvageCode(disk, c), Salvaged(disk, c, first);
    FinishNames(Sorted(disk), n, code, first, c.num);
    FinishNames(mid, Current, UNFINISHED, second, c.num);
    LatestTwice(disk.logs + Named(disk, n, code, first), Named(disk, Current, UNFINISHED, second), c.num);
    assert disk.logs + [] == disk.logs;
  }

  lemma FinishNames(disk: Fs, n: Work, code: string, at: Instant, num: nat)
    requires num >= 2 && (disk.Slot(n).Some? ==> disk.Has(n))
    ensures AfterFinish(disk, n, code, at, num).logs
            == if disk.Slot(n).None? then disk.logs else Latest(disk.logs + Named(disk, n, code, at), num)
  {
    assert disk.logs + [] == disk.logs;
  }

  lemma LatestTwice(a: seq<Entry>, b: seq<Entry>, num: nat)
    requires num >= 2 && |b| <= 1
    ensures Latest(Latest(a, num) + b, num) == Latest(a + b, num)
    ensures Latest(Latest(a, num), num) == Latest(a, num)
  {
  }

  lemma EachChunkSettled(disk: Fs, led: Ledger, c: Config, first: Instant)
    requires c.num > 0 && Chunk(Sorted(disk), Salvage(disk)) == Chunk(disk, Salvage(disk))
    requires Chunk(Salvaged(disk, c, first), Current) == Chunk(disk, Current)
    ensures RecoveredLedger(disk, c, first, led).settled
            == led.settled + Chunk(disk, Salvage(disk)) + Chunk(disk, Current)
  {
    ChunkSettles(Sorted(disk), Salvage(disk), led);
    ChunkSettles(Salvaged(disk, c, first), Current, SalvagedLedger(disk, led));
  }

  lemma ChunkSettles(disk: Fs, n: Work, l: Ledger)
    ensures Settling(disk, n, l).settled == l.settled + Chunk(disk, n)
  {
  }

  lemma SortedShape(disk: Fs)
    requires WellFormed(disk) && Modes(disk)
    ensures var n := Salvage(disk);
            && Sorted(disk).Slot(n) == disk.Slot(n) && Sorted(disk).Has(n) == disk.Has(n)
            && Filed(Sorted(disk), n) == Filed(disk, n) && Sorted(disk).logs == disk.logs
            && Sorted(disk).inodes == disk.inodes && Sorted(disk).current == disk.current
            && Chunk(Sorted(disk), n) == Chunk(disk, n)
  {
  }

  lemma CurrentStaysFiled(disk: Fs, c: Config, at: Instant)
    requires WellFormed(disk) && Ordered(disk) && Modes(disk) && c.num > 1
    requires !(disk.Has(Current) && disk.At(Current).exec)
    ensures Filed(Salvaged(disk, c, at), Current) == Filed(disk, Current)
    ensures Chunk(Salvaged(disk, c, at), Current) == Chunk(disk, Current)
  {
    SortedShape(disk);
    SalvagedShape(disk, c, at);
  }

  /** Only the uncommitted output is different, and it stands for the given data. */
  predicate OutputFor(before: Fs, after: Fs, origin: string) {
    OutputOnly(before, after) && after.At(Processed).origin == origin
  }

  // ---------- what rotation does ----------

  /** Rotated data under a working name, once it is finished. */
  lemma RotatedIsFiled(disk: Fs, n: Work, at: Instant, config: Config, after: Fs)
    requires WellFormed(disk) && disk.Has(n) && !Filed(disk, n) && Whole(disk.At(n)) && disk.At(n).exec
    requires disk.At(n).raw == !config.processor
    requires config.num >= 2 && after == AfterFinish(disk, n, config.code, at, config.num)
    ensures FiledAs(after, config, disk.At(n).origin, disk.logs)
    ensures forall m: Work :: m != n && disk.Has(m) ==>
              after.Slot(m) == disk.Slot(m) && after.Has(m) && after.At(m) == disk.At(m) && !Filed(after, m)
  {
    var e := Entry(at, config.code, disk.Slot(n).value);
    assert after.logs == Latest(disk.logs + [e], config.num) && after.inodes == disk.inodes;
    LatestNewest(disk.logs, e, config.num);
    assert after.logs != [] && after.logs[|after.logs| - 1] == e;
    OthersUnfiled(disk, n, after);
  }

  lemma OthersUnfiled(disk: Fs, n: Work, after: Fs)
    requires WellFormed(disk) && disk.Has(n) && after == disk.(logs := after.logs).Unlink(n)
    requires after.logs != [] && Some(after.logs[|after.logs| - 1].ino) == disk.Slot(n)
    ensures forall m: Work :: m != n && disk.Has(m) ==>
              after.Slot(m) == disk.Slot(m) && after.Has(m) && after.At(m) == disk.At(m) && !Filed(after, m)
  {
    assert forall m: Work :: m != n && disk.Slot(m).Some? ==> disk.Slot(m) != disk.Slot(n);
  }

  /** More files are finished; nothing else is to be remembered. */
  predicate SettledMore(l: Ledger, l': Ledger) {
    l' == l.(settled := l'.settled) && l.settled <= l'.settled
  }

  function Took(l: Ledger, bytes: string): Ledger {
    l.(accepted := l.accepted + bytes)
  }

  function Datas(done: seq<Rotation>): seq<string> {
    seq(|done|, k requires 0 <= k < |done| => done[k].data)
  }

  /** How many of n old logs are left after pruning. */
  function Fewer(n: nat, num: nat): nat
    requires num > 0
  {
    if n < num then n else num - 1
  }

  /** Some rotations were done: they are on record, their data is finished, and the last of
      them is the newest old log. */
  predicate RotatedThrough(rs: seq<Rotation>, rs': seq<Rotation>, done: seq<Rotation>, before: Fs, after: Fs,
                           config: Config, l: Ledger, l': Ledger) {
    && rs' == rs + done && l' == l.(settled := l.settled + Datas(done))
    && if done == [] then after.logs == before.logs else NewestIs(before, after, config, done)
  }

  predicate NewestIs(before: Fs, after: Fs, config: Config, done: seq<Rotation>)
    requires done != []
  {
    && config.num > 0 && |after.logs| == Fewer(|before.logs| + |done|, config.num) > 0
    && var e := after.logs[|after.logs| - 1];
       && e.code == config.code && e.ino < |after.inodes| && Whole(after.inodes[e.ino]) && after.inodes[e.ino].exec
       && after.inodes[e.ino].origin == done[|done| - 1].data
  }

  /** A write before makes no difference to what rotations did. */
  lemma WroteThenRotated(rs: seq<Rotation>, rs': seq<Rotation>, done: seq<Rotation>, before: Fs, mid: Fs, after: Fs,
                         config: Config, l: Ledger, l': Ledger)
    requires RotatedThrough(rs, rs', done, mid, after, config, l, l') && mid.logs == before.logs
    requires done == [] ==> after == mid
    ensures RotatedThrough(rs, rs', done, before, after, config, l, l')
  {
  }

  lemma RotatedThenTook(rs: seq<Rotation>, rs': seq<Rotation>, done: seq<Rotation>, before: Fs, after: Fs,
                        config: Config, l: Ledger, l': Ledger, bytes: string)
    requires RotatedThrough(rs, rs', done, before, after, config, l, l')
    ensures RotatedThrough(rs, rs', done, before, after, config, Took(l, bytes), Took(l', bytes))
  {
  }

  lemma RotatedTwice(rs: seq<Rotation>, rs': seq<Rotation>, rs'': seq<Rotation>,
                     first: seq<Rotation>, second: seq<Rotation>, before: Fs, mid: Fs, after: Fs,
                     config: Config, l: Ledger, l': Ledger, l'': Ledger)
    requires RotatedThrough(rs, rs', first, before, mid, config, l, l')
    requires RotatedThrough(rs', rs'', second, mid, after, config, l', l'')
    requires second == [] ==> LogsKept(mid, after)
    ensures RotatedThrough(rs, rs'', first + second, before, after, config, l, l'')
  {
    DatasJoined(first, second);
    assert l.settled + Datas(first) + Datas(second) == l.settled + Datas(first + second);
    if second == [] {
      assert first + second == first;
    }
  }

  lemma DatasJoined(a: seq<Rotation>, b: seq<Rotation>)
    ensures Datas(a + b) == Datas(a) + Datas(b)
  {
  }

  lemma RotatedNever(rs: seq<Rotation>, fs: Fs, config: Config, l: Ledger)
    ensures RotatedThrough(rs, rs, [], fs, fs, config, l, l)
  {
    assert rs + [] == rs && l.settled + Datas([]) == l.settled;
  }

  /** One rotation, as fullcurrent leaves it. */
  lemma RotatedOnce(rs: seq<Rotation>, r: Rotation, before: Fs, after: Fs, config: Config, l: Ledger)
    requires FiledAs(after, config, r.data, before.logs)
    ensures RotatedThrough(rs, rs + [r], [r], before, after, config, l, l.(settled := l.settled + [r.data]))
  {
    assert Datas([r]) == [r.data];
  }

  predicate WellOffered(buf: string, len: nat, bytes: nat, size: nat) {
    && 1 <= len <= |buf| && bytes + len <= size
    && (bytes + len >= size - 2000 && '\n' in buf[..len] ==> buf[len - 1] == '\n')
    && AsMuchAsFits(buf, len, if |buf| < size - bytes then |buf| else size - bytes, bytes, size)
  }

  /** Less than there is room for is only offered to end the file at its last line end. */
  predicate AsMuchAsFits(buf: string, len: nat, room: int, bytes: nat, size: nat)
    requires 1 <= len <= |buf|
  {
    len < room <= |buf| ==> bytes + room >= size - 2000 && buf[len - 1] == '\n' && '\n' !in buf[len..room]
  }

  lemma LastTaken(before: string, buf: string, w: nat)
    requires 1 <= w <= |buf|
    ensures EndsLine(before + buf[..w]) == (buf[w - 1] == '\n')
  {
  }

  /** After a complete write that does not end the file, no newline is close to its end. */
  lemma LateNewline(before: string, buf: string, len: nat, w: nat, size: nat)
    requires size >= 4096 && WellOffered(buf, len, |before|, size) && 1 <= w <= len
    ensures NoLateNewline(before, size) && w == len && !(|before| + w >= size - 2000 && buf[w - 1] == '\n') ==>
              NoLateNewline(before + buf[..w], size)
  {
    if NoLateNewline(before, size) && w == len && !(|before| + w >= size - 2000 && buf[w - 1] == '\n') {
      forall i | 0 <= i < |before + buf[..w]| && size - 2001 <= i
        ensures (before + buf[..w])[i] != '\n'
      {
        if i >= |before| {
          assert (before + buf[..w])[i] == buf[..w][i - |before|];
        }
      }
    }
  }

  lemma RemoveFirst(logs: seq<Entry>, gone: nat)
    requires gone < |logs|
    ensures logs[gone..][..0] + logs[gone..][1..] == logs[gone + 1..]
  {
  }

  /** The newest old log has that stamp. */
  predicate Newest(fs: Fs, at: Instant) {
    fs.logs != [] && fs.logs[|fs.logs| - 1].at == at
  }

  /** The rotated data is the newest old log, with mode 744, and old logs are pruned to fewer than
      num. */
  predicate FiledAs(fs: Fs, config: Config, content: string, olds: seq<Entry>) {
    fs.logs != [] &&
    var e := fs.logs[|fs.logs| - 1];
    && config.num > 0 && fs.logs == Latest(olds + [e], config.num)
    && e.code == config.code && e.ino < |fs.inodes| && Whole(fs.inodes[e.ino]) && fs.inodes[e.ino].exec
    && fs.inodes[e.ino].origin == content && fs.inodes[e.ino].raw == !config.processor
  }

  /** The processor's output is now marked as what stands for the data. */
  predicate Marked(before: Fs, after: Fs)
    requires before.Has(Processed)
  {
    && after.Has(Processed) && after.At(Processed).exec && !Filed(after, Processed)
    && after.At(Processed).origin == before.At(Processed).origin && after.At(Processed).raw == before.At(Processed).raw
    && after.current == before.current && after.logs == before.logs
    && (before.Has(Current) && before.current != before.processed ==>
          after.Has(Current) && after.At(Current) == before.At(Current))
  }

  predicate RotatedOut(before: Fs, after: Fs, config: Config) {
    before.Has(Current) && FiledAs(after, config, before.At(Current).data, before.logs)
  }

  /** A clean exit changes nothing but that current is on the disk, and marked so. */
  predicate LeftClean(before: Fs, after: Fs) {
    before.Has(Current) && after == before.Fsync(Current).Chmod(Current, true)
  }

  /** The newest of the logs, fewer than num. */
  function Latest(logs: seq<Entry>, num: nat): seq<Entry>
    requires num > 0
  {
    if |logs| < num then logs else logs[|logs| - (num - 1)..]
  }

  lemma LatestNewest(olds: seq<Entry>, e: Entry, num: nat)
    requires num >= 2
    ensures var l := Latest(olds + [e], num); l != [] && l[|l| - 1] == e
  {
  }
}
