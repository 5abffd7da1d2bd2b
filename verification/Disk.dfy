/** The directory of one automatically rotated log: names, inodes and the system calls on
    them, the invariant that every state of the disk keeps, and one lemma per kind of step. */
module Disk {
  import opened Stamp
  import opened Wrappers

  type Instant = t: nat | t < TWO96

  /** The names of the log files that are still being worked on. */
  datatype Work = Current | Previous | Processed

  /** The old log "@<stamp of at>.<code>", and its inode. */
  datatype Entry = Entry(at: Instant, code: string, ino: nat)

  /** A file. synced is the length that has reached the disk, exec the mode bit 0100. The last
      two components only serve to state what happened: origin is the accepted log data that
      the file stands for, raw says that the file is that data itself, not a processor's output. */
  datatype Inode = Inode(data: string, synced: nat, exec: bool, origin: string, raw: bool)

  const UNFINISHED := "u"

  /** What the command line says about a log; processor tells whether there is one. */
  datatype Config = Config(num: nat, size: nat, processor: bool, code: string)

  /** The bounds that c_init enforces, and a finished code that is not taken by "u". */
  predicate Configured(c: Config) {
    c.num >= 2 && 4096 <= c.size <= 2147483647 && c.code != UNFINISHED
  }

  /** A disk: all inodes ever made, the working names, and the old logs in order of creation. */
  datatype Fs = Fs(inodes: seq<Inode>, current: Option<nat>, previous: Option<nat>, processed: Option<nat>,
                   logs: seq<Entry>) {

    function Slot(n: Work): Option<nat> {
      match n
      case Current => current
      case Previous => previous
      case Processed => processed
    }

    function Set(n: Work, i: Option<nat>): Fs {
      match n
      case Current => this.(current := i)
      case Previous => this.(previous := i)
      case Processed => this.(processed := i)
    }

    predicate Has(n: Work) { Slot(n).Some? && Slot(n).value < |inodes| }

    function At(n: Work): Inode
      requires Has(n)
    {
      inodes[Slot(n).value]
    }

    function Edit(n: Work, f: Inode): Fs
      requires Has(n)
    {
      this.(inodes := inodes[Slot(n).value := f])
    }

    function Fsync(n: Work): Fs
      requires Has(n)
    {
      Edit(n, At(n).(synced := |At(n).data|))
    }

    function Chmod(n: Work, exec: bool): Fs
      requires Has(n)
    {
      Edit(n, At(n).(exec := exec))
    }

    /** write(2) by multilog, to a log file open for appending. */
    function Append(n: Work, bytes: string): Fs
      requires Has(n)
    {
      Edit(n, At(n).(data := At(n).data + bytes, origin := At(n).origin + bytes))
    }

    /** write(2) by the processor. */
    function Output(n: Work, bytes: string): Fs
      requires Has(n)
    {
      Edit(n, At(n).(data := At(n).data + bytes))
    }

    function Create(n: Work, raw: bool): Fs {
      this.(inodes := inodes + [Inode("", 0, false, "", raw)]).Set(n, Some(|inodes|))
    }

    /** open(2) for appending. */
    function Open(n: Work): Fs {
      if Slot(n).Some? then this else Create(n, true)
    }

    /** open(2) with truncation, by the processor. */
    function Trunc(n: Work): Fs {
      if !Has(n) then Create(n, false)
      else Edit(n, At(n).(data := "", synced := 0, origin := "", raw := false))
    }

    function Rename(a: Work, b: Work): Fs { Set(b, Slot(a)).Set(a, None) }

    function Unlink(n: Work): Fs { Set(n, None) }

    function Link(n: Work, at: Instant, code: string): Fs
      requires Has(n)
    {
      this.(logs := logs + [Entry(at, code, Slot(n).value)])
    }

    /** unlink(2) of old log k. */
    function Remove(k: nat): Fs
      requires k < |logs|
    {
      this.(logs := logs[..k] + logs[k + 1..])
    }

    /** The number of names of a file is one: no old log shares the inode. */
    predicate SoleLink(n: Work)
      requires Has(n)
    {
      forall k :: 0 <= k < |logs| ==> logs[k].ino != Slot(n).value
    }
  }

  /** What an observer may remember: the data of every log file ever finished, all bytes ever
      accepted, whether power has ever failed, and every configuration a process ran with. */
  datatype Ledger = Ledger(settled: seq<string>, accepted: string, cut: bool, configs: seq<Config>)

  function Flat(files: seq<string>): string {
    if files == [] then "" else Flat(files[..|files| - 1]) + files[|files| - 1]
  }

  // ---------- the invariant ----------

  predicate WellFormed(fs: Fs) {
    match fs
    case Fs(inodes, current, previous, processed, logs) =>
      && (current.Some? ==> fs.Has(Current)) && (previous.Some? ==> fs.Has(Previous))
      && (processed.Some? ==> fs.Has(Processed))
      && (forall k :: 0 <= k < |logs| ==> logs[k].ino < |inodes|)
      && (current.Some? && previous.Some? ==> current != previous)
      && (current.Some? && processed.Some? ==> current != processed)
      && (previous.Some? && processed.Some? ==> previous != processed)
  }

  /** Old logs are in the order of their stamps and are distinct files; only the newest of
      them may still have a working name. */
  predicate Ordered(fs: Fs) {
    match fs
    case Fs(_, _, _, _, logs) =>
      && (forall j, k :: 0 <= j < k < |logs| ==> logs[j].at < logs[k].at && logs[j].ino != logs[k].ino)
      && (forall k :: 0 <= k < |logs| - 1 ==> Nameless(fs, logs[k].ino))
  }

  /** No working name leads to the inode. */
  predicate Nameless(fs: Fs, ino: nat) {
    Some(ino) != fs.current && Some(ino) != fs.previous && Some(ino) != fs.processed
  }

  /** The file under a working name is already linked as an old log. */
  predicate Filed(fs: Fs, n: Work) {
    fs.Slot(n).Some? && fs.logs != [] && fs.logs[|fs.logs| - 1].ino == fs.Slot(n).value
  }

  predicate NoneFiled(fs: Fs) {
    !Filed(fs, Current) && !Filed(fs, Previous) && !Filed(fs, Processed)
  }

  predicate Whole(f: Inode) { f.synced == |f.data| && (f.raw ==> f.data == f.origin) }

  predicate Partial(f: Inode) { f.raw && f.data <= f.origin }

  /** The disk state diagram of a cyclic log. */
  predicate Modes(fs: Fs) {
    match fs
    case Fs(_, _, previous, processed, _) =>
      && (fs.Has(Current) ==> Partial(fs.At(Current)))
      && (fs.Has(Current) && fs.At(Current).exec ==>
            previous.None? && processed.None? && Whole(fs.At(Current)) && !Filed(fs, Current))
      && (Filed(fs, Current) ==> previous.None? && processed.None?)
      && (fs.Has(Previous) ==> fs.At(Previous).raw && Whole(fs.At(Previous)))
      && (Filed(fs, Previous) ==> processed.None?)
      && (fs.Has(Processed) ==> !fs.At(Processed).raw)
      && (fs.Has(Processed) && fs.At(Processed).exec ==>
            Whole(fs.At(Processed)) && (fs.Has(Previous) ==> fs.At(Previous).origin == fs.At(Processed).origin))
      && (Filed(fs, Processed) ==> fs.Has(Processed) && fs.At(Processed).exec && previous.None?)
  }

  /** An old log with the code u holds log data, perhaps cut short; any other is whole and synced,
      and has mode bit 0100. */
  predicate CodeTells(e: Entry, f: Inode) {
    if e.code == UNFINISHED then Partial(f) else Whole(f) && f.exec
  }

  predicate CodesTell(fs: Fs)
    requires WellFormed(fs)
  {
    forall k :: 0 <= k < |fs.logs| ==> CodeTells(fs.logs[k], fs.inodes[fs.logs[k].ino])
  }

  predicate Uncut(f: Inode) { f.raw ==> f.data == f.origin }

  /** Without power failures no log data is missing from its file. */
  predicate NothingCut(fs: Fs) {
    forall i :: 0 <= i < |fs.inodes| ==> Uncut(fs.inodes[i])
  }

  predicate AnyProcessor(configs: seq<Config>) {
    exists i :: 0 <= i < |configs| && configs[i].processor
  }

  predicate AnyPlain(configs: seq<Config>) {
    exists i :: 0 <= i < |configs| && !configs[i].processor
  }

  /** Every file is log data, none a processor's output. */
  predicate NoOutput(fs: Fs) {
    fs.processed.None? && forall i :: 0 <= i < |fs.inodes| ==> fs.inodes[i].raw
  }

  /** An old log is log data if and only if it is called unfinished. */
  predicate OutputFinished(fs: Fs)
    requires WellFormed(fs)
  {
    forall k :: 0 <= k < |fs.logs| ==> (fs.inodes[fs.logs[k].ino].raw <==> fs.logs[k].code == UNFINISHED)
  }

  /** Some configuration allows no more old logs than n. */
  predicate Kept(n: nat, configs: seq<Config>) {
    exists i :: 0 <= i < |configs| && configs[i].num <= n + 1
  }

  /** No file was pruned yet, or as many are left as some configuration allows. */
  predicate Retained(fs: Fs, led: Ledger) {
    |fs.logs| == |led.settled| || Kept(|fs.logs|, led.configs)
  }

  /** The log data under a working name, unless an old log already stands for it. */
  function Unfiled(fs: Fs, n: Work): string {
    if fs.Has(n) && !Filed(fs, n) then fs.At(n).origin else ""
  }

  /** Rotated data that is no old log yet: the processor's output counts from its mode change on. */
  function Pending(fs: Fs): string {
    if fs.Has(Processed) && fs.At(Processed).exec then Unfiled(fs, Processed) else Unfiled(fs, Previous)
  }

  /** The old logs stand for the last files finished. */
  predicate Settled(fs: Fs, led: Ledger)
    requires WellFormed(fs)
  {
    && |fs.logs| <= |led.settled|
    && forall k :: 0 <= k < |fs.logs| ==>
         fs.inodes[fs.logs[k].ino].origin == led.settled[|led.settled| - |fs.logs| + k]
  }

  function Whereabouts(fs: Fs, led: Ledger): string {
    Flat(led.settled) + Pending(fs) + Unfiled(fs, Current)
  }

  /** What holds of every state of the disk, and of the ledger beside it. */
  predicate Legal(fs: Fs, led: Ledger) {
    match led
    case Ledger(_, accepted, cut, configs) =>
      && WellFormed(fs) && Ordered(fs) && Modes(fs) && CodesTell(fs)
      && (!cut ==> NothingCut(fs))
      && Settled(fs, led) && Retained(fs, led) && Whereabouts(fs, led) == accepted
      && (!AnyProcessor(configs) ==> NoOutput(fs))
      && (!AnyPlain(configs) ==> OutputFinished(fs))
  }

  predicate StampsBefore(logs: seq<Entry>, now: Instant) {
    forall k :: 0 <= k < |logs| ==> logs[k].at <= now
  }

  /** The guard of the invariant: who only passes it on need not see all that it says, and a
      proof that has to look inside mentions Opened(Key). */
  datatype Key = Key

  predicate Opened(k: Key) { k.Key? }

  /** The invariant: the state is legal, and no old log has a stamp that the clock, at now, has
      not given yet. */
  ghost predicate Safe(fs: Fs, led: Ledger, now: Instant) {
    forall k: Key :: Opened(k) ==> Legal(fs, led) && StampsBefore(fs.logs, now)
  }

  /** What the program relies on when it looks at the working names. */
  lemma SafeShape(fs: Fs, led: Ledger, now: Instant)
    requires Safe(fs, led, now)
    ensures WellFormed(fs) && Modes(fs)
  {
    assert Opened(Key);
  }

  /** Between two calls of c_write: only current and old logs, and current is whole. */
  ghost predicate Quiet(fs: Fs, led: Ledger, now: Instant) {
    match fs
    case Fs(_, _, previous, processed, _) =>
      && Safe(fs, led, now) && previous.None? && processed.None?
      && fs.Has(Current) && !fs.At(Current).exec && !Filed(fs, Current)
      && fs.At(Current).data == fs.At(Current).origin
  }

  // ---------- what a step leaves as it is ----------

  lemma FlatSnoc(files: seq<string>, f: string)
    ensures Flat(files + [f]) == Flat(files) + f
  {
    assert (files + [f])[..|files|] == files;
  }

  lemma SoleLinkIsUnfiled(fs: Fs, led: Ledger, now: Instant, n: Work)
    requires Safe(fs, led, now) && fs.Has(n)
    ensures fs.SoleLink(n) <==> !Filed(fs, n)
  {
    assert Opened(Key);
  }

  /** The old logs are the same files, with the same in them. */
  predicate LogsKept(fs: Fs, fs': Fs) {
    && fs'.logs == fs.logs && |fs.inodes| <= |fs'.inodes|
    && forall k :: 0 <= k < |fs.logs| && fs.logs[k].ino < |fs.inodes| ==>
         fs'.inodes[fs.logs[k].ino] == fs.inodes[fs.logs[k].ino]
  }

  lemma LogsFrame(fs: Fs, fs': Fs, led: Ledger)
    requires WellFormed(fs) && WellFormed(fs') && LogsKept(fs, fs')
    ensures CodesTell(fs) ==> CodesTell(fs')
    ensures Settled(fs, led) ==> Settled(fs', led)
    ensures OutputFinished(fs) ==> OutputFinished(fs')
  {
  }

  /** A step that keeps the old logs only has to answer for the working names. */
  lemma StepFrame(fs: Fs, led: Ledger, fs': Fs, led': Ledger)
    requires Legal(fs, led) && LogsKept(fs, fs') && led' == led.(accepted := led'.accepted)
    requires WellFormed(fs') && Ordered(fs') && Modes(fs') && Whereabouts(fs', led') == led'.accepted
    requires !led.cut ==> NothingCut(fs')
    requires !AnyProcessor(led.configs) ==> NoOutput(fs')
    ensures Legal(fs', led')
  {
    LogsFrame(fs, fs', led);
    SettledAlone(fs', led, led');
  }

  lemma SettledAlone(fs: Fs, led: Ledger, led': Ledger)
    requires WellFormed(fs) && led.settled == led'.settled
    ensures Settled(fs, led) ==> Settled(fs, led')
  {
  }

  /** Where the data is does not change if no working name has anything else to contribute. */
  lemma SameWhereabouts(fs: Fs, led: Ledger, fs': Fs)
    requires Pending(fs') == Pending(fs) && Unfiled(fs', Current) == Unfiled(fs, Current)
    ensures Whereabouts(fs', led) == Whereabouts(fs, led)
  {
  }

  // ---------- editing a working file ----------

  /** The names of a disk do not depend on what is in its files. */
  lemma NamesAgree(fs: Fs, fs': Fs)
    requires fs' == fs.(inodes := fs'.inodes) && |fs'.inodes| == |fs.inodes|
    ensures forall m: Work :: fs'.Slot(m) == fs.Slot(m) && fs'.Has(m) == fs.Has(m) && Filed(fs', m) == Filed(fs, m)
    ensures (WellFormed(fs) ==> WellFormed(fs')) && (Ordered(fs) ==> Ordered(fs'))
  {
    if Ordered(fs) {
      assert forall k :: 0 <= k < |fs'.logs| - 1 ==> Nameless(fs, fs.logs[k].ino);
    }
  }

  /** No working file but n is different. */
  predicate OnlyEdited(fs: Fs, fs': Fs, n: Work) {
    && (forall m: Work :: fs'.Slot(m) == fs.Slot(m) && fs'.Has(m) == fs.Has(m) && Filed(fs', m) == Filed(fs, m))
    && (forall m: Work :: m != n && fs.Has(m) ==> fs'.At(m) == fs.At(m))
  }

  lemma EditOne(fs: Fs, n: Work, f: Inode)
    requires WellFormed(fs) && fs.Has(n)
    ensures OnlyEdited(fs, fs.Edit(n, f), n)
  {
    assert forall m: Work :: m != n && fs.Slot(m).Some? ==> fs.Slot(m) != fs.Slot(n);
  }

  lemma EditKeepsLogs(fs: Fs, n: Work, f: Inode)
    requires WellFormed(fs) && Ordered(fs) && fs.Has(n) && !Filed(fs, n)
    ensures LogsKept(fs, fs.Edit(n, f))
  {
    assert forall k :: 0 <= k < |fs.logs| - 1 ==> Nameless(fs, fs.logs[k].ino);
    assert forall k :: 0 <= k < |fs.logs| ==> fs.logs[k].ino != fs.Slot(n).value;
  }

  /** A changed working file has to answer for its place in the diagram, and for the data. */
  lemma EditStep(fs: Fs, led: Ledger, n: Work, f: Inode, led': Ledger)
    requires Legal(fs, led) && fs.Has(n) && !Filed(fs, n) && led' == led.(accepted := led'.accepted)
    requires (led.cut || Uncut(f)) && f.raw == fs.At(n).raw
    requires Modes(fs.Edit(n, f)) && Whereabouts(fs.Edit(n, f), led') == led'.accepted
    ensures Legal(fs.Edit(n, f), led')
  {
    var fs' := fs.Edit(n, f);
    NamesAgree(fs, fs');
    EditKeepsLogs(fs, n, f);
    EditUncut(fs, led, n, f);
    StepFrame(fs, led, fs', led');
  }

  lemma EditUncut(fs: Fs, led: Ledger, n: Work, f: Inode)
    requires fs.Has(n) && (led.cut || Uncut(f)) && f.raw == fs.At(n).raw
    requires !led.cut ==> NothingCut(fs)
    requires !AnyProcessor(led.configs) ==> NoOutput(fs)
    ensures !led.cut ==> NothingCut(fs.Edit(n, f))
    ensures !AnyProcessor(led.configs) ==> NoOutput(fs.Edit(n, f))
  {
  }

  // ---------- the steps ----------

  lemma AppendStep(fs: Fs, led: Ledger, now: Instant, bytes: string)
    requires Quiet(fs, led, now)
    ensures Quiet(fs.Append(Current, bytes), led.(accepted := led.accepted + bytes), now)
    ensures LogsKept(fs, fs.Append(Current, bytes))
  {
    assert Opened(Key);
    var f := fs.Append(Current, bytes).At(Current);
    var led' := led.(accepted := led.accepted + bytes);
    EditOne(fs, Current, f);
    AppendedWhereabouts(fs, led, led', bytes);
    EditKeepsLogs(fs, Current, f);
    EditStep(fs, led, Current, f, led');
  }

  lemma AppendedWhereabouts(fs: Fs, led: Ledger, led': Ledger, bytes: string)
    requires fs.Has(Current) && !Filed(fs, Current) && fs.previous.None? && fs.processed.None?
    requires Whereabouts(fs, led) == led.accepted && led' == led.(accepted := led.accepted + bytes)
    ensures Whereabouts(fs.Append(Current, bytes), led') == led'.accepted
  {
    assert Unfiled(fs.Append(Current, bytes), Current) == Unfiled(fs, Current) + bytes;
  }

  lemma FsyncStep(fs: Fs, led: Ledger, now: Instant, n: Work)
    requires Safe(fs, led, now) && fs.Has(n) && !Filed(fs, n)
    ensures Safe(fs.Fsync(n), led, now)
    ensures OnlyEdited(fs, fs.Fsync(n), n)
  {
    assert Opened(Key);
    var f := fs.Fsync(n).At(n);
    EditOne(fs, n, f);
    SyncedUncut(fs, led, n);
    SameWhereabouts(fs, led, fs.Edit(n, f));
    EditStep(fs, led, n, f, led);
  }

  lemma SyncedUncut(fs: Fs, led: Ledger, n: Work)
    requires Legal(fs, led) && fs.Has(n)
    ensures led.cut || Uncut(fs.At(n))
  {
  }

  lemma FsyncQuiet(fs: Fs, led: Ledger, now: Instant)
    requires Quiet(fs, led, now)
    ensures Quiet(fs.Fsync(Current), led, now)
    ensures OnlyEdited(fs, fs.Fsync(Current), Current)
  {
    assert Opened(Key);
    FsyncStep(fs, led, now, Current);
    EditOne(fs, Current, fs.Fsync(Current).At(Current));
  }

  lemma ChmodStep(fs: Fs, led: Ledger, n: Work, exec: bool)
    requires Legal(fs, led) && fs.Has(n) && !Filed(fs, n) && Modes(fs.Chmod(n, exec))
    requires Pending(fs.Chmod(n, exec)) == Pending(fs)
    ensures Legal(fs.Chmod(n, exec), led)
  {
    var f := fs.Chmod(n, exec).At(n);
    EditOne(fs, n, f);
    SyncedUncut(fs, led, n);
    SameWhereabouts(fs, led, fs.Edit(n, f));
    EditStep(fs, led, n, f, led);
  }

  lemma ChmodCurrentStep(fs: Fs, led: Ledger, now: Instant)
    requires Safe(fs, led, now) && fs.Has(Current) && !Filed(fs, Current)
    ensures Safe(fs.Chmod(Current, false), led, now)
    ensures OnlyEdited(fs, fs.Chmod(Current, false), Current)
  {
    assert Opened(Key);
    EditOne(fs, Current, fs.Chmod(Current, false).At(Current));
    ChmodStep(fs, led, Current, false);
  }

  lemma CleanExitStep(fs: Fs, led: Ledger, now: Instant)
    requires Quiet(fs, led, now) && fs.At(Current).synced == |fs.At(Current).data|
    ensures Safe(fs.Chmod(Current, true), led, now)
  {
    assert Opened(Key);
    EditOne(fs, Current, fs.Chmod(Current, true).At(Current));
    ChmodStep(fs, led, Current, true);
  }

  lemma ChmodPreviousStep(fs: Fs, led: Ledger, now: Instant)
    requires Safe(fs, led, now) && fs.Has(Previous) && !Filed(fs, Previous)
    ensures Safe(fs.Chmod(Previous, true), led, now)
    ensures OnlyEdited(fs, fs.Chmod(Previous, true), Previous)
  {
    assert Opened(Key);
    EditOne(fs, Previous, fs.Chmod(Previous, true).At(Previous));
    ChmodStep(fs, led, Previous, true);
  }

  /** From this mode change on, the processed output stands for the data. */
  lemma CommitStep(fs: Fs, led: Ledger, now: Instant)
    requires Safe(fs, led, now) && fs.Has(Processed) && !Filed(fs, Processed)
    requires fs.Has(Previous) && !Filed(fs, Previous)
    requires fs.At(Processed).origin == fs.At(Previous).origin
    requires fs.At(Processed).synced == |fs.At(Processed).data|
    ensures Safe(fs.Chmod(Processed, true), led, now)
    ensures OnlyEdited(fs, fs.Chmod(Processed, true), Processed)
  {
    assert Opened(Key);
    EditOne(fs, Processed, fs.Chmod(Processed, true).At(Processed));
    ChmodStep(fs, led, Processed, true);
  }

  // ---------- changing working names ----------

  /** A change of working names alone has to answer for their place in the diagram. */
  lemma NamesStep(fs: Fs, led: Ledger, fs': Fs)
    requires Legal(fs, led) && fs'.inodes == fs.inodes && fs'.logs == fs.logs
    requires fs.processed.None? ==> fs'.processed.None?
    requires WellFormed(fs') && Ordered(fs') && Modes(fs') && Whereabouts(fs', led) == led.accepted
    ensures Legal(fs', led)
  {
    StepFrame(fs, led, fs', led);
  }

  lemma UnlinkNames(fs: Fs, n: Work)
    requires WellFormed(fs) && Ordered(fs)
    ensures WellFormed(fs.Unlink(n)) && Ordered(fs.Unlink(n))
    ensures forall m: Work :: m != n ==>
              && fs.Unlink(n).Slot(m) == fs.Slot(m) && fs.Unlink(n).Has(m) == fs.Has(m)
              && Filed(fs.Unlink(n), m) == Filed(fs, m)
  {
    forall k | 0 <= k < |fs.logs| - 1
      ensures Nameless(fs.Unlink(n), fs.logs[k].ino)
    {
      assert Nameless(fs, fs.logs[k].ino);
    }
  }

  lemma RotateStep(fs: Fs, led: Ledger, now: Instant)
    requires Quiet(fs, led, now) && fs.At(Current).synced == |fs.At(Current).data|
    ensures Safe(fs.Rename(Current, Previous), led, now)
  {
    assert Opened(Key);
    var fs' := fs.Rename(Current, Previous);
    assert forall k :: 0 <= k < |fs.logs| - 1 ==> Nameless(fs, fs.logs[k].ino);
    SameWhereaboutsMoved(fs, led, fs');
    NamesStep(fs, led, fs');
  }

  lemma SameWhereaboutsMoved(fs: Fs, led: Ledger, fs': Fs)
    requires Pending(fs) == "" && Pending(fs') == Unfiled(fs, Current) && Unfiled(fs', Current) == ""
    ensures Whereabouts(fs', led) == Whereabouts(fs, led)
  {
  }

  lemma UnlinkFiledStep(fs: Fs, led: Ledger, now: Instant, n: Work)
    requires Safe(fs, led, now) && Filed(fs, n)
    ensures Safe(fs.Unlink(n), led, now)
  {
    assert Opened(Key);
    UnlinkNames(fs, n);
    OnlyOneFiled(fs, n);
    SameWhereabouts(fs, led, fs.Unlink(n));
    NamesStep(fs, led, fs.Unlink(n));
  }

  lemma OnlyOneFiled(fs: Fs, n: Work)
    requires WellFormed(fs) && Filed(fs, n)
    ensures forall m: Work :: m != n ==> !Filed(fs, m)
  {
  }

  lemma DropPreviousStep(fs: Fs, led: Ledger, now: Instant)
    requires Safe(fs, led, now) && fs.Has(Processed) && fs.At(Processed).exec
    ensures Safe(fs.Unlink(Previous), led, now)
  {
    assert Opened(Key);
    UnlinkNames(fs, Previous);
    SameWhereabouts(fs, led, fs.Unlink(Previous));
    NamesStep(fs, led, fs.Unlink(Previous));
  }

  lemma DropProcessedStep(fs: Fs, led: Ledger, now: Instant)
    requires Safe(fs, led, now) && (fs.Has(Processed) ==> !fs.At(Processed).exec)
    ensures Safe(fs.Unlink(Processed), led, now)
  {
    assert Opened(Key);
    UnlinkNames(fs, Processed);
    SameWhereabouts(fs, led, fs.Unlink(Processed));
    NamesStep(fs, led, fs.Unlink(Processed));
  }

  // ---------- new files ----------

  predicate CreatedOnly(fs: Fs, fs': Fs, n: Work, raw: bool) {
    && fs'.Slot(n) == Some(|fs.inodes|) && fs'.Has(n) && fs'.At(n) == Inode("", 0, false, "", raw) && !Filed(fs', n)
    && (forall m: Work :: m != n ==> Filed(fs', m) == Filed(fs, m) && fs'.Slot(m) == fs.Slot(m))
    && (forall m: Work :: fs.Has(m) ==> fs'.Has(m) && fs'.At(m) == fs.At(m))
  }

  lemma CreateNames(fs: Fs, n: Work, raw: bool)
    requires WellFormed(fs) && Ordered(fs) && fs.Slot(n).None?
    ensures WellFormed(fs.Create(n, raw)) && Ordered(fs.Create(n, raw))
  {
    var fs' := fs.Create(n, raw);
    assert fs'.logs == fs.logs && |fs'.inodes| == |fs.inodes| + 1;
    forall k | 0 <= k < |fs.logs| - 1
      ensures Nameless(fs', fs.logs[k].ino)
    {
      assert Nameless(fs, fs.logs[k].ino);
    }
  }

  lemma CreatesOnly(fs: Fs, n: Work, raw: bool)
    requires WellFormed(fs) && fs.Slot(n).None?
    ensures CreatedOnly(fs, fs.Create(n, raw), n, raw)
  {
    assert forall m: Work :: m != n ==> fs.Create(n, raw).Slot(m) == fs.Slot(m);
  }

  /** A new file under a free name has to answer for its place in the diagram. */
  lemma CreateStep(fs: Fs, led: Ledger, n: Work, raw: bool)
    requires Legal(fs, led) && fs.Slot(n).None? && (raw || AnyProcessor(led.configs))
    requires Modes(fs.Create(n, raw)) && Whereabouts(fs.Create(n, raw), led) == led.accepted
    requires raw ==> n != Processed
    ensures Legal(fs.Create(n, raw), led)
  {
    CreateNames(fs, n, raw);
    assert forall m: Work :: m != n ==> fs.Create(n, raw).Slot(m) == fs.Slot(m);
    StepFrame(fs, led, fs.Create(n, raw), led);
  }

  lemma OpenCurrentStep(fs: Fs, led: Ledger, now: Instant)
    requires Safe(fs, led, now) && fs.current.None?
    ensures Safe(fs.Open(Current), led, now)
    ensures CreatedOnly(fs, fs.Open(Current), Current, true)
  {
    assert Opened(Key);
    CreatesOnly(fs, Current, true);
    SameWhereabouts(fs, led, fs.Open(Current));
    CreateStep(fs, led, Current, true);
  }

  /** Only the processor's output was touched, and it is not committed. */
  predicate OutputOnly(fs: Fs, fs': Fs) {
    && fs'.Has(Processed) && !fs'.At(Processed).exec && !fs'.At(Processed).raw && !Filed(fs', Processed)
    && fs'.current == fs.current && fs'.previous == fs.previous && fs'.logs == fs.logs && |fs.inodes| <= |fs'.inodes|
    && (fs.Has(Current) ==> fs'.Has(Current) && fs'.At(Current) == fs.At(Current))
    && (fs.Has(Previous) ==> fs'.Has(Previous) && fs'.At(Previous) == fs.At(Previous))
  }

  lemma TruncProcessedStep(fs: Fs, led: Ledger, now: Instant)
    requires Safe(fs, led, now) && fs.Has(Previous) && !Filed(fs, Previous)
    requires (fs.Has(Processed) ==> !fs.At(Processed).exec) && AnyProcessor(led.configs)
    ensures Safe(fs.Trunc(Processed), led, now)
    ensures OutputOnly(fs, fs.Trunc(Processed))
  {
    assert Opened(Key);
    if fs.Has(Processed) {
      OutputStep(fs, led, now, fs.Trunc(Processed).At(Processed));
    } else {
      CreatesOnly(fs, Processed, false);
      SameWhereabouts(fs, led, fs.Trunc(Processed));
      CreateStep(fs, led, Processed, false);
    }
  }

  /** Whatever happens to an output that is not committed yet. */
  lemma OutputStep(fs: Fs, led: Ledger, now: Instant, f: Inode)
    requires Safe(fs, led, now) && fs.Has(Processed) && !fs.At(Processed).exec && !f.exec && !f.raw
    ensures Safe(fs.Edit(Processed, f), led, now)
    ensures OnlyEdited(fs, fs.Edit(Processed, f), Processed)
  {
    assert Opened(Key);
    EditOne(fs, Processed, f);
    SameWhereabouts(fs, led, fs.Edit(Processed, f));
    EditStep(fs, led, Processed, f, led);
  }

  // ---------- old logs come and go ----------

  /** A working file gets its name as an old log. */
  lemma LinkStep(fs: Fs, led: Ledger, now: Instant, n: Work, at: Instant, code: string)
    requires Safe(fs, led, now) && now < at && fs.Has(n) && !Filed(fs, n)
    requires n == Current ==>
               code == UNFINISHED && !fs.At(Current).exec && fs.previous.None? && fs.processed.None?
    requires n == Previous ==>
               fs.processed.None? && (code == UNFINISHED || (AnyPlain(led.configs) && fs.At(Previous).exec))
    requires n == Processed ==> code != UNFINISHED && fs.At(Processed).exec && fs.previous.None?
    ensures Safe(fs.Link(n, at, code), led.(settled := led.settled + [fs.At(n).origin]), at)
    ensures Safe(fs, led, at)
    ensures Filed(fs.Link(n, at, code), n)
  {
    assert Opened(Key);
    var fs' := fs.Link(n, at, code);
    var led' := led.(settled := led.settled + [fs.At(n).origin]);
    assert NoneFiled(fs);
    LinkNames(fs, n, at, code);
    LinkModes(fs, n, at, code);
    LinkLogs(fs, led, n, at, code);
    LinkRetained(fs, led, fs', led');
    FlatSnoc(led.settled, fs.At(n).origin);
    LinkWhereabouts(fs, led, n, at, code);
  }

  lemma LinkNames(fs: Fs, n: Work, at: Instant, code: string)
    requires WellFormed(fs) && Ordered(fs) && fs.Has(n) && NoneFiled(fs)
    requires forall k :: 0 <= k < |fs.logs| ==> fs.logs[k].at < at
    ensures WellFormed(fs.Link(n, at, code)) && Ordered(fs.Link(n, at, code))
    ensures forall m: Work :: Filed(fs.Link(n, at, code), m) <==> m == n
  {
    var fs' := fs.Link(n, at, code);
    assert fs'.current == fs.current && fs'.previous == fs.previous && fs'.processed == fs.processed;
    assert forall k :: 0 <= k < |fs.logs| ==> fs'.logs[k] == fs.logs[k];
    assert fs'.logs[|fs.logs|] == Entry(at, code, fs.Slot(n).value);
    forall k | 0 <= k < |fs.logs|
      ensures Nameless(fs, fs.logs[k].ino)
    {
    }
    assert forall k :: 0 <= k < |fs.logs| ==> Nameless(fs', fs.logs[k].ino);
  }

  lemma LinkModes(fs: Fs, n: Work, at: Instant, code: string)
    requires WellFormed(fs) && Modes(fs) && fs.Has(n)
    requires forall m: Work :: Filed(fs.Link(n, at, code), m) <==> m == n
    requires n == Current ==> !fs.At(Current).exec && fs.previous.None? && fs.processed.None?
    requires n == Previous ==> fs.processed.None?
    requires n == Processed ==> fs.At(Processed).exec && fs.previous.None?
    ensures Modes(fs.Link(n, at, code))
  {
    var fs' := fs.Link(n, at, code);
    assert forall m: Work :: fs'.Slot(m) == fs.Slot(m);
  }

  lemma LinkLogs(fs: Fs, led: Ledger, n: Work, at: Instant, code: string)
    requires WellFormed(fs) && CodesTell(fs) && Settled(fs, led) && fs.Has(n) && WellFormed(fs.Link(n, at, code))
    requires CodeTells(Entry(at, code, fs.Slot(n).value), fs.At(n))
    ensures CodesTell(fs.Link(n, at, code))
    ensures Settled(fs.Link(n, at, code), led.(settled := led.settled + [fs.At(n).origin]))
    ensures OutputFinished(fs) && (fs.At(n).raw <==> code == UNFINISHED) ==> OutputFinished(fs.Link(n, at, code))
  {
    var fs' := fs.Link(n, at, code);
    assert forall k :: 0 <= k < |fs'.logs| ==>
        fs'.inodes[fs'.logs[k].ino] == if k < |fs.logs| then fs.inodes[fs.logs[k].ino] else fs.At(n);
  }

  lemma LinkRetained(fs: Fs, led: Ledger, fs': Fs, led': Ledger)
    requires Retained(fs, led) && |fs'.logs| == |fs.logs| + 1
    requires |led'.settled| == |led.settled| + 1 && led'.configs == led.configs
    ensures Retained(fs', led')
  {
    if Kept(|fs.logs|, led.configs) {
      var i :| 0 <= i < |led.configs| && led.configs[i].num <= |fs.logs| + 1;
      assert led'.configs[i].num <= |fs'.logs| + 1;
    }
  }

  lemma LinkWhereabouts(fs: Fs, led: Ledger, n: Work, at: Instant, code: string)
    requires fs.Has(n) && NoneFiled(fs) && Flat(led.settled + [fs.At(n).origin]) == Flat(led.settled) + fs.At(n).origin
    requires Filed(fs.Link(n, at, code), n) && (n != Current ==> !Filed(fs.Link(n, at, code), Current))
    requires n == Current ==> fs.previous.None? && fs.processed.None?
    requires n == Previous ==> fs.processed.None?
    requires n == Processed ==> fs.At(Processed).exec && fs.previous.None?
    ensures Whereabouts(fs.Link(n, at, code), led.(settled := led.settled + [fs.At(n).origin])) == Whereabouts(fs, led)
  {
    LinkContributes(fs, n, at, code);
    Moved(Flat(led.settled), fs.At(n).origin, Unfiled(fs, Current));
  }

  /** What the working names have to contribute, before and after the link. */
  lemma LinkContributes(fs: Fs, n: Work, at: Instant, code: string)
    requires fs.Has(n) && NoneFiled(fs)
    requires Filed(fs.Link(n, at, code), n) && (n != Current ==> !Filed(fs.Link(n, at, code), Current))
    requires n == Current ==> fs.previous.None? && fs.processed.None?
    requires n == Previous ==> fs.processed.None?
    requires n == Processed ==> fs.At(Processed).exec && fs.previous.None?
    ensures var fs', origin := fs.Link(n, at, code), fs.At(n).origin;
            && Pending(fs') == "" && Pending(fs) == (if n == Current then "" else origin)
            && Unfiled(fs', Current) == (if n == Current then "" else Unfiled(fs, Current))
            && (n == Current ==> Unfiled(fs, Current) == origin)
  {
  }

  lemma Moved(settled: string, origin: string, current: string)
    ensures settled + origin + "" + current == settled + origin + current
    ensures settled + "" + origin == settled + origin + "" + ""
  {
  }

  /** The oldest log may go as long as some configuration has room for no more than the others. */
  lemma RemoveOldestStep(fs: Fs, led: Ledger, now: Instant)
    requires Safe(fs, led, now) && fs.logs != [] && NoneFiled(fs) && Kept(|fs.logs| - 1, led.configs)
    ensures Safe(fs.Remove(0), led, now) && NoneFiled(fs.Remove(0))
  {
    assert Opened(Key);
    var fs' := fs.Remove(0);
    assert |fs'.logs| == |fs.logs| - 1;
    assert forall m: Work :: fs'.Slot(m) == fs.Slot(m) && fs'.Has(m) == fs.Has(m);
    RemoveNames(fs);
    RemoveLogs(fs, led);
    SameWhereabouts(fs, led, fs');
  }

  lemma RemoveNames(fs: Fs)
    requires WellFormed(fs) && Ordered(fs) && fs.logs != [] && NoneFiled(fs)
    ensures WellFormed(fs.Remove(0)) && Ordered(fs.Remove(0)) && NoneFiled(fs.Remove(0))
  {
    var fs' := fs.Remove(0);
    assert forall k :: 0 <= k < |fs'.logs| ==> fs'.logs[k] == fs.logs[k + 1];
    assert fs'.logs != [] ==> fs'.logs[|fs'.logs| - 1] == fs.logs[|fs.logs| - 1];
    forall k | 0 <= k < |fs'.logs| - 1
      ensures Nameless(fs', fs'.logs[k].ino)
    {
      assert Nameless(fs, fs.logs[k + 1].ino);
    }
  }

  lemma RemoveLogs(fs: Fs, led: Ledger)
    requires WellFormed(fs) && CodesTell(fs) && Settled(fs, led) && fs.logs != [] && WellFormed(fs.Remove(0))
    ensures CodesTell(fs.Remove(0)) && Settled(fs.Remove(0), led)
    ensures OutputFinished(fs) ==> OutputFinished(fs.Remove(0))
  {
    var fs' := fs.Remove(0);
    assert forall k :: 0 <= k < |fs'.logs| ==> fs'.logs[k] == fs.logs[k + 1];
  }

  /** With nothing under the working names, all accepted data is in finished files. */
  lemma AllSettled(fs: Fs, led: Ledger, now: Instant)
    requires Safe(fs, led, now) && fs.current.None? && fs.previous.None? && fs.processed.None?
    ensures Flat(led.settled) == led.accepted
    ensures WellFormed(fs) && Settled(fs, led) && Retained(fs, led)
  {
    assert Opened(Key);
    assert Pending(fs) == "" && Unfiled(fs, Current) == "";
    assert Flat(led.settled) + "" + "" == Flat(led.settled);
  }

  // ---------- a new process ----------

  /** A configuration more to remember. */
  lemma ConfigStep(fs: Fs, led: Ledger, now: Instant, c: Config)
    requires Safe(fs, led, now)
    ensures Safe(fs, led.(configs := led.configs + [c]), now)
  {
    assert Opened(Key);
    var led' := led.(configs := led.configs + [c]);
    MoreConfigs(led.configs, c);
    SettledAlone(fs, led, led');
    if Kept(|fs.logs|, led.configs) {
      var i :| 0 <= i < |led.configs| && led.configs[i].num <= |fs.logs| + 1;
      assert led'.configs[i].num <= |fs.logs| + 1;
    }
    assert Whereabouts(fs, led') == Whereabouts(fs, led);
  }

  lemma MoreConfigs(configs: seq<Config>, c: Config)
    ensures AnyProcessor(configs + [c]) <==> AnyProcessor(configs) || c.processor
    ensures AnyPlain(configs + [c]) <==> AnyPlain(configs) || !c.processor
  {
    var more := configs + [c];
    assert more[|configs|] == c;
    assert forall i :: 0 <= i < |configs| ==> more[i] == configs[i];
  }

  // ---------- power failure ----------

  /** What a power failure leaves of a disk: names and modes, and of each file at least what
      was synced. */
  predicate Survives(fs: Fs, after: Fs) {
    && |after.inodes| == |fs.inodes| && after == fs.(inodes := after.inodes)
    && forall i :: 0 <= i < |fs.inodes| ==> Shortened(fs.inodes[i], after.inodes[i])
  }

  predicate Shortened(f: Inode, g: Inode) {
    g == f.(data := g.data) && g.data <= f.data && (f.synced <= |f.data| ==> f.synced <= |g.data|)
  }

  lemma PowerCutStep(fs: Fs, led: Ledger, now: Instant, after: Fs)
    requires Safe(fs, led, now) && Survives(fs, after)
    ensures Safe(after, led.(cut := true), now)
  {
    assert Opened(Key);
    NamesAgree(fs, after);
    PowerCutModes(fs, after);
    PowerCutLogs(fs, led, after);
    SettledAlone(after, led, led.(cut := true));
    assert Whereabouts(after, led.(cut := true)) == Whereabouts(fs, led);
  }

  lemma PowerCutModes(fs: Fs, after: Fs)
    requires Survives(fs, after) && Modes(fs)
    requires forall m: Work ::
               after.Slot(m) == fs.Slot(m) && after.Has(m) == fs.Has(m) && Filed(after, m) == Filed(fs, m)
    ensures Modes(after)
    ensures forall m: Work :: fs.Has(m) ==> Shortened(fs.At(m), after.At(m))
  {
    assert forall m: Work :: fs.Has(m) ==> Shortened(fs.At(m), after.At(m));
    assert forall m: Work :: fs.Has(m) && Whole(fs.At(m)) ==> after.At(m) == fs.At(m);
  }

  lemma PowerCutLogs(fs: Fs, led: Ledger, after: Fs)
    requires Survives(fs, after) && WellFormed(fs) && WellFormed(after) && CodesTell(fs) && Settled(fs, led)
    ensures CodesTell(after) && Settled(after, led)
    ensures OutputFinished(fs) ==> OutputFinished(after)
    ensures NoOutput(fs) ==> NoOutput(after)
  {
    assert forall i :: 0 <= i < |fs.inodes| ==> Shortened(fs.inodes[i], after.inodes[i]);
    assert forall i :: 0 <= i < |fs.inodes| && Whole(fs.inodes[i]) ==> after.inodes[i] == fs.inodes[i];
  }
}
