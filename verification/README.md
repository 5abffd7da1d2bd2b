# A model of daemontools-encore

This project models the two stateful engines of daemontools-encore, the logger
multilog and the service monitor supervise, together with the exact components
that they rest on, and proves what they are for.

* **multilog, on disk.** `Disk` is one automatically rotated log directory: names,
  inodes, mode bits, link counts and how much of each file has reached the disk.
  `Safe` is its state diagram, with what is remembered of accepted bytes, finished
  files and configurations; one lemma per system call shows that no step
  leaves it. `CyclogModule` is the process: the class `Cyclog` writes, rotates, runs a
  processor, prunes and recovers. A mortal process may die before any system call (`Outcome`
  says whether it did; `:-` stops at a death); one that is not mortal carries out
  all it is asked for, and its contracts say so. Whether writes may be short and whether signals
  may ask for rotations is fixed for a run too (`partial`, `alarmed`); every rotation is on record
  (`rotated`), and `AllWellRotated` says where it may cut. So is what the clock shows (`clock`): the names
  of old logs are its readings, in order. `Outages` says what `Safe` means to a
  reader of the directory and runs a log through every schedule of starts,
  writes, alarms, clean exits, deaths and power failures.
* **multilog, from standard input to the logs.** `OutBuffers` and `InBuffers` are
  `buffer` as it is used on either side, over operations that take or give any positive number of
  bytes. Whether reads may fail and whether TERM and ALRM may come is fixed for a run; all of standard
  input is `stdin`, and in every state it is what was taken followed by what is left. `streams` is all
  that each log was given: in every state, what it has accepted and what its buffer holds, and after a
  death no less than it has accepted. `Script` is selection: what it computes is stated by the first
  characters of the actions and the matcher, and in simple mode by the patterns of multilog.8.
  `MultilogModule` is the line loop, up to
  the statement of what each log has received when the program ends or dies. The readings of the clock are
  fixed for a run (`clock`), and each line has the text of its own.
* **supervise.** `Supervise` has the two service records, the reaper, the
  controller and the main loop, beside the kernel's table of unreaped children.
  `Sound` is what every step keeps; `Promises` is what the administrator may
  rely on, and `Delivered` what follows if every fork is granted. The process id that the kernel has for each fork, or that
  it refuses it, which scripts it finds, which child each wait_nohang tells of, with its status, and what
  the clock shows, is fixed for a run (`grants`, `notices`, `answers`, `exits`, `clock`), so that every
  contract says what the program makes of them: `Follows` what it does about an exit, `SentBy` what
  signals it sends for a reading of the control fifo, and to whom.
* **components.** `Stamp` and `Decimal` (the two kinds of stamp; the format of TAI64N labels is the
  section "TAI64N labels and external TAI64N format" of D. J. Bernstein's "TAI64, TAI64N, and
  TAI64NA"), `Match`, `ByteSearch`, `Retention`, `Status`, `Pathexec`.

The ledger of `Cyclog`, the history `Past` in `Svc` and similar ghost state record
what happened; no code depends on them.

## Where the code does not do what one would expect

The model follows the code. In these places a property that one would expect is
false, and the project proves when it holds.

* `match.c:12-20` looks for a literal star behind a star. `ScanMeetsManual`: the
  code decides as multilog.8 says, on all lines, exactly for the patterns without
  two stars in a row. `AdjacentStarsExample` is an input where they differ.
* `multilog.c:540-545` leaves the match mode set for the next line. `ModeLeak`: for a
  given matcher no line is selected differently for that, exactly if the script ends in simple
  mode or the actions before its first F or S select alike in both modes.
  `LeakIsHarmless` is a condition that does for every matcher, and `ModeLeakExample` is a
  script, with the pattern `[ab]`, for which two lines `a` are treated differently.
* `multilog.c:534` and `multilog.c:590-611` keep only the length of the last chunk
  of a long line. `Pad`: the padding of a status file is right exactly if no
  earlier line reached 1000 bytes or this one does.
* `multilog.c:592-595` drops what `buffer_gets` had read of a later chunk when a read error ends
  it. `Doit` and `Run` name those bytes (`lost`): of the line that the error cut, with its stamp, exactly
  `Kept` is in the logs, the whole line if it is shorter than 1000 bytes and its full chunks of 1000 bytes
  if not. `KeptAll`: nothing is lost exactly if the line is shorter than 1000 bytes or its length is a
  multiple of 1000. `KeptExample` is a line of 1001 bytes, of which the last is lost.
* `supervise.c:228-232` sets the state before a fork that may fail and is not retried. `KeptUp`: a
  service wanted up has a process exactly if the last fork for it did not fail, and that fails only if
  the kernel refuses it or has no process id left (`Blameless`). `NotKeptUp` is a run in which it has none.
* `supervise.c:415` stops the log service without writing the status file, and a failed start leaves
  its new state unwritten. `Announced`: state and pause in the file are those of the last announcement,
  and all else is up to date; they differ from the record only after one of these two.
  `ShownOrNot` says when the bytes differ. `Pass` says when that stop happens, and when an announcement
  has made up for it. `OutOfDate` and `StoppedUnannounced` are runs in which the file is wrong.
* `supervise.c:293-303`: a service that is `starting` without a process, as a failed fork leaves it, may be
  given the order d. If ./stop is run for it then, its exit 0 is taken for that of ./start and starts
  ./run. `Down` says for exactly which orders that is so (`slipped`): those that find the main service
  starting without a process, while supervise is not to exit, where ./stop is executable, did not run
  since the last TERM, and has its fork granted. `MainDownHeld`: after every other order d the service
  stays down. `DownSlips`: after any of these, if the next answer of wait_nohang is the exit 0 of ./stop,
  the service is up again, if there is a ./run whose fork is granted. `NotKeptDown` is such a run, from the start.
* The stamp reader gives the second back modulo 2^64. `StampRoundTrip`: it is the
  true signed second exactly if it is below 2^63.

## Model

| member | source | states |
|---|---|---|
| Disk.AppendStep | multilog.c:298-303 | writing any bytes to current keeps the disk state diagram, and adds exactly these bytes to what the directory stands for |
| Disk.FsyncQuiet | multilog.c:220 | syncing current keeps the state between two writes |
| Disk.RotateStep | multilog.c:224 | once current is synced, its move to previous keeps the diagram: nothing is lost between the two names |
| Disk.OpenCurrentStep | multilog.c:226 | creating current keeps the diagram, in every state without one |
| Disk.CleanExitStep | multilog.c:442-444 | current may get mode bit 0100 only when all of it is synced |
| Disk.ChmodPreviousStep | multilog.c:233 | the mode of previous may be set in every state in which previous is not yet an old log |
| Disk.LinkStep | multilog.c:159-167 | linking a working file as an old log moves its data, once, from the unfinished to the finished, under the conditions on the other names, and on the code, that finish meets |
| Disk.UnlinkFiledStep | multilog.c:171 | removing a working name whose file is already an old log loses nothing |
| Disk.DropPreviousStep | multilog.c:270 | previous may go once processed is marked, as processed then stands for its data |
| Disk.DropProcessedStep | multilog.c:364 | an unmarked processed may go in every state |
| Disk.RemoveOldestStep | multilog.c:127-139 | removing the oldest old log keeps the diagram while no working name shares a file with an old log, and while some configuration allows no more than the others |
| Disk.TruncProcessedStep | multilog.c:194 | truncating or creating the output keeps the diagram and leaves previous as it is |
| Disk.OutputStep | multilog.c:194-196 | whatever happens to an unmarked output keeps the diagram |
| Disk.CommitStep | multilog.c:256-261 | marking the synced output makes it stand for the data of previous, exactly once |
| Disk.AllSettled | multilog.c:359-368 | with no working name left, all accepted bytes are in finished files, and the old logs are the last of these: all, or as many as a configuration allows |
| Disk.ConfigStep | multilog.c:425-431 | a new process with another configuration keeps the diagram |
| Disk.PowerCutStep | multilog.c:220-261 | a power failure that cuts every file to any length not below its synced one keeps the diagram |
| Retention.FilesFit | multilog.c:95-146 | tells exactly whether fewer than num names look like old logs; if not, and some has the stamp of a clock, names one whose 25-byte stamp no other undercuts |
| CyclogModule.TextOrder | multilog.c:117 | the names of old logs compare as strings as their instants do |
| CyclogModule.CountAll | multilog.c:114-116 | in every order of the directory, the names counted are the old logs and none of the six other files |
| CyclogModule.OldestIsFirst | multilog.c:114-121 | in every order of the directory, the oldest name found is the first old log |
| CyclogModule.ChosenIsFirst | multilog.c:129-142 | if there is an old log at all, the one to remove is found, and it is the oldest |
| CyclogModule.Cyclog.FilesFitPass | multilog.c:95-146 | removes nothing if there are fewer than num old logs, and else the oldest one alone |
| CyclogModule.Cyclog.Prune | multilog.c:174-178 | ends with the newest num - 1 old logs, or with all if they were fewer |
| CyclogModule.Cyclog.FileAway | multilog.c:153-169 | the file becomes the newest old log if no old log shares it, and otherwise nothing changes |
| CyclogModule.Cyclog.Finish | multilog.c:148-179 | the exact directory afterwards; the data is finished once, even if an earlier run died between link and unlink |
| CyclogModule.Cyclog.MoveAway | multilog.c:220-224 | current is synced and its data is now in previous |
| CyclogModule.Cyclog.NewCurrent | multilog.c:226-230 | a new, empty current, and nothing else changed |
| CyclogModule.Cyclog.RunOnce | multilog.c:181-209 | a processor run changes only the unmarked output, if anything; only when it exits 0 does that output stand for the data of previous |
| CyclogModule.Cyclog.RunProcessor | multilog.c:239-254 | it is run again until it exits 0, after any number of failed runs; the output then stands for the data of previous |
| CyclogModule.Cyclog.Commit | multilog.c:256-271 | the output is marked and has replaced previous; current and old logs are untouched |
| CyclogModule.Cyclog.Rotate | multilog.c:211-276 | the content of current, or its processed form, is the newest old log, whole, synced, with the finished code, mode bit 0100 set, and the next reading of the clock as its name; current is new and empty; the data is finished exactly once, and a death on the way loses nothing |
| CyclogModule.Cyclog.FullCurrent | multilog.c:211-276 | the same, and on record as one of the well rotated: it ends in a newline with at most 2000 bytes of room left, or has exactly size bytes (without a late newline if all writes were complete), or was inherited oversized, or a signal asked for it, in a run in which that is possible |
| CyclogModule.Cyclog.WriteCurrent | multilog.c:297-303 | a positive number of the offered bytes is appended to current and accepted, all of them if writes are not short; bytes stays the length of the file; old logs are untouched |
| CyclogModule.Cyclog.Offer | multilog.c:288-295 | at least one byte is offered and never more than fits; close to the end of the file whole lines if there is a line end, and otherwise as much as fits |
| CyclogModule.LateNewline | multilog.c:288-305 | after a complete write that does not lead to a rotation there is no newline in the last 2001 bytes of a file |
| CyclogModule.Cyclog.CWrite | multilog.c:278-309 | exactly a prefix of the offered bytes is accepted, in order, and a nonempty one by a process that lives on; every rotation on the way is at a line boundary, as above, and none is as asked by a signal; they are on record, their data is finished in this order, the last is the newest old log, with mode bit 0100 and named by the reading of the clock that belongs to it, and without one the old logs are as before; a death leaves the disk recoverable |
| CyclogModule.RotatedAtLines | multilog.c:285-306 | of a process whose writes are complete and which no signal asks for rotations, every rotated file ends in a newline with at most 2000 bytes of room left, or has exactly size bytes and no late newline; only its first may be one that it found, and then at least as large as allowed |
| CyclogModule.RotatedTwice | multilog.c:285-306 | the two rotations of one write add up |
| CyclogModule.Cyclog.ForceRotation | multilog.c:469-474 | ALRM: the content of a nonempty current is the newest old log, with mode bit 0100 and the next reading of the clock as its name; one more rotation is counted as asked for |
| CyclogModule.Cyclog.CQuit | multilog.c:436-447 | current is unchanged, synced and marked |
| CyclogModule.Cyclog.Resume | multilog.c:336-346 | after a clean exit only the mark goes; bytes is the length of current |
| CyclogModule.Cyclog.RecoverOutput | multilog.c:356-362 | the exact directory: a marked output is one old log with the finished code, also if it was linked already, and the raw data is gone |
| CyclogModule.Cyclog.RecoverRaw | multilog.c:363-366 | the exact directory: without a marked output the raw data is one old log with the code u, and the output is gone |
| CyclogModule.Cyclog.Recover | multilog.c:348-381 | the exact directory after an outage, and exactly what was finished |
| CyclogModule.EachChunkOnce | multilog.c:351-368 | restart finishes the rotated data and current, each at most once and as one old log; the old logs are then those before and these two, with their codes, pruned to fewer than num |
| CyclogModule.Cyclog.Restart | multilog.c:331-382 | after a clean exit current goes on; otherwise the exact directory, with everything accepted in finished files, named by the next readings of the clock, and a new current; a death anywhere in it loses nothing |
| CyclogModule.Cyclog.PowerFailure | multilog.c:220-261 | the disk stays safe |
| Outages.NothingLostOrDoubled | multilog.c:148-382 | at any moment the directory stands for exactly the bytes ever accepted by write, in order and each once, but for whole old logs pruned from the front; none is pruned unless as many are left as some configuration allows |
| Outages.FilesHoldTheLog | multilog.c:148-382 | if there was never a processor or a power failure, these are the files themselves: the old logs in stamp order, then previous if it has only one link, then current likewise, are a suffix of what was accepted |
| Outages.FinishedIsDurable | multilog.c:220-274 | a power failure takes nothing from an old log with the finished code; if that is raw, it has all of its data |
| Outages.FinishedHasMode | multilog.c:233-261 | in every state of the disk an old log whose code is not u has mode bit 0100, also after a power failure |
| Outages.ChunkIsOneLog | multilog.c:236-275 | each finished chunk is one old log; with a processor all along, raw data is called u and whole output bears the finished code, never the other way round |
| Outages.CleanExitIsDurable | multilog.c:436-447 | mode bit 0100 on current means that previous and processed are absent and that current is whole, before and after a power failure |
| Outages.Step | multilog.c:148-447 | what each event does to disk and ledger, with a death anywhere in it: a start recovers exactly, a write adds just the bytes that it took and rotates only at line boundaries, with the rotated data finished and on record, an alarm rotates a nonempty current and else does nothing, a clean exit leaves current marked, a power failure cuts unsynced bytes only; a process that is not killed is up or down afterwards as the event asks |
| Outages.Life | multilog.c:148-447 | over every sequence of events from an empty directory on, each step is of that kind and the disk is safe at every moment; the accepted bytes are those that the writes took; without processors and power failures the files are a suffix of them, and with processors only, an old log is raw exactly if it is called u; without alarms and short writes every file that any process has rotated ends at a line boundary, unless it found it there full |
| OutBuffers.OutBuffer.AllWrite | buffer_put.c:8-22 | the bytes are delivered in order over any sequence of partial writes |
| OutBuffers.OutBuffer.Flush | buffer_put.c:24-32 | delivered bytes followed by buffered ones are unchanged; the buffer is empty |
| OutBuffers.OutBuffer.Put | buffer_put.c:48-68 | the bytes are appended to delivered and buffered ones, for every length and fill |
| OutBuffers.OutBuffer.PutAlign | buffer_put.c:34-46 | the same |
| OutBuffers.OutBuffer.PutFlush | buffer_put.c:70-74 | the same, and the buffer is empty |
| OutBuffers.OutBuffer.PutC | buffer.h:28-32 | the same for one byte |
| InBuffers.Input.RotateLogs | multilog.c:469-474 | rotates the logs that have bytes; no byte given to a log is lost |
| InBuffers.Input.ServeLogs | multilog.c:466-475 | every buffer is empty afterwards and every stream as before; the logs have an empty current if a rotation was asked for, and otherwise none was rotated on request |
| InBuffers.Input.FlushRead | multilog.c:463-493 | all logs are flushed first, and rotated then if ALRM was noticed, and otherwise no more than c_write rotates; then it gives a positive number of the next bytes of standard input, an end or an error; after TERM nothing at a line start, and else one byte at a time, so that in every run no byte behind the next newline is read (`OneLineMore` in `Valid`) |
| InBuffers.Input.OneRead | buffer_get.c:7-16 | the same after any number of interrupted reads |
| InBuffers.InBuffer.Feed | buffer_get.c:27-38 | the window keeps the bytes read and not yet handed out, at the top of the array; it is empty after an end or error only; bytes handed out, window and what is left are standard input |
| InBuffers.InBuffer.Seek | buffer_get.c:65-69 | exactly the next bytes are handed out |
| InBuffers.InBuffer.GetThis | buffer_get.c:18-25 | copies out the next bytes, as many as there are and fit |
| InBuffers.InBuffer.Get | buffer_get.c:40-58 | what it copies is what comes next of standard input, through the window or past it |
| InBuffers.InBuffer.Gets | buffer_gets.c:4-29 | takes the text up to the line end, or as much as there is room for; the line end is swallowed exactly if seen while there is room; an incomplete line only at the end or after an error |
| InBuffers.InBuffer.CopyWindow | buffer_copyline.c:13-21 | copies through the first line end in the window, or all of it but for a line end that it will find again |
| InBuffers.InBuffer.CopyLine | buffer_copyline.c:4-24 | copies exactly through the first line end, or everything there is |
| ByteSearch.FirstIndexUnique | byte_chr.c:6-10 | only one index has the bytes before it without the character and itself the character or the end |
| ByteSearch.ByteRchr | byte_rchr.c:6-28 | the last occurrence, or the length |
| Script.LastMatchDecides | multilog.c:536-555 | the last pattern of the script that matches decides, and without one the line is selected |
| Script.SelectedMeans | multilog.c:546-555 | a line is selected at an action exactly if every action before it that begins with - and matches has one behind it, still before, that begins with + and matches, each in the mode there |
| Script.PatternDecides | multilog.c:546-555 | so the last action before that begins with + or - and matches decides by its first character |
| Script.SelectedAsDocumented | multilog.c:546-555 | the same with the patterns of simple mode as multilog.8 explains them, if none has two stars in a row |
| Script.ModeMeans | multilog.c:540-545 | the mode at an action is that of the last F or S before it, or else the one left by the line before |
| Script.LogsMean | multilog.c:579-582 | the logs are numbered by the actions that begin with a dot or a slash |
| Script.FlagOfLog | multilog.c:579-582 | the flag of a log is whether the line is selected at its action |
| Script.AllSelected | multilog.c:536-583 | without a deselecting action every log gets every line |
| Script.ModeLeak | multilog.c:540-545 | for a given matcher, the mode left by the line before makes no difference on any line if and only if the script ends in simple mode or the actions before its first F or S select alike in both modes |
| Script.ModeLeakExample | multilog.c:540-545 | a script and a line that are selected differently for every matcher that knows brackets |
| Script.LeakIsHarmless | multilog.c:540-545 | it makes no difference for any matcher if nothing is deselected before the first F or S |
| MultilogModule.Multilog.StampLine | multilog.c:521-530 | the line begins with the text of the one reading of the clock taken for it, in the form that the first action asks for, or with none and no reading taken |
| MultilogModule.Multilog.Pad | multilog.c:534 | the array holds the line filled up with newlines if and only if no earlier line reached 1000 bytes or this one does |
| MultilogModule.Multilog.RunScript | multilog.c:536-584 | log by log and status file by status file, by the first characters of the actions and the matcher: a log is flagged, and a file is written with the array, exactly if every action before that begins with - and matches is followed by one that begins with + and matches; every other file stays; the next mode |
| MultilogModule.Multilog.Act | multilog.c:539-584 | one action of the script: the selection, the flags, the files and the mode behind it are those of one action more |
| MultilogModule.ShareMeans | multilog.c:520-611 | what a log gets of a line: stamp, text and newline, or nothing, as the actions before its own say of the first 1000 bytes |
| MultilogModule.KeepExample | multilog.c:546-555 | behind -* and +keep a log gets the line keep, and nothing of the line drop |
| MultilogModule.Multilog.LongLine | multilog.c:590-601 | the rest of a long line, in chunks, goes to each selected log in whole and in order; if a read fails, just its full chunks; a process that dies on the way has given no more |
| MultilogModule.Multilog.ProcessLine | multilog.c:520-611 | one line: each log gets stamp, text and one newline if the script selects it on its first 1000 bytes, and nothing otherwise; the stamp is the text of the next reading of the clock, the only one taken; just these bytes were taken from standard input; if a read fails in it, exactly `Kept` of it is copied; a process that dies has given each selected log a first part of that, and the others nothing |
| MultilogModule.Multilog.Doit | multilog.c:500-613 | every log was given exactly the stamped lines selected for it, all of them the same lines, the i-th with the text of the i-th reading of the clock; these are all that was taken of standard input, but for what a failed read cut off the last one, which is exactly what is not in `Kept`; if neither end nor error ended the loop, TERM did, and what was taken ends at a line end, with nothing behind the first newline after TERM was noticed; a process that dies has given each log no more than its share of lines that begin standard input |
| MultilogModule.KeptAll | multilog.c:592-595 | a read error in a line costs nothing exactly if the line, with its stamp, is shorter than 1000 bytes or a multiple of 1000 bytes long |
| MultilogModule.KeptExample | multilog.c:592-595 | of a line of 1001 bytes the last is lost |
| MultilogModule.Multilog.CQuit | multilog.c:436-447 | every log has accepted all it was given, and is clean; its rotations were as they may be |
| MultilogModule.Multilog.Run | multilog.c:500-638 | the whole program: on its return each log directory has received the selected lines, each with the text of its own reading of the clock, for every chunking of reads and writes, and was rotated as it may be; on its death each has accepted a first part of what it had been given before and of its share of lines that begin standard input; it returns if no log may die; without TERM and read errors it has taken all of standard input, and then a plain script gives each log just that, with a final newline inserted if it is missing |
| MultilogModule.PlainCopy | multilog.c:520-611 | without stamp and deselecting actions a log gets the lines themselves |
| MultilogModule.PlainRun | multilog.c:520-611 | which are the bytes taken, with a final newline inserted if it is missing |
| MultilogModule.LinesDetermined | multilog.c:520-611 | the lines are determined by the input alone |
| Match.MatchSimple | match.c:5-26 | decides as multilog.8 says if no two stars are adjacent |
| Match.ScanIsSound | match.c:5-26 | a matching line splits as multilog.8 says, for every pattern |
| Match.ScanIsComplete | match.c:5-26 | a line that splits so matches, if no two stars are adjacent |
| Match.ScanMeetsManual | match.c:5-26 | code and manual agree on all lines if and only if no two stars are adjacent |
| Match.AdjacentStarsExample | match.c:12-20 | a pattern and a line where they do not |
| Stamp.TaiPack | tai_pack.c:5-18 | the eight bytes are the big-endian second |
| Stamp.TaiUnpack | tai_unpack.c:5-18 | reads that number back, for all bytes |
| Stamp.PackRoundTrip | tai_unpack.c:5-18 | reading the packed bytes of a number gives the number |
| Stamp.UnpackRoundTrip | tai_pack.c:5-18 | packing the number read from bytes gives the bytes |
| Stamp.TaiaPack | taia_pack.c:5-22 | seconds, nanoseconds and attoseconds in big-endian order |
| Stamp.FmtTai64nStamp | timestamp.c:7-22 | writes the text of the label of the instant, and nothing behind it |
| Stamp.ReadStamp | tai64nlocal.c:39-55 | on any text, the digits up to the first other character, as the pair of registers |
| Stamp.StampRoundTrip | tai64nlocal.c:36-55 | the stamp of an instant is read back as that second, if and only if it is in the range of signed seconds, and as that nanosecond always |
| Stamp.StampTellsTime | timestamp.c:7-22 | the stamp of a time of day is read back as its second, and 1000 times its microsecond and 500 as nanosecond, from the TAI epoch to the end of signed seconds |
| Stamp.StampTextOrder | multilog.c:117 | stamps compare as strings as their instants do |
| Stamp.StampOrderIsTimeOrder | taia_less.c:7-14 | string order of stamps is the order of time that taia_less decides |
| Decimal.FmtUlong | fmt_ulong.c:5-15 | writes the decimal digits of a number, and nothing around them |
| Decimal.FmtUint0 | fmt_uint0.c:5-12 | the same with leading zeros |
| Decimal.Digits10Value | fmt_ulong.c:5-15 | the digits stand for the number, without leading zeros |
| Decimal.FmtAccustamp | timestamp.c:24-35 | writes Unix second, dot and microseconds, and nothing behind them |
| Decimal.AccuStampTells | timestamp.c:24-35 | both numbers can be read off the stamp, the second if and only if it is not before the epoch |
| Status.MakeStatus | supervise.c:140-156 | writes the published form of a record, and nothing else |
| Status.PublishedFields | supervise.c:140-156 | second, pid, pause, want and state can be read off the published bytes |
| Status.ShowStatus | svstat.c:34-94 | shows of a published record just its pid, age, pause, want and state, and of a file of 18 bytes all but the state |
| Status.CheckStatus | svup.c:11-17 | of a published record: up if and only if it has a pid, or is started or running in a file of more than 18 bytes |
| Pathexec.CallMeans | pathexec_env.c:13-23 | the entry recorded for a name without = sets that variable to the value, or unsets it |
| Pathexec.LastCallWins | pathexec_env.c:50-64 | the last call for a name decides its value, and a null value unsets it |
| Pathexec.OthersKeep | pathexec_env.c:50-64 | names without a call keep what they had |
| Pathexec.RemovedDenotes | pathexec_env.c:57-58 | removal by swapping in the last entry unsets that name and no other, and keeps names distinct |
| Pathexec.RemoveName | pathexec_env.c:54-60 | the inner loop finds the entry of just that name, if any |
| Pathexec.PathexecState.PathexecEnv | pathexec_env.c:13-23 | one more call is recorded, which sets or unsets its variable; without a name none is |
| Pathexec.PathexecState.MergeCalls | pathexec_env.c:50-64 | the separator scan finds the recorded calls again and applies them in order |
| Pathexec.PathexecState.Pathexec | pathexec_env.c:25-69 | the new environment has distinct names, fits into the slots allocated, and is the old one overridden by the calls in order |
| Supervise.Supervise.constructor | supervise.c:457-464 | the state before anything starts |
| Supervise.Supervise.ForkExecve | supervise.c:106-138 | the new child is the one recorded, with the process id that the kernel has for it if that is free; a failed fork changes nothing; it fails exactly if the kernel refuses it or has no process id left |
| Supervise.Supervise.Announce | supervise.c:158-181 | the file agrees with both records, and with one where there is no log service; what is behind stays |
| Supervise.Supervise.PidChange | supervise.c:198-205 | the same, with the time of this reading of the clock; ./notify is forked if there is one and the kernel grants it, and no record knows that child |
| Supervise.Supervise.TryStart | supervise.c:207-235 | exactly the script due is forked, or the service is done, exactly if ./run is missing, or its fork failed, exactly if the kernel refused it or had no process id left; published unless that is so |
| Supervise.Supervise.TryStop | supervise.c:237-256 | ./stop is forked once, for the main service only, and exactly if it is executable and the kernel grants the fork; if it is not due, the service is stopped |
| Supervise.Supervise.StopSvc | supervise.c:264-271 | TERM and CONT, in this order, to the recorded process or its group if there is one |
| Supervise.Supervise.NoteExit | supervise.c:287-296 | the status after an exit; failed exactly after one with code 100 or a bad end of the main service in the state starting |
| Supervise.Supervise.Reaper | supervise.c:273-309 | of the answers of wait_nohang, all but the last name notifiers; if the last names the process of a service, exactly that exit is handled, by its status: a failed service has nothing forked for it and is not wanted up; another that is wanted up, or has done ./start, gets ./run or ./log, if supervise is not to exit, there is one and the fork is granted; else ./stop, if it is due, there is one and the fork is granted; its pid, state, want, ./stop record and what was launched for it are exactly determined, and the other service is untouched; if it names no service, nothing changes; all promises are kept |
| Supervise.Supervise.Reaped | supervise.c:286-307 | the same for one exit, given which answer told of it |
| Supervise.Supervise.Down | supervise.c:331-339 | a live process is signalled and nothing is forked; without one ./stop is forked, exactly if due and granted, or the service is stopped; the order is one that may not be held exactly if that ran ./stop in the state starting |
| Supervise.Supervise.DownSlips | supervise.c:293-303 | any such order is not held: after the exit 0 of ./stop the service is up, with ./run, though ordered down |
| Supervise.Supervise.Up | supervise.c:340-349 | wanted up from now on; a running process is left alone; ./start comes first only if the service was not wanted up |
| Supervise.Supervise.Once | supervise.c:350-354 | not wanted from now on; a running process is left alone, and without one the service is started, if there is a script and the fork is granted |
| Supervise.Supervise.Obey | supervise.c:317-378 | one command: p pauses, c continues; u, o and d say what is wanted; x says that supervise is to exit; no other byte changes a record; the signals of the table, in this order, go to the process, or to its group, and no others to any |
| Supervise.Supervise.Controller | supervise.c:311-379 | every sequence of commands: each service has the last order given to it, the way out is taken if there was an x, and exactly the signals of these commands were sent, each to the service that the last L or l selected, to its group behind a + and to its process behind a = and at the start |
| Supervise.Supervise.Pass | supervise.c:390-416 | one pass of the loop: an exit that its answers tell of is handled, as above, and then the commands are obeyed; the log service is stopped at its end exactly if the main one is stopped on the way out and the log service was running, and that is unannounced until the next announcement |
| Supervise.Supervise.Begin | supervise.c:488-499 | the promises hold when the loop is entered |
| Supervise.SignalTable | supervise.c:355-373 | the signals of each command, as in svc.8, and none for other bytes |
| Supervise.LastServiceDecides | supervise.c:325-330 | the last L or l says which service a command is for, and without one it is for the main one |
| Supervise.LastTargetDecides | supervise.c:319-324 | the last + or = says whether signals go to the group, and without one they go to the process |
| Supervise.LastOrderDecides | supervise.c:331-354 | the last of u, o and d for a service is its order, and the last of u and d says whether it is wanted up |
| Supervise.Supervise.Doit | supervise.c:381-417 | the promises hold at every loop head, after obeying all commands: so a service is wanted up exactly if the last u or d says so, or no longer if an exit with code 100 or a bad ./start, which is named, came after; wait_nohang is asked in each pass, and every service child reaped is on a list of exits handled as above, in order; if no fork was refused, each service wanted up has a process, an order d has launched nothing but one ./stop, and the status file is that of the records, but for a late stop of the log service; it returns exactly if it is to exit and both services are reaped, and the file shows the records then, as before the first pass; from any pass on from which it is to exit and no command comes, it returns with as many reaps as the measure then, at most three |
| Supervise.ShownOrNot | supervise.c:140-156 | when an outdated state or pause makes the published bytes wrong, and when not |
| Supervise.Run | supervise.c:457-504 | the same from the start, for every order of exits, granted and refused forks, scripts found or not, times and commands, up to the last announcement behind the loop |
| Supervise.NotKeptUp | supervise.c:228-232 | a run after which a service wanted up has no process |
| Supervise.NotKeptDown | supervise.c:293-303 | a run after which a service ordered down is up |
| Supervise.OutOfDate | supervise.c:228-232 | a run after which the file shows another state than the record, for a failed fork |
| Supervise.StoppedUnannounced | supervise.c:412-415 | a run after which it does, for the stop on the way out |

## Left out

- System calls that fail: multilog retries them after a pause until they succeed, so here they succeed or the process dies.
- The clock of a log is taken to show a later time at each link than at the one before (`NextReading` takes the next instant for a reading that is not later), and the first link is taken to succeed (`multilog.c:160-169` advances `code` inside its retry loop); when the last instant that a label can show is used up, the process ends before the link.
- The finished code is taken not to be `u`, the mark of unfinished logs (action w allows it).
- The files state and newstate of a processor, the lock file, making and entering directories. A processor is taken to die with its multilog.
- The old logs of the model are in the order of their creation. readdir gives names in any order, and other names in the directory are the six files of multilog itself.
- That file names, links and modes survive a power failure, in the order in which they were made, is a hypothesis about the file system (`Survives`); only file contents that were not synced may be cut.
- What the processor computes: its output stands for the data that it was fed when it exits 0.
- Action e (alerts) and standard error, and what fnmatch decides: it is any function of pattern and line.
- A status file of action = beyond its first 1001 bytes, and which files can be opened.
- Standard input that goes on after it ended once. Reads are interrupted only a bounded number of times in a row.
- OutBuffers.OutBuffer.Put: an error of the operation is not returned, because the operation is c_write, which does not return one; its place is taken by the death of the process.
- InBuffers.InBuffer.CopyLine: does not return -3, for the same reason.
- Memory exhaustion, wrap-around of machine lengths in buffers, and command-line parsing.
- Status.ShowStatus: the words are the parts of the line in order, numbers not yet in decimal; svstat's reading of the files and its options are not modelled.
- What stat_isexec, stat_exists, wait_nohang, fork and the clock answer, each time, is fixed for a run but otherwise arbitrary; an answer of wait_nohang that names no child is that there is none, and a process id in use is not given again. The arguments of notify, sessions, the pipe between the services, iopause and deepsleep are not modelled.
- Writes of the status file are taken to succeed, and wait_nohang is taken not to be interrupted.
- That ./run is started only after ./start succeeded is not claimed: any exit of a service child clears firstrun (`supervise.c:300`).
- Supervise.Supervise.Announce: writes nothing of the log half when there is no log service, as the code does.
- localtime in tai64nlocal, svscan, svc, svok, envdir, setlock, softlimit and the other small tools: thin, or about matters left out above.
