/** The line pipeline of multilog: stamp, read, select, copy to the logs, and quit. */
module MultilogModule {
  import opened Wrappers
  import opened Stamp
  import opened Decimal
  import opened Match
  import opened Script
  import opened Disk
  import opened CyclogModule
  import opened OutBuffers
  import opened InBuffers

  const MAXLINE := 1000

  /** The readings of the clock. */
  type Clock = nat -> TimeOfDay

  // ---------- what the logs should get ----------

  /** A line of input: the stamp put before it, the line itself, and the match mode it began with. */
  datatype Line = Line(stamp: string, text: string, mode: Mode)

  function First(s: string): string {
    if |s| <= MAXLINE then s else s[..MAXLINE]
  }

  /** What an entry looks like in a log. */
  function Shown(e: Line): string { e.stamp + e.text + "\n" }

  /** Which logs get an entry. */
  function SelectedFor(script: seq<string>, fn: Matcher, e: Line): seq<bool> {
    Flags(script, |script|, First(e.stamp + e.text), e.mode, fn)
  }

  /** The bytes of an entry that log j gets. */
  function Share(script: seq<string>, fn: Matcher, e: Line, j: nat): string
    requires j < LogCount(script, |script|)
  {
    if SelectedFor(script, fn, e)[j] then Shown(e) else ""
  }

  function GivenTo(script: seq<string>, fn: Matcher, entries: seq<Line>, j: nat): string
    requires j < LogCount(script, |script|)
  {
    if entries == [] then ""
    else GivenTo(script, fn, entries[..|entries| - 1], j) + Share(script, fn, entries[|entries| - 1], j)
  }

  /** The input that the entries come from, its last line complete. */
  function InputOf(entries: seq<Line>): string {
    if entries == [] then "" else InputOf(entries[..|entries| - 1]) + entries[|entries| - 1].text + "\n"
  }

  /** A text with its last line complete. */
  function Completed(s: string): string {
    if AtLineStart(s) then s else s + "\n"
  }

  /** Entry i is one line, with the stamp of the i-th reading of the clock if the script wants one,
      and its mode is what the script left behind on the line before. */
  ghost predicate LineOk(script: seq<string>, clock: Clock, lines: seq<Line>, i: nat)
    requires i < |lines|
  {
    && '\n' !in lines[i].text && '\n' !in lines[i].stamp && lines[i].stamp == StampFor(script, clock(i))
    && lines[i].mode == ModeAfter(script, lines[..i])
  }

  ghost predicate Lines(script: seq<string>, clock: Clock, lines: seq<Line>) {
    forall i :: 0 <= i < |lines| ==> LineOk(script, clock, lines, i)
  }

  /** The streams of the logs, each longer by its share of the lines. */
  ghost predicate Extended(script: seq<string>, fn: Matcher, lines: seq<Line>,
                           before: seq<string>, after: seq<string>) {
    && |before| == |after| == LogCount(script, |script|)
    && forall j :: 0 <= j < |before| ==> after[j] == before[j] + GivenTo(script, fn, lines, j)
  }

  /** What a status file should hold: the first bytes of a line, filled up with newlines. */
  function Padded(s: string): (r: string)
    ensures |r| == MAXLINE + 1
  {
    First(s) + seq(MAXLINE + 1 - |First(s)|, _ => '\n')
  }

  /** No stamp, and nothing that would deselect a line. */
  predicate PlainScript(script: seq<string>) {
    && (forall k :: 0 <= k < |script| ==> Verb(script[k]) != '-')
    && (script != [] ==> Verb(script[0]) != 't' && Verb(script[0]) != 'T')
  }

  // ---------- the state ----------

  predicate NewlinesFrom(s: string, n: nat) {
    forall i :: n <= i < |s| ==> s[i] == '\n'
  }

  /** What is in the line array behind its first n bytes. Once a line has reached MAXLINE bytes,
      some of it stays there for good. */
  predicate PaddingOf(s: string, n: nat, oldlinelen: nat, dirty: bool) {
    && |s| == MAXLINE + 1 && oldlinelen <= MAXLINE + 1 && s[MAXLINE] == '\n'
    && (!dirty ==> NewlinesFrom(s, if n > oldlinelen then n else oldlinelen))
    && (dirty ==> oldlinelen < MAXLINE && (n < MAXLINE ==> s[MAXLINE - 1] != '\n'))
  }

  predicate Writes(script: seq<string>, fn: Matcher, i: nat, mode: Mode, key: string)
    requires i < |script|
  {
    Verb(script[i]) == '=' && SelectedAt(script, i, key, mode, fn)
  }

  /** The status files when a line with these first bytes has seen n actions. */
  predicate FilesWritten(script: seq<string>, fn: Matcher, before: seq<string>, after: seq<string>, n: nat,
                         mode: Mode, key: string, content: string) {
    && |after| == |before| == |script|
    && forall i :: 0 <= i < |script| ==>
         after[i] == if i < n && Writes(script, fn, i, mode, key) then content else before[i]
  }

  /** The status files after a line. They are right unless an earlier line left its remains in the
      array and this one is too short to cover them. */
  predicate StatusesWritten(script: seq<string>, fn: Matcher, before: seq<string>, after: seq<string>,
                            wasdirty: bool, mode: Mode, key: string) {
    && |after| == |before| == |script|
    && forall i :: 0 <= i < |script| ==>
         if Writes(script, fn, i, mode, key)
         then after[i] == Padded(key) <==> !wasdirty || |key| >= MAXLINE
         else after[i] == before[i]
  }

  /** A log, named by a dot or a slash, is selected if and only if each earlier - that matches the
      line has a + that matches it between them. */
  ghost predicate LogsChosen(script: seq<string>, fn: Matcher, selected: seq<bool>, key: string, mode: Mode) {
    forall i | 0 <= i < |script| && script[i] != "" && (script[i][0] == '.' || script[i][0] == '/') ::
      && LogCount(script, i) < |selected|
      && (selected[LogCount(script, i)] <==>
            forall k | 0 <= k < i && Hit(script, k, '-', key, mode, fn) ::
              exists m | k < m < i :: Hit(script, m, '+', key, mode, fn))
  }

  /** So is a status file written, named behind a =. */
  ghost predicate FilesChosen(script: seq<string>, fn: Matcher, before: seq<string>, after: seq<string>,
                              key: string, mode: Mode, content: string) {
    && |before| == |after| == |script|
    && forall i | 0 <= i < |script| ::
         if script[i] != "" && script[i][0] == '='
            && (forall k | 0 <= k < i && Hit(script, k, '-', key, mode, fn) ::
                  exists m | k < m < i :: Hit(script, m, '+', key, mode, fn))
         then after[i] == content else after[i] == before[i]
  }

  lemma FlagsChosen(script: seq<string>, fn: Matcher, key: string, mode: Mode)
    ensures LogsChosen(script, fn, Flags(script, |script|, key, mode, fn), key, mode)
  {
    forall i | 0 <= i < |script| && script[i] != "" && (script[i][0] == '.' || script[i][0] == '/')
      ensures LogCount(script, i) < LogCount(script, |script|)
      ensures Flags(script, |script|, key, mode, fn)[LogCount(script, i)] <==>
              forall k | 0 <= k < i && Hit(script, k, '-', key, mode, fn) ::
                exists m | k < m < i :: Hit(script, m, '+', key, mode, fn)
    {
      FlagOfLog(script, i, |script|, key, mode, fn);
      SelectedMeans(script, i, key, mode, fn);
    }
  }

  lemma FilesAreChosen(script: seq<string>, fn: Matcher, before: seq<string>, after: seq<string>,
                       key: string, mode: Mode, content: string)
    requires FilesWritten(script, fn, before, after, |script|, mode, key, content)
    ensures FilesChosen(script, fn, before, after, key, mode, content)
  {
    forall i | 0 <= i < |script|
      ensures SelectedAt(script, i, key, mode, fn) <==>
              forall k | 0 <= k < i && Hit(script, k, '-', key, mode, fn) ::
                exists m | k < m < i :: Hit(script, m, '+', key, mode, fn)
    {
      SelectedMeans(script, i, key, mode, fn);
    }
  }

  /** What a log gets of an entry, if its action is a dot or a slash: stamp, text and newline, or
      nothing, as the actions before it say of the first 1000 bytes. */
  lemma ShareMeans(script: seq<string>, fn: Matcher, e: Line, i: nat)
    requires i < |script| && script[i] != "" && (script[i][0] == '.' || script[i][0] == '/')
    ensures LogCount(script, i) < LogCount(script, |script|)
    ensures var whole := e.stamp + e.text;
            var key := if |whole| <= 1000 then whole else whole[..1000];
            Share(script, fn, e, LogCount(script, i))
            == if forall k | 0 <= k < i && Hit(script, k, '-', key, e.mode, fn) ::
                    exists m | k < m < i :: Hit(script, m, '+', key, e.mode, fn)
               then e.stamp + e.text + "\n" else ""
  {
    FlagOfLog(script, i, |script|, First(e.stamp + e.text), e.mode, fn);
    SelectedMeans(script, i, First(e.stamp + e.text), e.mode, fn);
  }

  /** A log behind -* and +keep gets the line keep, and not the line drop. */
  lemma KeepExample(fn: Matcher)
    ensures var script := ["-*", "+keep", "./main"];
            && LogCount(script, 3) == 1 && LogCount(script, 2) == 0
            && Share(script, fn, Line("", "keep", Simple), 0) == "keep\n"
            && Share(script, fn, Line("", "drop", Simple), 0) == ""
  {
    var script := ["-*", "+keep", "./main"];
    assert LogCount(script, 1) == LogCount(script, 0) == 0;
    assert "" + "keep" == "keep" && "" + "drop" == "drop";
    assert script[0][1..] == "*" && script[1][1..] == "keep";
    assert ModeAt(script, 0, Simple) == ModeAt(script, 1, Simple) == Simple;
    assert Scan("*", "drop") && Scan("keep", "keep") && !Scan("keep", "drop");
    assert Hit(script, 0, '-', "drop", Simple, fn) && !Hit(script, 1, '+', "drop", Simple, fn);
    assert Hit(script, 1, '+', "keep", Simple, fn);
    ShareMeans(script, fn, Line("", "keep", Simple), 2);
    ShareMeans(script, fn, Line("", "drop", Simple), 2);
  }

  lemma FileStep(script: seq<string>, fn: Matcher, before: seq<string>, mid: seq<string>, after: seq<string>, n: nat,
                 mode: Mode, key: string, content: string)
    requires n < |script| && FilesWritten(script, fn, before, mid, n, mode, key, content)
    requires after == if Writes(script, fn, n, mode, key) then mid[n := content] else mid
    ensures FilesWritten(script, fn, before, after, n + 1, mode, key, content)
  {
  }

  lemma StatusesFromFiles(script: seq<string>, fn: Matcher, before: seq<string>, after: seq<string>,
                          wasdirty: bool, mode: Mode, key: string, content: string)
    requires FilesWritten(script, fn, before, after, |script|, mode, key, content)
    requires content == Padded(key) <==> !wasdirty || |key| >= MAXLINE
    ensures StatusesWritten(script, fn, before, after, wasdirty, mode, key)
  {
  }

  /** What is known once the first bytes of a line were read. */
  datatype Begun = Begun(stamp: string, text: string, ended: bool)

  class Multilog {
    const ssin: InBuffer
    const script: seq<CString>
    const fnmatch: Matcher
    const line: array<char>
    const clock: Clock
    var readings: nat                // how often it was read
    var mode: Mode                   // match
    var selected: seq<bool>          // flagselected of each log
    var files: seq<string>           // file i of an action =file, its first bytes
    var oldlinelen: nat
    ghost var dirty: bool            // a line has reached MAXLINE bytes

    constructor (ssin: InBuffer, script: seq<CString>, fnmatch: Matcher, clock: Clock)
      requires ssin.Valid() && |ssin.op.logs| == LogCount(script, |script|)
      ensures Valid() && this.ssin == ssin && this.script == script && this.fnmatch == fnmatch && fresh(line)
      ensures this.clock == clock && readings == 0 && mode == Simple && !dirty
    {
      this.ssin, this.script, this.fnmatch, this.clock, readings := ssin, script, fnmatch, clock, 0;
      line := new char[MAXLINE + 1](_ => '\n');
      mode, selected, files := Simple, seq(|ssin.op.logs|, _ => true), seq(|script|, _ => "");
      oldlinelen, dirty := MAXLINE + 1, false;
    }

    /** What stays as it is. */
    ghost predicate Fixed()
      reads `selected, `files
    {
      && line.Length == MAXLINE + 1 && line != ssin.x
      && line !in LogsRepr(ssin.op.logs) && this !in LogsRepr(ssin.op.logs)
      && |ssin.op.logs| == LogCount(script, |script|) == |selected| && |files| == |script|
    }

    ghost predicate Valid()
      reads this, line, ssin, ssin.x, ssin.op, LogsRepr(ssin.op.logs)
    {
      Fixed() && PaddingKnown(0) && ssin.Valid()
    }

    ghost predicate PaddingKnown(n: nat)
      reads `oldlinelen, `dirty, line
    {
      PaddingOf(line[..], n, oldlinelen, dirty)
    }

    /** All that each log was given so far. */
    ghost function Given(): seq<string>
      reads ssin.op`streams
    {
      ssin.op.streams
    }

    // ---------- the steps of one line ----------

    /** The stamp, if any, and the space behind it. */
    method StampLine() returns (linelen: nat, ghost stamp: string)
      requires Fixed()
      modifies line, `readings
      ensures linelen == |stamp| <= 29 && line[..linelen] == stamp && '\n' !in stamp
      ensures forall i :: linelen <= i <= MAXLINE ==> line[i] == old(line[i])
      ensures stamp == StampFor(script, clock(old(readings))) && ReadOnce(old(readings))
    {
      linelen, stamp := 0, "";
      if script != [] && (Verb(script[0]) == 't' || Verb(script[0]) == 'T') {
        var now := Now();
        ghost var text := if Verb(script[0]) == 't' then StampText(LabelOf(now)) else AccuText(now);
        if Verb(script[0]) == 't' {
          linelen := FmtTai64nStamp(line, now);
        } else {
          linelen := FmtAccustamp(line, now);
        }
        assert line[..linelen] == text;
        StampHasNoNewline(now);
        line[linelen] := ' ';
        linelen := linelen + 1;
        stamp := text + " ";
        assert line[..linelen] == text + " ";
      }
    }

    /** The same beside the input. */
    method StampBeside() returns (linelen: nat, ghost stamp: string)
      requires Valid()
      modifies line, `readings
      ensures linelen == |stamp| <= 29 && line[..linelen] == stamp && '\n' !in stamp && PaddingKnown(linelen)
      ensures stamp == StampFor(script, clock(old(readings))) && ReadOnce(old(readings))
      ensures ssin.Valid() && ssin.Left() == old(ssin.Left())
    {
      linelen, stamp := StampLine();
    }

    method Now() returns (t: Taia)
      modifies `readings
      ensures t == TaiaNow(clock(old(readings))) && readings == old(readings) + 1
    {
      t := TaiaNow(clock(readings));
      readings := readings + 1;
    }

    /** The clock was read for one line more, if the script wants stamps. */
    ghost predicate ReadOnce(before: nat)
      reads `readings
    {
      readings == before + if Stamping(script) then 1 else 0
    }

    /** The array behind the line is filled up, as far as the line before went. */
    method Pad(linelen: nat, ghost key: string)
      requires Fixed() && PaddingKnown(linelen) && linelen == |key| <= MAXLINE && line[..linelen] == key
      modifies line
      ensures PaddingKnown(linelen) && line[..linelen] == key
      ensures !dirty ==> NewlinesFrom(line[..], linelen)
      ensures line[..] == Padded(key) <==> !dirty || linelen == MAXLINE
    {
      var i := linelen;
      while i < oldlinelen
        invariant linelen <= i <= MAXLINE + 1 && (i <= oldlinelen || i == linelen)
        invariant forall k :: 0 <= k < linelen ==> line[k] == old(line[k])
        invariant forall k :: linelen <= k < i ==> line[k] == '\n'
        invariant forall k :: i <= k <= MAXLINE ==> line[k] == old(line[k])
      {
        line[i] := '\n';
        i := i + 1;
      }
      assert line[..linelen] == key by {
        assert forall k :: 0 <= k < linelen ==> line[k] == old(line[..linelen])[k];
      }
      PaddedAt(key);
      if !dirty || linelen == MAXLINE {
        assert forall k :: linelen <= k <= MAXLINE ==> line[k] == '\n';
        assert line[..] == key + line[linelen..];
      } else {
        assert line[..][MAXLINE - 1] != '\n';
      }
    }

    method MatchLine(pattern: CString, s: string) returns (r: bool)
      ensures r == Matches(fnmatch, mode, pattern, s)
    {
      if mode == Simple {
        r := MatchSimple(pattern, s);
      } else {
        r := fnmatch(pattern, s);
      }
    }

    /** The loop over the actions. */
    method RunScript(linelen: nat, ghost key: string)
      requires Fixed() && linelen <= MAXLINE && line[..linelen] == key
      modifies `mode, `selected, `files
      ensures Fixed()
      ensures selected == Flags(script, |script|, key, old(mode), fnmatch)
      ensures mode == ModeAt(script, |script|, old(mode))
      ensures FilesWritten(script, fnmatch, old(files), files, |script|, old(mode), key, line[..])
      ensures LogsChosen(script, fnmatch, selected, key, old(mode))
      ensures FilesChosen(script, fnmatch, old(files), files, key, old(mode), line[..])
    {
      var flagselected := true;
      var j := 0;
      for i := 0 to |script|
        invariant |files| == |script| && |selected| == LogCount(script, |script|)
        invariant j == LogCount(script, i) <= |selected|
        invariant flagselected == SelectedAt(script, i, key, old(mode), fnmatch) && mode == ModeAt(script, i, old(mode))
        invariant selected[..j] == Flags(script, i, key, old(mode), fnmatch)
        invariant FilesWritten(script, fnmatch, old(files), files, i, old(mode), key, line[..])
      {
        LogCountGrows(script, i + 1);
        ghost var written, before := files, selected;
        flagselected, j := Act(i, j, linelen, flagselected, key, old(mode));
        FlagsMore(script, i, key, old(mode), fnmatch, before, selected);
        FileStep(script, fnmatch, old(files), written, files, i, old(mode), key, line[..]);
      }
      FlagsChosen(script, fnmatch, key, old(mode));
      FilesAreChosen(script, fnmatch, old(files), files, key, old(mode), line[..]);
    }

    /** One action. */
    method Act(i: nat, j: nat, linelen: nat, flagselected: bool, ghost key: string, ghost first: Mode)
      returns (after: bool, j': nat)
      requires i < |script| == |files| && (IsLog(script[i]) ==> j < |selected|)
      requires linelen <= line.Length && line[..linelen] == key
      requires flagselected == SelectedAt(script, i, key, first, fnmatch) && mode == ModeAt(script, i, first)
      modifies `mode, `selected, `files
      ensures after == SelectedAt(script, i + 1, key, first, fnmatch) && mode == ModeAt(script, i + 1, first)
      ensures files == if Writes(script, fnmatch, i, first, key) then old(files)[i := line[..]] else old(files)
      ensures selected == if IsLog(script[i]) then old(selected)[j := flagselected] else old(selected)
      ensures j' == j + if IsLog(script[i]) then 1 else 0
    {
      var action := script[i];
      after, j' := flagselected, j;
      match Verb(action)
      case 'F' =>
        mode := Fnmatch;
      case 'S' =>
        mode := Simple;
      case '+' =>
        if !flagselected {
          after := MatchLine(action[1..], line[..linelen]);
        }
      case '-' =>
        if flagselected {
          var r := MatchLine(action[1..], line[..linelen]);
          after := !r;
        }
      case '=' =>
        if flagselected {
          files := files[i := line[..]];
        }
      case '.' =>
        selected := selected[j := flagselected];
        j' := j + 1;
      case '/' =>
        selected := selected[j := flagselected];
        j' := j + 1;
      case _ =>
    }

    // ---------- copying to the logs ----------

    /** buffer_put of some bytes to each selected log. */
    method PutSelected(bytes: string) returns (r: Outcome)
      requires Fixed() && ssin.op.Valid()
      modifies ssin.op`streams, LogsRepr(ssin.op.logs)
      ensures r.Dead? ==> Died(ssin.op.logs, Given()) && GaveUpTo(old(Given()), Given(), selected, bytes)
      ensures r.Alive? ==> ssin.op.Valid() && Gave(old(Given()), Given(), selected, bytes)
    {
      GaveFirst(Given(), selected, bytes);
      for j := 0 to |ssin.op.logs|
        invariant AllValid(ssin.op.logs, Given()) && GaveSome(old(Given()), Given(), selected, bytes, j)
      {
        ghost var before := Given();
        if selected[j] {
          r := ssin.op.PutTo(j, bytes);
          GaveNext(old(Given()), before, Given(), selected, bytes, j);
          if r.Dead? { return; }
        } else {
          GaveNext(old(Given()), before, before, selected, bytes, j);
        }
      }
      return Alive;
    }

    /** buffer_PUTC of the newline to each selected log. */
    method EndSelected() returns (r: Outcome)
      requires Fixed() && ssin.op.Valid()
      modifies ssin.op`streams, LogsRepr(ssin.op.logs)
      ensures r.Dead? ==> Died(ssin.op.logs, Given()) && GaveUpTo(old(Given()), Given(), selected, "\n")
      ensures r.Alive? ==> ssin.op.Valid() && Gave(old(Given()), Given(), selected, "\n")
    {
      GaveFirst(Given(), selected, "\n");
      for j := 0 to |ssin.op.logs|
        invariant AllValid(ssin.op.logs, Given()) && GaveSome(old(Given()), Given(), selected, "\n", j)
      {
        ghost var before := Given();
        if selected[j] {
          r := ssin.op.PutCTo(j, '\n');
          GaveNext(old(Given()), before, Given(), selected, "\n", j);
          if r.Dead? { return; }
        } else {
          GaveNext(old(Given()), before, before, selected, "\n", j);
        }
      }
      return Alive;
    }

    /** One more chunk of a line that filled the array. After a read error in its middle the
        part of it that was read is not copied. */
    method Chunk() returns (r: Outcome, k: int, linelen: nat, ghost text: string, ghost ended: bool)
      requires Fixed() && ssin.Valid() && line[MAXLINE] == '\n' && line[MAXLINE - 1] != '\n'
      modifies line, ssin, ssin.x, ssin.op, LogsRepr(ssin.op.logs)
      ensures r.Dead? ==> Died(ssin.op.logs, Given()) && GaveUpTo(old(Given()), Given(), selected, text)
      ensures '\n' !in text && old(ssin.handed) + text <= ssin.op.stdin
      ensures r.Alive? ==> ssin.Valid() && ssin.op.Onward() && ChunkRead(k, linelen, text, ended)
      ensures r.Alive? ==> Gave(old(Given()), Given(), selected, if k < 0 then "" else text)
      ensures r.Alive? ==> HandedOut(old(ssin.handed), ssin.handed, old(ssin.Left()), ssin.Left(), text, ended, '\n')
    {
      GaveFirst(Given(), selected, "");
      GaveNothing(Given(), selected);
      r, k, linelen, text, ended := ReadChunk();
      if r.Alive? && k >= 0 {
        r := PutSelected(line[..linelen]);
      }
    }

    /** The read of that. */
    method ReadChunk() returns (r: Outcome, k: int, linelen: nat, ghost text: string, ghost ended: bool)
      requires Fixed() && ssin.Valid() && line[MAXLINE] == '\n' && line[MAXLINE - 1] != '\n'
      modifies line, ssin, ssin.x, ssin.op, LogsRepr(ssin.op.logs)
      ensures Given() == old(Given())
      ensures r.Dead? ==> Died(ssin.op.logs, Given()) && text == ""
      ensures '\n' !in text && old(ssin.handed) + text <= ssin.op.stdin
      ensures r.Alive? ==> ssin.Valid() && ssin.op.Onward() && ChunkRead(k, linelen, text, ended)
      ensures r.Alive? ==> line[..linelen] == text
      ensures r.Alive? ==> HandedOut(old(ssin.handed), ssin.handed, old(ssin.Left()), ssin.Left(), text, ended, '\n')
    {
      HandedIsInput();
      assert old(ssin.handed) + "" == old(ssin.handed);
      r, k, linelen, text, ended := ssin.Gets(line, 0, MAXLINE, '\n');
      if r.Dead? {
        text := "";
        return;
      }
      HandedIsInput();
      WroteAt(old(line[..]), line[..], 0, text, MAXLINE);
      WroteAt(old(line[..]), line[..], 0, text, MAXLINE - 1);
      assert text == line[..][0..linelen] == line[..linelen];
    }

    /** A chunk is in the array; it is shorter than that only if the line ended, or nothing more
        can be read. */
    ghost predicate ChunkRead(k: int, linelen: nat, text: string, ended: bool)
      reads line, ssin, ssin.op
    {
      && linelen == |text| <= MAXLINE && k <= 0 && (k < 0 ==> ssin.op.faulty)
      && (ended ==> k == 0 && linelen < MAXLINE) && (k < 0 ==> linelen < MAXLINE && ssin.p == 0)
      && (!ended && k == 0 && linelen < MAXLINE ==> ssin.p == 0 && ssin.NoMore())
      && line.Length == MAXLINE + 1 && line[MAXLINE] == '\n' && line[MAXLINE - 1] != '\n'
    }

    /** What was handed out is a first part of standard input. */
    lemma HandedIsInput()
      requires ssin.Valid()
      ensures ssin.handed <= ssin.op.stdin
    {
    }

    /** The rest of a line that filled the array with its first chunk. If reading fails, all but
        its full chunks is lost. */
    method LongLine()
      returns (r: Outcome, linelen: nat, flageof: bool, ghost more: string, ghost ended: bool, ghost lost: string)
      requires Fixed() && ssin.Valid() && line[MAXLINE] == '\n' && line[MAXLINE - 1] != '\n'
      modifies line, ssin, ssin.x, ssin.op, LogsRepr(ssin.op.logs)
      ensures r.Dead? ==> Died(ssin.op.logs, Given()) && GaveUpTo(old(Given()), Given(), selected, more)
      ensures '\n' !in more && old(ssin.handed) + more <= ssin.op.stdin
      ensures r.Alive? ==> ssin.Valid() && ssin.op.Onward() && ssin.Left() <= old(ssin.Left())
      ensures r.Alive? ==> Gave(old(Given()), Given(), selected, more) && (flageof ==> FullChunks(more))
      ensures r.Alive? ==> Rest(old(ssin.handed), ssin.handed, more, ended, lost) && linelen < MAXLINE
      ensures r.Alive? ==> Stopped(flageof, ended, lost)
      ensures r.Alive? ==> line[MAXLINE] == '\n' && line[MAXLINE - 1] != '\n'
    {
      linelen, flageof, more, ended, lost := MAXLINE, false, "", false, "";
      RestOfNothing(ssin.handed);
      HandedIsInput();
      assert old(ssin.handed) + "" == old(ssin.handed);
      GaveNothing(Given(), selected);
      OneChunkMore("", "");
      while linelen == MAXLINE
        invariant linelen <= MAXLINE && ssin.Valid() && ssin.op.Onward() && ssin.Left() <= old(ssin.Left())
        invariant Gave(old(Given()), Given(), selected, more)
        invariant Rest(old(ssin.handed), ssin.handed, more, ended, lost) && lost == "" && (ended ==> linelen < MAXLINE)
        invariant linelen < MAXLINE && !ended ==> ssin.p == 0 && ssin.NoMore()
        invariant linelen == MAXLINE ==> FullChunks(more)
        invariant old(ssin.handed) + more <= ssin.op.stdin
        invariant line[MAXLINE] == '\n' && line[MAXLINE - 1] != '\n'
        decreases ssin.Left(), linelen
      {
        var k;
        r, k, linelen, more, ended, lost := NextChunk(more, old(ssin.handed), old(Given()));
        if r.Dead? { return; }
        if k < 0 {
          flageof := true;
          return;
        }
        if linelen == 0 { break; }
      }
      r := Alive;
    }

    /** One turn of that loop. */
    method NextChunk(ghost more: string, ghost start: string, ghost given: seq<string>)
      returns (r: Outcome, k: int, linelen: nat, ghost more': string, ghost ended: bool, ghost lost: string)
      requires Fixed() && ssin.Valid() && line[MAXLINE] == '\n' && line[MAXLINE - 1] != '\n'
      requires Rest(start, ssin.handed, more, false, "") && Gave(given, Given(), selected, more)
      requires start + more <= ssin.op.stdin
      modifies line, ssin, ssin.x, ssin.op, LogsRepr(ssin.op.logs)
      ensures r.Dead? ==> Died(ssin.op.logs, Given()) && GaveUpTo(given, Given(), selected, more')
      ensures '\n' !in more' && start + more' <= ssin.op.stdin
      ensures r.Alive? ==> ssin.Valid() && ssin.op.Onward() && ssin.Left() + linelen <= old(ssin.Left())
      ensures r.Alive? && FullChunks(more) && (k < 0 || linelen == MAXLINE) ==> FullChunks(more')
      ensures r.Alive? ==> Gave(given, Given(), selected, more') && Rest(start, ssin.handed, more', ended, lost)
      ensures r.Alive? ==> linelen <= MAXLINE && (ended ==> k >= 0 && linelen < MAXLINE)
      ensures r.Alive? ==> if k < 0 then ssin.op.faulty && linelen < MAXLINE && ssin.p == 0 else lost == ""
      ensures r.Alive? && !ended && k >= 0 && linelen < MAXLINE ==> ssin.p == 0 && ssin.NoMore()
      ensures r.Alive? ==> line[MAXLINE] == '\n' && line[MAXLINE - 1] != '\n'
    {
      ghost var before, mid, text := ssin.handed, Given(), "";
      r, k, linelen, text, ended := Chunk();
      PartMore(start, before, more, text, ssin.op.stdin);
      if r.Dead? {
        GaveThenUpTo(given, mid, Given(), selected, more, text);
        more', lost := more + text, "";
        return;
      }
      RestMore(start, before, ssin.handed, more, text, ended);
      GaveMore(given, mid, Given(), selected, more, if k < 0 then "" else text);
      more' := more + if k < 0 then "" else text;
      OneChunkMore(more, text);
      lost := if k < 0 then text else "";
    }

    /** Why reading stopped, if the line has not ended: an error, or nothing more to read. */
    ghost predicate Stopped(failed: bool, ended: bool, lost: string)
      reads ssin, ssin.op
    {
      && (lost != "" ==> failed) && (failed ==> !ended && ssin.op.faulty)
      && (!ended ==> ssin.p == 0 && (failed || ssin.NoMore()))
    }

    /** Stamp, first read, and padding: what the script is going to look at. */
    method FirstChunk() returns (r: Outcome, linelen: nat, flageof: bool, ghost b: Begun)
      requires Valid() && ssin.p > 0
      modifies `readings, line, ssin, ssin.x, ssin.op, LogsRepr(ssin.op.logs)
      ensures Given() == old(Given())
      ensures r.Dead? ==> Died(ssin.op.logs, Given())
      ensures r.Alive? ==> ssin.Valid() && ssin.op.Onward() && ssin.Left() < old(ssin.Left())
      ensures r.Alive? ==> LineBegun(b, linelen, flageof)
      ensures r.Alive? ==> HeadRead(b, old(readings), old(ssin.handed), ssin.handed) && ReadOnce(old(readings))
      ensures r.Alive? ==> (line[..] == Padded(b.stamp + b.text) <==> !dirty || linelen == MAXLINE)
    {
      b := Begun("", "", false);
      ghost var stamp;
      linelen, stamp := StampBeside();
      r, linelen, flageof, b := ReadAndPad(linelen, stamp);
      if r.Dead? { return; }
      NoNewlineJoined(b.stamp, b.text);
    }

    /** All of that but the stamp. */
    method ReadAndPad(at: nat, ghost stamp: string) returns (r: Outcome, linelen: nat, flageof: bool, ghost b: Begun)
      requires Fixed() && ssin.Valid() && ssin.p > 0
      requires at == |stamp| < MAXLINE && line[..at] == stamp && PaddingKnown(at)
      modifies line, ssin, ssin.x, ssin.op, LogsRepr(ssin.op.logs)
      ensures Given() == old(Given())
      ensures r.Dead? ==> Died(ssin.op.logs, Given())
      ensures r.Alive? ==> ssin.Valid() && ssin.op.Onward() && ssin.Left() < old(ssin.Left())
      ensures r.Alive? ==> b.stamp == stamp && '\n' !in b.text && (b.text != "" || b.ended)
      ensures r.Alive? ==> ssin.handed == old(ssin.handed) + b.text + (if b.ended then "\n" else "")
      ensures r.Alive? ==> LineBegun(b, linelen, flageof)
      ensures r.Alive? ==> (line[..] == Padded(stamp + b.text) <==> !dirty || linelen == MAXLINE)
    {
      r, linelen, flageof, b := ReadHead(at, stamp);
      if r.Dead? { return; }
      Pad(linelen, stamp + b.text);
    }

    /** The first read of a line, behind its stamp. */
    method ReadHead(at: nat, ghost stamp: string) returns (r: Outcome, linelen: nat, flageof: bool, ghost b: Begun)
      requires Fixed() && ssin.Valid() && ssin.p > 0
      requires at == |stamp| < MAXLINE && line[..at] == stamp && PaddingKnown(at)
      modifies line, ssin, ssin.x, ssin.op, LogsRepr(ssin.op.logs)
      ensures Given() == old(Given())
      ensures r.Dead? ==> Died(ssin.op.logs, Given())
      ensures r.Alive? ==> ssin.Valid() && ssin.op.Onward() && ssin.Left() < old(ssin.Left())
      ensures r.Alive? ==> b.stamp == stamp && '\n' !in b.text && (b.text != "" || b.ended)
      ensures r.Alive? ==> ssin.handed == old(ssin.handed) + b.text + (if b.ended then "\n" else "")
      ensures r.Alive? ==> linelen == |stamp + b.text| <= MAXLINE && line[..linelen] == stamp + b.text
      ensures r.Alive? ==> PaddingKnown(linelen)
      ensures r.Alive? ==> (b.ended || flageof ==> linelen < MAXLINE) && !(b.ended && flageof)
      ensures r.Alive? ==> (flageof ==> ssin.op.faulty && ssin.p == 0)
      ensures r.Alive? && !b.ended && !flageof && linelen < MAXLINE ==> ssin.p == 0 && ssin.NoMore()
    {
      flageof, b, linelen := false, Begun(stamp, "", false), at;
      var got, k;
      ghost var text, ended;
      r, k, got, text, ended := ssin.Gets(line, at, MAXLINE - at, '\n');
      if r.Dead? { return; }
      FirstBytes(old(line[..]), line[..], stamp, text);
      flageof, b, linelen := k < 0, Begun(stamp, text, ended), at + got;
    }

    /** The first linelen bytes of a line are in the array; it goes on only if that is full. */
    ghost predicate LineBegun(b: Begun, linelen: nat, flageof: bool)
      reads `oldlinelen, `dirty, line, ssin, ssin.op
    {
      && linelen == |b.stamp + b.text| <= MAXLINE && line.Length >= linelen && line[..linelen] == b.stamp + b.text
      && PaddingKnown(linelen) && (!dirty ==> NewlinesFrom(line[..], linelen))
      && (b.ended || flageof ==> linelen < MAXLINE) && !(b.ended && flageof)
      && (flageof ==> ssin.op.faulty && ssin.p == 0)
      && (!b.ended && !flageof && linelen < MAXLINE ==> ssin.p == 0 && ssin.NoMore())
    }

    /** That beginning was read from the input, behind a stamp as the script asks for, of that
        reading of the clock. */
    ghost predicate HeadRead(b: Begun, reading: nat, before: string, after: string) {
      && '\n' !in b.text && '\n' !in b.stamp && b.stamp == StampFor(script, clock(reading))
      && (b.text != "" || b.ended)
      && after == before + b.text + (if b.ended then "\n" else "")
    }

    /** The line goes to the selected logs: its first chunk, the chunks behind, a newline. */
    method CopyOut(first: nat, ghost key: string)
      returns (r: Outcome, linelen: nat, flageof: bool, ghost more: string, ghost ended: bool, ghost lost: string)
      requires Fixed() && ssin.Valid() && first == |key| <= MAXLINE && line[..first] == key
      requires line[MAXLINE] == '\n' && (first == MAXLINE ==> line[MAXLINE - 1] != '\n')
      modifies line, ssin, ssin.x, ssin.op, LogsRepr(ssin.op.logs)
      ensures r.Dead? ==> Died(ssin.op.logs, Given()) && GaveUpTo(old(Given()), Given(), selected, key + more + "\n")
      ensures '\n' !in more && old(ssin.handed) + more <= ssin.op.stdin && (first < MAXLINE ==> more == "")
      ensures r.Alive? ==> ssin.Valid() && ssin.op.Onward() && ssin.Left() <= old(ssin.Left())
      ensures r.Alive? ==> Gave(old(Given()), Given(), selected, key + more + "\n")
      ensures r.Alive? ==> RestCopied(first, linelen, flageof, more, ended, lost)
    {
      ghost var given := Given();
      r, linelen, flageof, more, ended, lost := CopyText(first, key);
      if r.Dead? {
        UpToMore(given, Given(), selected, key + more, "\n");
        return;
      }
      r := EndLine(key + more, given);
    }

    /** How a line ends that began with first bytes in the array: nothing more is read if these did
        not fill it, and otherwise it is read to its end, or as far as possible. */
    twostate predicate RestCopied(first: nat, linelen: nat, flageof: bool, more: string, ended: bool, lost: string)
      reads line, ssin, ssin.op
    {
      && line.Length == MAXLINE + 1 && Rest(old(ssin.handed), ssin.handed, more, ended, lost)
      && if first < MAXLINE
         then
           && linelen == first && !flageof && !ended && more == "" && lost == ""
           && line[..] == old(line[..]) && ssin.p == old(ssin.p) && (old(ssin.NoMore()) ==> ssin.NoMore())
         else
           && linelen < MAXLINE && line[MAXLINE] == '\n' && line[MAXLINE - 1] != '\n'
           && Stopped(flageof, ended, lost) && (flageof ==> FullChunks(more))
    }

    /** All of that but the newline. */
    method CopyText(first: nat, ghost key: string)
      returns (r: Outcome, linelen: nat, flageof: bool, ghost more: string, ghost ended: bool, ghost lost: string)
      requires Fixed() && ssin.Valid() && first == |key| <= MAXLINE && line[..first] == key
      requires line[MAXLINE] == '\n' && (first == MAXLINE ==> line[MAXLINE - 1] != '\n')
      modifies line, ssin, ssin.x, ssin.op, LogsRepr(ssin.op.logs)
      ensures r.Dead? ==> Died(ssin.op.logs, Given()) && GaveUpTo(old(Given()), Given(), selected, key + more)
      ensures '\n' !in more && old(ssin.handed) + more <= ssin.op.stdin && (first < MAXLINE ==> more == "")
      ensures r.Alive? ==> ssin.Valid() && ssin.op.Onward() && ssin.Left() <= old(ssin.Left())
      ensures r.Alive? ==> Gave(old(Given()), Given(), selected, key + more)
      ensures r.Alive? ==> RestCopied(first, linelen, flageof, more, ended, lost)
    {
      HandedIsInput();
      assert old(ssin.handed) + "" == old(ssin.handed) && key + "" == key;
      linelen, flageof, more, ended, lost := first, false, "", false, "";
      RestOfNothing(ssin.handed);
      r := PutSelected(line[..first]);
      if r.Dead? || first < MAXLINE { return; }
      r, linelen, flageof, more, ended, lost := CopyRest(key, old(Given()));
    }

    /** The chunks behind the first. */
    method CopyRest(ghost key: string, ghost given: seq<string>)
      returns (r: Outcome, linelen: nat, flageof: bool, ghost more: string, ghost ended: bool, ghost lost: string)
      requires Fixed() && ssin.Valid() && Gave(given, Given(), selected, key)
      requires line[MAXLINE] == '\n' && line[MAXLINE - 1] != '\n'
      modifies line, ssin, ssin.x, ssin.op, LogsRepr(ssin.op.logs)
      ensures r.Dead? ==> Died(ssin.op.logs, Given()) && GaveUpTo(given, Given(), selected, key + more)
      ensures '\n' !in more && old(ssin.handed) + more <= ssin.op.stdin
      ensures r.Alive? ==> ssin.Valid() && ssin.op.Onward() && ssin.Left() <= old(ssin.Left())
      ensures r.Alive? ==> Gave(given, Given(), selected, key + more)
      ensures r.Alive? ==> RestCopied(MAXLINE, linelen, flageof, more, ended, lost)
    {
      ghost var mid := Given();
      r, linelen, flageof, more, ended, lost := LongLine();
      if r.Dead? {
        GaveThenUpTo(given, mid, Given(), selected, key, more);
      } else {
        GaveMore(given, mid, Given(), selected, key, more);
      }
    }

    /** The newline behind a text that was given to the selected logs. */
    method EndLine(ghost text: string, ghost given: seq<string>) returns (r: Outcome)
      requires Fixed() && ssin.Valid() && Gave(given, Given(), selected, text)
      modifies ssin.op`streams, LogsRepr(ssin.op.logs)
      ensures r.Dead? ==> Died(ssin.op.logs, Given()) && GaveUpTo(given, Given(), selected, text + "\n")
      ensures r.Alive? ==> ssin.Valid() && Gave(given, Given(), selected, text + "\n")
    {
      ghost var mid := Given();
      r := EndSelected();
      if r.Dead? {
        GaveThenUpTo(given, mid, Given(), selected, text, "\n");
      } else {
        GaveMore(given, mid, Given(), selected, text, "\n");
      }
    }

    /** A line up to its selection. */
    method Examine() returns (r: Outcome, linelen: nat, flageof: bool, ghost b: Begun)
      requires Valid() && ssin.p > 0
      modifies `mode, `selected, `files, `readings
      modifies line, ssin, ssin.x, ssin.op, LogsRepr(ssin.op.logs)
      ensures Given() == old(Given())
      ensures r.Dead? ==> Died(ssin.op.logs, Given())
      ensures r.Alive? ==> Fixed() && ssin.Valid() && ssin.op.Onward() && ssin.Left() < old(ssin.Left())
      ensures r.Alive? ==> LineBegun(b, linelen, flageof)
      ensures r.Alive? ==> HeadRead(b, old(readings), old(ssin.handed), ssin.handed) && ReadOnce(old(readings))
      ensures r.Alive? ==> selected == Flags(script, |script|, b.stamp + b.text, old(mode), fnmatch)
      ensures r.Alive? ==> mode == ModeAt(script, |script|, old(mode))
      ensures r.Alive? ==>
                StatusesWritten(script, fnmatch, old(files), files, dirty, old(mode), b.stamp + b.text)
    {
      r, linelen, flageof, b := FirstChunk();
      if r.Dead? { return; }
      RunScript(linelen, b.stamp + b.text);
      StatusesFromFiles(script, fnmatch, old(files), files, dirty, old(mode), b.stamp + b.text, line[..]);
    }

    /** How far the line went in its array. */
    method Remember(linelen: nat, ghost full: bool)
      requires line.Length == MAXLINE + 1 && linelen < MAXLINE
      requires full ==> line[MAXLINE] == '\n' && line[MAXLINE - 1] != '\n'
      requires !full ==> PaddingKnown(linelen) && (!dirty ==> NewlinesFrom(line[..], linelen))
      modifies `oldlinelen, `dirty
      ensures PaddingKnown(0) && dirty == (old(dirty) || full)
    {
      oldlinelen := linelen;
      dirty := dirty || full;
    }

    /** A line from its selection on. */
    method CopyLine(linelen: nat, early: bool, ghost b: Begun)
      returns (r: Outcome, flageof: bool, ghost more: string, ghost open: bool, ghost lost: string)
      requires Fixed() && ssin.Valid() && LineBegun(b, linelen, early) && '\n' !in b.stamp + b.text
      modifies `oldlinelen, `dirty, line, ssin, ssin.x, ssin.op, LogsRepr(ssin.op.logs)
      ensures r.Dead? ==>
                Died(ssin.op.logs, Given()) && GaveUpTo(old(Given()), Given(), selected, b.stamp + b.text + more + "\n")
      ensures '\n' !in more && old(ssin.handed) + more <= ssin.op.stdin && (linelen < MAXLINE ==> more == "")
      ensures r.Alive? ==> Valid() && ssin.op.Onward() && ssin.Left() <= old(ssin.Left())
      ensures r.Alive? ==> Gave(old(Given()), Given(), selected, b.stamp + b.text + more + "\n")
      ensures r.Alive? ==> dirty == (old(dirty) || linelen == MAXLINE)
      ensures r.Alive? ==> Tail(b, old(ssin.handed), ssin.handed, more, open, lost)
      ensures r.Alive? ==> Stopped(flageof, !open, lost) && CutAt(b.stamp + b.text + more, lost, flageof)
    {
      var left, late;
      ghost var chunked;
      assert linelen == MAXLINE ==> line[MAXLINE - 1] == line[..linelen][MAXLINE - 1];
      assert line[MAXLINE] == line[..][MAXLINE];
      open := false;
      r, left, late, more, chunked, lost := CopyOut(linelen, b.stamp + b.text);
      flageof := early || late;
      if r.Dead? { return; }
      Remember(left, linelen == MAXLINE);
      open := !b.ended && !chunked;
      CutLine(b.stamp + b.text, more);
    }

    /** A line from its selection on, as the entry that it becomes. */
    method CopyEntry(linelen: nat, early: bool, ghost b: Begun, ghost start: string, ghost first: Mode,
                     ghost reading: nat)
      returns (r: Outcome, flageof: bool, ghost e: Line, ghost open: bool, ghost lost: string)
      requires Fixed() && ssin.Valid() && LineBegun(b, linelen, early) && HeadRead(b, reading, start, ssin.handed)
      requires selected == Flags(script, |script|, b.stamp + b.text, first, fnmatch)
      modifies `oldlinelen, `dirty, line, ssin, ssin.x, ssin.op, LogsRepr(ssin.op.logs)
      ensures EntryOk(e, reading) && e.mode == first && start + e.text <= ssin.op.stdin
      ensures First(e.stamp + e.text) == b.stamp + b.text && (|e.stamp + e.text| >= MAXLINE <==> linelen == MAXLINE)
      ensures r.Dead? ==> Died(ssin.op.logs, Given())
      ensures r.Dead? ==> GaveUpTo(old(Given()), Given(), SelectedFor(script, fnmatch, e), Shown(e))
      ensures r.Alive? ==> Valid() && ssin.op.Onward() && ssin.Left() <= old(ssin.Left())
      ensures r.Alive? ==> Gave(old(Given()), Given(), SelectedFor(script, fnmatch, e), Shown(e))
      ensures r.Alive? ==> Consumed(start, ssin.handed, e.text, open, lost) && Stopped(flageof, !open, lost)
      ensures r.Alive? ==> CutAt(e.stamp + e.text, lost, flageof)
      ensures r.Alive? ==> dirty == (old(dirty) || linelen == MAXLINE)
    {
      ghost var more;
      NoNewlineJoined(b.stamp, b.text);
      r, flageof, more, open, lost := CopyLine(linelen, early, b);
      FirstOfLine(b.stamp, b.text, more);
      LinePart(b, start, old(ssin.handed), more, ssin.op.stdin);
      e := Line(b.stamp, b.text + more, first);
      if r.Alive? {
        LineConsumed(b, start, old(ssin.handed), ssin.handed, more, open, lost);
      }
    }

    /** One line of input. A process that dies on the way has given the logs nothing of it, or no
        more than the selected ones should get. */
    method ProcessLine()
      returns (r: Outcome, flageof: bool, ghost e: Line, ghost open: bool, ghost lost: string, ghost begun: bool)
      requires Valid() && ssin.p > 0
      modifies this, line, ssin, ssin.x, ssin.op, LogsRepr(ssin.op.logs)
      ensures r.Dead? ==> Died(ssin.op.logs, Given()) && (!begun ==> Given() == old(Given()))
      ensures begun ==> EntryOk(e, old(readings)) && ReadOnce(old(readings))
      ensures begun ==> e.mode == old(mode) && old(ssin.handed) + e.text <= ssin.op.stdin
      ensures r.Dead? && begun ==> GaveUpTo(old(Given()), Given(), SelectedFor(script, fnmatch, e), Shown(e))
      ensures r.Alive? ==> Valid() && ssin.op.Onward() && ssin.Left() < old(ssin.Left())
      ensures r.Alive? ==> begun && mode == ModeAt(script, |script|, e.mode)
      ensures r.Alive? ==> Gave(old(Given()), Given(), SelectedFor(script, fnmatch, e), Shown(e))
      ensures r.Alive? ==> Consumed(old(ssin.handed), ssin.handed, e.text, open, lost) && Stopped(flageof, !open, lost)
      ensures r.Alive? ==> CutAt(e.stamp + e.text, lost, flageof)
      ensures r.Alive? ==> dirty == (old(dirty) || |e.stamp + e.text| >= MAXLINE)
      ensures r.Alive? ==>
                StatusesWritten(script, fnmatch, old(files), files, old(dirty), e.mode, First(e.stamp + e.text))
    {
      var linelen;
      ghost var b;
      open, lost, e, begun := false, "", Line("", "", mode), false;
      r, linelen, flageof, b := Examine();
      if r.Dead? { return; }
      begun := true;
      r, flageof, e, open, lost := CopyEntry(linelen, flageof, b, old(ssin.handed), old(mode), old(readings));
    }

    /** The text of an entry is one line, and its stamp that of the given reading of the clock. */
    ghost predicate EntryOk(e: Line, reading: nat) {
      '\n' !in e.text && '\n' !in e.stamp && e.stamp == StampFor(script, clock(reading))
    }

    /** The main loop. It is over at the end of the input, after TERM at a line start, or when a
        read failed. lines is what it has processed, open whether the last of them had no newline,
        and lost what a failed read cost, if it cut that line. A process that dies on the way has
        given the logs no more than their share of the lines. */
    method Doit()
      returns (r: Outcome, ghost lines: seq<Line>, ghost open: bool, ghost lost: string, ghost failed: bool,
               ghost cut: bool)
      requires Valid() && ssin.handed == "" && mode == Simple && readings == 0
      modifies this, line, ssin, ssin.x, ssin.op, LogsRepr(ssin.op.logs)
      ensures r.Dead? ==> Died(ssin.op.logs, Given()) && Within(lines, old(Given()))
      ensures r.Alive? ==> Valid() && ssin.op.Onward() && Lines(script, clock, lines)
      ensures r.Alive? ==> Extended(script, fnmatch, lines, old(Given()), Given())
      ensures r.Alive? ==> AllHandled(lines, open, lost, failed) && LossIs(lines, lost, cut) && (cut ==> failed && open)
    {
      var over := false;
      failed, cut := false, false;
      lines, open, lost := [], false, "";
      ExtendedByNone(script, fnmatch, Given());
      while !over
        invariant ssin.op.Onward() && if over then Valid() else InLoop(lines, open, old(Given()))
        invariant over ==> Lines(script, clock, lines) && Extended(script, fnmatch, lines, old(Given()), Given())
        invariant over ==> AllHandled(lines, open, lost, failed) && LossIs(lines, lost, cut) && (cut ==> failed && open)
        decreases !over, ssin.Left()
      {
        r, over, lines, open, lost, failed, cut := Turn(lines, open, old(Given()));
        if r.Dead? { return; }
      }
      r := Alive;
    }

    /** Between two lines: all that was read is in the logs. */
    ghost predicate InLoop(lines: seq<Line>, open: bool, given: seq<string>)
      reads this, line, ssin, ssin.x, ssin.op, LogsRepr(ssin.op.logs)
    {
      && Valid() && Lines(script, clock, lines) && mode == ModeAfter(script, lines) && ReadPerLine(lines)
      && Extended(script, fnmatch, lines, given, Given()) && Handled(ssin.handed, lines, open, "")
      && (open ==> ssin.p == 0 && ssin.op.rest == "")
    }

    /** The clock was read once for each line, if the script wants stamps. */
    ghost predicate ReadPerLine(lines: seq<Line>)
      reads `readings
    {
      readings == if Stamping(script) then |lines| else 0
    }

    /** One turn of that loop. */
    method Turn(ghost lines: seq<Line>, ghost open: bool, ghost given: seq<string>)
      returns (r: Outcome, over: bool, ghost lines': seq<Line>, ghost open': bool, ghost lost: string,
               ghost failed: bool, ghost cut: bool)
      requires InLoop(lines, open, given)
      modifies this, line, ssin, ssin.x, ssin.op, LogsRepr(ssin.op.logs)
      ensures r.Dead? ==> Died(ssin.op.logs, Given()) && Within(lines', given)
      ensures r.Alive? ==> ssin.op.Onward() && if over then Valid() else InLoop(lines', open', given)
      ensures r.Alive? && !over ==> ssin.Left() < old(ssin.Left())
      ensures r.Alive? && over ==> Lines(script, clock, lines') && Extended(script, fnmatch, lines', given, Given())
      ensures r.Alive? && over ==> AllHandled(lines', open', lost, failed)
      ensures r.Alive? && over ==> LossIs(lines', lost, cut) && (cut ==> failed && open')
    {
      var k;
      over, lines', open', lost, failed, cut := false, lines, open, "", false, false;
      HandedIsInput();
      LinesWithin(lines, given, open, "");
      r, k := ssin.Feed();
      if r.Dead? { return; }
      if k <= 0 {
        over, failed := true, k < 0;
        WindowEmpty();
        return;
      }
      r, over, lines', open', lost := NextLine(lines, given);
      failed, cut := over, over;
      if r.Alive? && over { WindowEmpty(); }
    }

    /** Each log was given what it had before and at most its share of the lines, and these are the
        first part of standard input, the last of them perhaps only in part. */
    ghost predicate Within(lines: seq<Line>, before: seq<string>)
      reads ssin.op`streams
    {
      && Lines(script, clock, lines) && TextsIn(lines, ssin.op.stdin)
      && ExtendedUpTo(script, fnmatch, lines, before, Given())
    }

    lemma LinesWithin(lines: seq<Line>, before: seq<string>, open: bool, lost: string)
      requires Lines(script, clock, lines) && Handled(ssin.handed, lines, open, lost) && ssin.handed <= ssin.op.stdin
      requires Extended(script, fnmatch, lines, before, Given())
      ensures Within(lines, before)
    {
      HandledIsIn(ssin.handed, lines, open, lost, ssin.op.stdin);
    }

    /** One turn of that loop, when there is something to read. */
    method NextLine(ghost lines: seq<Line>, ghost given: seq<string>)
      returns (r: Outcome, flageof: bool, ghost lines': seq<Line>, ghost open: bool, ghost lost: string)
      requires Valid() && ssin.p > 0 && Lines(script, clock, lines) && mode == ModeAfter(script, lines)
      requires ReadPerLine(lines)
      requires Extended(script, fnmatch, lines, given, Given()) && Handled(ssin.handed, lines, false, "")
      modifies this, line, ssin, ssin.x, ssin.op, LogsRepr(ssin.op.logs)
      ensures r.Dead? ==> Died(ssin.op.logs, Given()) && Within(lines', given)
      ensures r.Alive? ==> Valid() && ssin.op.Onward() && ssin.Left() < old(ssin.Left())
      ensures r.Alive? ==> Lines(script, clock, lines') && mode == ModeAfter(script, lines') && ReadPerLine(lines')
      ensures r.Alive? ==> Extended(script, fnmatch, lines', given, Given())
      ensures r.Alive? ==> Handled(ssin.handed, lines', open, lost) && Stopped(flageof, !open, lost)
      ensures r.Alive? ==> LossIs(lines', lost, flageof)
      ensures r.Alive? && open && !flageof ==> ssin.op.rest == ""
    {
      ghost var before, e, mid := ssin.handed, Line("", "", mode), Given();
      HandedIsInput();
      LinesWithin(lines, given, false, "");
      ghost var begun;
      r, flageof, e, open, lost, begun := ProcessLine();
      lines' := lines;
      if r.Dead? {
        if begun {
          LinesMore(script, clock, lines, e);
          OneLineMoreIn(before, lines, e, ssin.op.stdin);
          UpToByOne(script, fnmatch, lines, e, given, mid, Given());
          lines' := lines + [e];
        }
        return;
      }
      OneLineMoreHandled(before, ssin.handed, lines, e, open, lost);
      LinesMore(script, clock, lines, e);
      ExtendedByOne(script, fnmatch, lines, e, given, mid, Given());
      lines' := lines + [e];
      if open && !flageof {
        OpenAtEnd(before, ssin.handed, e.text, lost);
        WindowEmpty();
      }
    }

    /** All that was taken from standard input has been handled. If no read failed, nothing was
        lost; and what was left then was left because of TERM, at a line start. From where TERM was
        noticed, nothing was taken behind the next newline. */
    ghost predicate AllHandled(lines: seq<Line>, open: bool, lost: string, failed: bool)
      reads ssin, ssin.op
    {
      && ssin.op.stdin == ssin.op.taken + ssin.op.rest && Handled(ssin.op.taken, lines, open, lost)
      && ssin.p == 0 && ssin.op.taken == ssin.handed
      && (ssin.op.mark.Some? ==>
            ssin.op.mark.value <= |ssin.op.taken| && OneLineMore(ssin.op.taken, ssin.op.mark.value))
      && if failed then ssin.op.faulty
         else
           && lost == ""
           && (ssin.op.rest != "" ==>
                 ssin.op.flagexitasap && ssin.op.mark.Some? && AtLineStart(ssin.op.taken) && !open)
    }

    /** c_quit for log j. */
    method QuitLog(j: nat) returns (r: Outcome)
      requires Separate(ssin.op.logs) && AllAbandoned(ssin.op.logs, Given()) && j < |ssin.op.logs|
      requires ssin.op.logs[j].Valid()
      modifies {ssin.op.logs[j]}`p, ssin.op.logs[j].log
      ensures AllAbandoned(ssin.op.logs, Given())
      ensures if r.Dead? then ssin.op.logs[j].log.MayDie() else LeftWell(j)
      ensures forall k :: 0 <= k < |ssin.op.logs| && k != j ==>
                && (old(LeftWell(k)) ==> LeftWell(k)) && (old(ssin.op.logs[k].Valid()) ==> ssin.op.logs[k].Valid())
    {
      r := QuitOut(ssin.op.logs[j]);
      assert forall k :: 0 <= k < |ssin.op.logs| && k != j ==>
          unchanged(ssin.op.logs[k], ssin.op.logs[k].x, ssin.op.logs[k].log);
    }

    method QuitOut(out: OutBuffer) returns (r: Outcome)
      requires out.Valid()
      modifies {out}`p, out.log
      ensures out.Abandoned() && (r.Dead? ==> out.log.MayDie())
      ensures r.Alive? ==> out.log.Clean() && out.log.led.accepted == out.given
      ensures r.Alive? ==> AllWellRotated(out.log.rotated, out.log.partial, out.log.alarmed)
    {
      r := out.Flush();
      if r.Alive? {
        out.log.RecordKept();
        r := out.log.CQuit();
      }
    }

    /** Log j has taken all that it was given, and was left by a clean exit; its rotations were as
        they may be. */
    ghost predicate LeftWell(j: nat)
      requires j < |ssin.op.logs|
      reads ssin.op`streams, ssin.op.logs[j].log
    {
      var log := ssin.op.logs[j].log;
      && log.Condition() != Ruined && log.Clean() && j < |Given()| && log.led.accepted == Given()[j]
      && AllWellRotated(log.rotated, log.partial, log.alarmed)
    }

    /** c_quit: every log has taken all it was given, and is left whole and safe on disk. */
    method CQuit() returns (r: Outcome)
      requires Valid()
      modifies LogsRepr(ssin.op.logs)
      ensures if r.Dead? then Died(ssin.op.logs, Given()) else Quitted()
    {
      ValidIsAbandoned(ssin.op.logs, Given());
      for j := 0 to |ssin.op.logs|
        invariant AllAbandoned(ssin.op.logs, Given()) && forall k :: 0 <= k < j ==> LeftWell(k)
        invariant forall k :: j <= k < |ssin.op.logs| ==> ssin.op.logs[k].Valid()
      {
        r := QuitLog(j);
        if r.Dead? { return; }
      }
      return Alive;
    }

    ghost predicate Quitted()
      reads ssin.op`streams, LogsRepr(ssin.op.logs)
    {
      forall j :: 0 <= j < |ssin.op.logs| ==> LeftWell(j)
    }

    lemma WindowEmpty()
      requires ssin.Valid() && ssin.p == 0
      ensures ssin.op.taken == ssin.handed
    {
      assert ssin.window == "";
    }

    /** main, once everything is set up. */
    method Run()
      returns (r: Outcome, ghost lines: seq<Line>, ghost open: bool, ghost lost: string, ghost failed: bool,
               ghost cut: bool)
      requires Valid() && ssin.handed == "" && mode == Simple && readings == 0
      modifies this, line, ssin, ssin.x, ssin.op, LogsRepr(ssin.op.logs)
      ensures r.Dead? ==> Died(ssin.op.logs, Given()) && Within(lines, old(Given()))
      ensures r.Alive? ==> ssin.op.ValidReader() && ssin.op.Onward() && Lines(script, clock, lines) && Quitted()
      ensures r.Alive? ==> AllHandled(lines, open, lost, failed) && LossIs(lines, lost, cut) && (cut ==> failed && open)
      ensures r.Alive? ==> Extended(script, fnmatch, lines, old(Given()), Given())
      ensures r.Alive? && !ssin.op.faulty && !ssin.op.terminable ==> !failed && ssin.op.taken == ssin.op.stdin
      ensures r.Alive? && PlainScript(script) && !ssin.op.faulty && !ssin.op.terminable ==>
                Given() == Completing(old(Given()), ssin.op.stdin)
    {
      ghost var start := Given();
      r, lines, open, lost, failed, cut := Doit();
      if r.Dead? { return; }
      HandedIsInput();
      LinesWithin(lines, start, open, lost);
      r := CQuit();
      if r.Dead? { return; }
      if PlainScript(script) && !failed && ssin.op.rest == "" {
        assert ssin.op.taken + "" == ssin.op.taken;
        PlainRun(script, clock, fnmatch, lines, start, Given(), ssin.op.taken, open);
      }
    }
  }

  // ---------- what a failed read costs ----------

  /** What is kept of a line, with its stamp, in which reading fails: nothing is missing from one
      that fits into the array, and only the full chunks of a longer one were copied. */
  function Kept(whole: string): string {
    if |whole| < MAXLINE then whole else whole[..|whole| - |whole| % MAXLINE]
  }

  /** So nothing is lost exactly if the line is short, or reading fails between two chunks. */
  lemma KeptAll(whole: string)
    ensures Kept(whole) == whole <==> |whole| < MAXLINE || |whole| % MAXLINE == 0
  {
  }

  /** One byte more than a chunk is lost, one byte less is not. */
  lemma KeptExample(whole: string)
    ensures |whole| == 1001 ==> Kept(whole) == whole[..1000]
    ensures |whole| == 999 ==> Kept(whole) == whole
  {
  }

  /** If a failed read cut a line, this is what was copied of it and what was lost. */
  predicate CutAt(copied: string, lost: string, failed: bool) {
    failed ==> copied == Kept(copied + lost)
  }

  /** What was lost was cut from the last line, or nothing was. */
  predicate LossIs(lines: seq<Line>, lost: string, cut: bool) {
    if cut then lines != [] && CutAt(lines[|lines| - 1].stamp + lines[|lines| - 1].text, lost, true) else lost == ""
  }

  /** Some chunks of MAXLINE bytes. */
  predicate FullChunks(s: string) { |s| % MAXLINE == 0 }

  lemma OneChunkMore(s: string, t: string)
    ensures FullChunks(s) && |t| == MAXLINE ==> FullChunks(s + t)
    ensures FullChunks(s) ==> FullChunks(s + "")
    ensures FullChunks("")
  {
  }

  lemma CutLine(key: string, more: string)
    ensures |key| < MAXLINE && more == "" ==> CutAt(key + more, "", true)
    ensures forall lost: string :: |key| == MAXLINE && FullChunks(more) && |lost| < MAXLINE ==>
              CutAt(key + more, lost, true)
  {
    forall lost: string | |key| == MAXLINE && FullChunks(more) && |lost| < MAXLINE
      ensures CutAt(key + more, lost, true)
    {
      assert |key + more + lost| % MAXLINE == |lost|;
      assert (key + more + lost)[..|key + more|] == key + more;
    }
  }

  /** Every stream with the whole text behind it, its last line complete. */
  function Completing(given: seq<string>, text: string): seq<string> {
    seq(|given|, j requires 0 <= j < |given| => given[j] + Completed(text))
  }

  /** The mode that the next line begins with. */
  function ModeAfter(script: seq<string>, lines: seq<Line>): Mode {
    if lines == [] then Simple else ModeAt(script, |script|, lines[|lines| - 1].mode)
  }

  /** The bytes handed out are the processed lines, the last of them perhaps open: without its
      newline, and followed by what was lost. */
  predicate Handled(handed: string, lines: seq<Line>, open: bool, lost: string) {
    && (!open ==> handed == InputOf(lines) && lost == "")
    && (open ==>
          && lines != [] && lines[|lines| - 1].text != "" && |lost| <= |handed|
          && handed[..|handed| - |lost|] + "\n" == InputOf(lines) && handed[|handed| - |lost|..] == lost)
    && '\n' !in lost && |lost| < MAXLINE
  }

  lemma InputSnoc(lines: seq<Line>, e: Line)
    ensures InputOf(lines + [e]) == InputOf(lines) + e.text + "\n"
  {
    assert (lines + [e])[..|lines|] == lines;
  }

  lemma OneLineMoreHandled(before: string, after: string, lines: seq<Line>, e: Line, open: bool, lost: string)
    requires before == InputOf(lines) && Consumed(before, after, e.text, open, lost)
    ensures Handled(after, lines + [e], open, lost)
  {
    InputSnoc(lines, e);
    if open {
      SplitLost(before + e.text, after, lost);
      assert (lines + [e])[|lines|] == e;
    }
  }

  lemma SplitLost(kept: string, after: string, lost: string)
    requires after == kept + "" + lost
    ensures |lost| <= |after| && after[..|after| - |lost|] == kept && after[|after| - |lost|..] == lost
  {
  }

  lemma OpenAtEnd(before: string, after: string, text: string, lost: string)
    requires Consumed(before, after, text, true, lost) && lost == "" && '\n' !in text
    ensures !AtLineStart(after)
  {
  }

  lemma LinesMore(script: seq<string>, clock: Clock, lines: seq<Line>, e: Line)
    requires Lines(script, clock, lines) && e.mode == ModeAfter(script, lines)
    requires '\n' !in e.text && '\n' !in e.stamp && e.stamp == StampFor(script, clock(|lines|))
    ensures Lines(script, clock, lines + [e]) && ModeAfter(script, lines + [e]) == ModeAt(script, |script|, e.mode)
  {
    forall i | 0 <= i < |lines + [e]|
      ensures LineOk(script, clock, lines + [e], i)
    {
      assert (lines + [e])[..i] == lines[..i];
      assert lines[..|lines|] == lines;
      if i < |lines| {
        assert LineOk(script, clock, lines, i);
      }
    }
  }

  /** The streams of the logs, each longer by at most its share of the lines. */
  ghost predicate ExtendedUpTo(script: seq<string>, fn: Matcher, lines: seq<Line>,
                               before: seq<string>, after: seq<string>) {
    && |before| == |after| == LogCount(script, |script|)
    && forall j :: 0 <= j < |before| ==> before[j] <= after[j] <= before[j] + GivenTo(script, fn, lines, j)
  }

  /** The lines are the first part of the input, the last of them perhaps only in part. */
  predicate TextsIn(lines: seq<Line>, stdin: string) {
    lines != [] ==> InputOf(lines[..|lines| - 1]) + lines[|lines| - 1].text <= stdin
  }

  lemma HandledIsIn(handed: string, lines: seq<Line>, open: bool, lost: string, stdin: string)
    requires Handled(handed, lines, open, lost) && handed <= stdin
    ensures TextsIn(lines, stdin)
  {
    if lines != [] {
      var s := InputOf(lines[..|lines| - 1]) + lines[|lines| - 1].text;
      var part := handed[..|handed| - |lost|];
      assert s + "\n" == if open then part + "\n" else handed;
      assert s == (s + "\n")[..|s|];
      if open {
        assert part == (part + "\n")[..|part|];
      }
    }
  }

  lemma OneLineMoreIn(handed: string, lines: seq<Line>, e: Line, stdin: string)
    requires handed == InputOf(lines) && handed + e.text <= stdin
    ensures TextsIn(lines + [e], stdin)
  {
    assert (lines + [e])[..|lines|] == lines;
  }

  lemma UpToByOne(script: seq<string>, fn: Matcher, lines: seq<Line>, e: Line,
                  start: seq<string>, mid: seq<string>, after: seq<string>)
    requires Extended(script, fn, lines, start, mid)
    requires GaveUpTo(mid, after, SelectedFor(script, fn, e), Shown(e))
    ensures ExtendedUpTo(script, fn, lines + [e], start, after)
  {
    assert (lines + [e])[..|lines|] == lines;
    forall j | 0 <= j < |start|
      ensures start[j] <= after[j] <= start[j] + GivenTo(script, fn, lines + [e], j)
    {
      assert mid[j] + Share(script, fn, e, j) == start[j] + GivenTo(script, fn, lines + [e], j);
    }
  }

  lemma ExtendedByNone(script: seq<string>, fn: Matcher, given: seq<string>)
    requires |given| == LogCount(script, |script|)
    ensures Extended(script, fn, [], given, given)
  {
  }

  lemma ExtendedByOne(script: seq<string>, fn: Matcher, lines: seq<Line>, e: Line,
                      start: seq<string>, mid: seq<string>, after: seq<string>)
    requires Extended(script, fn, lines, start, mid)
    requires Gave(mid, after, SelectedFor(script, fn, e), Shown(e))
    ensures Extended(script, fn, lines + [e], start, after)
  {
    assert (lines + [e])[..|lines|] == lines;
    forall j | 0 <= j < |start|
      ensures after[j] == start[j] + GivenTo(script, fn, lines + [e], j)
    {
      assert after[j] == mid[j] + Share(script, fn, e, j);
    }
  }

  /** A line was taken from the input: its text, its end unless it is open, and what was lost. */
  predicate Consumed(before: string, after: string, text: string, open: bool, lost: string) {
    && after == before + text + (if open then "" else "\n") + lost
    && (lost != "" ==> open) && (open ==> text != "") && '\n' !in lost && |lost| < MAXLINE
  }

  /** The rest of a line that had begun. */
  predicate Tail(b: Begun, before: string, after: string, more: string, open: bool, lost: string) {
    && Rest(before, after, more, !b.ended && !open, lost)
    && (b.ended ==> !open && more == "" && lost == "")
  }

  /** The part of a line that a dying process has read. */
  lemma LinePart(b: Begun, start: string, middle: string, more: string, stdin: string)
    requires middle == start + b.text + (if b.ended then "\n" else "") && middle + more <= stdin
    requires '\n' !in b.text && '\n' !in more && (b.ended ==> more == "")
    ensures start + (b.text + more) <= stdin && '\n' !in b.text + more
  {
    assert start + (b.text + more) == start + b.text + more;
  }

  lemma LineConsumed(b: Begun, start: string, middle: string, after: string, more: string, open: bool, lost: string)
    requires middle == start + b.text + (if b.ended then "\n" else "") && Tail(b, middle, after, more, open, lost)
    requires b.text != "" || b.ended
    requires '\n' !in b.text
    ensures Consumed(start, after, b.text + more, open, lost)
    ensures '\n' !in b.text + more
  {
  }

  lemma FirstOfLine(stamp: string, text: string, more: string)
    requires |stamp + text| <= MAXLINE && (|stamp + text| < MAXLINE ==> more == "")
    ensures First(stamp + (text + more)) == stamp + text
    ensures |stamp + (text + more)| >= MAXLINE <==> |stamp + text| == MAXLINE
    ensures Padded(stamp + (text + more)) == Padded(stamp + text)
    ensures stamp + text + more == stamp + (text + more)
  {
    assert (stamp + text + more)[..|stamp + text|] == stamp + text;
    assert stamp + text + more == stamp + (text + more);
  }

  lemma FirstBytes(before: string, after: string, stamp: string, text: string)
    requires Wrote(before, after, |stamp|, text) && before[..|stamp|] == stamp
    ensures after[..|stamp + text|] == stamp + text
    ensures forall i :: |stamp + text| <= i < |after| ==> after[i] == before[i]
    ensures text != "" ==> after[|stamp + text| - 1] == text[|text| - 1]
  {
    assert after[..|stamp + text|] == after[..|stamp|] + after[|stamp|..|stamp| + |text|];
    forall i | |stamp + text| <= i < |after|
      ensures after[i] == before[i]
    {
      WroteAt(before, after, |stamp|, text, i);
    }
  }

  predicate Stamping(script: seq<string>) {
    script != [] && script[0] != "" && (script[0][0] == 't' || script[0][0] == 'T')
  }

  /** A stamp is there if the first action asks for one: the time of a reading as one of the two
      texts, and a space. */
  function StampFor(script: seq<string>, v: TimeOfDay): string {
    if script != [] && script[0] != "" && script[0][0] == 't' then StampText(LabelOf(TaiaNow(v))) + " "
    else if script != [] && script[0] != "" && script[0][0] == 'T' then AccuText(TaiaNow(v)) + " "
    else ""
  }

  function LabelOf(t: Taia): Instant
    requires InRange(t)
  {
    LabelBound(t);
    Label(t)
  }

  lemma NoNewlineJoined(s: string, t: string)
    requires '\n' !in s && '\n' !in t
    ensures '\n' !in s + t
  {
  }

  /** Every stream grew by the bytes, if its log was selected. */
  predicate Gave(before: seq<string>, after: seq<string>, selected: seq<bool>, bytes: string) {
    && |before| == |after| == |selected|
    && forall j :: 0 <= j < |before| ==> after[j] == before[j] + if selected[j] then bytes else ""
  }

  lemma GaveNothing(s: seq<string>, selected: seq<bool>)
    requires |s| == |selected|
    ensures Gave(s, s, selected, "")
  {
  }

  /** The same for the first j of the logs. */
  predicate GaveSome(before: seq<string>, after: seq<string>, selected: seq<bool>, bytes: string, j: nat) {
    && |before| == |after| == |selected| >= j
    && forall k :: 0 <= k < |before| ==> after[k] == before[k] + if k < j && selected[k] then bytes else ""
  }

  lemma GaveFirst(s: seq<string>, selected: seq<bool>, bytes: string)
    requires |s| == |selected|
    ensures GaveSome(s, s, selected, bytes, 0)
    ensures GaveUpTo(s, s, selected, bytes)
  {
  }

  lemma GaveNext(a: seq<string>, b: seq<string>, c: seq<string>, selected: seq<bool>, bytes: string, j: nat)
    requires GaveSome(a, b, selected, bytes, j) && j < |a|
    requires c == if selected[j] then Grown(b, j, bytes) else b
    ensures GaveSome(a, c, selected, bytes, j + 1) && GaveUpTo(a, c, selected, bytes)
    ensures j + 1 == |a| ==> Gave(a, c, selected, bytes)
  {
    assert a[j] + "" == a[j];
  }

  /** The same, but no more than that. */
  predicate GaveUpTo(before: seq<string>, after: seq<string>, selected: seq<bool>, bytes: string) {
    && |before| == |after| == |selected|
    && forall j :: 0 <= j < |before| ==> before[j] <= after[j] <= before[j] + if selected[j] then bytes else ""
  }

  lemma UpToMore(a: seq<string>, b: seq<string>, selected: seq<bool>, x: string, y: string)
    requires GaveUpTo(a, b, selected, x)
    ensures GaveUpTo(a, b, selected, x + y)
  {
  }

  lemma GaveThenUpTo(a: seq<string>, b: seq<string>, c: seq<string>, selected: seq<bool>, x: string, y: string)
    requires Gave(a, b, selected, x) && GaveUpTo(b, c, selected, y)
    ensures GaveUpTo(a, c, selected, x + y)
  {
    forall j | 0 <= j < |a|
      ensures a[j] <= c[j] <= a[j] + if selected[j] then x + y else ""
    {
      assert b[j] == a[j] + if selected[j] then x else "";
    }
  }

  lemma GaveMore(a: seq<string>, b: seq<string>, c: seq<string>, selected: seq<bool>, x: string, y: string)
    requires Gave(a, b, selected, x) && Gave(b, c, selected, y)
    ensures Gave(a, c, selected, x + y)
  {
    forall j | 0 <= j < |a|
      ensures c[j] == a[j] + if selected[j] then x + y else ""
    {
      assert b[j] == a[j] + if selected[j] then x else "";
    }
  }

  lemma RestMore(start: string, before: string, after: string, more: string, text: string, ended: bool)
    requires Rest(start, before, more, false, "") && '\n' !in text
    requires after == before + text + (if ended then "\n" else "")
    ensures Rest(start, after, more + text, ended, "")
    ensures !ended && |text| < MAXLINE ==> Rest(start, after, more + "", false, text)
  {
    assert more + "" == more;
  }

  lemma PartMore(start: string, before: string, more: string, text: string, stdin: string)
    requires Rest(start, before, more, false, "") && '\n' !in text && before + text <= stdin
    ensures '\n' !in more + text && start + (more + text) <= stdin && start + (more + "") <= stdin
  {
    assert start + (more + text) == start + more + text;
  }

  /** What was handed out: more of a line, its end if it was there, and what was lost. */
  predicate Rest(before: string, after: string, more: string, ended: bool, lost: string) {
    && after == before + more + (if ended then "\n" else "") + lost
    && '\n' !in more && '\n' !in lost && (ended ==> lost == "") && |lost| < MAXLINE
  }

  lemma RestOfNothing(s: string)
    ensures Rest(s, s, "", false, "")
  {
  }

  /** The selections so far, after one more action. */
  lemma FlagsMore(script: seq<string>, i: nat, key: string, mode: Mode, fn: Matcher,
                  before: seq<bool>, after: seq<bool>)
    requires i < |script| && LogCount(script, i + 1) <= |before|
    requires before[..LogCount(script, i)] == Flags(script, i, key, mode, fn)
    requires after == if IsLog(script[i]) then before[LogCount(script, i) := SelectedAt(script, i, key, mode, fn)]
                      else before
    ensures after[..LogCount(script, i + 1)] == Flags(script, i + 1, key, mode, fn)
  {
    if IsLog(script[i]) {
      var j := LogCount(script, i);
      assert after[..j + 1] == before[..j] + [SelectedAt(script, i, key, mode, fn)];
    }
  }

  lemma {:induction false} LogCountGrows(script: seq<string>, i: nat)
    requires i <= |script|
    ensures LogCount(script, i) <= LogCount(script, |script|)
    decreases |script| - i
  {
    if i < |script| {
      LogCountGrows(script, i + 1);
    }
  }

  lemma PaddedAt(key: string)
    requires |key| <= MAXLINE
    ensures Padded(key)[..|key|] == key && forall i :: |key| <= i <= MAXLINE ==> Padded(key)[i] == '\n'
  {
  }

  lemma StampHasNoNewline(t: Taia)
    requires InRange(t)
    ensures '\n' !in StampText(LabelOf(t)) + " " && '\n' !in AccuText(t) + " "
  {
    AccuLength(t);
    Pow16At24();
    ValueOfDigits(LabelOf(t), 24);
    var d := Digits(LabelOf(t), 24);
    assert forall i :: 0 <= i < |d| ==> IsHex(d[i]);
  }

  // ---------- what the theorem about the loop means ----------

  /** Without stamp and deselecting actions each log gets the input itself, its last line complete. */
  lemma {:induction false} PlainCopy(script: seq<string>, clock: Clock, fn: Matcher, lines: seq<Line>, g: nat)
    requires g < LogCount(script, |script|) && Lines(script, clock, lines) && PlainScript(script)
    ensures GivenTo(script, fn, lines, g) == InputOf(lines)
  {
    if lines != [] {
      var init, e := lines[..|lines| - 1], lines[|lines| - 1];
      assert LineOk(script, clock, lines, |lines| - 1);
      forall i | 0 <= i < |init|
        ensures LineOk(script, clock, init, i)
      {
        assert LineOk(script, clock, lines, i);
        assert init[..i] == lines[..i];
      }
      PlainCopy(script, clock, fn, init, g);
      AllSelected(script, |script|, First(e.stamp + e.text), e.mode, fn);
      assert e.stamp + e.text == e.text;
    }
  }

  /** So after a run that no failed read ended, each such log has the bytes taken from standard
      input, and one more newline if those did not end in one. */
  lemma PlainRun(script: seq<string>, clock: Clock, fn: Matcher, lines: seq<Line>, start: seq<string>,
                 given: seq<string>, taken: string, open: bool)
    requires Lines(script, clock, lines) && PlainScript(script) && Handled(taken, lines, open, "")
    requires Extended(script, fn, lines, start, given)
    ensures given == Completing(start, taken)
  {
    PlainTaken(script, clock, lines, taken, open);
    forall j | 0 <= j < |given|
      ensures given[j] == start[j] + Completed(taken)
    {
      PlainCopy(script, clock, fn, lines, j);
    }
  }

  lemma PlainTaken(script: seq<string>, clock: Clock, lines: seq<Line>, taken: string, open: bool)
    requires Lines(script, clock, lines) && Handled(taken, lines, open, "")
    ensures InputOf(lines) == Completed(taken)
  {
    InputEndsLine(lines);
    if open {
      assert LineOk(script, clock, lines, |lines| - 1);
      assert taken[..|taken| - |""|] == taken;
      OpenInput(taken, InputOf(lines[..|lines| - 1]), lines[|lines| - 1].text);
    }
  }

  lemma OpenInput(taken: string, before: string, text: string)
    requires taken + "\n" == before + text + "\n" && text != "" && '\n' !in text
    ensures !AtLineStart(taken)
  {
    assert taken == (taken + "\n")[..|taken|] == (before + text + "\n")[..|before + text|] == before + text;
  }

  lemma InputEndsLine(lines: seq<Line>)
    ensures AtLineStart(InputOf(lines))
  {
  }

  /** The input alone determines the lines that it is cut into. */
  lemma {:induction false} LinesDetermined(a: seq<Line>, b: seq<Line>)
    requires InputOf(a) == InputOf(b)
    requires (forall i :: 0 <= i < |a| ==> '\n' !in a[i].text) && (forall i :: 0 <= i < |b| ==> '\n' !in b[i].text)
    ensures |a| == |b| && forall i :: 0 <= i < |a| ==> a[i].text == b[i].text
    decreases |a|
  {
    if a != [] && b != [] {
      var a', b' := a[..|a| - 1], b[..|b| - 1];
      InputEndsLine(a');
      InputEndsLine(b');
      LastLine(InputOf(a'), a[|a| - 1].text, InputOf(b'), b[|b| - 1].text);
      LinesDetermined(a', b');
    }
  }

  lemma LastLine(x: string, t: string, y: string, u: string)
    requires x + t + "\n" == y + u + "\n" && AtLineStart(x) && AtLineStart(y) && '\n' !in t && '\n' !in u
    ensures x == y && t == u
  {
    var whole := x + t;
    assert whole == (x + t + "\n")[..|x + t|] == (y + u + "\n")[..|y + u|] == y + u;
    LastLineStart(x, t, y, u);
    LastLineStart(y, u, x, t);
    assert x == whole[..|x|] && y == whole[..|y|];
    assert t == whole[|x|..] && u == whole[|y|..];
  }

  lemma LastLineStart(x: string, t: string, y: string, u: string)
    requires x + t == y + u && AtLineStart(y) && '\n' !in t
    ensures |y| <= |x|
  {
    forall k | |x| <= k < |x + t|
      ensures (x + t)[k] != '\n'
    {
      assert (x + t)[k] == t[k - |x|];
    }
    assert y != "" ==> (y + u)[|y| - 1] == '\n';
  }
}
