/** The script of multilog: which lines it selects for which log, on the first 1000 bytes. */
module Script {
  import opened Match

  datatype Mode = Simple | Fnmatch

  /** fnmatch(3), of which nothing is assumed. */
  type Matcher = (string, string) -> bool

  function Verb(action: string): char {
    if action == "" then '\0' else action[0]
  }

  predicate IsLog(action: string) { Verb(action) == '.' || Verb(action) == '/' }

  predicate IsMode(action: string) { Verb(action) == 'F' || Verb(action) == 'S' }

  predicate IsPattern(action: string) { Verb(action) == '+' || Verb(action) == '-' }

  predicate Matches(fn: Matcher, mode: Mode, pattern: string, line: string) {
    if mode == Simple then Scan(pattern, line) else fn(pattern, line)
  }

  // ---------- what the loop over the script computes ----------

  /** The match mode before action i, if it is mode before the first. */
  function ModeAt(script: seq<string>, i: nat, mode: Mode): Mode
    requires i <= |script|
  {
    if i == 0 then mode
    else if Verb(script[i - 1]) == 'F' then Fnmatch
    else if Verb(script[i - 1]) == 'S' then Simple
    else ModeAt(script, i - 1, mode)
  }

  /** Whether a line is selected before action i. */
  predicate SelectedAt(script: seq<string>, i: nat, line: string, mode: Mode, fn: Matcher)
    requires i <= |script|
  {
    i == 0 ||
    var before := SelectedAt(script, i - 1, line, mode, fn);
    var action := script[i - 1];
    if !IsPattern(action) then before
    else if Matches(fn, ModeAt(script, i - 1, mode), action[1..], line) then Verb(action) == '+'
    else before
  }

  function LogCount(script: seq<string>, i: nat): nat
    requires i <= |script|
  {
    if i == 0 then 0 else LogCount(script, i - 1) + (if IsLog(script[i - 1]) then 1 else 0)
  }

  /** The selection for each log named before action i. */
  function Flags(script: seq<string>, i: nat, line: string, mode: Mode, fn: Matcher): (s: seq<bool>)
    requires i <= |script|
    ensures |s| == LogCount(script, i)
  {
    if i == 0 then []
    else if IsLog(script[i - 1]) then Flags(script, i - 1, line, mode, fn) + [SelectedAt(script, i - 1, line, mode, fn)]
    else Flags(script, i - 1, line, mode, fn)
  }

  // ---------- what that means ----------

  predicate Decides(script: seq<string>, k: nat, line: string, mode: Mode, fn: Matcher)
    requires k < |script|
  {
    IsPattern(script[k]) && Matches(fn, ModeAt(script, k, mode), script[k][1..], line)
  }

  /** Of the actions before i, k is the last that decides. */
  predicate DecidesLast(script: seq<string>, k: nat, i: nat, line: string, mode: Mode, fn: Matcher)
    requires k < i <= |script|
  {
    Decides(script, k, line, mode, fn) && forall m :: k < m < i ==> !Decides(script, m, line, mode, fn)
  }

  /** The last pattern that matches decides, and without one the line is selected. */
  lemma {:induction false} LastMatchDecides(script: seq<string>, i: nat, line: string, mode: Mode, fn: Matcher)
    requires i <= |script|
    ensures SelectedAt(script, i, line, mode, fn) <==>
            forall k | 0 <= k < i && DecidesLast(script, k, i, line, mode, fn) :: Verb(script[k]) == '+'
  {
    if i > 0 {
      LastMatchDecides(script, i - 1, line, mode, fn);
      forall k | 0 <= k < i
        ensures DecidesLast(script, k, i, line, mode, fn) <==>
                if Decides(script, i - 1, line, mode, fn) then k == i - 1
                else k < i - 1 && DecidesLast(script, k, i - 1, line, mode, fn)
      {
        LastMoves(script, k, i, line, mode, fn);
      }
      if Decides(script, i - 1, line, mode, fn) {
        assert DecidesLast(script, i - 1, i, line, mode, fn);
      }
    }
  }

  lemma LastMoves(script: seq<string>, k: nat, i: nat, line: string, mode: Mode, fn: Matcher)
    requires k < i <= |script|
    ensures DecidesLast(script, k, i, line, mode, fn) <==>
            if Decides(script, i - 1, line, mode, fn) then k == i - 1
            else k < i - 1 && DecidesLast(script, k, i - 1, line, mode, fn)
  {
  }

  // ---------- the same, said of the first characters alone ----------

  /** Action k begins with the given character, and what follows matches the line in the mode
      there. */
  predicate Hit(script: seq<string>, k: nat, verb: char, line: string, mode: Mode, fn: Matcher)
    requires k < |script|
  {
    && script[k] != "" && script[k][0] == verb
    && if ModeAt(script, k, mode) == Simple then Scan(script[k][1..], line) else fn(script[k][1..], line)
  }

  /** A line is selected before action i if and only if each earlier - that matches it has a + that
      matches it between them. */
  lemma {:induction false} SelectedMeans(script: seq<string>, i: nat, line: string, mode: Mode, fn: Matcher)
    requires i <= |script|
    ensures SelectedAt(script, i, line, mode, fn) <==>
            forall k | 0 <= k < i && Hit(script, k, '-', line, mode, fn) ::
              exists m | k < m < i :: Hit(script, m, '+', line, mode, fn)
  {
    if i > 0 {
      SelectedMeans(script, i - 1, line, mode, fn);
      if !Hit(script, i - 1, '+', line, mode, fn) && !Hit(script, i - 1, '-', line, mode, fn) {
        AnswersStay(script, i, line, mode, fn);
      }
    }
  }

  /** An action that does not match makes no difference to that. */
  lemma AnswersStay(script: seq<string>, i: nat, line: string, mode: Mode, fn: Matcher)
    requires 0 < i <= |script|
    requires !Hit(script, i - 1, '+', line, mode, fn) && !Hit(script, i - 1, '-', line, mode, fn)
    ensures (forall k | 0 <= k < i && Hit(script, k, '-', line, mode, fn) ::
               exists m | k < m < i :: Hit(script, m, '+', line, mode, fn))
            <==> forall k | 0 <= k < i - 1 && Hit(script, k, '-', line, mode, fn) ::
                   exists m | k < m < i - 1 :: Hit(script, m, '+', line, mode, fn)
  {
    forall k | 0 <= k < i - 1 && Hit(script, k, '-', line, mode, fn)
      ensures (exists m | k < m < i :: Hit(script, m, '+', line, mode, fn))
              <==> exists m | k < m < i - 1 :: Hit(script, m, '+', line, mode, fn)
    {
    }
  }

  /** So a + or - that matches decides, if no later + or - does. */
  lemma PatternDecides(script: seq<string>, k: nat, i: nat, line: string, mode: Mode, fn: Matcher)
    requires k < i <= |script| && (Hit(script, k, '+', line, mode, fn) || Hit(script, k, '-', line, mode, fn))
    requires forall m :: k < m < i ==>
               !Hit(script, m, '+', line, mode, fn) && !Hit(script, m, '-', line, mode, fn)
    ensures SelectedAt(script, i, line, mode, fn) <==> script[k][0] == '+'
  {
    SelectedMeans(script, i, line, mode, fn);
  }

  /** The same, with the patterns of simple mode as the manual explains them. */
  ghost predicate HitAsDocumented(script: seq<string>, k: nat, verb: char, line: string, mode: Mode, fn: Matcher)
    requires k < |script|
  {
    && script[k] != "" && script[k][0] == verb
    && if ModeAt(script, k, mode) == Simple then Documented(script[k][1..], line) else fn(script[k][1..], line)
  }

  /** No pattern that is used in simple mode has two stars in a row. */
  predicate Unambiguous(script: seq<string>, mode: Mode) {
    forall k :: 0 <= k < |script| && ModeAt(script, k, mode) == Simple && script[k] != "" ==>
      !AdjacentStars(script[k][1..])
  }

  /** With such patterns the manual tells which lines are selected. */
  lemma SelectedAsDocumented(script: seq<string>, i: nat, line: string, mode: Mode, fn: Matcher)
    requires i <= |script| && Unambiguous(script, mode)
    ensures SelectedAt(script, i, line, mode, fn) <==>
            forall k | 0 <= k < i && HitAsDocumented(script, k, '-', line, mode, fn) ::
              exists m | k < m < i :: HitAsDocumented(script, m, '+', line, mode, fn)
  {
    SelectedMeans(script, i, line, mode, fn);
    forall k: nat, verb: char | k < |script|
      ensures HitAsDocumented(script, k, verb, line, mode, fn) <==> Hit(script, k, verb, line, mode, fn)
    {
      if script[k] != "" && ModeAt(script, k, mode) == Simple {
        ScanMeetsManual(script[k][1..]);
      }
    }
  }

  /** The mode before action i is that of the last F or S before it, or the one the line began with. */
  lemma {:induction false} ModeMeans(script: seq<string>, i: nat, mode: Mode)
    requires i <= |script|
    ensures ModeAt(script, i, mode) == Fnmatch <==>
            || (mode == Fnmatch && forall k :: 0 <= k < i ==> Verb(script[k]) != 'S')
            || (exists k :: 0 <= k < i && Verb(script[k]) == 'F' && forall m :: k < m < i ==> Verb(script[m]) != 'S')
  {
    if i > 0 {
      ModeMeans(script, i - 1, mode);
      if Verb(script[i - 1]) == 'F' {
        assert ModeAt(script, i, mode) == Fnmatch;
      } else if ModeAt(script, i - 1, mode) == Fnmatch && Verb(script[i - 1]) != 'S' && mode != Fnmatch {
        var k :| 0 <= k < i - 1 && Verb(script[k]) == 'F' && forall m :: k < m < i - 1 ==> Verb(script[m]) != 'S';
        assert forall m :: k < m < i ==> Verb(script[m]) != 'S';
      }
    }
  }

  /** The actions before i that begin with a dot or a slash. */
  function LogActions(script: seq<string>, i: nat): set<nat>
    requires i <= |script|
  {
    set k: nat | k < i && script[k] != "" && (script[k][0] == '.' || script[k][0] == '/')
  }

  /** These are the logs. */
  lemma {:induction false} LogsMean(script: seq<string>, i: nat)
    requires i <= |script|
    ensures LogCount(script, i) == |LogActions(script, i)|
  {
    if i > 0 {
      LogsMean(script, i - 1);
      var before := LogActions(script, i - 1);
      assert LogActions(script, i) == if IsLog(script[i - 1]) then before + {i - 1} else before;
    } else {
      assert LogActions(script, 0) == {};
    }
  }

  /** The flag of the log that is action i is the selection there. */
  lemma {:induction false} FlagOfLog(script: seq<string>, i: nat, n: nat, line: string, mode: Mode, fn: Matcher)
    requires i < n <= |script| && script[i] != "" && (script[i][0] == '.' || script[i][0] == '/')
    ensures LogCount(script, i) < LogCount(script, n)
    ensures Flags(script, n, line, mode, fn)[LogCount(script, i)] == SelectedAt(script, i, line, mode, fn)
  {
    if n > i + 1 {
      FlagOfLog(script, i, n - 1, line, mode, fn);
    }
  }

  /** Without a deselecting action every log gets every line. */
  lemma {:induction false} AllSelected(script: seq<string>, i: nat, line: string, mode: Mode, fn: Matcher)
    requires i <= |script| && forall k :: 0 <= k < i ==> Verb(script[k]) != '-'
    ensures SelectedAt(script, i, line, mode, fn)
    ensures forall j :: 0 <= j < LogCount(script, i) ==> Flags(script, i, line, mode, fn)[j]
  {
    if i > 0 {
      AllSelected(script, i - 1, line, mode, fn);
    }
  }

  // ---------- the match mode leaks from line to line ----------

  /** The first action that sets a mode, or the end of the script. */
  function FirstMode(script: seq<string>): (m: nat)
    ensures m <= |script| && (m < |script| ==> IsMode(script[m]))
    ensures forall k :: 0 <= k < m ==> !IsMode(script[k])
  {
    if script == [] || IsMode(script[0]) then 0 else 1 + FirstMode(script[1..])
  }

  /** The first n actions select every line alike, whichever of the two modes they begin with. */
  ghost predicate SelectAlike(script: seq<string>, n: nat, a: Mode, b: Mode, fn: Matcher) {
    forall line: string, i: nat | i <= n && i <= |script| ::
      SelectedAt(script, i, line, a, fn) == SelectedAt(script, i, line, b, fn)
  }

  /** The manual lets every line start in simple mode; the program goes on in the last mode of the
      line before. For a given matcher that makes no difference exactly if the script ends in
      simple mode, or if the actions before its first F or S select alike in both modes. */
  lemma ModeLeak(script: seq<string>, fn: Matcher)
    ensures var last := ModeAt(script, |script|, Simple);
            SelectAlike(script, |script|, last, Simple, fn)
            <==> last == Simple || SelectAlike(script, FirstMode(script), last, Simple, fn)
  {
    var last := ModeAt(script, |script|, Simple);
    if SelectAlike(script, FirstMode(script), last, Simple, fn) {
      forall line: string, i: nat | i <= |script|
        ensures SelectedAt(script, i, line, last, fn) == SelectedAt(script, i, line, Simple, fn)
      {
        if i > FirstMode(script) {
          AlikeBehindMode(script, i, line, last, fn);
        }
      }
    }
  }

  /** Behind an F or S the mode that the line began with is forgotten. */
  lemma {:induction false} AlikeBehindMode(script: seq<string>, i: nat, line: string, mode: Mode, fn: Matcher)
    requires FirstMode(script) < i <= |script|
    requires var m := FirstMode(script);
             SelectedAt(script, m, line, mode, fn) == SelectedAt(script, m, line, Simple, fn)
    ensures ModeAt(script, i, mode) == ModeAt(script, i, Simple)
    ensures SelectedAt(script, i, line, mode, fn) == SelectedAt(script, i, line, Simple, fn)
  {
    if i > FirstMode(script) + 1 {
      AlikeBehindMode(script, i - 1, line, mode, fn);
    }
  }

  /** A script that fnmatch(3) makes differ: "[ab]" matches the line "a" as a shell pattern, and
      not as a simple one. The second of two lines "a" is deselected, the first is not. */
  lemma ModeLeakExample(fn: Matcher)
    requires fn("[ab]", "a")
    ensures var script := ["-[ab]", "F", "./main"];
            && ModeAt(script, 3, Simple) == Fnmatch
            && SelectedAt(script, 3, "a", Simple, fn) && !SelectedAt(script, 3, "a", Fnmatch, fn)
            && !SelectAlike(script, 3, Fnmatch, Simple, fn)
  {
    var script := ["-[ab]", "F", "./main"];
    assert script[0][1..] == "[ab]";
    assert !Scan("[ab]", "a");
    StepsOf(script, "a", Simple, fn);
    StepsOf(script, "a", Fnmatch, fn);
  }

  lemma StepsOf(script: seq<string>, line: string, mode: Mode, fn: Matcher)
    requires |script| == 3 && Verb(script[0]) == '-' && Verb(script[1]) == 'F' && IsLog(script[2])
    ensures SelectedAt(script, 3, line, mode, fn) == !Matches(fn, mode, script[0][1..], line)
    ensures ModeAt(script, 3, mode) == Fnmatch
  {
    assert SelectedAt(script, 0, line, mode, fn) && ModeAt(script, 0, mode) == mode;
    assert SelectedAt(script, 1, line, mode, fn) == !Matches(fn, mode, script[0][1..], line);
    assert SelectedAt(script, 2, line, mode, fn) == SelectedAt(script, 1, line, mode, fn);
    assert ModeAt(script, 2, mode) == Fnmatch;
  }

  /** An action - comes before any F or S. */
  predicate DeselectsEarly(script: seq<string>) {
    exists k :: 0 <= k < |script| && Verb(script[k]) == '-' && forall m :: 0 <= m < k ==> !IsMode(script[m])
  }

  /** Whatever the matcher, the leak is harmless for scripts that deselect nothing before they set
      a mode. */
  lemma LeakIsHarmless(script: seq<string>, mode: Mode, fn: Matcher)
    requires !DeselectsEarly(script)
    ensures SelectAlike(script, |script|, mode, Simple, fn)
  {
    forall line: string, i: nat | i <= |script|
      ensures SelectedAt(script, i, line, mode, fn) == SelectedAt(script, i, line, Simple, fn)
    {
      if i <= FirstMode(script) {
        NotYetDeselected(script, i, line, mode, fn);
        NotYetDeselected(script, i, line, Simple, fn);
      } else {
        NotYetDeselected(script, FirstMode(script), line, mode, fn);
        NotYetDeselected(script, FirstMode(script), line, Simple, fn);
        AlikeBehindMode(script, i, line, mode, fn);
      }
    }
  }

  lemma {:induction false} NotYetDeselected(script: seq<string>, i: nat, line: string, mode: Mode, fn: Matcher)
    requires i <= FirstMode(script) && !DeselectsEarly(script)
    ensures SelectedAt(script, i, line, mode, fn)
  {
    if i > 0 {
      NotYetDeselected(script, i - 1, line, mode, fn);
      assert forall m :: 0 <= m < i - 1 ==> !IsMode(script[m]);
    }
  }
}
