/** Simple line patterns: what the manual says a pattern matches, what the
    matching loop computes, and exactly when the two agree. */
module Match {
  import opened Wrappers

  // ---------- the documented meaning ----------

  function Concat(pieces: seq<string>): string {
    if pieces == [] then "" else pieces[0] + Concat(pieces[1..])
  }

  /** What one star or non-star matches: a non-star itself, a star before the end any
      string without the next pattern character, a final star any string. */
  predicate PieceOk(pattern: string, i: nat, piece: string)
    requires i < |pattern|
  {
    if pattern[i] != '*' then piece == [pattern[i]]
    else i + 1 < |pattern| ==> pattern[i + 1] !in piece
  }

  predicate Splits(pattern: string, line: string, pieces: seq<string>) {
    && |pieces| == |pattern|
    && Concat(pieces) == line
    && forall i :: 0 <= i < |pattern| ==> PieceOk(pattern, i, pieces[i])
  }

  ghost predicate Documented(pattern: string, line: string) {
    exists pieces :: Splits(pattern, line, pieces)
  }

  predicate AdjacentStars(pattern: string) {
    exists i :: 0 <= i < |pattern| - 1 && pattern[i] == '*' && pattern[i + 1] == '*'
  }

  // ---------- the matching loop ----------

  /** The result of the loop from a given place in pattern and line. */
  predicate Scan(pattern: string, line: string)
    decreases |pattern|, |line|
  {
    if pattern == "" then line == ""
    else if pattern[0] != '*' then line != "" && line[0] == pattern[0] && Scan(pattern[1..], line[1..])
    else if |pattern| == 1 then true
    else if line == "" then false
    else if line[0] == pattern[1] then Scan(pattern[1..], line)
    else Scan(pattern, line[1..])
  }

  method MatchSimple(pattern: CString, buf: string) returns (r: bool)
    ensures r ==> Documented(pattern, buf)
    ensures !AdjacentStars(pattern) ==> (r <==> Documented(pattern, buf))
    ensures r == Scan(pattern, buf)
  {
    ScanIsSound(pattern, buf);
    if !AdjacentStars(pattern) && Documented(pattern, buf) {
      var pieces :| Splits(pattern, buf, pieces);
      ScanIsComplete(pattern, buf, pieces);
    }
    var p, b := 0, 0;
    while true
      invariant p <= |pattern| && b <= |buf|
      invariant Scan(pattern, buf) == Scan(pattern[p..], buf[b..])
      decreases |pattern| - p
    {
      if p == |pattern| { return b == |buf|; }
      var ch := pattern[p];
      p := p + 1;
      if ch == '*' {
        if p == |pattern| { return true; }
        ch := pattern[p];
        while true
          invariant p < |pattern| && b <= |buf| && pattern[p] == ch && pattern[p - 1] == '*'
          invariant Scan(pattern, buf) == Scan(pattern[p - 1..], buf[b..])
          decreases |buf| - b
        {
          assert pattern[p - 1..][1..] == pattern[p..];
          if b == |buf| { return false; }
          if buf[b] == ch { break; }
          assert buf[b..][1..] == buf[b + 1..];
          b := b + 1;
        }
        continue;
      }
      assert pattern[p - 1..][1..] == pattern[p..];
      if b == |buf| { return false; }
      if buf[b] != ch { return false; }
      assert buf[b..][1..] == buf[b + 1..];
      b := b + 1;
    }
  }

  // ---------- soundness: for every pattern ----------

  lemma SplitsCons(pattern: string, line: string, first: string, rest: seq<string>)
    requires pattern != "" && |first| <= |line| && line[..|first|] == first
    requires PieceOk(pattern, 0, first) && Splits(pattern[1..], line[|first|..], rest)
    ensures Splits(pattern, line, [first] + rest)
  {
    var pieces := [first] + rest;
    assert pieces[1..] == rest;
    assert line == first + line[|first|..];
    forall i | 0 <= i < |pattern|
      ensures PieceOk(pattern, i, pieces[i])
    {
      if i > 0 {
        assert PieceOk(pattern[1..], i - 1, rest[i - 1]);
      }
    }
  }

  lemma {:induction false} ScanIsSound(pattern: string, line: string)
    ensures Scan(pattern, line) ==> Documented(pattern, line)
    decreases |pattern|, |line|
  {
    if !Scan(pattern, line) {
    } else if pattern == "" {
      assert Splits(pattern, line, []);
    } else if pattern[0] != '*' {
      ScanIsSound(pattern[1..], line[1..]);
      var rest :| Splits(pattern[1..], line[1..], rest);
      SplitsCons(pattern, line, [line[0]], rest);
    } else if |pattern| == 1 {
      assert pattern[1..] == "" && line[|line|..] == "";
      assert Splits(pattern[1..], line[|line|..], []);
      SplitsCons(pattern, line, line, []);
    } else if line[0] == pattern[1] {
      ScanIsSound(pattern[1..], line);
      var rest :| Splits(pattern[1..], line, rest);
      assert line[0..] == line;
      SplitsCons(pattern, line, "", rest);
    } else {
      ScanIsSound(pattern, line[1..]);
      var pieces :| Splits(pattern, line[1..], pieces);
      assert PieceOk(pattern, 0, pieces[0]);
      SplitsTail(pattern, line[1..], pieces);
      var first := [line[0]] + pieces[0];
      assert line[|first|..] == line[1..][|pieces[0]|..];
      assert line == [line[0]] + line[1..];
      SplitsCons(pattern, line, first, pieces[1..]);
    }
  }

  lemma SplitsTail(pattern: string, line: string, pieces: seq<string>)
    requires pattern != "" && Splits(pattern, line, pieces)
    ensures line == pieces[0] + line[|pieces[0]|..]
    ensures Splits(pattern[1..], line[|pieces[0]|..], pieces[1..])
  {
    assert line[|pieces[0]|..] == Concat(pieces[1..]);
    forall i | 0 <= i < |pattern| - 1
      ensures PieceOk(pattern[1..], i, pieces[1..][i])
    {
      assert PieceOk(pattern, i + 1, pieces[i + 1]);
    }
  }

  // ---------- completeness: without adjacent stars the split is forced ----------

  lemma NoAdjacentStarsTail(pattern: string)
    requires pattern != "" && !AdjacentStars(pattern)
    ensures !AdjacentStars(pattern[1..])
  {
    forall i | 0 <= i < |pattern| - 2
      ensures !(pattern[1..][i] == '*' && pattern[1..][i + 1] == '*')
    {
      assert pattern[1..][i] == pattern[i + 1] && pattern[1..][i + 1] == pattern[i + 2];
    }
  }

  lemma {:induction false} ScanIsComplete(pattern: string, line: string, pieces: seq<string>)
    requires !AdjacentStars(pattern) && Splits(pattern, line, pieces)
    ensures Scan(pattern, line)
    decreases |pattern|, |line|
  {
    if pattern == "" {
    } else {
      NoAdjacentStarsTail(pattern);
      SplitsTail(pattern, line, pieces);
      var first, tail := pieces[0], line[|pieces[0]|..];
      assert PieceOk(pattern, 0, first);
      if pattern[0] != '*' {
        ScanIsComplete(pattern[1..], tail, pieces[1..]);
      } else if |pattern| > 1 {
        // the character behind the star begins the next piece, and not this one
        assert PieceOk(pattern, 1, pieces[1]);
        assert pattern[1] != '*';
        assert pieces[1..][0] == pieces[1];
        assert Concat(pieces[1..]) == pieces[1] + Concat(pieces[1..][1..]);
        assert tail != "" && tail[0] == pattern[1];
        ScanIsComplete(pattern[1..], tail, pieces[1..]);
        SkipToNext(pattern, first, tail);
      }
    }
  }

  lemma {:induction false} SkipToNext(pattern: string, first: string, tail: string)
    requires |pattern| > 1 && pattern[0] == '*' && pattern[1] !in first
    requires tail != "" && tail[0] == pattern[1] && Scan(pattern[1..], tail)
    ensures Scan(pattern, first + tail)
  {
    if first == "" {
      assert first + tail == tail;
    } else {
      assert (first + tail)[1..] == first[1..] + tail;
      assert (first + tail)[0] == first[0];
      SkipToNext(pattern, first[1..], tail);
    }
  }

  // ---------- adjacent stars: the loop and the manual part ways ----------

  /** The shortest line the manual lets a pattern match: all stars empty. */
  function Literals(pattern: string): (s: string)
    ensures '*' !in s
  {
    if pattern == "" then ""
    else if pattern[0] == '*' then Literals(pattern[1..])
    else [pattern[0]] + Literals(pattern[1..])
  }

  lemma {:induction false} LiteralsDocumented(pattern: string)
    ensures Documented(pattern, Literals(pattern))
  {
    if pattern == "" {
      assert Splits(pattern, Literals(pattern), []);
    } else {
      LiteralsDocumented(pattern[1..]);
      var line := Literals(pattern);
      var rest :| Splits(pattern[1..], Literals(pattern[1..]), rest);
      var first := if pattern[0] == '*' then "" else [pattern[0]];
      assert line[|first|..] == Literals(pattern[1..]);
      SplitsCons(pattern, line, first, rest);
    }
  }

  lemma {:induction false} LiteralsNotScanned(pattern: string)
    requires AdjacentStars(pattern)
    ensures !Scan(pattern, Literals(pattern))
  {
    var i :| 0 <= i < |pattern| - 1 && pattern[i] == '*' && pattern[i + 1] == '*';
    if pattern[0] != '*' {
      assert pattern[1..][i - 1] == '*' && pattern[1..][i] == '*';
      LiteralsNotScanned(pattern[1..]);
      assert Literals(pattern)[1..] == Literals(pattern[1..]);
    } else if pattern[1] == '*' {
      NoStarInLine(pattern, Literals(pattern));
    } else {
      assert i > 0 && pattern[1..][i - 1] == '*' && pattern[1..][i] == '*';
      LiteralsNotScanned(pattern[1..]);
      assert Literals(pattern) == Literals(pattern[1..]);
      assert Literals(pattern)[0] == pattern[1];
    }
  }

  lemma {:induction false} NoStarInLine(pattern: string, line: string)
    requires |pattern| > 1 && pattern[0] == '*' && pattern[1] == '*' && '*' !in line
    ensures !Scan(pattern, line)
  {
    if line != "" {
      NoStarInLine(pattern, line[1..]);
    }
  }

  /** The loop means what the manual says, on every line, for exactly the patterns
      without adjacent stars. On the others it matches less, never more. */
  lemma ScanMeetsManual(pattern: string)
    ensures (forall line :: Scan(pattern, line) <==> Documented(pattern, line)) <==> !AdjacentStars(pattern)
  {
    if AdjacentStars(pattern) {
      LiteralsDocumented(pattern);
      LiteralsNotScanned(pattern);
    } else {
      forall line
        ensures Scan(pattern, line) <==> Documented(pattern, line)
      {
        ScanIsSound(pattern, line);
        if Documented(pattern, line) {
          var pieces :| Splits(pattern, line, pieces);
          ScanIsComplete(pattern, line, pieces);
        }
      }
    }
  }

  /** "**" should match every line; the empty line is not matched. */
  lemma AdjacentStarsExample()
    ensures Documented("**", "") && !Scan("**", "")
  {
    assert Concat(["", ""]) == "" by { assert ["", ""][1..] == [""]; }
    assert Splits("**", "", ["", ""]);
  }
}
