/** The environment a program is run with: the inherited entries overridden by the
    pathexec_env calls, merged in one array with swap-with-last removal. */
module Pathexec {
  import opened Wrappers
  import opened ByteSearch

  // ---------- what an environment means ----------

  predicate IsBinding(entry: string) { '=' in entry }

  /** The variable an entry speaks of: everything before the first '='. */
  function NameOf(entry: string): string { entry[..FirstIndex(entry, '=')] }

  function ValueOf(entry: string): string
    requires IsBinding(entry)
  {
    entry[FirstIndex(entry, '=') + 1..]
  }

  predicate DistinctNames(env: seq<string>) {
    forall i, j :: 0 <= i < j < |env| && IsBinding(env[i]) && IsBinding(env[j]) ==> NameOf(env[i]) != NameOf(env[j])
  }

  /** env binds exactly the variables of m, each once, to their values in m. */
  ghost predicate Denotes(env: seq<string>, m: map<string, string>) {
    && DistinctNames(env)
    && (forall i :: 0 <= i < |env| && IsBinding(env[i]) ==> NameOf(env[i]) in m && m[NameOf(env[i])] == ValueOf(env[i]))
    && (forall n :: n in m ==> exists i :: 0 <= i < |env| && IsBinding(env[i]) && NameOf(env[i]) == n)
  }

  /** The effect asked for by one call: bind a variable, or unset it. */
  function Override(m: map<string, string>, entry: string): map<string, string> {
    if IsBinding(entry) then m[NameOf(entry) := ValueOf(entry)] else m - {NameOf(entry)}
  }

  function OverrideAll(m: map<string, string>, entries: seq<string>): map<string, string>
    decreases |entries|
  {
    if entries == [] then m else OverrideAll(Override(m, entries[0]), entries[1..])
  }

  /** What the entry of a call means for its arguments: set the variable, or unset it. */
  lemma CallMeans(m: map<string, string>, s: string, t: string)
    requires '=' !in s
    ensures Override(m, s + "=" + t) == m[s := t] && Override(m, s) == m - {s}
  {
    var entry := s + "=" + t;
    assert entry[..|s|] == s && entry[|s|] == '=' && entry[|s| + 1..] == t;
    FirstIndexUnique(entry, '=', |s|);
    FirstIndexUnique(s, '=', |s|);
    assert s[..|s|] == s;
  }

  /** The last call for a variable decides about it, whatever was inherited or asked before. */
  lemma {:induction false} LastCallWins(m: map<string, string>, before: seq<string>, entry: string, after: seq<string>)
    requires forall e :: e in after ==> NameOf(e) != NameOf(entry)
    ensures var r := OverrideAll(m, before + [entry] + after);
            if IsBinding(entry) then NameOf(entry) in r && r[NameOf(entry)] == ValueOf(entry) else NameOf(entry) !in r
    decreases |before|
  {
    var all := before + [entry] + after;
    if before != [] {
      assert all[1..] == before[1..] + [entry] + after;
      LastCallWins(Override(m, all[0]), before[1..], entry, after);
    } else {
      assert all[1..] == after;
      OthersKeep(Override(m, entry), NameOf(entry), after);
    }
  }

  lemma {:induction false} OthersKeep(m: map<string, string>, n: string, entries: seq<string>)
    requires forall e :: e in entries ==> NameOf(e) != n
    ensures n in OverrideAll(m, entries) <==> n in m
    ensures n in m ==> OverrideAll(m, entries)[n] == m[n]
    decreases |entries|
  {
    if entries != [] {
      OthersKeep(Override(m, entries[0]), n, entries[1..]);
    }
  }

  /** Whatever from denoted, to denotes it overridden by the entries in order. */
  ghost predicate Overrides(from: seq<string>, to: seq<string>, entries: seq<string>) {
    forall m :: Denotes(from, m) ==> Denotes(to, OverrideAll(m, entries))
  }

  lemma OverridesOne(from: seq<string>, mid: seq<string>, to: seq<string>, entries: seq<string>, e: string)
    requires Overrides(from, mid, entries)
    requires forall m :: Denotes(mid, m) ==> Denotes(to, Override(m, e))
    ensures Overrides(from, to, entries + [e])
  {
    forall m | Denotes(from, m)
      ensures Denotes(to, OverrideAll(m, entries + [e]))
    {
      OverrideSnoc(m, entries, e);
    }
  }

  // ---------- the list of calls ----------

  function Flatten(entries: seq<CString>): string {
    if entries == [] then "" else entries[0] + "\0" + Flatten(entries[1..])
  }

  lemma {:induction false} FlattenSnoc(entries: seq<CString>, e: CString)
    ensures Flatten(entries + [e]) == Flatten(entries) + e + "\0"
  {
    if entries != [] {
      assert (entries + [e])[1..] == entries[1..] + [e];
      FlattenSnoc(entries[1..], e);
    }
  }

  lemma FlattenHasNul(entries: seq<CString>)
    ensures entries != [] ==> '\0' in Flatten(entries)
  {
    if entries != [] {
      assert Flatten(entries)[|entries[0]|] == '\0';
    }
  }

  function CountNul(s: string): nat {
    if s == "" then 0 else CountNul(s[..|s| - 1]) + (if s[|s| - 1] == '\0' then 1 else 0)
  }

  // ---------- swap-with-last removal ----------

  predicate Names(entry: CString, split: nat, e: CString)
    requires split <= |entry|
  {
    split < |e| && e[..split] == entry[..split] && e[split] == '='
  }

  function SwapRemove(s: seq<CString>, t: nat): (r: seq<CString>)
    requires t < |s|
    ensures |r| == |s| - 1
  {
    s[t := s[|s| - 1]][..|s| - 1]
  }

  lemma NamesMeansSameName(entry: CString, e: CString)
    ensures Names(entry, FirstIndex(entry, '='), e) <==> IsBinding(e) && NameOf(e) == NameOf(entry)
  {
    var split := FirstIndex(entry, '=');
    if Names(entry, split, e) {
      assert entry[..split] == e[..split];
      FirstIndexUnique(e, '=', split);
    }
  }

  /** Where entry k of the shorter array comes from. */
  function Source(n: nat, t: nat, k: nat): nat
    requires n > 0
  {
    if k == t then n - 1 else k
  }

  lemma RemovedAt(env: seq<CString>, t: nat, k: nat)
    requires t < |env| && k < |env| - 1
    ensures SwapRemove(env, t)[k] == env[Source(|env|, t, k)] && Source(|env|, t, k) != t
  {
  }

  lemma RemovedDenotes(env: seq<CString>, m: map<string, string>, t: nat)
    requires Denotes(env, m) && t < |env| && IsBinding(env[t])
    ensures Denotes(SwapRemove(env, t), m - {NameOf(env[t])})
  {
    RemovedBindings(env, m, t);
    RemovedNames(env, m, t);
  }

  /** What is left is bound as before, and to other names. */
  lemma RemovedBindings(env: seq<CString>, m: map<string, string>, t: nat)
    requires Denotes(env, m) && t < |env| && IsBinding(env[t])
    ensures DistinctNames(SwapRemove(env, t))
    ensures var r, rest := SwapRemove(env, t), m - {NameOf(env[t])};
            forall i :: 0 <= i < |r| && IsBinding(r[i]) ==> NameOf(r[i]) in rest && rest[NameOf(r[i])] == ValueOf(r[i])
  {
    var r, rest := SwapRemove(env, t), m - {NameOf(env[t])};
    forall i | 0 <= i < |r| && IsBinding(r[i])
      ensures NameOf(r[i]) in rest && rest[NameOf(r[i])] == ValueOf(r[i])
    {
      RemovedAt(env, t, i);
      NamesDiffer(env, t, Source(|env|, t, i));
    }
    forall i, j | 0 <= i < j < |r| && IsBinding(r[i]) && IsBinding(r[j])
      ensures NameOf(r[i]) != NameOf(r[j])
    {
      RemovedAt(env, t, i);
      RemovedAt(env, t, j);
      NamesDiffer(env, Source(|env|, t, i), Source(|env|, t, j));
    }
  }

  lemma NamesDiffer(env: seq<CString>, i: nat, j: nat)
    requires DistinctNames(env) && i < |env| && j < |env| && i != j && IsBinding(env[i]) && IsBinding(env[j])
    ensures NameOf(env[i]) != NameOf(env[j])
  {
  }

  lemma RemovedNames(env: seq<CString>, m: map<string, string>, t: nat)
    requires Denotes(env, m) && t < |env| && IsBinding(env[t])
    ensures var r := SwapRemove(env, t);
            forall n :: n in m - {NameOf(env[t])} ==> exists i :: 0 <= i < |r| && IsBinding(r[i]) && NameOf(r[i]) == n
  {
    var r := SwapRemove(env, t);
    forall n | n in m - {NameOf(env[t])}
      ensures exists i :: 0 <= i < |r| && IsBinding(r[i]) && NameOf(r[i]) == n
    {
      var i :| 0 <= i < |env| && IsBinding(env[i]) && NameOf(env[i]) == n;
      var k := if i == |env| - 1 then t else i;
      RemovedAt(env, t, k);
      assert r[k] == env[i];
    }
  }

  lemma AppendedDenotes(env: seq<CString>, m: map<string, string>, entry: CString)
    requires Denotes(env, m) && IsBinding(entry) && NameOf(entry) !in m
    ensures Denotes(env + [entry], m[NameOf(entry) := ValueOf(entry)])
  {
    var r := env + [entry];
    var m' := m[NameOf(entry) := ValueOf(entry)];
    forall n | n in m'
      ensures exists i :: 0 <= i < |r| && IsBinding(r[i]) && NameOf(r[i]) == n
    {
      if n == NameOf(entry) {
        assert r[|env|] == entry;
      } else {
        var i :| 0 <= i < |env| && IsBinding(env[i]) && NameOf(env[i]) == n;
        assert r[i] == env[i];
      }
    }
  }

  /** Takes the first entry for a name out of e[..elen]. */
  method RemoveName(e: array<CString>, elen: nat, entry: CString, split: nat) returns (newlen: nat)
    requires elen <= e.Length && split <= |entry|
    modifies e
    ensures newlen <= elen <= newlen + 1
    ensures newlen == elen ==> e[..elen] == old(e[..elen]) && forall t :: 0 <= t < elen ==> !Names(entry, split, e[t])
    ensures newlen < elen ==>
              exists t :: 0 <= t < elen && Names(entry, split, old(e[t]))
                          && e[..newlen] == SwapRemove(old(e[..elen]), t)
  {
    newlen := elen;
    for t := 0 to elen
      invariant newlen == elen && e[..] == old(e[..])
      invariant forall k :: 0 <= k < t ==> !Names(entry, split, e[k])
    {
      if split < |e[t]| && entry[..split] == e[t][..split] {
        if e[t][split] == '=' {
          newlen := newlen - 1;
          e[t] := e[newlen];
          assert e[..newlen] == SwapRemove(old(e[..elen]), t);
          break;
        }
      }
    }
  }

  // ---------- the two calls ----------

  class PathexecState {
    var plus: string
    ghost var calls: seq<CString>

    ghost predicate Valid()
      reads this
    {
      plus == Flatten(calls)
    }

    constructor ()
      ensures Valid() && calls == []
    {
      plus, calls := "", [];
    }

    method PathexecEnv(s: Option<CString>, t: Option<CString>)
      requires Valid()
      modifies this
      ensures Valid()
      ensures s.None? ==> calls == old(calls)
      ensures s.Some? ==> calls == old(calls) + [if t.Some? then s.value + "=" + t.value else s.value]
      ensures s.Some? && '=' !in s.value ==>
                forall m :: OverrideAll(m, calls)
                            == var before := OverrideAll(m, old(calls));
                               if t.Some? then before[s.value := t.value] else before - {s.value}
    {
      if s.None? { return; }
      var tmp: CString := s.value;
      if t.Some? {
        tmp := tmp + "=";
        tmp := tmp + t.value;
      }
      plus := plus + (tmp + "\0");
      FlattenSnoc(calls, tmp);
      calls := calls + [tmp];
      forall m | '=' !in s.value
        ensures OverrideAll(m, calls)
                == var before := OverrideAll(m, old(calls));
                   if t.Some? then before[s.value := t.value] else before - {s.value}
      {
        OverrideSnoc(m, old(calls), tmp);
        CallMeans(OverrideAll(m, old(calls)), s.value, if t.Some? then t.value else "");
      }
    }

    /** The array handed to the new program; e[elen] holds the closing null pointer. */
    method Pathexec(environ: seq<CString>) returns (e: array<CString>, elen: nat)
      requires Valid()
      ensures elen < e.Length <= |environ| + CountNul(plus) + 1 && e[elen] == ""
      ensures Overrides(environ, e[..elen], calls)
    {
      elen := |environ|;
      for i := 0 to |plus|
        invariant elen == |environ| + CountNul(plus[..i])
      {
        assert plus[..i + 1][..i] == plus[..i];
        if plus[i] == '\0' { elen := elen + 1; }
      }
      assert plus[..|plus|] == plus;
      e := new CString[elen + 1](_ => "");
      elen := 0;
      for i := 0 to |environ|
        invariant elen == i && e[..i] == environ[..i]
      {
        e[elen] := environ[i];
        elen := elen + 1;
      }
      assert environ[..|environ|] == environ;
      elen := MergeCalls(e, elen);
      e[elen] := "";
    }

    /** Cuts plus at its NULs and merges the strings one by one. */
    method MergeCalls(e: array<CString>, elen: nat) returns (newlen: nat)
      requires Valid() && elen + CountNul(plus) < e.Length
      modifies e
      ensures newlen <= elen + CountNul(plus)
      ensures Overrides(old(e[..elen]), e[..newlen], calls)
    {
      newlen := elen;
      var j := 0;
      ghost var k := 0;
      for i := 0 to |plus|
        invariant j <= i && k <= |calls| && plus[j..] == Flatten(calls[k..]) && '\0' !in plus[j..i]
        invariant newlen <= elen + CountNul(plus[..i]) && CountNul(plus[..i]) <= CountNul(plus)
        invariant Overrides(old(e[..elen]), e[..newlen], calls[..k])
      {
        CountNulStep(plus, i);
        ParseStep(calls, k, plus, j, i);
        if plus[i] == '\0' {
          var entry: CString := plus[j..i];
          newlen := MergeOne(e, newlen, entry, old(e[..elen]), calls[..k]);
          assert calls[..k + 1] == calls[..k] + [entry];
          j := i + 1;
          k := k + 1;
        }
      }
      AllParsed(calls, k, plus, j);
    }
  }

  lemma NextEntry(entries: seq<CString>, s: string, n: nat)
    requires s == Flatten(entries) && n < |s| && s[n] == '\0' && '\0' !in s[..n]
    ensures entries != [] && s[..n] == entries[0] && s[n + 1..] == Flatten(entries[1..])
  {
    var h := entries[0];
    assert s[..|h|] == h && s[|h|] == '\0';
    FirstIndexUnique(s, '\0', |h|);
    FirstIndexUnique(s, '\0', n);
  }

  /** Position i ends call k, or lies inside it. */
  lemma ParseStep(calls: seq<CString>, k: nat, plus: string, j: nat, i: nat)
    requires k <= |calls| && j <= i < |plus| && plus[j..] == Flatten(calls[k..]) && '\0' !in plus[j..i]
    ensures plus[i] == '\0' ==> k < |calls| && plus[j..i] == calls[k] && plus[i + 1..] == Flatten(calls[k + 1..])
    ensures plus[i] != '\0' ==> '\0' !in plus[j..i + 1]
  {
    if plus[i] == '\0' {
      assert plus[j..][..i - j] == plus[j..i];
      NextEntry(calls[k..], plus[j..], i - j);
      assert calls[k..][1..] == calls[k + 1..];
      assert plus[j..][i - j + 1..] == plus[i + 1..];
    } else {
      assert plus[j..i + 1] == plus[j..i] + [plus[i]];
    }
  }

  lemma AllParsed(calls: seq<CString>, k: nat, plus: string, j: nat)
    requires k <= |calls| && j <= |plus| && plus[j..] == Flatten(calls[k..]) && '\0' !in plus[j..|plus|]
    ensures calls[..k] == calls
  {
    assert plus[j..] == plus[j..|plus|];
    FlattenHasNul(calls[k..]);
  }

  lemma CountNulStep(s: string, i: nat)
    requires i < |s|
    ensures CountNul(s[..i + 1]) == CountNul(s[..i]) + (if s[i] == '\0' then 1 else 0) <= CountNul(s)
  {
    assert s[..i + 1][..i] == s[..i];
    CountNulGrows(s, i + 1);
  }

  lemma {:induction false} CountNulGrows(s: string, i: nat)
    requires i <= |s|
    ensures CountNul(s[..i]) <= CountNul(s)
    decreases |s| - i
  {
    if i == |s| {
      assert s[..i] == s;
    } else {
      CountNulGrows(s, i + 1);
      assert s[..i + 1][..i] == s[..i];
    }
  }

  lemma {:induction false} OverrideSnoc(m: map<string, string>, entries: seq<string>, e: string)
    ensures OverrideAll(m, entries + [e]) == Override(OverrideAll(m, entries), e)
    decreases |entries|
  {
    if entries != [] {
      assert (entries + [e])[1..] == entries[1..] + [e];
      OverrideSnoc(Override(m, entries[0]), entries[1..], e);
    }
  }

  /** One call merged: the old entry for its name goes, and its own comes in if it binds the name. */
  method Merge(e: array<CString>, elen: nat, entry: CString) returns (newlen: nat)
    requires elen < e.Length
    modifies e
    ensures newlen <= elen + 1
    ensures forall m :: Denotes(old(e[..elen]), m) ==> Denotes(e[..newlen], Override(m, entry))
  {
    var split := FirstIndex(entry, '=');
    newlen := RemoveName(e, elen, entry, split);
    ghost var mid := e[..newlen];
    forall m | Denotes(old(e[..elen]), m)
      ensures Denotes(mid, m - {NameOf(entry)})
    {
      RemovalStep(old(e[..elen]), mid, m, entry);
    }
    if split < |entry| {
      e[newlen] := entry;
      newlen := newlen + 1;
      assert e[..newlen] == mid + [entry];
    }
    forall m | Denotes(old(e[..elen]), m)
      ensures Denotes(e[..newlen], Override(m, entry))
    {
      AdditionStep(mid, m, entry);
    }
  }

  /** The same, after some calls that were merged before. */
  method MergeOne(e: array<CString>, elen: nat, entry: CString, ghost start: seq<CString>, ghost done: seq<CString>)
    returns (newlen: nat)
    requires elen < e.Length && Overrides(start, e[..elen], done)
    modifies e
    ensures newlen <= elen + 1 && Overrides(start, e[..newlen], done + [entry])
  {
    ghost var mid := e[..elen];
    newlen := Merge(e, elen, entry);
    OverridesOne(start, mid, e[..newlen], done, entry);
  }

  lemma AdditionStep(mid: seq<CString>, m: map<string, string>, entry: CString)
    requires Denotes(mid, m - {NameOf(entry)})
    ensures Denotes(if IsBinding(entry) then mid + [entry] else mid, Override(m, entry))
  {
    if IsBinding(entry) {
      AppendedDenotes(mid, m - {NameOf(entry)}, entry);
      assert (m - {NameOf(entry)})[NameOf(entry) := ValueOf(entry)] == Override(m, entry);
    }
  }

  lemma RemovalStep(env: seq<CString>, mid: seq<CString>, m: map<string, string>, entry: CString)
    requires Denotes(env, m)
    requires var split := FirstIndex(entry, '=');
             || (mid == env && forall t :: 0 <= t < |env| ==> !Names(entry, split, env[t]))
             || exists t :: 0 <= t < |env| && Names(entry, split, env[t]) && mid == SwapRemove(env, t)
    ensures Denotes(mid, m - {NameOf(entry)})
  {
    var split := FirstIndex(entry, '=');
    if t :| 0 <= t < |env| && Names(entry, split, env[t]) && mid == SwapRemove(env, t) {
      NamesMeansSameName(entry, env[t]);
      RemovedDenotes(env, m, t);
    } else {
      NothingToRemove(env, m, entry);
    }
  }

  lemma NothingToRemove(env: seq<CString>, m: map<string, string>, entry: CString)
    requires Denotes(env, m) && forall t :: 0 <= t < |env| ==> !Names(entry, FirstIndex(entry, '='), env[t])
    ensures NameOf(entry) !in m && m - {NameOf(entry)} == m
  {
    forall t | 0 <= t < |env| && IsBinding(env[t])
      ensures NameOf(env[t]) != NameOf(entry)
    {
      NamesMeansSameName(entry, env[t]);
    }
    assert NameOf(entry) !in m;
  }
}
