/** filesfit: counting the old logs of a directory and finding the one to remove, on the
    names as readdir gives them, in any order. */
module Retention {
  import opened Stamp
  import opened Wrappers

  predicate IsOld(name: string) {
    |name| >= 25 && name[0] == '@'
  }

  function CountOld(dir: seq<string>): nat {
    if dir == [] then 0 else CountOld(dir[..|dir| - 1]) + (if IsOld(dir[|dir| - 1]) then 1 else 0)
  }

  /** No old log has a stamp before that of x. */
  predicate Oldest(dir: seq<string>, x: string) {
    IsOld(x) && forall i :: 0 <= i < |dir| && IsOld(dir[i]) ==> !StrLess(dir[i], x[..25])
  }

  const BOUND := "@z"

  lemma OldLess(name: string, t: string)
    requires IsOld(name) && |t| <= 25
    ensures StrLess(name, t) <==> StrLess(name[..25], t)
  {
    assert name == name[..25] + name[25..];
    StrLessPrefix(name[..25], name[25..], t);
  }

  lemma NewMinimum(y: string, x: string, t: string)
    requires IsOld(y) && IsOld(x) && |t| <= 25 && StrLess(x, t) && !StrLess(y, t)
    ensures !StrLess(y, x[..25])
  {
    OldLess(x, t);
    OldLess(y, t);
    OldLess(y, x[..25]);
    if StrLess(y[..25], x[..25]) {
      StrLessTransitive(y[..25], x[..25], t);
    }
  }

  /** An entry to remove: an oldest log. Every old log with the stamp of a clock is below the
      bound, so the search can only fail on names that multilog does not make. */
  predicate Chosen(dir: seq<string>, victim: Option<nat>) {
    && (victim.Some? ==>
          && victim.value < |dir| && IsOld(dir[victim.value])
          && (StrLess(dir[victim.value], BOUND) ==> Oldest(dir, dir[victim.value])))
    && ((exists i :: 0 <= i < |dir| && IsOld(dir[i]) && StrLess(dir[i], BOUND)) ==>
          victim.Some? && StrLess(dir[victim.value], BOUND))
  }

  /** Fits if there are fewer than num old logs; otherwise names an entry to remove, if the
      search finds one. */
  method FilesFit(dir: seq<string>, num: nat) returns (fits: bool, victim: Option<nat>)
    ensures fits <==> CountOld(dir) < num
    ensures fits ==> victim.None?
    ensures !fits ==> Chosen(dir, victim)
  {
    var fn := BOUND;
    var count := 0;
    ghost var least: int := -1;
    for k := 0 to |dir|
      invariant count == CountOld(dir[..k])
      invariant -1 <= least < k
      invariant if least < 0 then fn == BOUND
                else IsOld(dir[least]) && fn == dir[least][..25] && StrLess(dir[least], BOUND)
      invariant forall i :: 0 <= i < k && IsOld(dir[i]) ==> !StrLess(dir[i], fn)
    {
      var x := dir[k];
      assert dir[..k + 1][..k] == dir[..k];
      if |x| > 0 && x[0] == '@' {
        if |x| >= 25 {
          count := count + 1;
          if StrLess(x, fn) {
            forall i | 0 <= i < k && IsOld(dir[i])
              ensures !StrLess(dir[i], x[..25])
            {
              NewMinimum(dir[i], x, fn);
            }
            if least >= 0 {
              OldLess(x, fn);
              OldLess(dir[least], BOUND);
              StrLessTransitive(x[..25], fn, BOUND);
              OldLess(x, BOUND);
            }
            OldLess(x, x[..25]);
            StrLessIrreflexive(x[..25]);
            fn := x[..25];
            least := k;
          }
        }
      }
    }
    assert dir[..|dir|] == dir;
    if count < num { return true, None; }

    for k := 0 to |dir|
      invariant forall i :: 0 <= i < k ==> !(IsOld(dir[i]) && StrStart(dir[i], fn))
    {
      var x := dir[k];
      if |x| > 0 && x[0] == '@' {
        if |x| >= 25 {
          if StrStart(x, fn) {
            if least < 0 {
              StrLessPrefix(x[..2], x[2..], BOUND);
              assert x == x[..2] + x[2..];
              StrLessIrreflexive(BOUND);
            } else {
              assert x[..25] == fn;
              OldLess(x, BOUND);
              OldLess(dir[least], BOUND);
            }
            return false, Some(k);
          }
        }
      }
    }
    assert least >= 0 ==> StrStart(dir[least], fn);
    return false, None;
  }
}
