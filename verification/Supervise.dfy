/** The supervise state machine: two service records driven by child exits and by
    commands, with the kernel's table of unreaped children beside them. */
module Supervise {
  import opened Stamp
  import opened Status
  import opened Wrappers

  datatype Script = StartScript | RunScript | StopScript | LogScript

  datatype Signal = TERM | CONT | ALRM | HUP | KILL | INT | QUIT | USR1 | USR2 | WINCH | STOP

  /** The last of the commands u, o and d that a service was given. */
  datatype Order = NoOrder | UpOrder | OnceOrder | DownOrder

  /** What stat_isexec and stat_exists say of a file: 1, 0 or -1. */
  datatype Answer = Yes | No | Failure

  /** A wait status: the killing signal, or 0 and the exit code. */
  datatype Exit = Exit(signal: nat, code: nat)

  /** What an exit means for a service: it failed, or it is to be started again, or stopped. */
  datatype Fate = Fallen | Due | Over

  /** The signals that a command sends. */
  function SignalsOf(ch: char): seq<Signal> {
    match ch
    case 'd' => [TERM, CONT]
    case 'p' => [STOP]
    case 'c' => [CONT]
    case 'a' => [ALRM]
    case 'h' => [HUP]
    case 'k' => [KILL]
    case 't' => [TERM]
    case 'i' => [INT]
    case 'q' => [QUIT]
    case '1' => [USR1]
    case '2' => [USR2]
    case 'w' => [WINCH]
    case _ => []
  }

  /** The table of svc.8. */
  lemma SignalTable()
    ensures SignalsOf('d') == [TERM, CONT] && SignalsOf('p') == [STOP] && SignalsOf('c') == [CONT]
    ensures SignalsOf('h') == [HUP] && SignalsOf('a') == [ALRM] && SignalsOf('i') == [INT] && SignalsOf('t') == [TERM]
    ensures SignalsOf('q') == [QUIT] && SignalsOf('1') == [USR1] && SignalsOf('2') == [USR2]
    ensures SignalsOf('w') == [WINCH] && SignalsOf('k') == [KILL]
    ensures forall ch :: SignalsOf(ch) != [] ==> ch in "dpchaitq12wk"
  {
  }

  lemma OneSignal(ch: char)
    ensures ch != 'd' ==> SignalsOf(ch) == [] || SignalsOf(ch) == [SignalsOf(ch)[0]]
  {
  }

  /** Signals sent to a process, or with -1 to its group; without a process none is. */
  function Sent(pid: nat, groupflag: int, signals: seq<Signal>): (sent: seq<(int, Signal)>)
    ensures |sent| == if pid == 0 then 0 else |signals|
    ensures forall i :: 0 <= i < |sent| ==> sent[i] == (pid * groupflag, signals[i])
  {
    if pid == 0 then [] else seq(|signals|, i requires 0 <= i < |signals| => (pid * groupflag, signals[i]))
  }

  // ---------- the bytes in the control fifo ----------

  /** Which service the next command is for: the log service behind an L, the main one behind an l
      and at the start. */
  predicate ForLog(commands: string) {
    commands != "" &&
    var last := commands[|commands| - 1];
    last == 'L' || (last != 'l' && ForLog(commands[..|commands| - 1]))
  }

  /** Whether commands go to the process group: behind a +, and not behind a = and at the start. */
  predicate Grouped(commands: string) {
    commands != "" &&
    var last := commands[|commands| - 1];
    last == '+' || (last != '=' && Grouped(commands[..|commands| - 1]))
  }

  /** The last of L and l decides, and the main service comes first. */
  lemma LastServiceDecides(before: string, after: string)
    requires 'L' !in after && 'l' !in after
    ensures ForLog(before + ['L'] + after) && !ForLog(before + ['l'] + after) && !ForLog(after)
  {
    NoSwitch(before + ['L'], after);
    NoSwitch(before + ['l'], after);
    NoSwitch("", after);
    assert "" + after == after;
  }

  /** The last of + and = decides, and the process comes first. */
  lemma LastTargetDecides(before: string, after: string)
    requires '+' !in after && '=' !in after
    ensures Grouped(before + ['+'] + after) && !Grouped(before + ['='] + after) && !Grouped(after)
  {
    NoSwitch(before + ['+'], after);
    NoSwitch(before + ['='], after);
    NoSwitch("", after);
    assert "" + after == after;
  }

  lemma {:induction false} NoSwitch(before: string, after: string)
    ensures 'L' !in after && 'l' !in after ==> ForLog(before + after) == ForLog(before)
    ensures '+' !in after && '=' !in after ==> Grouped(before + after) == Grouped(before)
  {
    if after == "" {
      assert before + after == before;
    } else {
      var n := |after| - 1;
      NoSwitch(before, after[..n]);
      assert (before + after)[..|before| + n] == before + after[..n];
    }
  }

  /** What a command sends behind others, to the main or the log service with these processes. */
  function SentFor(before: string, ch: char, pids: (nat, nat)): seq<(int, Signal)> {
    Sent(if ForLog(before) then pids.1 else pids.0, if Grouped(before) then -1 else 1, SignalsOf(ch))
  }

  /** What commands send, when these were the processes before each of them. */
  function SentBy(commands: string, pids: seq<(nat, nat)>): seq<(int, Signal)>
    requires |commands| <= |pids|
  {
    if commands == "" then []
    else
      var init := commands[..|commands| - 1];
      SentBy(init, pids) + SentFor(init, commands[|init|], pids[|init|])
  }

  /** A process stays the same; where there was none, one may be started. */
  predicate Staying(pids: seq<(nat, nat)>) {
    forall i :: 0 < i < |pids| ==> StaysOn(pids[i - 1], pids[i])
  }

  /** That is the process of a service. */
  predicate Among(pid: nat, pids: (nat, nat)) {
    pid != 0 && (pid == pids.0 || pid == pids.1)
  }

  predicate StaysOn(p: (nat, nat), q: (nat, nat)) {
    (p.0 != 0 ==> q.0 == p.0) && (p.1 != 0 ==> q.1 == p.1)
  }

  lemma SentByMore(before: string, ch: char, pids: seq<(nat, nat)>, now: (nat, nat))
    requires |pids| == |before| + 1
    ensures SentBy(before + [ch], pids + [now]) == SentBy(before, pids) + SentFor(before, ch, pids[|before|])
    ensures Staying(pids) && StaysOn(pids[|before|], now) ==> Staying(pids + [now])
  {
    assert (before + [ch])[..|before|] == before;
    SentByFirst(before, pids, pids + [now]);
  }

  lemma {:induction false} SentByFirst(commands: string, pids: seq<(nat, nat)>, more: seq<(nat, nat)>)
    requires |commands| <= |pids| && pids <= more
    ensures SentBy(commands, pids) == SentBy(commands, more)
  {
    if commands != "" {
      SentByFirst(commands[..|commands| - 1], pids, more);
    }
  }

  /** What a command makes of a record: all of it, but for d, u and o to a service without a process. */
  predicate CommandMeans(ch: char, before: Record, after: Record) {
    match ch
    case 'd' =>
      && after.want && !after.wantup
      && (before.pid != 0 ==> after == before.(want := true, wantup := false, paused := false, flag := Stopping))
    case 'u' =>
      && after.wantup && (after.want || (after.pid == 0 && after.flag == Started))
      && (before.pid != 0 ==> after == before.(want := true, wantup := true))
    case 'o' =>
      && !after.want && after.wantup == before.wantup
      && (before.pid != 0 ==> after == before.(want := false))
    case 'p' => after == before.(paused := true)
    case 'c' => after == before.(paused := false)
    case _ => after == before
  }

  /** What a service was told: the last order, and whether it is wanted up, which u and d say. */
  datatype Heard = Heard(order: Order, up: bool)

  function OrderOf(ch: char, before: Heard): Heard {
    match ch
    case 'd' => Heard(DownOrder, false)
    case 'u' => Heard(UpOrder, true)
    case 'o' => Heard(OnceOrder, before.up)
    case _ => before
  }

  /** The last order to the log service, or to the main one, among the commands. */
  function LastOrder(commands: string, log: bool, before: Heard): Heard {
    if commands == "" then before
    else
      var init := commands[..|commands| - 1];
      if ForLog(init) == log then OrderOf(commands[|commands| - 1], LastOrder(init, log, before))
      else LastOrder(init, log, before)
  }

  /** The last order to a service decides, of which u and d also say whether it is wanted up. */
  lemma {:induction false} LastOrderDecides(before: string, ch: char, after: string, log: bool, o: Heard)
    requires ch in "uod" && ForLog(before) == log
    requires forall i :: 0 <= i < |after| && after[i] in "uod" ==> ForLog(before + [ch] + after[..i]) != log
    ensures LastOrder(before + [ch] + after, log, o).order
            == if ch == 'u' then UpOrder else if ch == 'o' then OnceOrder else DownOrder
    ensures ch != 'o' ==> (LastOrder(before + [ch] + after, log, o).up <==> ch == 'u')
    ensures ch == 'o' ==> LastOrder(before + [ch] + after, log, o).up == LastOrder(before, log, o).up
  {
    OneByteMore(before, ch, log, o);
    if after == "" {
      assert before + [ch] + after == before + [ch];
    } else {
      var n := |after| - 1;
      forall i | 0 <= i < n && after[..n][i] in "uod"
        ensures ForLog(before + [ch] + after[..n][..i]) != log
      {
        assert after[..n][..i] == after[..i];
      }
      LastOrderDecides(before, ch, after[..n], log, o);
      OneByteMore(before + [ch] + after[..n], after[n], log, o);
      assert before + [ch] + after == before + [ch] + after[..n] + [after[n]];
    }
  }

  lemma {:induction false} NoOrderYet(commands: string, log: bool, o: Heard)
    requires forall i :: 0 <= i < |commands| && commands[i] in "uod" ==> ForLog(commands[..i]) != log
    ensures LastOrder(commands, log, o) == o
  {
    if commands != "" {
      var n := |commands| - 1;
      forall i | 0 <= i < n && commands[..n][i] in "uod"
        ensures ForLog(commands[..n][..i]) != log
      {
        assert commands[..n][..i] == commands[..i];
      }
      NoOrderYet(commands[..n], log, o);
    }
  }

  /** The same over several readings of the fifo, of which each begins with the main service. */
  function OrderAfter(inputs: seq<string>, log: bool, before: Heard): Heard {
    if inputs == [] then before
    else LastOrder(inputs[|inputs| - 1], log, OrderAfter(inputs[..|inputs| - 1], log, before))
  }

  lemma OneByteMore(before: string, ch: char, log: bool, o: Heard)
    ensures ForLog(before + [ch]) == (ch == 'L' || (ch != 'l' && ForLog(before)))
    ensures LastOrder(before + [ch], log, o)
            == if ForLog(before) == log then OrderOf(ch, LastOrder(before, log, o)) else LastOrder(before, log, o)
    ensures 'x' in before + [ch] <==> 'x' in before || ch == 'x'
    ensures Grouped(before + [ch]) == (ch == '+' || (ch != '=' && Grouped(before)))
  {
    assert (before + [ch])[..|before|] == before;
  }

  predicate ExitAmong(inputs: seq<string>) {
    exists i :: 0 <= i < |inputs| && 'x' in inputs[i]
  }

  /** What of a record may be out of date in the status file. */
  datatype Seen = Seen(flag: SvStatus, paused: bool)

  /** The last announcement: what was seen of the services then, whether the log service was stopped
      since, and how many announcements there were. */
  datatype Board = Board(main: Seen, log: Seen, late: bool, count: nat)

  /** A record as a status file out of date has it. */
  function AsSeen(r: Record, seen: Seen): Record {
    r.(flag := seen.flag, paused := seen.paused)
  }

  /** The answer of wait_nohang that made a service failed, and the state it was in. */
  datatype Fall = Fall(at: nat, was: SvStatus)

  /** What a service was told, and what made it failed since it was last told u or d; what was
      forked for it since the last order; whether that was d and ran ./stop in the state starting;
      and whether it failed since then, and what was forked for it after that. */
  datatype Past = Past(heard: Heard, failed: Option<Fall>, launched: seq<Script>, slipped: bool,
                       fell: bool, revived: seq<Script>) {
    function Forked(script: Script): Past {
      this.(launched := launched + [script], revived := if fell then revived + [script] else revived)
    }

    /** After an order. */
    function Told(heard: Heard): Past {
      Past(heard, if heard.order == OnceOrder then failed else None, [], false, false, [])
    }

    function Fallen(f: Fall): Past {
      this.(failed := Some(f), fell := true, revived := [])
    }
  }

  /** What matters of a service at an exit, with what was launched for it since the last order. */
  datatype Snapshot = Snapshot(pid: nat, flag: SvStatus, want: bool, wantup: bool, ranstop: bool,
                               launched: seq<Script>)

  /** How an exit was handled: which answer of wait_nohang it was, and of which service; whether
      supervise was to exit; what was asked and tried before that, and how many children there
      were; and the service before and after. */
  datatype Ending = Ending(at: nat, main: bool, out: bool, asked: nat, tried: nat, live: nat,
                           before: Snapshot, after: Snapshot)

  class Svc {
    var pid: nat
    var flagstatus: SvStatus
    var flagwant: bool
    var flagwantup: bool
    var flagpaused: bool
    var when: Taia
    var ranstop: bool

    ghost var past: Past
    ghost var stuck: bool             // the last fork for this service failed

    constructor (wantup: bool)
      ensures pid == 0 && flagstatus == Stopped && flagwant && flagwantup == wantup && !flagpaused && !ranstop
      ensures past == Past(Heard(NoOrder, wantup), None, [], false, false, []) && !stuck && InRange(when)
    {
      pid, flagstatus, flagwant, flagwantup, flagpaused, ranstop := 0, Stopped, true, wantup, false, false;
      when := Taia(0, 0, 0);
      past, stuck := Past(Heard(NoOrder, wantup), None, [], false, false, []), false;
    }

    function Rec(): Record
      reads this
    {
      Record(when, pid, flagpaused, flagwant, flagwantup, flagstatus)
    }

    ghost function Snap(): Snapshot
      reads this
    {
      Snapshot(pid, flagstatus, flagwant, flagwantup, ranstop, past.launched)
    }

    ghost function Now(): Seen
      reads this
    {
      Seen(flagstatus, flagpaused)
    }

    predicate InOrder()
      reads this
    {
      pid < MAX_PID && InRange(when)
    }
  }

  class Supervise {
    const svcmain: Svc
    const svclog: Svc
    const haslog: bool               // logpipe[0] >= 0
    const grants: nat -> nat         // the process id that it has for each fork for a service, or 0
    const notices: nat -> nat        // the process id for ./notify, or 0, when it is the k-th script asked for
    const answers: nat -> Answer     // what it says of the scripts asked for
    const exits: nat -> (nat, Exit)  // which process wait_nohang tells to have exited, and how
    const clock: nat -> TimeOfDay
    var forks: nat                   // how many were tried
    var stats: nat                   // how often it was asked for a script
    var waits: nat                   // how often for an exit
    var readings: nat                // how often the clock was read
    var flagexit: bool
    var firstrun: bool
    var status: seq<Byte>            // the status file

    var children: set<nat>           // the kernel's table: every child not reaped yet
    ghost var notifiers: set<nat>    // those of them that run ./notify
    ghost var strayKill: bool        // some signal went to a process that was no child
    ghost var kills: seq<(int, Signal)>  // every signal sent, and its target
    ghost var board: Board
    ghost var reaps: nat             // service children reaped so far
    ghost var full: bool             // some fork found no free process id

    /** The kernel grants that fork, if it has a process id left. */
    predicate Granted(k: nat) { grants(k) != 0 }

    // ---------- what holds between any two steps ----------

    ghost predicate Mine(s: Svc) { s == svcmain || s == svclog }

    /** The unreaped children are the two recorded processes and the notifiers, all distinct. */
    ghost predicate Tracked()
      reads `children, `notifiers, svcmain, svclog
    {
      && (svcmain.pid != 0 ==>
            svcmain.pid in children && svcmain.pid !in notifiers && svcmain.pid != svclog.pid)
      && (svclog.pid != 0 ==> svclog.pid in children && svclog.pid !in notifiers)
      && (forall c :: c in children ==> c != 0 && (c in notifiers || c == svcmain.pid || c == svclog.pid))
      && notifiers <= children
    }

    ghost predicate Sound()
      reads `children, `notifiers, `strayKill, `forks, `full, svcmain, svclog
    {
      && svcmain != svclog && svcmain.InOrder() && svclog.InOrder() && Tracked() && !strayKill
      && (svcmain.stuck ==> svcmain.pid == 0) && (svclog.stuck ==> svclog.pid == 0)
      && Blameless()
    }

    /** A service is wanted up as it was last told, unless an exit made it failed since then. */
    ghost predicate Aimed(s: Svc)
      reads `waits, s`past, s`flagwantup
    {
      AimedAs(s.past, s.flagwantup, s == svcmain, waits)
    }

    /** What can make a service failed is an exit with code 100, and for the main service in the
        state starting any but one with code 0. */
    ghost predicate AimedAs(past: Past, wantup: bool, main: bool, asked: nat) {
      match past.failed
      case None => wantup == past.heard.up
      case Some(f) =>
        && !wantup && f.at < asked
        && (exits(f.at).1 == Exit(0, 100) || (main && f.was == Starting && exits(f.at).1 != Exit(0, 0)))
    }

    /** No fork for a service was refused so far, and none was without a process id. */
    ghost predicate AllGranted()
      reads `forks, `full
    {
      !full && forall i :: 0 <= i < forks ==> Granted(i)
    }

    /** Only a refused fork leaves a service stuck, or lets an order d slip. */
    ghost predicate Blameless()
      reads `forks, `full, svcmain, svclog
    {
      match AllGranted()
      case true => !svcmain.stuck && !svclog.stuck && !svcmain.past.slipped
      case false => true
    }

    /** What the administrator gets if no fork is refused: wanted up is up, d launches no more than
        one ./stop, and the file shows the records, but for a late stop of the log service. */
    ghost predicate Delivered()
      reads `status, `flagexit, svcmain, svclog
    {
      && (svcmain.flagwant && svcmain.flagwantup && !flagexit ==> svcmain.pid != 0)
      && (svclog.flagwant && svclog.flagwantup && !flagexit ==> svclog.pid != 0)
      && (svcmain.past.heard.order == DownOrder ==>
            svcmain.past.launched == [] || svcmain.past.launched == [StopScript])
      && (svclog.past.heard.order == DownOrder ==> svclog.past.launched == [])
      && |status| >= 20 && status[..20] == Published(svcmain.Rec())
      && (haslog && !(flagexit && svclog.flagstatus == Stopping) ==>
            |status| >= 40 && status[20..40] == Published(svclog.Rec()))
    }

    /** Of each service the file shows the record as it is, but for state and pause: these are as
        of the last announcement. */
    ghost predicate FileShows()
      reads `status, `board, svcmain, svclog
    {
      && |status| >= 20 && status[..20] == Published(AsSeen(svcmain.Rec(), board.main))
      && (haslog ==> |status| >= 40 && status[20..40] == Published(AsSeen(svclog.Rec(), board.log)))
    }

    /** The file is out of date only after a failed fork, or a stop of the log service on the way
        out. */
    ghost predicate Announced()
      reads `status, `board, `flagexit, svcmain, svclog
    {
      && FileShows()
      && (board.main != svcmain.Now() ==> svcmain.stuck)
      && (board.log != svclog.Now() ==> svclog.stuck || board.late)
      && (board.late ==> flagexit && svclog.flagstatus == Stopping)
    }

    /** An announcement clears the late stop, and without one it stays as it was. */
    twostate predicate Noted()
      reads `board
    {
      && board.count >= old(board.count)
      && (if board.count == old(board.count) then board.late == old(board.late) else !board.late)
    }

    /** A service wanted up has a process unless the last fork for it failed. */
    ghost predicate KeptUp(s: Svc)
      reads `flagexit, s
    {
      s.flagwant && s.flagwantup && !flagexit ==> (s.pid == 0 <==> s.stuck)
    }

    ghost predicate MainDownHeld()
      reads `flagexit, svcmain
    {
      svcmain.past.heard.order == DownOrder && !svcmain.past.slipped ==>
        && svcmain.flagwant && !svcmain.flagwantup
        && (svcmain.flagstatus == Starting ==> flagexit || svcmain.pid == 0)
        && (svcmain.past.launched == [] || (svcmain.past.launched == [StopScript] && svcmain.ranstop))
    }

    ghost predicate LogDownHeld()
      reads svclog
    {
      svclog.past.heard.order == DownOrder ==> svclog.flagwant && !svclog.flagwantup && svclog.past.launched == []
    }

    ghost predicate StaysFallen(s: Svc)
      reads s
    {
      s.past.fell ==> s.pid == 0 && s.past.revived == []
    }

    /** Starting without a process is not for long, unless a fork failed or the way is out. */
    ghost predicate StartGoesOn()
      reads `flagexit, svcmain
    {
      svcmain.pid == 0 && svcmain.flagstatus == Starting ==> flagexit || svcmain.stuck
    }

    /** The promises to the administrator. */
    ghost predicate Promises()
      reads `status, `board, `flagexit, `waits, svcmain, svclog
    {
      Announced() && Held()
    }

    /** All of them but the status file. */
    ghost predicate Held()
      reads `flagexit, `waits, svcmain, svclog
    {
      MainHeld() && LogHeld()
    }

    ghost predicate MainHeld()
      reads `flagexit, `waits, svcmain
    {
      KeptUp(svcmain) && StartGoesOn() && StaysFallen(svcmain) && MainDownHeld() && Aimed(svcmain)
    }

    ghost predicate LogHeld()
      reads `flagexit, `waits, svclog
    {
      KeptUp(svclog) && StaysFallen(svclog) && LogDownHeld() && Aimed(svclog)
    }

    /** The promises for the other service. */
    ghost predicate OtherHeld(svc: Svc)
      reads `flagexit, `waits, svcmain, svclog
    {
      if svc == svcmain then LogHeld() else MainHeld()
    }

    /** How many more service children can be reaped once supervise is to exit. */
    ghost function Measure(): nat
      reads svcmain, svclog
    {
      (if svcmain.pid == 0 then 0 else if svcmain.ranstop then 1 else 2) + (if svclog.pid == 0 then 0 else 1)
    }

    // ---------- the world ----------

    method StatIsExec() returns (r: Answer)
      modifies `stats
      ensures r == answers(old(stats)) && stats == old(stats) + 1
    {
      r := answers(stats);
      stats := stats + 1;
    }

    method Now() returns (t: Taia)
      modifies `readings
      ensures t == TaiaNow(clock(old(readings))) && readings == old(readings) + 1
    {
      t := TaiaNow(clock(readings));
      readings := readings + 1;
    }

    /** The child that has exited, or 0. */
    method WaitNohang() returns (pid: nat, wstat: Exit)
      requires 0 !in children
      modifies `children, `notifiers, `waits
      ensures waits == old(waits) + 1 && wstat == exits(old(waits)).1
      ensures pid == if exits(old(waits)).0 in old(children) then exits(old(waits)).0 else 0
      ensures pid == 0 ==> children == old(children) && notifiers == old(notifiers)
      ensures pid != 0 ==> children == old(children) - {pid} && notifiers == old(notifiers) - {pid}
    {
      pid, wstat := exits(waits).0, exits(waits).1;
      waits := waits + 1;
      if pid in children {
        children := children - {pid};
        notifiers := notifiers - {pid};
      } else {
        pid := 0;
      }
    }

    method Kill(target: int, sig: Signal)
      modifies `strayKill, `kills
      ensures strayKill == (old(strayKill) || (if target < 0 then -target else target) !in children)
      ensures kills == old(kills) + [(target, sig)]
    {
      strayKill := strayKill || (if target < 0 then -target else target) !in children;
      kills := kills + [(target, sig)];
    }

    /** The given process id, if that is one and not in use; else one that is not, or 0 if there is
        none. */
    method FreshPid(wish: nat) returns (pid: nat)
      ensures pid < MAX_PID && (pid !in children || pid == 0)
      ensures |children| < MAX_PID - 1 ==> pid != 0
      ensures 0 < wish < MAX_PID && wish !in children ==> pid == wish
    {
      pid := wish;
      if 0 < pid < MAX_PID && pid !in children { return; }
      pid := 1;
      ghost var used: set<nat> := {};
      while pid < MAX_PID && pid in children
        invariant 1 <= pid <= MAX_PID && used <= children && |used| == pid - 1
        invariant forall c :: c in used ==> c < pid
        decreases MAX_PID - pid
      {
        used := used + {pid};
        pid := pid + 1;
      }
      if pid == MAX_PID {
        SubsetSize(used, children);
        pid := 0;
      }
    }

    // ---------- the functions of supervise ----------

    method ForkExecve(svc: Svc, script: Script) returns (f: int)
      requires Sound() && Mine(svc) && svc.pid == 0
      modifies `children, `forks, `full, svc`pid, svc`flagpaused, svc`past, svc`stuck
      ensures Sound() && f != 0 && forks == old(forks) + 1 && |children| <= |old(children)| + 1
      ensures AllGranted() ==> old(AllGranted())
      ensures f < 0 <== !Granted(old(forks))
      ensures f > 0 && Free(old(forks), old(children)) ==> f == grants(old(forks))
      ensures f < 0 ==> !Granted(old(forks)) || |old(children)| >= MAX_PID - 1
      ensures f < 0 ==>
                && svc.stuck && children == old(children)
                && unchanged(svc`pid, svc`flagpaused, svc`past)
      ensures f > 0 ==>
                !svc.stuck && svc.pid == f && !svc.flagpaused && svc.past == old(svc.past).Forked(script)
    {
      var pid := Fork();
      svc.stuck := pid == 0;
      if pid != 0 { Record(svc, script, pid); }
      f := if pid == 0 then -1 else pid;
    }

    /** The new process goes into the record. */
    method Record(svc: Svc, script: Script, pid: nat)
      requires JustForked(pid) && Mine(svc) && svc.pid == 0 && !svc.stuck
      modifies svc`pid, svc`flagpaused, svc`past
      ensures Sound() && svc.pid == pid && !svc.flagpaused && svc.past == old(svc.past).Forked(script)
    {
      svc.pid := pid;
      svc.flagpaused := false;
      svc.past := svc.past.Forked(script);
    }

    /** All is sound but that a new child is recorded nowhere yet. */
    ghost predicate JustForked(pid: nat)
      reads `children, `notifiers, `strayKill, `forks, `full, svcmain, svclog
    {
      && svcmain != svclog && svcmain.InOrder() && svclog.InOrder() && !strayKill
      && 0 < pid < MAX_PID && pid in children && pid !in notifiers && pid != svcmain.pid && pid != svclog.pid
      && (svcmain.pid != 0 ==>
            svcmain.pid in children && svcmain.pid !in notifiers && svcmain.pid != svclog.pid)
      && (svclog.pid != 0 ==> svclog.pid in children && svclog.pid !in notifiers)
      && (forall c :: c in children ==> c != 0 && (c == pid || c in notifiers || c == svcmain.pid || c == svclog.pid))
      && notifiers <= children
      && (svcmain.stuck ==> svcmain.pid == 0) && (svclog.stuck ==> svclog.pid == 0)
      && Blameless()
    }

    /** A child of the kernel that is recorded nowhere yet, or 0 for a refused fork. */
    method Fork() returns (pid: nat)
      requires Sound()
      modifies `children, `forks, `full
      ensures pid != 0 ==> JustForked(pid)
      ensures pid < MAX_PID && children == if pid == 0 then old(children) else old(children) + {pid}
      ensures forks == old(forks) + 1 && (AllGranted() ==> old(AllGranted()) && pid != 0)
      ensures pid == 0 <== !Granted(old(forks))
      ensures Free(old(forks), old(children)) ==> pid == grants(old(forks))
      ensures pid == 0 ==> !Granted(old(forks)) || |children| >= MAX_PID - 1
      ensures full <==> old(full) || (Granted(old(forks)) && pid == 0)
      ensures pid !in old(children) || pid == 0
    {
      pid := 0;
      forks := forks + 1;
      if Granted(forks - 1) {
        pid := FreshPid(grants(forks - 1));
        full := full || pid == 0;
        if pid != 0 { children := children + {pid}; }
      }
    }

    method Announce()
      requires Sound()
      modifies `status, `board
      ensures Sound() && FileShows() && !board.late && board.count == old(board.count) + 1
      ensures board.main == svcmain.Now() && board.log == svclog.Now()
      ensures Overwritten(old(status), status, if haslog then 40 else 20)
    {
      var buf := new Byte[40];
      MakeStatus(svcmain.Rec(), buf, 0);
      var w := 20;
      ghost var first := buf[..20];
      if haslog {
        MakeStatus(svclog.Rec(), buf, 20);
        w := 40;
        assert buf[..20] == first;
      }
      var bytes := buf[..w];
      assert bytes[..20] == buf[..20];
      assert haslog ==> bytes[20..40] == buf[20..40];
      status := bytes + (if |status| > w then status[w..] else []);
      assert status[..20] == bytes[..20];
      assert haslog ==> status[20..40] == bytes[20..40];
      board := Board(svcmain.Now(), svclog.Now(), false, board.count + 1);
    }

    /** The same where nothing else is left to do. */
    method Tell()
      requires Sound() && Held()
      modifies `status, `board
      ensures Sound() && Promises() && !board.late && board.count > old(board.count) && FileIsRight()
    {
      Announce();
      AllShown();
    }

    /** The file shows the records as they are. */
    ghost predicate FileIsRight()
      reads `status, svcmain, svclog
    {
      && |status| >= 20 && status[..20] == Published(svcmain.Rec())
      && (haslog ==> |status| >= 40 && status[20..40] == Published(svclog.Rec()))
    }

    lemma AllShown()
      requires FileShows() && board.main == svcmain.Now() && board.log == svclog.Now()
      ensures FileIsRight()
    {
      assert AsSeen(svcmain.Rec(), board.main) == svcmain.Rec() && AsSeen(svclog.Rec(), board.log) == svclog.Rec();
    }

    method PidChange(svc: Svc, notice: bool)
      requires Sound() && Mine(svc)
      modifies `children, `notifiers, `status, `board, `stats, `readings, svc`when
      ensures Sound() && FileShows() && !board.late && board.count > old(board.count)
      ensures board.main == svcmain.Now() && board.log == svclog.Now()
      ensures svc.when == TaiaNow(clock(old(readings))) && readings == old(readings) + 1
      ensures Joined(old(children), old(notifiers), if notice then NotePid(old(stats), old(children)) else 0)
      ensures |children| <= |old(children)| + (if notice then 1 else 0)
      ensures stats == old(stats) + if notice then 1 else 0
    {
      svc.when := Now();
      if notice {
        Notify();
      }
      Announce();
    }

    method Notify()
      requires Sound()
      modifies `children, `notifiers, `stats
      ensures Sound() && |children| <= |old(children)| + 1 && stats == old(stats) + 1
      ensures Joined(old(children), old(notifiers), NotePid(old(stats), old(children)))
    {
      var r := StatIsExec();
      if r == Yes { ForkNotify(); }
    }

    /** The process of ./notify, or 0 if there is none or its fork is refused. */
    function NotePid(asked: nat, live: set<nat>): nat {
      if answers(asked) == Yes && notices(asked) < MAX_PID && notices(asked) !in live then notices(asked) else 0
    }

    /** That notifier is one more child; with 0 there is none. */
    ghost predicate Joined(live: set<nat>, strays: set<nat>, pid: nat)
      reads `children, `notifiers
    {
      match pid
      case 0 => children == live && notifiers == strays
      case _ => children == live + {pid} && notifiers == strays + {pid}
    }

    /** notify(): a child of its own, recorded nowhere. */
    method ForkNotify()
      requires Sound() && stats > 0 && answers(stats - 1) == Yes
      modifies `children, `notifiers
      ensures Sound() && |children| <= |old(children)| + 1
      ensures Joined(old(children), old(notifiers), NotePid(stats - 1, old(children)))
    {
      var pid := notices(stats - 1);
      if pid == 0 || pid >= MAX_PID || pid in children { return; }
      children := children + {pid};
      notifiers := notifiers + {pid};
    }

    /** Is it ./start or ./run that comes next for the main service, and is there any? */
    method PickScript() returns (script: Script, runnable: bool)
      modifies `firstrun, `stats
      ensures script == (if firstrun then StartScript else RunScript)
      ensures firstrun <==> old(firstrun) && answers(old(stats)) != No
      ensures stats == old(stats) + (if old(firstrun) && !firstrun then 2 else 1)
      ensures runnable <==> firstrun || answers(stats - 1) != No
    {
      if firstrun {
        var x := StatIsExec();
        if x == No { firstrun := false; }
      }
      runnable := true;
      if !firstrun {
        var x := StatIsExec();
        if x == No { runnable := false; }
      }
      script := if firstrun then StartScript else RunScript;
    }

    /** What trystart runs for a service, once it has looked. */
    ghost function ScriptFor(svc: Svc): Script
      reads `firstrun
    {
      if svc == svclog then LogScript else if firstrun then StartScript else RunScript
    }

    method TryStart(svc: Svc)
      requires Sound() && Mine(svc) && svc.pid == 0 && !svc.past.fell && Announced() && !board.late
      modifies `children, `notifiers, `forks, `full, `stats, `readings, `status, `board, `firstrun, svc
      ensures Sound() && Announced() && !board.late && board.count >= old(board.count)
      ensures unchanged(svc`flagwantup, svc`ranstop)
      ensures svc.past == if svc.pid == 0 then old(svc.past) else old(svc.past).Forked(ScriptFor(svc))
      ensures StartTried(svc, old(firstrun), old(stats), old(forks), |old(children)|)
      ensures svc.pid == 0 && !svc.stuck ==> svc == svcmain && !svc.flagwant && svc.flagstatus == Started
      ensures svc.pid != 0 || svc.stuck ==> svc.flagwant == old(svc.flagwant)
      ensures svc.stuck ==> board == old(board)
      ensures svc == svclog ==> svc.flagstatus == Running && firstrun == old(firstrun)
      ensures svc == svcmain && (svc.pid != 0 || svc.stuck) ==>
                svc.flagstatus == if firstrun then Starting else Running
      ensures svc == svcmain ==> (firstrun <==> old(firstrun) && answers(old(stats)) != No)
    {
      var script, runnable := Prepare(svc);
      if runnable {
        Launch(svc, script);
      }
    }

    /** Is there a script for the main service, asked for from the given question on? */
    predicate CanRun(first: bool, asked: nat) {
      if first && answers(asked) == No then answers(asked + 1) != No else answers(asked) != No
    }

    /** How often it is asked then. */
    function Asks(first: bool, asked: nat): nat {
      if first && answers(asked) == No then 2 else 1
    }

    /** A start of a service: its fork was refused, or it has a process, or there is no ./run. */
    ghost predicate StartTried(svc: Svc, first: bool, asked: nat, tried: nat, live: nat)
      reads `forks, `stats, `children, svc
    {
      match svc.stuck
      case true =>
        && svc.pid == 0 && (svc == svclog || CanRun(first, asked))
        && (!Granted(tried) || live >= MAX_PID - 1) && forks == tried + 1 && |children| == live
        && (svc == svclog || stats == asked + Asks(first, asked))
      case false =>
        if svc == svclog || CanRun(first, asked) then svc.pid != 0 && Granted(tried)
        else svc.pid == 0 && svc.flagstatus == Started
    }

    /** The state that a service is going to have, and the script for it. A main service without
        ./run is done. */
    method Prepare(svc: Svc) returns (script: Script, runnable: bool)
      requires Sound() && Mine(svc) && svc.pid == 0 && FileShows() && !board.late
      modifies `status, `board, `firstrun, `stats, svc`flagstatus, svc`flagwant, svc`stuck
      ensures Sound() && FileShows() && !board.late && script == ScriptFor(svc)
      ensures svc == svcmain ==> (runnable <==> CanRun(old(firstrun), old(stats)))
      ensures svc == svcmain ==> (firstrun <==> old(firstrun) && answers(old(stats)) != No)
      ensures svc == svcmain ==> stats == old(stats) + Asks(old(firstrun), old(stats))
      ensures runnable ==> unchanged(`status, `board, svc`flagwant, svc`stuck)
      ensures runnable ==> svc.flagstatus == if script == StartScript then Starting else Running
      ensures svc == svclog ==> runnable && firstrun == old(firstrun)
      ensures !runnable ==>
                && svc.flagstatus == Started && !svc.flagwant && !svc.stuck && board.count > old(board.count)
                && board.main == svcmain.Now() && board.log == svclog.Now()
    {
      runnable := true;
      if svc == svclog {
        script := LogScript;
        svc.flagstatus := Running;
      } else {
        script, runnable := PickScript();
        svc.flagstatus := if firstrun then Starting else Running;
        if !runnable { NoRun(svc); }
      }
    }

    /** The branch of trystart for a main service without ./run. */
    method NoRun(svc: Svc)
      requires Sound() && Mine(svc)
      modifies `status, `board, svc`flagstatus, svc`flagwant, svc`stuck
      ensures Sound() && svc.flagstatus == Started && !svc.flagwant && !svc.stuck && board.count > old(board.count)
      ensures FileShows() && !board.late && board.main == svcmain.Now() && board.log == svclog.Now()
    {
      svc.flagwant := false;
      svc.flagstatus := Started;
      svc.stuck := false;
      Announce();
    }

    /** The end of trystart and trystop: the fork, and its announcement. */
    method Launch(svc: Svc, script: Script)
      requires Sound() && Mine(svc) && svc.pid == 0
      modifies `children, `notifiers, `forks, `full, `stats, `readings, `status, `board
      modifies svc`pid, svc`flagpaused, svc`past, svc`stuck, svc`when
      ensures Sound() && forks == old(forks) + 1 && (svc.pid != 0 <==> !svc.stuck)
      ensures (AllGranted() ==> old(AllGranted())) && |children| <= |old(children)| + 2
      ensures svc.stuck <== !Granted(old(forks))
      ensures svc.pid != 0 && Free(old(forks), old(children)) ==> svc.pid == grants(old(forks))
      ensures svc.stuck ==> !Granted(old(forks)) || |old(children)| >= MAX_PID - 1
      ensures svc.stuck ==> unchanged(`children, `stats, `status, `board, svc`past, svc`flagpaused, svc`when)
      ensures !svc.stuck ==>
                && svc.when == TaiaNow(clock(old(readings)))
                && FileShows() && !board.late && board.count > old(board.count)
                && board.main == svcmain.Now() && board.log == svclog.Now()
                && svc.past == old(svc.past).Forked(script) && stats == old(stats) + 1
    {
      var f := ForkExecve(svc, script);
      if f < 0 { return; }
      PidChange(svc, true);
    }

    /** A stop of a service: the fork of ./stop was refused, or it runs, or it is not due: it ran
        since the service was told to terminate, or there is none. */
    ghost predicate StopTried(svc: Svc, ranstop: bool, asked: nat, tried: nat, live: nat)
      reads `forks, `stats, `children, svc
    {
      match svc.stuck
      case true => svc.pid == 0 && StopDue(svc, ranstop, asked) && (!Granted(tried) || live >= MAX_PID - 1)
      case false =>
        if !StopDue(svc, ranstop, asked) then svc.pid == 0 && svc.flagstatus == Stopped
        else svc.pid != 0 && Granted(tried) && forks == tried + 1 && stats == asked + 2 && |children| <= live + 2
    }

    predicate StopDue(svc: Svc, ranstop: bool, asked: nat) {
      svc == svcmain && !ranstop && answers(asked) == Yes
    }

    method TryStop(svc: Svc)
      requires Sound() && Mine(svc) && svc.pid == 0 && !svc.past.fell
      modifies `children, `notifiers, `forks, `full, `stats, `readings, `status, `board, svc
      ensures Sound() && board.count >= old(board.count) && (AllGranted() ==> old(AllGranted()))
      ensures unchanged(svc`flagwant, svc`flagwantup)
      ensures svc.past == if svc.pid == 0 then old(svc.past) else old(svc.past).Forked(StopScript)
      ensures svc.pid == 0 && !svc.stuck ==> svc.ranstop && svc.flagstatus == Stopped
      ensures svc.pid != 0 ==>
                svc == svcmain && !old(svc.ranstop) && svc.ranstop && svc.flagstatus == old(svc.flagstatus)
      ensures svc.stuck ==>
                && svc == svcmain && !old(svc.ranstop) && unchanged(`status, `board)
                && unchanged(svc`pid, svc`flagstatus, svc`flagpaused, svc`when, svc`ranstop)
      ensures StopTried(svc, old(svc.ranstop), old(stats), old(forks), |old(children)|)
      ensures !svc.stuck ==>
                && FileShows() && !board.late
                && board.main == svcmain.Now() && board.log == svclog.Now()
      ensures svc.pid != 0 && Free(old(forks), old(children)) ==> svc.pid == grants(old(forks))
    {
      var due := LookForStop(svc);
      if due {
        Launch(svc, StopScript);
        if svc.pid != 0 { svc.ranstop := true; }
      } else {
        Rest(svc);
      }
    }

    /** The condition of trystop. */
    method LookForStop(svc: Svc) returns (due: bool)
      modifies `stats
      ensures due == StopDue(svc, svc.ranstop, old(stats))
      ensures due ==> stats == old(stats) + 1
    {
      due := svc == svcmain && !svc.ranstop;
      if due {
        var x := StatIsExec();
        due := x == Yes;
      }
    }

    /** The branch of it for a service with nothing to run. */
    method Rest(svc: Svc)
      requires Sound() && Mine(svc)
      modifies `status, `board, svc`ranstop, svc`flagstatus, svc`stuck
      ensures Sound() && svc.ranstop && svc.flagstatus == Stopped && !svc.stuck && board.count > old(board.count)
      ensures FileShows() && !board.late && board.main == svcmain.Now() && board.log == svclog.Now()
    {
      svc.ranstop := true;
      svc.flagstatus := Stopped;
      svc.stuck := false;
      Announce();
    }

    method KillSvc(svc: Svc, groupflag: int, signo: Signal)
      requires Sound() && Mine(svc) && (groupflag == 1 || groupflag == -1)
      modifies `strayKill, `kills
      ensures Sound() && kills == old(kills) + Sent(svc.pid, groupflag, [signo])
    {
      if svc.pid != 0 {
        Kill(svc.pid * groupflag, signo);
      }
    }

    method StopSvc(svc: Svc, groupflag: int)
      requires Sound() && Mine(svc) && (groupflag == 1 || groupflag == -1)
      modifies `strayKill, `kills, svc`flagpaused, svc`flagstatus, svc`ranstop
      ensures kills == old(kills) + Sent(svc.pid, groupflag, [TERM, CONT])
      ensures Sound() && !svc.flagpaused && svc.flagstatus == Stopping && !svc.ranstop
    {
      KillSvc(svc, groupflag, TERM);
      KillSvc(svc, groupflag, CONT);
      svc.flagpaused := false;
      svc.flagstatus := Stopping;
      svc.ranstop := false;
    }

    /** At most one service child is reaped. */
    method Reaper() returns (ghost e: Option<Ending>)
      requires Sound() && Promises()
      modifies `children, `notifiers, `forks, `full, `stats, `readings, `waits, `status, `board, `firstrun, `reaps
      modifies svcmain, svclog
      ensures Sound() && Promises() && Noted()
      ensures svcmain.past.heard == old(svcmain.past.heard) && svclog.past.heard == old(svclog.past.heard)
      ensures flagexit ==> Measure() + reaps <= old(Measure()) + old(reaps)
      ensures waits > old(waits) && reaps == old(reaps) + if e.None? then 0 else 1
      ensures Answered(e, old(waits), waits, old(children), old(notifiers), old(svcmain.Snap()), old(svclog.Snap()))
      ensures e.None? ==> unchanged(svcmain, svclog, `forks, `stats, `status, `board, `firstrun)
      ensures e.Some? ==>
                && Placed(e.value, flagexit, old(stats) + 1, old(forks), |old(children)| + 1,
                          svcmain.Snap(), svclog.Snap())
                && if e.value.main then unchanged(svclog) else unchanged(svcmain)
    {
      var svc, wstat := NextService();
      assert svcmain.Snap() == old(svcmain.Snap()) && svclog.Snap() == old(svclog.Snap());
      HeldLater();
      e := ReapedIfAny(svc, wstat);
    }

    /** One more answer makes no difference to the promises. */
    twostate lemma HeldLater()
      requires old(Held()) && old(waits) <= waits && unchanged(svcmain, svclog, `flagexit)
      ensures Held()
    {
    }

    /** The rest of reaper. */
    method ReapedIfAny(svc: Svc?, wstat: Exit) returns (ghost e: Option<Ending>)
      requires Promises() && if svc == null then Sound() else JustReaped(svc) && Named(svc, wstat)
      modifies `children, `notifiers, `forks, `full, `stats, `readings, `status, `board, `firstrun, `reaps
      modifies svcmain, svclog
      ensures Sound() && Promises() && Noted()
      ensures svcmain.past.heard == old(svcmain.past.heard) && svclog.past.heard == old(svclog.past.heard)
      ensures flagexit ==> Measure() + reaps <= old(Measure()) + old(reaps)
      ensures reaps == old(reaps) + (if svc == null then 0 else 1) && (e.None? <==> svc == null)
      ensures e.None? ==> unchanged(svcmain, svclog, `forks, `stats, `status, `board, `firstrun)
      ensures e.Some? ==>
                && Follows(e.value) && Caught(e.value, waits - 1, old(svcmain.Snap()), old(svclog.Snap()))
                && Placed(e.value, flagexit, old(stats) + 1, old(forks), |old(children)| + 1,
                          svcmain.Snap(), svclog.Snap())
                && if e.value.main then unchanged(svclog) else unchanged(svcmain)
    {
      e := None;
      if svc != null {
        ghost var ending := ReapedBeside(svc, wstat);
        e := Some(ending);
      }
    }

    /** The exit of one service beside the other. */
    method ReapedBeside(svc: Svc, wstat: Exit) returns (ghost e: Ending)
      requires JustReaped(svc) && Promises() && Named(svc, wstat)
      modifies `children, `notifiers, `forks, `full, `stats, `readings, `status, `board, `firstrun, `reaps, svc
      ensures Sound() && Promises() && reaps == old(reaps) + 1 && Noted()
      ensures svcmain.past.heard == old(svcmain.past.heard) && svclog.past.heard == old(svclog.past.heard)
      ensures flagexit ==> Measure() < old(Measure())
      ensures Follows(e) && Caught(e, waits - 1, old(svcmain.Snap()), old(svclog.Snap()))
      ensures Placed(e, flagexit, old(stats) + 1, old(forks), |old(children)| + 1, svcmain.Snap(), svclog.Snap())
      ensures e.main <==> svc == svcmain
    {
      e := Reaped(svc, wstat);
    }

    /** What came of the answers, when there were these children. */
    ghost predicate Answered(e: Option<Ending>, from: nat, to: nat, live: set<nat>, strays: set<nat>,
                             main: Snapshot, log: Snapshot) {
      match e
      case None => Waited(from, to, (main.pid, log.pid), live, strays, false)
      case Some(ending) =>
        && Waited(from, to, (main.pid, log.pid), live, strays, true)
        && Follows(ending) && Caught(ending, to - 1, main, log)
    }

    /** That answer told of the exit, and of which service. */
    ghost predicate Caught(e: Ending, at: nat, main: Snapshot, log: Snapshot) {
      e.at == at && e.main == (exits(at).0 == main.pid) && e.before == if exits(at).0 == main.pid then main else log
    }

    /** The circumstances of an exit, and the service after it. */
    ghost predicate Placed(e: Ending, out: bool, asked: nat, tried: nat, live: nat, main: Snapshot, log: Snapshot) {
      match e
      case Ending(_, ofMain, outThen, askedThen, triedThen, liveThen, _, after) =>
        && outThen == out && askedThen == asked && triedThen == tried && liveThen <= live
        && after == if ofMain then main else log
    }

    /** The answers of one reaper: each but the last names a stray, and the last a service or none
        of the children that are left. */
    ghost predicate Waited(from: nat, to: nat, pids: (nat, nat), live: set<nat>, strays: set<nat>, found: bool) {
      match from < to
      case true =>
        && (forall k :: from <= k < to - 1 ==> exits(k).0 in strays)
        && (found <==> Among(exits(to - 1).0, pids))
        && (found || exits(to - 1).0 !in live - Strays(from, to - 1))
      case false => false
    }

    /** The processes that some answers name. */
    function Strays(from: nat, to: nat): set<nat> {
      set k | from <= k < to :: exits(k).0
    }

    /** An exit that makes a service failed: one with code 100, or of a main service in the state
        starting any but one with code 0. */
    predicate Fails(e: Ending) {
      exits(e.at).1 == Exit(0, 100) || (e.main && e.before.flag == Starting && exits(e.at).1 != Exit(0, 0))
    }

    /** It is to be started again: it is wanted up, or ./start is done. */
    predicate IsDue(e: Ending) {
      (e.before.want && e.before.wantup) || (e.main && e.before.flag == Starting)
    }

    function FateOf(e: Ending): Fate {
      if Fails(e) then Fallen else if IsDue(e) then Due else Over
    }

    /** What follows an exit of a process that the answer names. */
    ghost predicate Follows(e: Ending) {
      exits(e.at).0 == e.before.pid != 0 && FollowedUp(e)
    }

    ghost predicate FollowedUp(e: Ending) {
      match FateOf(e)
      case Fallen => e.after == Marked(e)
      case Due => StartedAfter(e)
      case Over => StoppedAfter(e)
    }

    /** What the exit alone makes of the service. */
    function Marked(e: Ending): Snapshot {
      match FateOf(e)
      case Fallen => e.before.(pid := 0, flag := Failed, wantup := false)
      case Due => e.before.(pid := 0)
      case Over => e.before.(pid := 0, flag := Stopped)
    }

    /** ./run or ./log is started, unless supervise is to exit, if there is one and the fork is
        granted. */
    ghost predicate StartedAfter(e: Ending) {
      if e.out then e.after == Marked(e)
      else if e.main && answers(e.asked) == No then e.after == Marked(e).(flag := Started, want := false)
      else
        && AsGranted(e)
        && e.after == Launched(Marked(e), e.after.pid, if e.main then RunScript else LogScript).(flag := Running)
    }

    /** ./stop is started, for the main service if it did not run since the last TERM, if there is
        one and the fork is granted. */
    ghost predicate StoppedAfter(e: Ending) {
      if e.main && !e.before.ranstop && answers(e.asked) == Yes then
        AsGranted(e) && e.after == Launched(Marked(e), e.after.pid, StopScript).(ranstop := e.after.pid != 0)
      else e.after == Marked(e).(ranstop := true)
    }

    /** The service with that process, if there is one, and its script. */
    function Launched(s: Snapshot, pid: nat, script: Script): Snapshot {
      if pid == 0 then s else s.(pid := pid, launched := s.launched + [script])
    }

    /** There is a process if and only if the fork for it is granted and some process id is left. */
    ghost predicate AsGranted(e: Ending) {
      && (Granted(e.tried) && e.live < MAX_PID - 1 ==> e.after.pid != 0)
      && (!Granted(e.tried) ==> e.after.pid == 0)
    }

    /** So was every exit handled, in the order of the answers. */
    ghost predicate Followed(ends: seq<Ending>, asked: nat) {
      && (forall i :: 0 <= i < |ends| ==> Follows(ends[i]) && ends[i].at < asked)
      && (forall i, j :: 0 <= i < j < |ends| ==> ends[i].at < ends[j].at)
    }

    lemma OneMoreFollowed(ends: seq<Ending>, asked: nat, later: nat, e: Option<Ending>)
      requires Followed(ends, asked) && asked < later
      requires e.Some? ==> Follows(e.value) && e.value.at == later - 1
      ensures Followed(ends + Listed(e), later) && |ends + Listed(e)| == |ends| + if e.None? then 0 else 1
    {
    }

    function Listed(e: Option<Ending>): seq<Ending> {
      match e
      case None => []
      case Some(ending) => [ending]
    }

    /** The fate of a service whose exit was recorded. */
    function FateNow(svc: Svc): Fate
      reads svc
    {
      if (svc.flagwant && svc.flagwantup) || (svc == svcmain && svc.flagstatus == Starting) then Due
      else if svc.flagstatus == Failed then Fallen
      else Over
    }

    /** The rest of that, for a service. */
    method Reaped(svc: Svc, wstat: Exit) returns (ghost e: Ending)
      requires JustReaped(svc) && Promises() && Named(svc, wstat)
      modifies `children, `notifiers, `forks, `full, `stats, `readings, `status, `board, `firstrun, `reaps, svc
      ensures Sound() && Promises() && reaps == old(reaps) + 1 && !board.late && board.count > old(board.count)
      ensures svc.past.heard == old(svc.past.heard)
      ensures flagexit ==> Measure() < old(Measure())
      ensures Follows(e) && e.at == waits - 1 && e.main == (svc == svcmain) && e.before == old(svc.Snap())
      ensures e.out == flagexit && e.after == svc.Snap()
      ensures e.asked == old(stats) + 1 && e.tried == old(forks) && e.live <= |old(children)| + 1
    {
      ghost var was := svc.Snap();
      e := Ending(waits - 1, svc == svcmain, flagexit, stats + 1, forks, |children| + 1, was, was);
      Notice(svc, wstat, e);
      AfterExit(svc, e);
      e := e.(after := svc.Snap());
    }

    /** The exit is recorded and published, and firstrun is cleared. */
    method Notice(svc: Svc, wstat: Exit, ghost e: Ending)
      requires JustReaped(svc) && Promises() && Named(svc, wstat)
      requires e.at == waits - 1 && e.main == (svc == svcmain) && e.before == svc.Snap()
      modifies `children, `notifiers, `status, `board, `reaps, `stats, `readings, `firstrun
      modifies svc`pid, svc`flagwantup, svc`flagstatus, svc`past, svc`when
      ensures Sound() && Exited(svc) && Noticed(svc, e) && !firstrun
      ensures reaps == old(reaps) + 1 && board.count > old(board.count)
      ensures stats == old(stats) + 1 && |children| <= |old(children)| + 1
      ensures svc.past.heard == old(svc.past.heard)
    {
      RecordExit(svc, wstat, e);
      PublishExit(svc);
    }

    /** The next lines of reaper. */
    method PublishExit(svc: Svc)
      requires Sound() && Gone(svc) && OtherHeld(svc)
      modifies `children, `notifiers, `status, `board, `stats, `readings, `firstrun, svc`when
      ensures Sound() && Exited(svc) && board.count > old(board.count) && !firstrun
      ensures stats == old(stats) + 1 && |children| <= |old(children)| + 1
      ensures svc.when == TaiaNow(clock(old(readings)))
    {
      PidChange(svc, true);
      firstrun := false;
    }

    /** The last answer of wait_nohang named the process of svc. */
    ghost predicate Named(svc: Svc, wstat: Exit)
      reads `waits, svc
    {
      waits > 0 && exits(waits - 1) == (svc.pid, wstat)
    }

    /** All is sound but that svc still records a process that was just reaped. */
    ghost predicate JustReaped(svc: Svc)
      reads `children, `notifiers, `strayKill, `forks, `full, svcmain, svclog, svc
    {
      && svcmain != svclog && svcmain.InOrder() && svclog.InOrder() && !strayKill
      && Mine(svc) && svc.pid != 0 && svcmain.pid != svclog.pid
      && (svcmain.stuck ==> svcmain.pid == 0) && (svclog.stuck ==> svclog.pid == 0)
      && (svc != svcmain && svcmain.pid != 0 ==> svcmain.pid in children && svcmain.pid !in notifiers)
      && (svc != svclog && svclog.pid != 0 ==> svclog.pid in children && svclog.pid !in notifiers)
      && (forall c :: c in children ==>
            c != 0 && c != svc.pid && (c in notifiers || c == svcmain.pid || c == svclog.pid))
      && notifiers <= children && Blameless()
    }

    /** The loop of reaper: children that are no service are reaped and forgotten. */
    method NextService() returns (svc: Svc?, wstat: Exit)
      requires Sound()
      modifies `children, `notifiers, `waits
      ensures waits > old(waits) && Waited(old(waits), waits, Pids(), old(children), old(notifiers), svc != null)
      ensures svc == null ==> Sound()
      ensures svc != null ==> JustReaped(svc) && Named(svc, wstat) && |children| <= |old(children)|
    {
      var pid := 0;
      while true
        invariant Sound() && Skipped(old(waits), old(children), old(notifiers))
        invariant |children| <= |old(children)|
        decreases |children|
      {
        pid, wstat := WaitBeside();
        if pid == 0 { return null, wstat; }
        if pid == svcmain.pid {
          return svcmain, wstat;
        } else if pid == svclog.pid {
          return svclog, wstat;
        }
      }
    }

    /** Each answer so far named a notifier, and no other child is gone. */
    ghost predicate Skipped(from: nat, live: set<nat>, strays: set<nat>)
      reads `children, `notifiers, `waits
    {
      match from <= waits
      case true =>
        && (forall k :: from <= k < waits ==> exits(k).0 in strays)
        && live - Strays(from, waits) <= children && notifiers <= strays
      case false => false
    }

    /** wait_nohang beside the records. */
    method WaitBeside() returns (pid: nat, wstat: Exit)
      requires Sound()
      modifies `children, `notifiers, `waits
      ensures waits == old(waits) + 1 && wstat == exits(old(waits)).1
      ensures pid == if exits(old(waits)).0 in old(children) then exits(old(waits)).0 else 0
      ensures children == old(children) - {pid} && notifiers <= old(notifiers)
      ensures pid != 0 ==> |children| < |old(children)|
      ensures !Among(pid, Pids()) ==> Sound() && (pid != 0 ==> pid in old(notifiers))
      ensures pid == 0 ==> !Among(exits(old(waits)).0, Pids())
      ensures pid != 0 && pid == svcmain.pid ==> JustReaped(svcmain) && Named(svcmain, wstat)
      ensures pid != 0 && pid == svclog.pid ==> JustReaped(svclog) && Named(svclog, wstat)
    {
      pid, wstat := WaitNohang();
    }

    method NoteExit(svc: Svc, wstat: Exit, ghost e: Ending)
      requires JustReaped(svc) && !svc.past.fell && Named(svc, wstat)
      requires e.at == waits - 1 && e.main == (svc == svcmain) && e.before == svc.Snap()
      modifies `reaps, svc`pid, svc`flagwantup, svc`flagstatus, svc`past
      ensures Sound() && svc.pid == 0 && reaps == old(reaps) + 1
      ensures svc.past.fell <==> Fails(e)
      ensures svc.past.fell ==> !svc.flagwantup && svc.flagstatus == Failed
      ensures svc.past == if svc.past.fell then old(svc.past).Fallen(Fall(waits - 1, old(svc.flagstatus)))
                          else old(svc.past)
      ensures !svc.past.fell ==> svc.flagwantup == old(svc.flagwantup)
      ensures !svc.past.fell ==> svc.flagstatus == if IsDue(e) then old(svc.flagstatus) else Stopped
    {
      var crashed := wstat.signal != 0;
      ForgetPid(svc);
      if (svc == svcmain && svc.flagstatus == Starting && (crashed || wstat.code != 0))
         || (!crashed && wstat.code == 100) {
        svc.past := svc.past.Fallen(Fall(waits - 1, svc.flagstatus));
        svc.flagwantup := false;
        svc.flagstatus := Failed;
      } else if svc == svcmain && svc.flagstatus == Starting {
      } else if !svc.flagwant || !svc.flagwantup {
        svc.flagstatus := Stopped;
      }
    }

    /** The exit of svc is recorded and published; nothing was started for it yet. */
    ghost predicate Exited(svc: Svc)
      reads `status, `board, `flagexit, `waits, svcmain, svclog, svc
    {
      Gone(svc) && OtherHeld(svc) && Announced() && !board.late
    }

    /** The reaped process goes out of the record. */
    method ForgetPid(svc: Svc)
      requires JustReaped(svc)
      modifies `reaps, svc`pid
      ensures Sound() && svc.pid == 0 && reaps == old(reaps) + 1 && !svc.stuck
    {
      svc.pid := 0;
      reaps := reaps + 1;
    }

    /** The exit is recorded. */
    ghost predicate Gone(svc: Svc)
      reads `flagexit, `waits, svcmain, svclog, svc
    {
      && Mine(svc) && svc.pid == 0 && !svc.stuck
      && (svc.past.fell <==> FateNow(svc).Fallen?) && (svc.past.fell ==> !svc.flagwantup && svc.past.revived == [])
      && (if svc == svcmain then MainDownHeld() && StartOver() else LogDownHeld()) && Aimed(svc)
    }

    /** Ordered down, and not slipped: nothing is left to start. */
    ghost predicate StartOver()
      reads `flagexit, svcmain
    {
      svcmain.past.heard.order == DownOrder && !svcmain.past.slipped && svcmain.flagstatus == Starting ==> flagexit
    }

    method RecordExit(svc: Svc, wstat: Exit, ghost e: Ending)
      requires JustReaped(svc) && Held() && Named(svc, wstat)
      requires e.at == waits - 1 && e.main == (svc == svcmain) && e.before == svc.Snap()
      modifies `reaps, svc`pid, svc`flagwantup, svc`flagstatus, svc`past
      ensures Sound() && Gone(svc) && OtherHeld(svc) && reaps == old(reaps) + 1
      ensures svc.past.heard == old(svc.past.heard) && Noticed(svc, e)
    {
      NoteExit(svc, wstat, e);
    }

    /** That exit is recorded, and nothing else was done about it. */
    ghost predicate Noticed(svc: Svc, e: Ending)
      reads svc
    {
      e.main == (svc == svcmain) && FateNow(svc) == FateOf(e) && svc.Snap() == Marked(e)
    }

    method AfterExit(svc: Svc, ghost e: Ending)
      requires Sound() && Exited(svc) && Noticed(svc, e) && Before(e)
      modifies `children, `notifiers, `forks, `full, `stats, `readings, `status, `board, `firstrun, svc
      ensures Sound() && Promises() && board.count >= old(board.count) && !board.late
      ensures flagexit && svc.pid != 0 ==> svc == svcmain && !old(svc.ranstop) && svc.ranstop
      ensures svc.past.heard == old(svc.past.heard)
      ensures FollowedUp(e.(after := svc.Snap()))
    {
      if (svc.flagwant && svc.flagwantup) || (svc == svcmain && svc.flagstatus == Starting) {
        if !flagexit { StartAgain(svc, e); }
      } else if svc.flagstatus != Failed {
        StopAfter(svc, e);
      }
    }

    /** What was asked and tried before something follows that exit. */
    ghost predicate Before(e: Ending)
      reads `flagexit, `stats, `forks, `children, `firstrun
    {
      e.out == flagexit && e.asked == stats && e.tried == forks && |children| <= e.live && !firstrun
    }

    method StartAgain(svc: Svc, ghost e: Ending)
      requires Sound() && Exited(svc) && Noticed(svc, e) && Before(e) && FateOf(e).Due? && !flagexit
      modifies `children, `notifiers, `forks, `full, `stats, `readings, `status, `board, `firstrun, svc
      ensures Sound() && Promises() && board.count >= old(board.count) && !board.late
      ensures svc.past.heard == old(svc.past.heard)
      ensures FollowedUp(e.(after := svc.Snap()))
    {
      TryStart(svc);
    }

    method StopAfter(svc: Svc, ghost e: Ending)
      requires Sound() && Exited(svc) && Noticed(svc, e) && Before(e) && FateOf(e).Over?
      modifies `children, `notifiers, `forks, `full, `stats, `readings, `status, `board, `firstrun, svc
      ensures Sound() && Promises() && board.count >= old(board.count) && !board.late
      ensures svc.pid != 0 ==> svc == svcmain && !old(svc.ranstop) && svc.ranstop
      ensures svc.past.heard == old(svc.past.heard)
      ensures FollowedUp(e.(after := svc.Snap()))
    {
      TryStop(svc);
    }

    /** Reads and obeys all the command bytes waiting in the control fifo. */
    method Controller(commands: string) returns (ghost pids: seq<(nat, nat)>)
      requires Sound() && Promises()
      modifies `children, `notifiers, `forks, `full, `stats, `readings, `status, `board, `firstrun, `flagexit
      modifies `strayKill, `kills, svcmain, svclog
      ensures Sound() && Promises() && Noted()
      ensures Read(commands, old(svcmain.past.heard), old(svclog.past.heard), old(flagexit))
      ensures |pids| == |commands| + 1 && pids[0] == old(Pids()) && pids[|commands|] == Pids() && Staying(pids)
      ensures kills == old(kills) + SentBy(commands, pids)
      ensures commands == "" ==> unchanged(this, svcmain, svclog)
    {
      var svc := svcmain;
      var killgroup := 1;
      ghost var main, log, exit, first := svcmain.past.heard, svclog.past.heard, flagexit, kills;
      pids := [Pids()];
      assert kills == kills + SentBy([], pids);
      for i := 0 to |commands|
        invariant Sound() && Promises() && Noted()
        invariant svc == (if ForLog(commands[..i]) then svclog else svcmain)
        invariant killgroup == if Grouped(commands[..i]) then -1 else 1
        invariant Served(commands[..i], main, log, exit, first, pids) && [old(Pids())] <= pids
        invariant i == 0 ==> unchanged(this, svcmain, svclog)
      {
        assert commands[..i + 1] == commands[..i] + [commands[i]];
        svc, killgroup, pids := NextCommand(svc, killgroup, commands[..i], commands[i], main, log, exit, first, pids);
      }
      assert commands[..|commands|] == commands;
    }

    /** The processes of the two services. */
    ghost function Pids(): (nat, nat)
      reads svcmain`pid, svclog`pid
    {
      (svcmain.pid, svclog.pid)
    }

    /** The orders and flagexit once some commands were read. */
    ghost predicate Read(commands: string, main: Heard, log: Heard, exit: bool)
      reads `flagexit, svcmain, svclog
    {
      && flagexit == (exit || 'x' in commands)
      && svcmain.past.heard == LastOrder(commands, false, main) && svclog.past.heard == LastOrder(commands, true, log)
    }

    /** The same with the processes before each command and now, and the signals sent, behind the
        first. */
    ghost predicate Served(commands: string, main: Heard, log: Heard, exit: bool, first: seq<(int, Signal)>,
                           pids: seq<(nat, nat)>)
      reads `flagexit, `kills, svcmain, svclog
    {
      match |pids| == |commands| + 1
      case true =>
        && Read(commands, main, log, exit) && pids[|commands|] == Pids() && Staying(pids)
        && kills == first + SentBy(commands, pids)
      case false => false
    }

    /** One turn of that loop. */
    method NextCommand(svc: Svc, killgroup: int, ghost before: string, ch: char, ghost main: Heard, ghost log: Heard,
                       ghost exit: bool, ghost first: seq<(int, Signal)>, ghost pids: seq<(nat, nat)>)
      returns (svc': Svc, killgroup': int, ghost pids': seq<(nat, nat)>)
      requires Sound() && Promises() && Served(before, main, log, exit, first, pids)
      requires svc == (if ForLog(before) then svclog else svcmain) && killgroup == if Grouped(before) then -1 else 1
      modifies `children, `notifiers, `forks, `full, `stats, `readings, `status, `board, `firstrun, `flagexit
      modifies `strayKill, `kills, svcmain, svclog
      ensures Sound() && Promises() && Noted()
      ensures svc' == if ForLog(before + [ch]) then svclog else svcmain
      ensures killgroup' == if Grouped(before + [ch]) then -1 else 1
      ensures Served(before + [ch], main, log, exit, first, pids') && pids <= pids'
    {
      svc', killgroup' := Command(svc, killgroup, before, ch, main, log, exit);
      SentByMore(before, ch, pids, Pids());
      pids' := pids + [Pids()];
    }

    method Command(svc: Svc, killgroup: int, ghost before: string, ch: char,
                   ghost main: Heard, ghost log: Heard, ghost exit: bool)
      returns (svc': Svc, killgroup': int)
      requires Sound() && Promises() && Read(before, main, log, exit)
      requires svc == (if ForLog(before) then svclog else svcmain) && killgroup == if Grouped(before) then -1 else 1
      modifies `children, `notifiers, `forks, `full, `stats, `readings, `status, `board, `firstrun, `flagexit
      modifies `strayKill, `kills, svcmain, svclog
      ensures Sound() && Promises() && Noted()
      ensures svc' == if ForLog(before + [ch]) then svclog else svcmain
      ensures killgroup' == if Grouped(before + [ch]) then -1 else 1
      ensures Read(before + [ch], main, log, exit)
      ensures kills == old(kills) + SentFor(before, ch, old(Pids())) && StaysOn(old(Pids()), Pids())
    {
      svc', killgroup' := svc, killgroup;
      OneByteMore(before, ch, false, main);
      OneByteMore(before, ch, true, log);
      assert kills == kills + [];
      if ch == '+' {
        killgroup' := -1;
      } else if ch == '=' {
        killgroup' := 1;
      } else if ch == 'L' {
        svc' := svclog;
      } else if ch == 'l' {
        svc' := svcmain;
      } else {
        ObeyBeside(svc, killgroup, ch);
      }
    }

    /** A command to one service beside the other. */
    method ObeyBeside(svc: Svc, killgroup: int, ch: char)
      requires Sound() && Promises() && Mine(svc) && (killgroup == 1 || killgroup == -1)
      modifies `children, `notifiers, `forks, `full, `stats, `readings, `status, `board, `firstrun, `flagexit
      modifies `strayKill, `kills, svc
      ensures Sound() && Promises() && Noted() && flagexit == (old(flagexit) || ch == 'x')
      ensures svcmain.past.heard
              == if svc == svcmain then OrderOf(ch, old(svcmain.past.heard)) else old(svcmain.past.heard)
      ensures svclog.past.heard
              == if svc == svcmain then old(svclog.past.heard) else OrderOf(ch, old(svclog.past.heard))
      ensures kills == old(kills) + Sent(old(svc.pid), killgroup, SignalsOf(ch))
      ensures StaysOn(old(Pids()), Pids())
    {
      Obey(svc, killgroup, ch);
    }

    /** p pauses and c continues a service; u, o and d say what is wanted of it; x says that
        supervise is to exit. No other byte changes the record, and none but these and t, h, a, i,
        q, 1, 2, w and k sends a signal. */
    method Obey(svc: Svc, killgroup: int, ch: char)
      requires Sound() && Promises() && Mine(svc) && (killgroup == 1 || killgroup == -1)
      modifies `children, `notifiers, `forks, `full, `stats, `readings, `status, `board, `firstrun, `flagexit
      modifies `strayKill, `kills, svc
      ensures Sound() && Promises() && Noted() && flagexit == (old(flagexit) || ch == 'x')
      ensures svc.past.heard == OrderOf(ch, old(svc.past.heard))
      ensures kills == old(kills) + Sent(old(svc.pid), killgroup, SignalsOf(ch))
      ensures CommandMeans(ch, old(svc.Rec()), svc.Rec())
      ensures ch != 'u' && ch != 'o' && ch != 'd' ==> svc.ranstop == old(svc.ranstop)
      ensures old(svc.pid) != 0 ==> svc.pid == old(svc.pid)
    {
      assert kills == kills + [];
      match ch
      case 'd' | 'u' | 'o' => ObeyOrder(svc, killgroup, ch);
      case 'x' => ExitAsked();
      case _ => ObeySignal(svc, killgroup, ch);
    }

    /** The commands d, u and o. */
    method ObeyOrder(svc: Svc, killgroup: int, ch: char)
      requires Sound() && Promises() && Mine(svc) && (killgroup == 1 || killgroup == -1) && ch in "uod"
      modifies `children, `notifiers, `forks, `full, `stats, `readings, `status, `board, `firstrun
      modifies `strayKill, `kills, svc
      ensures Sound() && Promises() && !board.late && board.count > old(board.count)
      ensures svc.past.heard == OrderOf(ch, old(svc.past.heard))
      ensures kills == old(kills) + Sent(old(svc.pid), killgroup, SignalsOf(ch))
      ensures CommandMeans(ch, old(svc.Rec()), svc.Rec())
      ensures old(svc.pid) != 0 ==> svc.pid == old(svc.pid)
    {
      assert kills == kills + [];
      match ch
      case 'd' => Down(svc, killgroup);
      case 'u' => Up(svc);
      case 'o' => Once(svc);
    }

    /** The commands that send one signal, and the bytes that are no command. */
    method ObeySignal(svc: Svc, killgroup: int, ch: char)
      requires Sound() && Promises() && Mine(svc) && (killgroup == 1 || killgroup == -1) && ch !in "uodx"
      modifies `status, `board, `strayKill, `kills, svc`flagpaused
      ensures Sound() && Promises() && Noted() && CommandMeans(ch, old(svc.Rec()), svc.Rec())
      ensures kills == old(kills) + Sent(svc.pid, killgroup, SignalsOf(ch))
    {
      match ch
      case 'p' => Pause(svc, true, killgroup, STOP);
      case 'c' => Pause(svc, false, killgroup, CONT);
      case _ => Plain(svc, killgroup, ch);
    }

    /** The commands that only send a signal, and the bytes that are none. */
    method Plain(svc: Svc, killgroup: int, ch: char)
      requires Sound() && Promises() && Mine(svc) && (killgroup == 1 || killgroup == -1) && ch !in "pdc"
      modifies `strayKill, `kills
      ensures Sound() && Promises()
      ensures kills == old(kills) + Sent(svc.pid, killgroup, SignalsOf(ch))
    {
      OneSignal(ch);
      var signals := SignalsOf(ch);
      if signals != [] { KillSvc(svc, killgroup, signals[0]); }
    }

    /** The commands p and c. */
    method Pause(svc: Svc, paused: bool, killgroup: int, signo: Signal)
      requires Sound() && Promises() && Mine(svc) && (killgroup == 1 || killgroup == -1)
      modifies `status, `board, `strayKill, `kills, svc`flagpaused
      ensures Sound() && Promises() && svc.flagpaused == paused
      ensures !board.late && board.count > old(board.count)
      ensures kills == old(kills) + Sent(svc.pid, killgroup, [signo])
    {
      svc.flagpaused := paused;
      Announce();
      KillSvc(svc, killgroup, signo);
    }

    method ExitAsked()
      requires Sound() && Promises()
      modifies `flagexit, `status, `board
      ensures Sound() && Promises() && flagexit
      ensures !board.late && board.count > old(board.count)
    {
      flagexit := true;
      Announce();
    }

    /** The command d: the process is told to terminate and go on; without one ./stop runs. */
    method Down(svc: Svc, killgroup: int)
      requires Sound() && Promises() && Mine(svc) && (killgroup == 1 || killgroup == -1)
      modifies `children, `notifiers, `forks, `full, `stats, `readings, `status, `board, `strayKill, `kills, svc
      ensures Sound() && Promises() && !board.late && board.count > old(board.count)
      ensures svc.past.heard == Heard(DownOrder, false) && svc.flagwant && !svc.flagwantup
      ensures svc.past.slipped <==>
                old(svc.pid) == 0 && svc.pid != 0 && old(svc.flagstatus) == Starting && !flagexit
      ensures old(svc.pid) == 0 ==> StopTried(svc, old(svc.ranstop), old(stats), old(forks), |old(children)|)
      ensures old(svc.pid) != 0 ==>
                && svc.Rec() == old(svc.Rec()).(want := true, wantup := false, paused := false, flag := Stopping)
                && !svc.ranstop && svc.past.launched == []
      ensures kills == old(kills) + Sent(old(svc.pid), killgroup, [TERM, CONT])
      ensures old(svc.pid) == 0 ==> svc.pid == 0 || svc.past.launched == [StopScript]
      ensures old(svc.pid) == 0 && svc.pid != 0 ==> svc.flagstatus == old(svc.flagstatus)
      ensures old(svc.pid) == 0 && svc.pid != 0 && Free(old(forks), old(children)) ==> svc.pid == grants(old(forks))
    {
      assert kills == kills + [];
      WantDown(svc);
      if svc.pid != 0 {
        Terminate(svc, killgroup);
      } else {
        RunStop(svc);
      }
    }

    /** The first lines of d. */
    method WantDown(svc: Svc)
      requires Sound() && Held() && Mine(svc)
      modifies svc`past, svc`flagwant, svc`flagwantup
      ensures Sound() && OtherHeld(svc) && Ordered(svc)
    {
      svc.past := svc.past.Told(Heard(DownOrder, false));
      svc.flagwant := true;
      svc.flagwantup := false;
    }

    /** A service that has just been given the order d. */
    ghost predicate Ordered(svc: Svc)
      reads `flagexit, svc
    {
      && svc.flagwant && !svc.flagwantup && svc.past == Past(Heard(DownOrder, false), None, [], false, false, [])
      && (svc == svcmain && svc.pid == 0 && svc.flagstatus == Starting ==> flagexit || svc.stuck)
    }

    /** The other lines of d, for a service with a process. */
    method Terminate(svc: Svc, killgroup: int)
      requires Sound() && Mine(svc) && OtherHeld(svc) && (killgroup == 1 || killgroup == -1)
      requires Ordered(svc) && svc.pid != 0
      modifies `status, `board, `strayKill, `kills, svc`flagpaused, svc`flagstatus, svc`ranstop
      ensures Sound() && Promises() && !board.late && board.count > old(board.count)
      ensures svc.flagstatus == Stopping && !svc.ranstop && !svc.flagpaused
      ensures kills == old(kills) + Sent(svc.pid, killgroup, [TERM, CONT])
    {
      StopSvc(svc, killgroup);
      Tell();
    }

    /** The same without one. */
    method RunStop(svc: Svc)
      requires Sound() && Mine(svc) && OtherHeld(svc) && Ordered(svc) && svc.pid == 0
      modifies `children, `notifiers, `forks, `full, `stats, `readings, `status, `board, svc
      ensures Sound() && Promises() && !board.late && board.count > old(board.count)
      ensures SlipsOrRests(svc, old(svc.flagstatus))
      ensures StopTried(svc, old(svc.ranstop), old(stats), old(forks), |old(children)|)
      ensures svc.pid != 0 && Free(old(forks), old(children)) ==> svc.pid == grants(old(forks))
    {
      StopOrSlip(svc);
      Tell();
    }

    /** An order d slips if ./stop runs in the state starting. */
    method StopOrSlip(svc: Svc)
      requires Sound() && Mine(svc) && OtherHeld(svc) && Ordered(svc) && svc.pid == 0
      modifies `children, `notifiers, `forks, `full, `stats, `readings, `status, `board, svc
      ensures Sound() && Held() && board.count >= old(board.count)
      ensures SlipsOrRests(svc, old(svc.flagstatus))
      ensures StopTried(svc, old(svc.ranstop), old(stats), old(forks), |old(children)|)
      ensures svc.pid != 0 && Free(old(forks), old(children)) ==> svc.pid == grants(old(forks))
    {
      ghost var starting := svc.flagstatus == Starting && !flagexit;
      TryStop(svc);
      svc.past := svc.past.(slipped := starting && svc.pid != 0);
    }

    /** After the order d, for a service that had no process and was in the given state. */
    ghost predicate SlipsOrRests(svc: Svc, was: SvStatus)
      reads `flagexit, svc
    {
      match svc.past.heard.order
      case DownOrder =>
        && svc.flagwant && !svc.flagwantup && !svc.past.heard.up
        && (svc.past.slipped <==> svc.pid != 0 && was == Starting && !flagexit)
        && (svc.pid != 0 ==> svc.past.launched == [StopScript] && svc.flagstatus == was)
      case _ => false
    }

    /** The command u. A main service not wanted up before begins with ./start again. */
    method Up(svc: Svc)
      requires Sound() && Promises() && Mine(svc)
      modifies `children, `notifiers, `forks, `full, `stats, `readings, `status, `board, `firstrun, svc
      ensures Sound() && Promises() && !board.late && board.count > old(board.count)
      ensures svc.past.heard == Heard(UpOrder, true) && svc.flagwantup
      ensures svc.flagwant || (svc.pid == 0 && svc.flagstatus == Started)
      ensures old(svc.pid) != 0 ==>
                svc.Rec() == old(svc.Rec()).(want := true, wantup := true) && svc.past.launched == []
      ensures svc == svcmain && old(svc.flagwantup) ==> !firstrun && StartScript !in svc.past.launched
      ensures svc.ranstop == old(svc.ranstop) && (svc == svclog ==> firstrun == old(firstrun))
      ensures old(svc.pid) == 0 ==>
                StartTried(svc, !old(svc.flagwantup), old(stats), old(forks), |old(children)|)
      ensures svc.stuck && old(svc.pid) == 0 && svc == svcmain ==>
                svc.flagstatus == if !old(svc.flagwantup) && answers(old(stats)) != No then Starting else Running
      ensures svc == svclog && old(svc.pid) == 0 ==>
                svc.flagstatus == Running && svc.flagwant && (svc.stuck ==> board.log.flag == Starting)
    {
      WantUp(svc);
      StartIfNone(svc);
    }

    /** The last line of u and o. */
    method StartIfNone(svc: Svc)
      requires Sound() && Mine(svc) && OtherHeld(svc) && Announced() && !board.late
      requires svc.past.heard.order == UpOrder || svc.past.heard.order == OnceOrder
      requires svc.past == svc.past.Told(svc.past.heard) && Aimed(svc)
      modifies `children, `notifiers, `forks, `full, `stats, `readings, `status, `board, `firstrun, svc
      ensures Sound() && Promises() && !board.late && board.count >= old(board.count)
      ensures unchanged(svc`flagwantup, svc`ranstop) && svc.past.heard == old(svc.past.heard)
      ensures old(svc.pid) != 0 ==> unchanged(svc)
      ensures old(svc.pid) == 0 ==>
                && StartTried(svc, old(firstrun), old(stats), old(forks), |old(children)|)
                && StartsAs(svc, old(svc.flagwant), old(firstrun), old(stats))
      ensures (firstrun ==> old(firstrun)) && (svc == svclog ==> firstrun == old(firstrun))
      ensures svc.past.launched == [] || svc.past.launched == [ScriptFor(svc)]
      ensures svc.stuck && old(svc.pid) == 0 ==> board == old(board)
    {
      if svc.pid == 0 { TryStart(svc); }
    }

    /** What is wanted of a service after a start, and its state if there is a script. */
    ghost predicate StartsAs(svc: Svc, wanted: bool, first: bool, asked: nat)
      reads svc
    {
      match svc.pid == 0 && !svc.stuck
      case true => svc == svcmain && !svc.flagwant
      case false =>
        && svc.flagwant == wanted
        && svc.flagstatus == if svc == svcmain && first && answers(asked) != No then Starting else Running
    }

    /** The first lines of u. */
    method WantUp(svc: Svc)
      requires Sound() && Held() && Mine(svc)
      modifies `status, `board, `firstrun, svc`past, svc`flagwant, svc`flagwantup, svc`flagstatus
      ensures Sound() && OtherHeld(svc) && Announced() && !board.late && board.count > old(board.count)
      ensures Aimed(svc)
      ensures svc.flagwant && svc.flagwantup && svc.past == Past(Heard(UpOrder, true), None, [], false, false, [])
      ensures svc.flagstatus == if svc.pid == 0 then Starting else old(svc.flagstatus)
      ensures firstrun == if svc == svcmain then !old(svc.flagwantup) else old(firstrun)
      ensures svc == svclog ==> board.log.flag == svc.flagstatus
    {
      svc.past := svc.past.Told(Heard(UpOrder, true));
      if svc == svcmain { firstrun := !svcmain.flagwantup; }
      svc.flagwant := true;
      svc.flagwantup := true;
      if svc.pid == 0 { svc.flagstatus := Starting; }
      Announce();
    }

    /** The command o: start once, and let the exit be the end of it. */
    method Once(svc: Svc)
      requires Sound() && Promises() && Mine(svc)
      modifies `children, `notifiers, `forks, `full, `stats, `readings, `status, `board, `firstrun, svc
      ensures Sound() && Promises() && !board.late && board.count > old(board.count)
      ensures svc.past.heard == Heard(OnceOrder, old(svc.past.heard.up))
      ensures !svc.flagwant && svc.flagwantup == old(svc.flagwantup) && (svc == svclog ==> firstrun == old(firstrun))
      ensures old(svc.pid) != 0 ==> svc.Rec() == old(svc.Rec()).(want := false) && svc.past.launched == []
      ensures svc.pid != 0 || svc.stuck || (svc == svcmain && svc.flagstatus == Started)
      ensures old(svc.pid) == 0 ==> StartTried(svc, old(firstrun), old(stats), old(forks), |old(children)|)
    {
      svc.past := svc.past.Told(Heard(OnceOrder, svc.past.heard.up));
      svc.flagwant := false;
      Announce();
      StartIfNone(svc);
    }

    /** Where d does not hold: ./stop runs in the state starting, and its exit is taken for the exit
        of ./start, after which ./run is due. */
    method DownSlips()
      requires Sound() && Promises() && svcmain.pid == 0 && svcmain.flagstatus == Starting
      requires !flagexit && !svcmain.ranstop && answers(stats) == Yes && Free(forks, children)
      requires answers(stats + 3) != No && Granted(forks + 1) && |children| < MAX_PID - 4
      requires exits(waits) == (grants(forks), Exit(0, 0))
      modifies `children, `notifiers, `forks, `full, `stats, `readings, `status, `board, `firstrun, `reaps
      modifies `waits, `strayKill, `kills, svcmain, svclog
      ensures Sound() && Promises() && svcmain.past.heard.order == DownOrder
      ensures svcmain.pid != 0 && svcmain.flagstatus == Running
      ensures svcmain.past.launched == [StopScript, RunScript]
    {
      Down(svcmain, 1);
      StartTakenForDone();
    }

    /** An exit with code 0 in the state starting: ./run is next. */
    method StartTakenForDone()
      requires Sound() && Promises() && svcmain.flagstatus == Starting && !flagexit
      requires svcmain.pid != 0 && exits(waits) == (svcmain.pid, Exit(0, 0))
      requires answers(stats + 1) != No && Granted(forks) && |children| < MAX_PID - 2
      modifies `children, `notifiers, `forks, `full, `stats, `readings, `status, `board, `firstrun, `reaps
      modifies `waits, svcmain, svclog
      ensures Sound() && Promises() && svcmain.past.heard == old(svcmain.past.heard)
      ensures svcmain.pid != 0 && svcmain.flagstatus == Running
      ensures svcmain.past.launched == old(svcmain.past.launched) + [RunScript]
    {
      ghost var e := Reaper();
      assert e.Some?;
      RunFollows(e.value);
    }

    lemma RunFollows(e: Ending)
      requires FollowedUp(e) && e.main && e.before.flag == Starting && exits(e.at).1 == Exit(0, 0) && !e.out
      requires answers(e.asked) != No && Granted(e.tried) && e.live < MAX_PID - 1
      ensures e.after.pid != 0 && e.after.flag == Running && e.after.launched == e.before.launched + [RunScript]
    {
    }

    /** The process id that the kernel has for that fork is free. */
    predicate Free(k: nat, live: set<nat>) {
      0 < grants(k) < MAX_PID && grants(k) !in live
    }

    /** One pass of the main loop: reap, obey, and stop the log service behind the main one. was is
        the state of the log service before that: it is stopped without an announcement exactly if
        the main service is stopped on the way out and the log service was running. pids are the
        processes before each command. */
    method Pass(commands: string)
      returns (ghost was: SvStatus, ghost pids: seq<(nat, nat)>, ghost e: Option<Ending>)
      requires Sound() && Promises()
      modifies this, svcmain, svclog
      ensures Sound() && Promises() && flagexit == (old(flagexit) || 'x' in commands)
      ensures old(flagexit) && commands == "" ==> Measure() + reaps <= old(Measure()) + old(reaps)
      ensures svcmain.past.heard == LastOrder(commands, false, old(svcmain.past.heard))
      ensures svclog.past.heard == LastOrder(commands, true, old(svclog.past.heard))
      ensures svclog.flagstatus == if StopsLog(was) then Stopping else was
      ensures board.late <==> StopsLog(was) || (old(board.late) && board.count == old(board.count))
      ensures flagexit && svcmain.flagstatus == Stopped ==> svclog.flagstatus != Running && svclog.flagstatus != Started
      ensures waits > old(waits) && reaps == old(reaps) + if e.None? then 0 else 1
      ensures Answered(e, old(waits), waits, old(children), old(notifiers), old(svcmain.Snap()), old(svclog.Snap()))
      ensures |pids| == |commands| + 1 && pids[|commands|] == Pids() && Staying(pids)
      ensures pids[0] == PidsAfter(e, old(Pids()))
      ensures kills == old(kills) + SentBy(commands, pids)
                       + if StopsLog(was) then Sent(svclog.pid, 1, [TERM, CONT]) else []
    {
      e := Reaper();
      was, pids := ObeyAll(commands);
    }

    /** The processes of the services behind that exit, if there was one. */
    function PidsAfter(e: Option<Ending>, pids: (nat, nat)): (nat, nat) {
      match e
      case None => pids
      case Some(ending) => if ending.main then (ending.after.pid, pids.1) else (pids.0, ending.after.pid)
    }

    /** The rest of that. */
    method ObeyAll(commands: string) returns (ghost was: SvStatus, ghost pids: seq<(nat, nat)>)
      requires Sound() && Promises()
      modifies `children, `notifiers, `forks, `full, `stats, `readings, `status, `board, `firstrun, `flagexit
      modifies `strayKill, `kills, svcmain, svclog
      ensures Sound() && Promises() && flagexit == (old(flagexit) || 'x' in commands)
      ensures old(flagexit) && commands == "" ==> Measure() <= old(Measure())
      ensures svcmain.past.heard == LastOrder(commands, false, old(svcmain.past.heard))
      ensures svclog.past.heard == LastOrder(commands, true, old(svclog.past.heard))
      ensures svclog.flagstatus == if StopsLog(was) then Stopping else was
      ensures board.late <==> StopsLog(was) || (old(board.late) && board.count == old(board.count))
      ensures board.count >= old(board.count)
      ensures flagexit && svcmain.flagstatus == Stopped ==> svclog.flagstatus != Running && svclog.flagstatus != Started
      ensures |pids| == |commands| + 1 && pids[0] == old(Pids()) && pids[|commands|] == Pids() && Staying(pids)
      ensures kills == old(kills) + SentBy(commands, pids)
                       + if StopsLog(was) then Sent(svclog.pid, 1, [TERM, CONT]) else []
    {
      pids := Controller(commands);
      was := CheckLate();
    }

    /** The guard of the stop on the way out, for a log service in that state. */
    ghost predicate StopsLog(was: SvStatus)
      reads `flagexit, svcmain
    {
      flagexit && svcmain.flagstatus == Stopped && (was == Running || was == Started)
    }

    /** The end of the loop. */
    method CheckLate() returns (ghost was: SvStatus)
      requires Sound() && Promises()
      modifies `strayKill, `kills, `board, svclog`flagpaused, svclog`flagstatus, svclog`ranstop
      ensures Sound() && Promises() && was == old(svclog.flagstatus)
      ensures svclog.flagstatus == if StopsLog(was) then Stopping else was
      ensures board == old(board).(late := old(board.late) || StopsLog(was))
      ensures Measure() <= old(Measure())
      ensures kills == old(kills) + if StopsLog(was) then Sent(svclog.pid, 1, [TERM, CONT]) else []
    {
      assert kills + [] == kills;
      was := svclog.flagstatus;
      if flagexit && svcmain.flagstatus == Stopped && (svclog.flagstatus == Running || svclog.flagstatus == Started) {
        StopSvc(svclog, 1);
        board := board.(late := true);
      }
    }

    /** The main loop, cut off after the given readings of the fifo; exited tells whether it
        returned by itself, after that many passes. reaped and left are, at each loop head, the
        reaps so far and the measure. */
    method Doit(inputs: seq<string>)
      returns (exited: bool, ghost passes: nat, ghost reaped: seq<nat>, ghost left: seq<nat>,
               ghost ends: seq<Ending>)
      requires Sound() && Promises()
      modifies this, svcmain, svclog
      ensures waits >= old(waits) + passes && reaps == old(reaps) + |ends| && Followed(ends, waits)
      ensures passes == 0 || exited ==> FileIsRight()
      ensures Sound() && Promises() && passes <= |inputs| && (!exited ==> passes == |inputs|)
      ensures exited <==> flagexit && svcmain.pid == 0 && svclog.pid == 0
      ensures exited ==> children == notifiers
      ensures AllGranted() ==> Delivered()
      ensures Obeyed(inputs[..passes], old(svcmain.past.heard), old(svclog.past.heard), old(flagexit))
      ensures Counted(inputs, passes, reaped, left, old(flagexit))
      ensures reaped[0] == old(reaps) && left[0] == old(Measure())
      ensures forall q :: 0 <= q <= passes && QuietFrom(inputs, q, old(flagexit)) ==>
                && reaped[q] <= reaps <= reaped[q] + left[q] && left[q] <= 3
                && (reaps == reaped[q] + left[q] ==> exited)
    {
      Tell();
      passes, reaped, left, ends := Turns(inputs);
      WoundUp(inputs, passes, reaped, left, old(flagexit));
      exited := flagexit && svcmain.pid == 0 && svclog.pid == 0;
      LastLine(exited);
    }

    /** What main() does behind the loop. */
    method LastLine(exited: bool)
      requires Sound() && Promises()
      modifies `status, `board
      ensures Sound() && Promises() && (AllGranted() ==> Delivered())
      ensures if exited then FileIsRight() else unchanged(`status, `board)
    {
      if exited { Tell(); }
      Deliver();
    }

    /** The loop itself. */
    method Turns(inputs: seq<string>)
      returns (ghost passes: nat, ghost reaped: seq<nat>, ghost left: seq<nat>, ghost ends: seq<Ending>)
      requires Sound() && Promises()
      modifies this, svcmain, svclog
      ensures Sound() && Promises() && passes <= |inputs|
      ensures waits >= old(waits) + passes && reaps == old(reaps) + |ends| && Followed(ends, waits)
      ensures passes == |inputs| || (flagexit && svcmain.pid == 0 && svclog.pid == 0)
      ensures passes == 0 ==> unchanged(this, svcmain, svclog)
      ensures Obeyed(inputs[..passes], old(svcmain.past.heard), old(svclog.past.heard), old(flagexit))
      ensures Counted(inputs, passes, reaped, left, old(flagexit))
      ensures reaped[0] == old(reaps) && left[0] == old(Measure())
    {
      reaped, left, ends := [reaps], [Measure()], [];
      ghost var main, log, exit := svcmain.past.heard, svclog.past.heard, flagexit;
      var i := 0;
      while i < |inputs| && !(flagexit && svcmain.pid == 0 && svclog.pid == 0)
        invariant waits >= old(waits) + i && reaps == old(reaps) + |ends| && Followed(ends, waits)
        invariant i <= |inputs| && Sound() && Promises() && Obeyed(inputs[..i], main, log, exit)
        invariant i == 0 ==> unchanged(this, svcmain, svclog)
        invariant Counted(inputs, i, reaped, left, exit) && reaped[0] == old(reaps) && left[0] == old(Measure())
      {
        reaped, left, ends := Turn(inputs, i, reaped, left, ends, main, log, exit);
        i := i + 1;
      }
      passes := i;
    }

    /** The promises, when every fork was granted. */
    lemma Deliver()
      requires Sound() && Promises()
      ensures AllGranted() ==> Delivered()
    {
      if AllGranted() {
        assert board.main == svcmain.Now();
        assert AsSeen(svcmain.Rec(), board.main) == svcmain.Rec();
        if !board.late {
          assert AsSeen(svclog.Rec(), board.log) == svclog.Rec();
        }
      }
    }

    /** The commands of some readings were obeyed, since the orders and flagexit were as given. */
    ghost predicate Obeyed(inputs: seq<string>, main: Heard, log: Heard, exit: bool)
      reads `flagexit, svcmain, svclog
    {
      && flagexit == (exit || ExitAmong(inputs))
      && svcmain.past.heard == OrderAfter(inputs, false, main) && svclog.past.heard == OrderAfter(inputs, true, log)
    }

    /** The counts of i passes, so far. */
    ghost predicate Counted(inputs: seq<string>, i: nat, reaped: seq<nat>, left: seq<nat>, exit: bool)
      requires i <= |inputs|
      reads `reaps, svcmain, svclog
    {
      && |reaped| == |left| == i + 1 && reaped[i] == reaps && left[i] == Measure()
      && Winding(inputs, i, reaped, left, exit)
    }

    /** One turn of that loop. */
    method Turn(inputs: seq<string>, i: nat, ghost reaped: seq<nat>, ghost left: seq<nat>, ghost ends: seq<Ending>,
                ghost main: Heard, ghost log: Heard, ghost exit: bool)
      returns (ghost reaped': seq<nat>, ghost left': seq<nat>, ghost ends': seq<Ending>)
      requires i < |inputs| && Sound() && Promises() && Followed(ends, waits)
      requires Obeyed(inputs[..i], main, log, exit) && Counted(inputs, i, reaped, left, exit)
      modifies this, svcmain, svclog
      ensures Sound() && Promises() && Obeyed(inputs[..i + 1], main, log, exit)
      ensures Counted(inputs, i + 1, reaped', left', exit) && reaped <= reaped' && left <= left'
      ensures waits > old(waits) && Followed(ends', waits) && reaps - |ends'| == old(reaps) - |ends|
    {
      ghost var was, pids, e := Pass(inputs[i]);
      OneInputMore(inputs, i, main, log);
      WindingMore(inputs, i, reaped, left, reaps, Measure(), exit);
      OneMoreFollowed(ends, old(waits), waits, e);
      reaped', left', ends' := reaped + [reaps], left + [Measure()], ends + Listed(e);
    }

    /** The state before main() starts anything: log says whether ./log is executable, down
        whether the file ./down exists. */
    constructor (log: bool, down: bool, grants: nat -> nat, notices: nat -> nat, answers: nat -> Answer,
                 exits: nat -> (nat, Exit), clock: nat -> TimeOfDay)
      ensures fresh(svcmain) && fresh(svclog) && svcmain != svclog && haslog == log
      ensures this.grants == grants && this.notices == notices && this.answers == answers
      ensures this.exits == exits && this.clock == clock && readings == 0
      ensures !flagexit && firstrun && status == [] && children == {} && notifiers == {} && forks == stats == waits == 0
      ensures !strayKill && !board.late && reaps == 0 && Sound()
      ensures Fresh(svcmain) && svcmain.flagwantup == !down
      ensures Fresh(svclog) && svclog.flagwantup == (log && !down)
    {
      svcmain := new Svc(!down);
      svclog := new Svc(log && !down);
      haslog, this.grants, this.notices, this.answers := log, grants, notices, answers;
      this.exits, this.clock := exits, clock;
      forks, stats, waits, readings := 0, 0, 0, 0;
      flagexit, firstrun, status, children, notifiers := false, true, [], {}, {};
      strayKill, reaps, kills, full := false, 0, [], false;
      board := Board(Seen(Stopped, false), Seen(Stopped, false), false, 0);
    }

    /** A service that never ran. */
    ghost predicate Fresh(svc: Svc)
      reads svc
    {
      && svc.pid == 0 && svc.flagstatus == Stopped && svc.flagwant && !svc.stuck && !svc.ranstop
      && svc.past == Past(Heard(NoOrder, svc.flagwantup), None, [], false, false, [])
    }

    /** main(), from the first publication on. */
    method Begin()
      requires Sound() && !flagexit && !board.late && Fresh(svcmain) && Fresh(svclog)
      modifies `children, `notifiers, `forks, `full, `stats, `readings, `status, `board, `firstrun, svcmain, svclog
      ensures Sound() && Promises()
      ensures svcmain.past.heard == old(svcmain.past.heard) && svclog.past.heard == old(svclog.past.heard)
      ensures !svcmain.ranstop
      ensures svcmain.flagwantup == old(svcmain.flagwantup) && svclog.flagwantup == old(svclog.flagwantup)
      ensures !old(svcmain.flagwantup) ==> Fresh(svcmain)
      ensures !old(svclog.flagwantup) ==> Fresh(svclog)
      ensures !old(svcmain.flagwantup) && !old(svclog.flagwantup) ==> unchanged(`forks, `stats, `children)
      ensures old(svclog.flagwantup) && !Granted(old(forks)) ==> svclog.flagwant && svclog.pid == 0
    {
      FirstPublication();
      FirstStart(svclog);
      FirstStart(svcmain);
    }

    method FirstPublication()
      requires Sound() && Fresh(svcmain) && Fresh(svclog)
      modifies `status, `board, `children, `notifiers, `stats, `readings, svcmain`when, svclog`when
      ensures Sound() && Announced() && !board.late && unchanged(`children, `stats)
      ensures svclog.when == TaiaNow(clock(old(readings))) && svcmain.when == TaiaNow(clock(old(readings) + 1))
    {
      svclog.when := Now();
      PidChange(svcmain, false);
    }

    /** The start of a service by main(), if it is wanted up. */
    method FirstStart(svc: Svc)
      requires Sound() && !flagexit && Announced() && !board.late && Mine(svc) && Fresh(svc)
      modifies `children, `notifiers, `forks, `full, `stats, `readings, `status, `board, `firstrun, svc
      ensures Sound() && Announced() && !board.late && svc.past.heard == old(svc.past.heard) && !svc.ranstop
      ensures if svc == svcmain then MainHeld() else LogHeld()
      ensures svc.flagwantup == old(svc.flagwantup)
      ensures !old(svc.flagwantup) ==> Fresh(svc) && unchanged(`forks, `stats, `children)
      ensures old(svc.flagwantup) && svc == svclog ==> svc.flagwant && (!Granted(old(forks)) ==> svc.pid == 0)
    {
      if !svc.flagwant || svc.flagwantup { TryStart(svc); }
    }
  }

  /** A file of which the first bytes were written anew. */
  predicate Overwritten(before: seq<Byte>, after: seq<Byte>, w: nat) {
    && |after| == (if |before| < w then w else |before|)
    && forall k :: w <= k < |after| ==> after[k] == before[k]
  }

  lemma SubsetSize(a: set<nat>, b: set<nat>)
    requires a <= b
    ensures |a| <= |b|
  {
    if a != {} {
      var x :| x in a;
      SubsetSize(a - {x}, b - {x});
    }
  }

  /** The file is right about a record if and only if the state shown is its state, and the pause
      shown is its pause unless it has no process. */
  lemma ShownOrNot(r: Record, seen: Seen)
    requires Recordable(r)
    ensures Published(AsSeen(r, seen)) == Published(r)
            <==> seen.flag == r.flag && (r.pid != 0 ==> seen.paused == r.paused)
  {
    var shown := AsSeen(r, seen);
    PublishedFields(r);
    PublishedFields(shown);
    if seen.flag == r.flag && (r.pid != 0 ==> seen.paused == r.paused) {
      assert FlagBytes(shown) == FlagBytes(r);
    }
  }

  // ---------- the way out ----------

  /** From reading q on supervise is to exit, and no command comes. */
  predicate QuietFrom(inputs: seq<string>, q: nat, before: bool)
    requires q <= |inputs|
  {
    (before || ExitAmong(inputs[..q])) && forall i :: q <= i < |inputs| ==> inputs[i] == ""
  }

  /** Nothing was reaped in vain on the way out. */
  ghost predicate Winding(inputs: seq<string>, i: nat, reaped: seq<nat>, left: seq<nat>, before: bool)
    requires i <= |inputs| && |reaped| == |left| == i + 1
  {
    forall q :: 0 <= q <= i ==> WoundFrom(inputs, q, reaped[q], left[q], reaped[i], left[i], before)
  }

  predicate WoundFrom(inputs: seq<string>, q: nat, reaped: nat, left: nat, reaps: nat, measure: nat, before: bool)
    requires q <= |inputs|
  {
    left <= 3 && reaped <= reaps && (QuietFrom(inputs, q, before) ==> measure + reaps <= left + reaped)
  }

  lemma WindingMore(inputs: seq<string>, i: nat, reaped: seq<nat>, left: seq<nat>,
                    reaps: nat, measure: nat, before: bool)
    requires i < |inputs| && |reaped| == |left| == i + 1 && Winding(inputs, i, reaped, left, before)
    requires measure <= 3 && reaped[i] <= reaps
    requires (before || ExitAmong(inputs[..i])) && inputs[i] == "" ==> measure + reaps <= left[i] + reaped[i]
    ensures Winding(inputs, i + 1, reaped + [reaps], left + [measure], before)
  {
    forall q | 0 <= q <= i + 1
      ensures WoundFrom(inputs, q, (reaped + [reaps])[q], (left + [measure])[q], reaps, measure, before)
    {
      if q <= i {
        assert WoundFrom(inputs, q, reaped[q], left[q], reaped[i], left[i], before);
        if QuietFrom(inputs, q, before) {
          ExitStays(inputs, q, i);
        }
      }
    }
  }

  lemma ExitStays(inputs: seq<string>, q: nat, i: nat)
    requires q <= i <= |inputs|
    ensures ExitAmong(inputs[..q]) ==> ExitAmong(inputs[..i])
  {
    if ExitAmong(inputs[..q]) {
      var k :| 0 <= k < q && 'x' in inputs[..q][k];
      assert inputs[..i][k] == inputs[..q][k];
    }
  }

  lemma WoundUp(inputs: seq<string>, i: nat, reaped: seq<nat>, left: seq<nat>, before: bool)
    requires i <= |inputs| && |reaped| == |left| == i + 1 && Winding(inputs, i, reaped, left, before)
    ensures forall q :: 0 <= q <= i && QuietFrom(inputs, q, before) ==>
              && reaped[q] <= reaped[i] <= reaped[q] + left[q] && left[q] <= 3
              && (reaped[i] == reaped[q] + left[q] ==> left[i] == 0) && (before || ExitAmong(inputs[..i]))
  {
    forall q | 0 <= q <= i && QuietFrom(inputs, q, before)
      ensures reaped[q] <= reaped[i] <= reaped[q] + left[q] && left[q] <= 3
      ensures (reaped[i] == reaped[q] + left[q] ==> left[i] == 0) && (before || ExitAmong(inputs[..i]))
    {
      assert WoundFrom(inputs, q, reaped[q], left[q], reaped[i], left[i], before);
      ExitStays(inputs, q, i);
    }
  }

  lemma OneInputMore(inputs: seq<string>, i: nat, main: Heard, log: Heard)
    requires i < |inputs|
    ensures ExitAmong(inputs[..i + 1]) <==> ExitAmong(inputs[..i]) || 'x' in inputs[i]
    ensures OrderAfter(inputs[..i + 1], false, main)
            == LastOrder(inputs[i], false, OrderAfter(inputs[..i], false, main))
    ensures OrderAfter(inputs[..i + 1], true, log) == LastOrder(inputs[i], true, OrderAfter(inputs[..i], true, log))
  {
    assert inputs[..i + 1][..i] == inputs[..i];
    ExitStays(inputs, i, i + 1);
    assert inputs[..i + 1][i] == inputs[i];
    if ExitAmong(inputs[..i + 1]) && 'x' !in inputs[i] {
      var k :| 0 <= k < i + 1 && 'x' in inputs[..i + 1][k];
      assert inputs[..i][k] == inputs[..i + 1][k];
    }
  }

  /** A whole run: every order of child exits, failed forks and commands, from the start of
      supervise, for as many passes as one likes. */
  method Run(log: bool, down: bool, grants: nat -> nat, notices: nat -> nat, answers: nat -> Answer,
             exits: nat -> (nat, Exit), clock: nat -> TimeOfDay, inputs: seq<string>)
    returns (s: Supervise, exited: bool, ghost passes: nat, ghost reaped: seq<nat>, ghost left: seq<nat>,
             ghost ends: seq<Ending>)
    ensures s.Sound() && s.Promises() && passes <= |inputs| && (!exited ==> passes == |inputs|)
    ensures s.grants == grants && s.notices == notices && s.answers == answers
    ensures s.exits == exits && s.clock == clock
    ensures s.Followed(ends, s.waits) && |ends| == s.reaps && s.waits >= passes
    ensures exited <==> s.flagexit && s.svcmain.pid == 0 && s.svclog.pid == 0
    ensures exited ==> s.children == s.notifiers && s.FileIsRight()
    ensures s.AllGranted() ==> s.Delivered()
    ensures s.flagexit == ExitAmong(inputs[..passes])
    ensures s.svcmain.past.heard == OrderAfter(inputs[..passes], false, Heard(NoOrder, !down))
    ensures s.svclog.past.heard == OrderAfter(inputs[..passes], true, Heard(NoOrder, log && !down))
    ensures |reaped| == |left| == passes + 1 && reaped[passes] == s.reaps
    ensures forall q :: 0 <= q <= passes && QuietFrom(inputs, q, false) ==>
              && reaped[q] <= s.reaps <= reaped[q] + left[q] && left[q] <= 3
              && (s.reaps == reaped[q] + left[q] ==> exited)
  {
    s := new Supervise(log, down, grants, notices, answers, exits, clock);
    s.Begin();
    exited, passes, reaped, left, ends := s.Doit(inputs);
  }

  // ---------- where a promise has to be limited ----------

  /** Wanted up, and not up: the fork for the log service failed at the start. */
  method NotKeptUp() returns (s: Supervise)
    ensures s.Sound() && s.Promises() && s.svclog.flagwant && s.svclog.flagwantup && !s.flagexit && s.svclog.pid == 0
  {
    s := new Supervise(true, false, _ => 0, _ => 0, _ => Yes, _ => (1, Exit(0, 0)), _ => Timeval(0, 0));
    s.Begin();
  }

  /** Ordered down, and up: the commands ud with ./start refused its fork and ./stop granted it, and
      the exit of ./stop. */
  method NotKeptDown() returns (s: Supervise)
    ensures s.Sound() && s.Promises() && s.svcmain.past.heard.order == DownOrder && !s.flagexit
    ensures s.svcmain.pid != 0 && s.svcmain.past.launched == [StopScript, RunScript]
  {
    s := StartRefused();
    s.DownSlips();
  }

  /** After the command u for a service that was down, with ./start refused its fork. */
  method StartRefused() returns (s: Supervise)
    ensures fresh(s) && fresh(s.svcmain) && fresh(s.svclog) && s.Sound() && s.Promises() && !s.flagexit
    ensures s.svcmain.pid == 0 && s.svcmain.flagstatus == Starting && !s.svcmain.ranstop
    ensures s.children == {} && s.forks > 0 && forall k: nat :: k > 0 ==> s.grants(k) == 1
    ensures forall k: nat :: s.answers(k) == Yes && s.exits(k) == (1, Exit(0, 0))
  {
    s := new Supervise(false, true, k => if k == 0 then 0 else 1, _ => 0, _ => Yes, _ => (1, Exit(0, 0)),
                       _ => Timeval(0, 0));
    s.Begin();
    s.Up(s.svcmain);
  }

  /** The file says starting and the record says running: the fork behind the commands Lu failed. */
  method OutOfDate() returns (s: Supervise)
    ensures s.Sound() && s.Promises() && s.haslog && |s.status| >= 40
    ensures s.status[20..40] != Published(s.svclog.Rec())
    ensures s.board.log.flag == Starting && s.svclog.flagstatus == Running
  {
    s := new Supervise(true, true, _ => 0, _ => 0, _ => Yes, _ => (1, Exit(0, 0)), _ => Timeval(0, 0));
    s.Begin();
    s.Up(s.svclog);
    ShownOrNot(s.svclog.Rec(), s.board.log);
  }

  /** The file says running and the record says stopping: after the commands Lux for a service
      that was down, the end of the main loop stops the log service without a word. */
  method StoppedUnannounced() returns (s: Supervise)
    ensures s.Sound() && s.Promises() && s.haslog && |s.status| >= 40 && s.board.late
    ensures s.status[20..40] != Published(s.svclog.Rec())
    ensures s.board.log.flag == Running && s.svclog.flagstatus == Stopping
  {
    s := LogStarted();
    s.ExitAsked();
    ghost var was := s.CheckLate();
    ShownOrNot(s.svclog.Rec(), s.board.log);
  }

  /** After the command Lu for a service that was down. */
  method LogStarted() returns (s: Supervise)
    ensures fresh(s) && fresh(s.svcmain) && fresh(s.svclog) && s.Sound() && s.Promises() && s.haslog && !s.flagexit
    ensures s.svclog.flagstatus == Running && s.svclog.pid != 0 && s.svcmain.flagstatus == Stopped && !s.board.late
  {
    s := new Supervise(true, true, _ => 1, _ => 0, _ => Yes, _ => (1, Exit(0, 0)), _ => Timeval(0, 0));
    s.Begin();
    s.Up(s.svclog);
  }
}
