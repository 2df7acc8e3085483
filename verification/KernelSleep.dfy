/** Timing of the delta list: the deadline of a sleeper is the sum of the delays up to its own, no
    other process changes it, and each tick takes one millisecond off it unless it finds a zero in front. */
module KernelSleep {
  import opened Seqs
  import opened QueueTable
  import opened KernelSpec
  import opened KernelInvariants
  import opened KernelRuns

  /** Milliseconds until p's turn: the sum of the delays up to and including its own. */
  function Deadline(s: seq<Sleeper>, p: Pid): int {
    if s == [] then 0
    else if s[0].pid == p then s[0].delta
    else s[0].delta + Deadline(s[1..], p)
  }

  ghost predicate Sleeps(s: seq<Sleeper>, p: Pid) { exists i :: 0 <= i < |s| && s[i].pid == p }

  lemma SleepsIn(s: seq<Sleeper>, p: Pid)
    ensures Sleeps(s, p) <==> p in SleepPids(s)
  {
    if Sleeps(s, p) {
      var i :| 0 <= i < |s| && s[i].pid == p;
      assert SleepPids(s)[i] == p;
    }
  }

  /** insertd gives the new sleeper the delay asked for and leaves every other deadline alone. */
  lemma {:induction false} InsertDeadline(s: seq<Sleeper>, p: Pid, key: int, q: Pid)
    requires !Sleeps(s, p)
    ensures Deadline(InsertDelta(s, p, key), p) == key && Sleeps(InsertDelta(s, p, key), p)
    ensures q != p && Sleeps(s, q) ==>
      Sleeps(InsertDelta(s, p, key), q) && Deadline(InsertDelta(s, p, key), q) == Deadline(s, q)
  {
    var r := InsertDelta(s, p, key);
    if s == [] {
    } else if s[0].delta > key {
      assert r[0].pid == p && r[1..] == [r[1]] + s[1..] && r[1..][1..] == s[1..];
      if Sleeps(s, q) {
        var i :| 0 <= i < |s| && s[i].pid == q;
        assert r[i + 1].pid == q;
      }
    } else {
      assert forall i :: 0 <= i < |s[1..]| ==> s[1..][i] == s[i + 1];
      InsertDeadline(s[1..], p, key - s[0].delta, q);
      var t := InsertDelta(s[1..], p, key - s[0].delta);
      assert s[0].pid != p && r == [s[0]] + t && r[1..] == t;
      assert forall i :: 0 <= i < |t| ==> r[i + 1] == t[i];
      if Sleeps(s, q) && s[0].pid != q {
        var i :| 0 <= i < |s| && s[i].pid == q;
        assert s[1..][i - 1].pid == q;
      }
    }
  }

  /** Early removal, which hands the delay on to the successor, leaves every other deadline alone. */
  lemma {:induction false} RemoveDeadline(s: seq<Sleeper>, p: Pid, q: Pid)
    requires q != p && Sleeps(s, q)
    ensures Sleeps(RemoveDelta(s, p), q) && Deadline(RemoveDelta(s, p), q) == Deadline(s, q)
  {
    var r := RemoveDelta(s, p);
    var i :| 0 <= i < |s| && s[i].pid == q;
    if s[0].pid == p {
      assert s[1..][1..] == s[2..] && r[1..] == s[2..] && r[i - 1].pid == q;
    } else {
      assert r == [s[0]] + RemoveDelta(s[1..], p) && r[1..] == RemoveDelta(s[1..], p);
      if s[0].pid != q {
        assert s[1..][i - 1].pid == q;
        RemoveDeadline(s[1..], p, q);
        var j :| 0 <= j < |r[1..]| && r[1..][j].pid == q;
        assert r[j + 1].pid == q;
      } else {
        assert r[0].pid == q;
      }
    }
  }

  /** Dropping what has expired: who stays has a positive deadline, unchanged but for what the
      dropped delays still owed; who goes had none left. */
  lemma {:induction false} ExpireDeadline(s: seq<Sleeper>, q: Pid)
    requires NonNegative(s) && Sleeps(s, q) && NoDup(SleepPids(s))
    ensures Sleeps(Expire(s), q) <==> Deadline(s, q) > 0
    ensures Sleeps(Expire(s), q) ==> Deadline(Expire(s), q) == Deadline(s, q)
    ensures Deadline(s, q) >= 0
  {
    DeadlineNonNegative(s, q);
    if s[0].delta > 0 {
    } else if s[0].pid == q {
      assert forall i :: 0 < i < |s| ==> SleepPids(s)[i] != SleepPids(s)[0];
      ExpireKeeps(s[1..], q);
    } else {
      assert SleepPids(s[1..]) == SleepPids(s)[1..];
      var i :| 0 <= i < |s| && s[i].pid == q;
      assert s[1..][i - 1].pid == q;
      ExpireDeadline(s[1..], q);
    }
  }

  lemma {:induction false} ExpireKeeps(s: seq<Sleeper>, q: Pid)
    requires !Sleeps(s, q)
    ensures !Sleeps(Expire(s), q)
  {
    if s != [] && s[0].delta <= 0 {
      assert forall i :: 0 <= i < |s[1..]| ==> s[1..][i] == s[i + 1];
      ExpireKeeps(s[1..], q);
    }
  }

  lemma {:induction false} DeadlineNonNegative(s: seq<Sleeper>, q: Pid)
    requires NonNegative(s) && Sleeps(s, q)
    ensures Deadline(s, q) >= s[0].delta
  {
    if s[0].pid != q {
      var i :| 0 <= i < |s| && s[i].pid == q;
      assert s[1..][i - 1].pid == q;
      DeadlineNonNegative(s[1..], q);
    }
  }

  /** clkhandler's decrement of the first delay, then wakeup. */
  function TickSleep(s: seq<Sleeper>): (r: seq<Sleeper>) {
    if s == [] then [] else Expire(s[0 := s[0].(delta := s[0].delta - 1)])
  }

  /** While the first delay is positive, a tick brings every deadline closer by exactly one and wakes
      exactly the processes whose deadline was 1. */
  lemma TickDeadline(s: seq<Sleeper>, q: Pid)
    requires NonNegative(s) && NoDup(SleepPids(s)) && Sleeps(s, q) && s[0].delta >= 1
    ensures Deadline(s, q) >= 1
    ensures Sleeps(TickSleep(s), q) <==> Deadline(s, q) > 1
    ensures Sleeps(TickSleep(s), q) ==> Deadline(TickSleep(s), q) == Deadline(s, q) - 1
  {
    var d := s[0 := s[0].(delta := s[0].delta - 1)];
    var i :| 0 <= i < |s| && s[i].pid == q;
    assert d[i].pid == q && d[1..] == s[1..];
    assert SleepPids(d) == SleepPids(s);
    DeadlineNonNegative(s, q);
    ExpireDeadline(d, q);
  }

  /** With a zero delay in front (after recvtime(0)) the tick is lost on everybody it does not wake:
      the -1 that remains is not passed on. */
  lemma TickLost(s: seq<Sleeper>, q: Pid)
    requires NonNegative(s) && NoDup(SleepPids(s)) && Sleeps(s, q) && s[0].delta == 0
    ensures Sleeps(TickSleep(s), q) <==> Deadline(s, q) > 0
    ensures Sleeps(TickSleep(s), q) ==> Deadline(TickSleep(s), q) == Deadline(s, q)
  {
    var d := s[0 := s[0].(delta := -1)];
    assert d[1..] == s[1..] && SleepPids(s[1..]) == SleepPids(s)[1..];
    if s[0].pid == q {
      assert forall i :: 0 < i < |s| ==> SleepPids(s)[i] != SleepPids(s)[0];
      ExpireKeeps(s[1..], q);
    } else {
      var i :| 0 <= i < |s| && s[i].pid == q;
      assert s[1..][i - 1].pid == q;
      ExpireDeadline(s[1..], q);
    }
  }

  /** The tick is exact for q: one millisecond closer, and awake exactly when none is left. */
  ghost predicate TickExact(s: seq<Sleeper>, q: Pid) {
    if Deadline(s, q) <= 1 then !Sleeps(TickSleep(s), q)
    else Sleeps(TickSleep(s), q) && Deadline(TickSleep(s), q) == Deadline(s, q) - 1
  }

  /** A tick is exact for a sleeper if and only if the first delay is positive or the sleeper's own
      time is already up. */
  lemma TickExactIff(s: seq<Sleeper>, q: Pid)
    requires NonNegative(s) && NoDup(SleepPids(s)) && Sleeps(s, q)
    ensures TickExact(s, q) <==> s[0].delta >= 1 || Deadline(s, q) == 0
  {
    DeadlineNonNegative(s, q);
    if s[0].delta >= 1 { TickDeadline(s, q); } else { TickLost(s, q); }
  }

  // ---- the same over whole runs ----

  ghost predicate Punctual(k: Kern) { k.sleep != [] ==> k.sleep[0].delta >= 1 }

  /** What a call does to the sleep list. */
  function SleepAfter(y: Sys, c: Call): (s: seq<Sleeper>)
    requires Sized(y.k) && |y.pc| == NPROC
  {
    var k := y.k;
    match c
    case CSleepMs(d) => if d > 0 then InsertDelta(k.sleep, k.curr, d) else k.sleep
    case CRecvTime(w) => if Parks(k, c) then InsertDelta(k.sleep, k.curr, w) else k.sleep
    case CSend(p, _) =>
      if !IsBadPid(k, p) && !k.procs[p].hasmsg && k.procs[p].state == Rectim
      then RemoveDelta(k.sleep, p as Pid) else k.sleep
    case CKill(p) =>
      if !IsBadPid(k, p) && p != NULLPROC && Asleep(k.procs[p].state)
      then RemoveDelta(k.sleep, p as Pid) else k.sleep
    case CTick => TickSleep(k.sleep)
    case _ => k.sleep
  }

  lemma SleepEffect(y: Sys, c: Call)
    requires Sized(y.k) && |y.pc| == NPROC
    ensures Step(y, c).k.sleep == SleepAfter(y, c)
  {
    match c
    case CFinish =>
    case CSemCreate(n) =>
    case CCreate(prio, stack) =>
    case _ =>
  }

  /** The call takes p off the sleep list before its time. */
  ghost predicate Disturbs(y: Sys, c: Call, p: Pid)
    requires Sized(y.k)
  {
    c == CKill(p) || (c.CSend? && c.p == p && y.k.procs[p].state == Rectim && !y.k.procs[p].hasmsg)
  }

  lemma SleepAfterDeadline(y: Sys, c: Call, p: Pid)
    requires Sized(y.k) && |y.pc| == NPROC && c != CTick && Sleeps(y.k.sleep, p) && !Sleeps(y.k.sleep, y.k.curr)
    requires Asleep(y.k.procs[p].state) && !Disturbs(y, c, p)
    ensures Sleeps(SleepAfter(y, c), p) && Deadline(SleepAfter(y, c), p) == Deadline(y.k.sleep, p)
  {
    var k := y.k;
    match c
    case CSleepMs(d) => if d > 0 { InsertDeadline(k.sleep, k.curr, d, p); }
    case CRecvTime(w) => if Parks(k, c) { InsertDeadline(k.sleep, k.curr, w, p); }
    case CSend(q, _) => if SleepAfter(y, c) != k.sleep { RemoveDeadline(k.sleep, q, p); }
    case CKill(q) => if SleepAfter(y, c) != k.sleep { RemoveDeadline(k.sleep, q, p); }
    case _ =>
  }

  lemma AsleepListed(y: Sys, p: Pid)
    requires Good(y)
    ensures Sleeps(y.k.sleep, p) <==> Asleep(y.k.procs[p].state)
  {
    SleepsIn(y.k.sleep, p);
  }

  /** Nothing but a tick, or a call aimed at p itself, changes the deadline of p. */
  lemma OthersLeaveDeadline(y: Sys, c: Call, p: Pid)
    requires Good(y) && Enabled(y, c) && Asleep(y.k.procs[p].state) && !Disturbs(y, c, p) && c != CTick
    ensures Sleeps(y.k.sleep, p) && Asleep(Step(y, c).k.procs[p].state)
    ensures Deadline(Step(y, c).k.sleep, p) == Deadline(y.k.sleep, p)
  {
    StepGood(y, c);
    AsleepListed(y, p);
    AsleepListed(y, y.k.curr);
    SleepAfterDeadline(y, c, p);
    SleepEffect(y, c);
    AsleepListed(Step(y, c), p);
  }

  /** A call puts a zero delay in front if and only if it is a recvtime(0) that finds no message. */
  lemma PunctualStepIff(y: Sys, c: Call)
    requires Good(y) && Enabled(y, c) && Punctual(y.k)
    ensures Punctual(Step(y, c).k) <==> !(c == CRecvTime(0) && Parks(y.k, c))
  {
    SleepEffect(y, c);
  }

  /** The next tick is lost: it finds a zero delay in front. */
  predicate Loses(k: Kern) { k.sleep != [] && k.sleep[0].delta <= 0 }

  /** A tick that is not lost brings everybody one millisecond closer; one that is lost moves nobody. It
      makes eligible exactly those with no time left. */
  lemma TickStep(y: Sys, p: Pid)
    requires Good(y) && Enabled(y, CTick) && Asleep(y.k.procs[p].state)
    ensures var k', left := Step(y, CTick).k, Deadline(y.k.sleep, p) - (if Loses(y.k) then 0 else 1);
      && Sleeps(y.k.sleep, p) && Deadline(y.k.sleep, p) >= 0
      && (left <= 0 ==> CanRun(k'.procs[p].state))
      && (left > 0 ==> Asleep(k'.procs[p].state) && Deadline(k'.sleep, p) == left)
  {
    StepGood(y, CTick);
    SleepEffect(y, CTick);
    SleepsIn(y.k.sleep, p);
    SleepsIn(Step(y, CTick).k.sleep, p);
    if Loses(y.k) {
      DeadlineNonNegative(y.k.sleep, p);
      TickLost(y.k.sleep, p);
    } else {
      TickDeadline(y.k.sleep, p);
    }
    TickInv(y.k);
  }

  function Ticks(cs: seq<Call>): (n: nat) {
    if cs == [] then 0 else (if cs[0] == CTick then 1 else 0) + Ticks(cs[1..])
  }

  /** How many ticks of the run find a zero delay in front. */
  function Lost(y: Sys, cs: seq<Call>): (n: nat)
    requires Sized(y.k) && |y.pc| == NPROC
    ensures n <= Ticks(cs)
    decreases |cs|
  {
    if cs == [] then 0
    else (if cs[0] == CTick && Loses(y.k) then 1 else 0) + Lost(Step(y, cs[0]), cs[1..])
  }

  /** No call of the run wakes p early. */
  ghost predicate Undisturbed(y: Sys, cs: seq<Call>, p: Pid)
    requires Sized(y.k) && |y.pc| == NPROC
    decreases |cs|
  {
    cs == [] || (!Disturbs(y, cs[0], p) && Undisturbed(Step(y, cs[0]), cs[1..], p))
  }

  /** A sleeper stays asleep, its deadline coming closer by one for every tick that is not lost, until
      fewer than one remains. */
  lemma {:induction false} SleepsOn(y: Sys, cs: seq<Call>, p: Pid)
    requires Good(y) && Legal(y, cs) && Undisturbed(y, cs, p) && Asleep(y.k.procs[p].state)
    requires Ticks(cs) == 0 || Ticks(cs) - Lost(y, cs) < Deadline(y.k.sleep, p)
    ensures var k' := Run(y, cs).k;
      Asleep(k'.procs[p].state) && Deadline(k'.sleep, p) == Deadline(y.k.sleep, p) - (Ticks(cs) - Lost(y, cs))
    decreases |cs|
  {
    if cs != [] {
      StepGood(y, cs[0]);
      if cs[0] == CTick { TickStep(y, p); } else { OthersLeaveDeadline(y, cs[0], p); }
      SleepsOn(Step(y, cs[0]), cs[1..], p);
    }
  }

  lemma {:induction false} RunSplit(y: Sys, cs: seq<Call>, c: Call)
    requires Sized(y.k) && |y.pc| == NPROC && Legal(y, cs + [c])
    ensures Legal(y, cs) && Enabled(Run(y, cs), c) && Run(y, cs + [c]) == Step(Run(y, cs), c)
    decreases |cs|
  {
    if cs == [] {
      assert ([] + [c])[1..] == [];
    } else {
      assert (cs + [c])[0] == cs[0] && (cs + [c])[1..] == cs[1..] + [c];
      RunSplit(Step(y, cs[0]), cs[1..], c);
    }
  }

  lemma {:induction false} LostSplit(y: Sys, cs: seq<Call>)
    requires Sized(y.k) && |y.pc| == NPROC
    ensures Lost(y, cs + [CTick]) == Lost(y, cs) + (if Loses(Run(y, cs).k) then 1 else 0)
    ensures Ticks(cs + [CTick]) == Ticks(cs) + 1
    decreases |cs|
  {
    if cs == [] {
      assert ([] + [CTick])[1..] == [];
    } else {
      assert (cs + [CTick])[0] == cs[0] && (cs + [CTick])[1..] == cs[1..] + [CTick];
      LostSplit(Step(y, cs[0]), cs[1..]);
    }
  }

  /** A sleeper is made eligible by exactly the tick with which as many ticks were not lost as it had
      milliseconds left (by the first tick, if it had none), whatever every other process does meanwhile. */
  lemma WakesOnTick(y: Sys, cs: seq<Call>, p: Pid)
    requires Good(y) && Legal(y, cs + [CTick]) && Undisturbed(y, cs, p) && Asleep(y.k.procs[p].state)
    requires Ticks(cs) == 0 || Ticks(cs) - Lost(y, cs) < Deadline(y.k.sleep, p)
    ensures var all := cs + [CTick];
      && Asleep(Run(y, cs).k.procs[p].state)
      && (CanRun(Run(y, all).k.procs[p].state) <==> Ticks(all) - Lost(y, all) >= Deadline(y.k.sleep, p))
  {
    RunSplit(y, cs, CTick);
    LostSplit(y, cs);
    SleepsOn(y, cs, p);
    RunGood(y, cs);
    TickStep(Run(y, cs), p);
  }

  lemma FallsAsleep(y: Sys, c: Call, d: int)
    requires Good(y) && Enabled(y, c) && Parks(y.k, c) && d >= 0 && (c == CSleepMs(d) || c == CRecvTime(d))
    ensures var y1, p := Step(y, c), y.k.curr;
      Good(y1) && Asleep(y1.k.procs[p].state) && Deadline(y1.k.sleep, p) == d
  {
    var p := y.k.curr;
    var y1 := Step(y, c);
    StepGood(y, c);
    SleepEffect(y, c);
    SleepsIn(y.k.sleep, p);
    InsertDeadline(y.k.sleep, p, d, p);
    SleepsIn(y1.k.sleep, p);
  }

  /** A process that calls sleepms(d), d >= 1, and is not woken early, is asleep until the d-th later tick,
      and is made eligible to run by that tick if and only if none of the d ticks was lost. */
  lemma SleepMsIsExactIff(y: Sys, d: int, cs: seq<Call>)
    requires Good(y) && d >= 1 && Enabled(y, CSleepMs(d))
    requires var y1 := Step(y, CSleepMs(d));
      Legal(y1, cs + [CTick]) && Undisturbed(y1, cs, y.k.curr) && Ticks(cs) == d - 1
    ensures var y1 := Step(y, CSleepMs(d));
      && Asleep(Run(y1, cs).k.procs[y.k.curr].state)
      && (CanRun(Run(y1, cs + [CTick]).k.procs[y.k.curr].state) <==> Lost(y1, cs + [CTick]) == 0)
  {
    var y1 := Step(y, CSleepMs(d));
    FallsAsleep(y, CSleepMs(d), d);
    LostSplit(y1, cs);
    WakesOnTick(y1, cs, y.k.curr);
  }

  /** The same of recvtime(w) without a message: asleep until the w-th later tick (the first, when w is 0),
      and eligible on it if and only if none of the w ticks was lost. */
  lemma RecvTimeIsExactIff(y: Sys, w: int, cs: seq<Call>)
    requires Good(y) && w >= 0 && Enabled(y, CRecvTime(w)) && !y.k.procs[y.k.curr].hasmsg
    requires var y1 := Step(y, CRecvTime(w));
      Legal(y1, cs + [CTick]) && Undisturbed(y1, cs, y.k.curr) && Ticks(cs) == if w == 0 then 0 else w - 1
    ensures var y1 := Step(y, CRecvTime(w));
      && Asleep(Run(y1, cs).k.procs[y.k.curr].state)
      && (CanRun(Run(y1, cs + [CTick]).k.procs[y.k.curr].state) <==> w == 0 || Lost(y1, cs + [CTick]) == 0)
  {
    var y1 := Step(y, CRecvTime(w));
    FallsAsleep(y, CRecvTime(w), w);
    LostSplit(y1, cs);
    WakesOnTick(y1, cs, y.k.curr);
  }

  /** Without recvtime(0) no tick is ever lost. */
  lemma {:induction false} NoneLost(y: Sys, cs: seq<Call>)
    requires Good(y) && Legal(y, cs) && Punctual(y.k) && CRecvTime(0) !in cs
    ensures Lost(y, cs) == 0
    decreases |cs|
  {
    if cs != [] {
      StepGood(y, cs[0]);
      PunctualStepIff(y, cs[0]);
      assert forall c :: c in cs[1..] ==> c in cs;
      NoneLost(Step(y, cs[0]), cs[1..]);
    }
  }

  // ---- an oversleeper ----

  /** What the run below needs of a state: its three processes, who is ready, asleep and current. */
  ghost predicate At(y: Sys, p1: Proc, p2: Proc, ready: seq<Pid>, sleep: seq<Sleeper>, curr: Pid) {
    && Sized(y.k) && |y.pc| == NPROC && y.pc[0] == y.pc[1] == y.pc[2] == User
    && y.k.procs[0].prio == 0 && y.k.procs[0].state == (if curr == 0 then Curr else Ready)
    && y.k.procs[1] == p1 && y.k.procs[2] == p2
    && y.k.ready == ready && y.k.sleep == sleep && y.k.curr == curr && y.k.ndefers == 0
  }

  function Medium(st: PrState): Proc { Proc(st, 20, -1, 0, false) }

  lemma TwoCreated() returns (y1: Sys, y: Sys)
    ensures Enabled(Boot(), CCreate(20, true)) && y1 == Step(Boot(), CCreate(20, true))
    ensures Enabled(y1, CCreate(20, true)) && y == Step(y1, CCreate(20, true))
    ensures At(y, Medium(Susp), Medium(Susp), [], [], 0)
  {
    y1 := Step(Boot(), CCreate(20, true));
    assert FindPid(Boot().k.procs, 1, NPROC) == (1, 2);
    assert FindPid(y1.k.procs, 2, NPROC) == (2, 3);
    y := Step(y1, CCreate(20, true));
  }

  lemma FirstResumed(y: Sys)
    requires At(y, Medium(Susp), Medium(Susp), [], [], 0)
    ensures Enabled(y, CResume(1)) && At(Step(y, CResume(1)), Medium(Curr), Medium(Susp), [0], [], 1)
  {
    ResumeTakesOver(y, 1, 0);
  }

  lemma SecondResumed(y: Sys)
    requires At(y, Medium(Curr), Medium(Susp), [0], [], 1)
    ensures Enabled(y, CResume(2)) && At(Step(y, CResume(2)), Medium(Ready), Medium(Curr), [1, 0], [], 2)
  {
    ResumeTakesOver(y, 2, 1);
  }

  /** A resumed process takes over from a current one of no higher priority, which goes behind those of
      at least its own. */
  lemma ResumeTakesOver(y: Sys, p: Pid, c: Pid)
    requires Sized(y.k) && |y.pc| == NPROC && y.k.curr == c && y.k.ndefers == 0
    requires y.k.procs[p].state == Susp && y.k.procs[c].state == Curr && y.k.procs[c].prio <= y.k.procs[p].prio
    requires y.k.ready == [] || y.k.procs[y.k.ready[0]].prio < y.k.procs[c].prio
    ensures var k' := Step(y, CResume(p)).k;
      && k' == y.k.(procs := k'.procs, ready := [c] + y.k.ready, curr := p, preempt := QUANTUM)
      && k'.procs == y.k.procs[c := y.k.procs[c].(state := Ready)][p := y.k.procs[p].(state := Curr)]
  {
    var k1 := Enlist(y.k, p);
    assert k1.ready == [p] + y.k.ready;
    assert k1.ready[1..] == y.k.ready;
    assert ReadyPlace(k1.procs, k1.ready, k1.procs[c].prio) == 1;
    var k2 := Enlist(k1, c);
    assert k2.ready == [p] + ([c] + y.k.ready);
  }

  lemma SecondSleeps(y: Sys)
    requires At(y, Medium(Ready), Medium(Curr), [1, 0], [], 2)
    ensures Enabled(y, CSleepMs(1))
    ensures At(Step(y, CSleepMs(1)), Medium(Curr), Medium(Sleep), [0], [Sleeper(2, 1)], 1)
  {}

  lemma FirstLooks(y: Sys)
    requires At(y, Medium(Curr), Medium(Sleep), [0], [Sleeper(2, 1)], 1)
    ensures Enabled(y, CRecvTime(0))
    ensures var y1 := Step(y, CRecvTime(0));
      && Sized(y1.k) && |y1.pc| == NPROC && y1.pc[0] == User && y1.k.curr == 0
      && y1.k.sleep == [Sleeper(1, 0), Sleeper(2, 1)]
  {}

  lemma Extend(y: Sys, cs: seq<Call>, c: Call, all: seq<Call>)
    requires Sized(y.k) && |y.pc| == NPROC && Legal(y, cs) && Enabled(Run(y, cs), c) && all == cs + [c]
    ensures Legal(y, all) && Run(y, all) == Step(Run(y, cs), c)
    decreases |cs|
  {
    if cs == [] {
      assert all[0] == c && all[1..] == [];
    } else {
      assert all[0] == cs[0] && all[1..] == cs[1..] + [c];
      Extend(Step(y, cs[0]), cs[1..], c, all[1..]);
    }
  }

  /** Two processes of equal priority; the second asks to sleep one millisecond, the first calls
      recvtime(0), the clock ticks. */
  function Oversleep(): (cs: seq<Call>) {
    [CCreate(20, true), CCreate(20, true), CResume(1), CResume(2), CSleepMs(1), CRecvTime(0), CTick]
  }

  lemma UpToCreated(c1: seq<Call>, c2: seq<Call>) returns (y: Sys)
    requires c1 == [CCreate(20, true)] && c2 == c1 + [CCreate(20, true)]
    ensures Legal(Boot(), c2) && y == Run(Boot(), c2) && At(y, Medium(Susp), Medium(Susp), [], [], 0)
  {
    var y1, y2 := TwoCreated();
    Extend(Boot(), [], c1[0], c1);
    Extend(Boot(), c1, c1[0], c2);
    y := y2;
  }

  lemma UpToSleep(c2: seq<Call>, c3: seq<Call>, c4: seq<Call>) returns (y: Sys)
    requires Legal(Boot(), c2) && At(Run(Boot(), c2), Medium(Susp), Medium(Susp), [], [], 0)
    requires c3 == c2 + [CResume(1)] && c4 == c3 + [CResume(2)]
    ensures Legal(Boot(), c4) && y == Run(Boot(), c4) && At(y, Medium(Ready), Medium(Curr), [1, 0], [], 2)
  {
    FirstResumed(Run(Boot(), c2));
    Extend(Boot(), c2, CResume(1), c3);
    SecondResumed(Run(Boot(), c3));
    Extend(Boot(), c3, CResume(2), c4);
    y := Run(Boot(), c4);
  }

  lemma UpToTick(c4: seq<Call>, c5: seq<Call>, c6: seq<Call>) returns (y: Sys)
    requires Legal(Boot(), c4) && At(Run(Boot(), c4), Medium(Ready), Medium(Curr), [1, 0], [], 2)
    requires c5 == c4 + [CSleepMs(1)] && c6 == c5 + [CRecvTime(0)]
    ensures Legal(Boot(), c6) && y == Run(Boot(), c6) && y.pc[y.k.curr] == User
    ensures y.k.sleep == [Sleeper(1, 0), Sleeper(2, 1)]
  {
    SecondSleeps(Run(Boot(), c4));
    Extend(Boot(), c4, CSleepMs(1), c5);
    FirstLooks(Run(Boot(), c5));
    Extend(Boot(), c5, CRecvTime(0), c6);
    y := Run(Boot(), c6);
  }

  /** A reachable state in which a process oversleeps: process 2 calls sleepms(1), and after the next tick
      it is still asleep. */
  lemma RecvTimeZeroDelaysOthers()
    ensures var cs := Oversleep();
      && Legal(Boot(), cs) && cs[4] == CSleepMs(1) && Run(Boot(), cs[..4]).k.curr == 2
      && Asleep(Run(Boot(), cs).k.procs[2].state)
  {
    var cs := Oversleep();
    var y2 := UpToCreated(cs[..1], cs[..2]);
    var y4 := UpToSleep(cs[..2], cs[..3], cs[..4]);
    var y6 := UpToTick(cs[..4], cs[..5], cs[..6]);
    StillAsleep(cs[..6], cs);
  }

  lemma StillAsleep(c6: seq<Call>, cs: seq<Call>)
    requires Legal(Boot(), c6) && Run(Boot(), c6).pc[Run(Boot(), c6).k.curr] == User && cs == c6 + [CTick]
    requires Run(Boot(), c6).k.sleep == [Sleeper(1, 0), Sleeper(2, 1)]
    ensures Legal(Boot(), cs) && Asleep(Run(Boot(), cs).k.procs[2].state)
  {
    Extend(Boot(), c6, CTick, cs);
    BootGood();
    RunGood(Boot(), cs);
    StillListed(Run(Boot(), c6));
  }

  lemma StillListed(y: Sys)
    requires Sized(y.k) && |y.pc| == NPROC && y.k.sleep == [Sleeper(1, 0), Sleeper(2, 1)]
    ensures 2 in SleepPids(Step(y, CTick).k.sleep)
  {
    SleepEffect(y, CTick);
    var s := y.k.sleep;
    assert s[0 := Sleeper(1, -1)][1..] == [Sleeper(2, 1)];
    assert TickSleep(s) == Expire([Sleeper(2, 1)]) == [Sleeper(2, 1)];
    assert SleepPids([Sleeper(2, 1)])[0] == 2;
  }
}
