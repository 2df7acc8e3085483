/** Whose turn it is: a call reschedules at most once, at its end, and then the caller goes behind all of
    its own priority; a process that takes over has a whole quantum, and loses it to others of its priority
    when it is used up; and the clock counts every tick. */
module KernelTurns {
  import opened Seqs
  import opened QueueTable
  import opened Semaphores
  import opened KernelSpec
  import opened KernelInvariants
  import opened KernelRuns
  import opened KernelFifo
  import opened KernelSleep

  // ---- one reschedule ----

  /** The processor and the clock are where they were. */
  predicate SameTurn(k: Kern, k': Kern) {
    k'.curr == k.curr && k'.preempt == k.preempt && k'.count1000 == k.count1000 && k'.clktime == k.clktime
  }

  ghost predicate NoneReadied(ps: Procs, ps': Procs) {
    forall p: Pid :: CanRun(ps'[p].state) ==> CanRun(ps[p].state)
  }

  /** The process c, which had the processor, has given way to all of its own priority: it still runs only
      if everyone ready is of lower priority, and if it is ready it is behind all of its own or a higher one. */
  ghost predicate GaveWay(k: Kern, c: Pid)
    requires Sized(k)
  {
    if k.curr == c then forall q :: q in k.ready ==> k.procs[q].prio < k.procs[c].prio
    else c in k.ready ==>
      forall q: Pid :: q in k.ready && q != c && k.procs[q].prio >= k.procs[c].prio ==> Before(k.ready, q, c)
  }

  lemma ReschedTurns(k: Kern)
    requires Placed(k, NPROC) && k.procs[k.curr].state != Ready
    ensures var k' := Resched(k);
      && k'.count1000 == k.count1000 && k'.clktime == k.clktime
      && k'.preempt == (if k'.curr == k.curr then k.preempt else QUANTUM)
      && (k.ndefers == 0 ==> GaveWay(k', k.curr)) && NoneReadied(k.procs, k'.procs)
  {
    if k.ndefers > 0 {
    } else if k.procs[k.curr].state == Curr {
      if k.ready != [] && k.procs[k.curr].prio <= k.procs[k.ready[0]].prio {
        RotateTurns(k);
      }
    } else {
      ReadyNeverEmpty(k);
      assert k.ready[0] in k.ready && k.curr !in k.ready;
    }
  }

  /** c, put at its place in a ready list whose first member leaves, is behind all of its priority or a higher one. */
  lemma PlacedBehind(ps: Procs, r: seq<Pid>, c: Pid, r': seq<Pid>)
    requires ReadyX(ps, r, c) && r != [] && ps[r[0]].prio >= ps[c].prio
    requires var at := ReadyPlace(ps, r, ps[c].prio); at >= 1 ==> r' == r[1..at] + [c] + r[at..]
    ensures forall q: Pid :: q in r' && q != c && ps[q].prio >= ps[c].prio ==> Before(r', q, c)
  {
    var at := ReadyPlace(ps, r, ps[c].prio);
    assert forall i :: at <= i < |r| ==> ps[r[i]].prio <= ps[r[at]].prio < ps[c].prio;
    forall q: Pid | q in r' && q != c && ps[q].prio >= ps[c].prio ensures Before(r', q, c) {
      var j := Index(r', q);
      assert r'[at - 1] == c;
      BeforeAt(r', j, at - 1);
    }
  }

  lemma EnlistBehind(k: Kern, c: Pid, at: int)
    requires Sized(k) && k.ready != [] && at == ReadyPlace(k.procs, k.ready, k.procs[c].prio) && at >= 1
    ensures Enlist(k, c).ready == [k.ready[0]] + (k.ready[1..at] + [c] + k.ready[at..])
  {
    assert k.ready[..at] == [k.ready[0]] + k.ready[1..at];
  }

  /** The current process goes to its place among the ready ones, and the first of them runs. */
  lemma RotateIs(k: Kern)
    requires Placed(k, NPROC) && k.procs[k.curr].state == Curr && k.ndefers == 0
    requires k.ready != [] && k.procs[k.curr].prio <= k.procs[k.ready[0]].prio
    ensures var k', c, h, at := Resched(k), k.curr, k.ready[0], ReadyPlace(k.procs, k.ready, k.procs[k.curr].prio);
      && at >= 1 && h != c && k.procs[h].state == Ready
      && k' == k.(procs := k'.procs, ready := k.ready[1..at] + [c] + k.ready[at..], curr := h, preempt := QUANTUM)
      && k'.procs == k.procs[c := k.procs[c].(state := Ready)][h := k.procs[h].(state := Curr)]
  {
    var c, h, at := k.curr, k.ready[0], ReadyPlace(k.procs, k.ready, k.procs[k.curr].prio);
    assert h in k.ready && h != c;
    EnlistBehind(k, c, at);
    assert Enlist(k, c).ready[1..] == k.ready[1..at] + [c] + k.ready[at..];
    assert Resched(k) == Switch(Enlist(k, c));
  }

  lemma BehindGaveWay(k: Kern, k': Kern)
    requires Sized(k) && Sized(k') && k'.curr != k.curr && forall p: Pid :: k'.procs[p].prio == k.procs[p].prio
    requires forall q: Pid ::
      q in k'.ready && q != k.curr && k.procs[q].prio >= k.procs[k.curr].prio ==> Before(k'.ready, q, k.curr)
    ensures GaveWay(k', k.curr)
  {}

  lemma RotateTurns(k: Kern)
    requires Placed(k, NPROC) && k.procs[k.curr].state == Curr && k.ndefers == 0
    requires k.ready != [] && k.procs[k.curr].prio <= k.procs[k.ready[0]].prio
    ensures var k' := Resched(k);
      && k'.curr != k.curr && k'.preempt == QUANTUM && k'.count1000 == k.count1000 && k'.clktime == k.clktime
      && GaveWay(k', k.curr) && NoneReadied(k.procs, k'.procs)
  {
    var k' := Resched(k);
    RotateIs(k);
    CurrLoose(k);
    PlacedBehind(k.procs, k.ready, k.curr, k'.ready);
    BehindGaveWay(k, k');
  }

  /** From k the call comes to k1 without touching the processor, and then, if last, reschedules. Unless it
      does, and unless rescheduling is deferred, it has readied nobody. */
  ghost predicate Ends(k: Kern, k1: Kern, last: bool, k': Kern)
    requires Sized(k)
  {
    && Sized(k1) && SameTurn(k, k1) && k' == (if last then Resched(k1) else k1)
    && (last ==> Placed(k1, NPROC) && k1.procs[k.curr].state != Ready && (k.ndefers == 0 ==> k1.ndefers == 0))
    && (!last && k.ndefers == 0 ==> NoneReadied(k.procs, k1.procs))
  }

  // ---- loops under deferral ----

  /** Under deferral nothing moves but that processes are readied, which asks for a reschedule. */
  ghost predicate Looped(k: Kern, k': Kern) {
    && SameTurn(k, k') && k'.ndefers == k.ndefers && (k.attempt ==> k'.attempt) && (k'.attempt || k'.procs == k.procs)
  }

  lemma MakeReadyLooped(k: Kern, p: int)
    requires Sized(k) && k.ndefers > 0
    ensures Looped(k, MakeReady(k, p))
  {}

  lemma {:induction false} PostNLooped(k: Kern, s: int, n: nat)
    requires Sized(k) && 0 <= s < NSEM && k.ndefers > 0
    ensures Looped(k, PostN(k, s, n))
    decreases n
  {
    if n > 0 {
      var rest: nat := n - 1;
      PostNUnfold(k, s, n, rest);
      PostLooped(k, s);
      PostNLooped(Post(k, s), s, rest);
    }
  }

  lemma PostLooped(k: Kern, s: int)
    requires Sized(k) && 0 <= s < NSEM && k.ndefers > 0
    ensures Looped(k, Post(k, s))
  {}

  lemma {:induction false} DrainLooped(k: Kern, s: int)
    requires Sized(k) && 0 <= s < NSEM && k.ndefers > 0
    ensures Looped(k, Drain(k, s))
    decreases |k.sems[s].queue|
  {
    if k.sems[s].queue != [] { DrainLooped(PopOne(k, s), s); }
  }

  lemma {:induction false} ReleaseAllLooped(k: Kern, s: int)
    requires Sized(k) && 0 <= s < NSEM && k.ndefers > 0
    ensures Looped(k, ReleaseAll(k, s))
    decreases -k.sems[s].count
  {
    var k1 := SetSem(k, s, k.sems[s].(count := k.sems[s].count + 1));
    if k.sems[s].count < 0 { ReleaseAllLooped(if k.sems[s].queue == [] then k1 else PopOne(k1, s), s); }
  }

  lemma {:induction false} WakeLoopLooped(k: Kern)
    requires Sized(k) && k.ndefers > 0
    ensures Looped(k, WakeLoop(k))
    decreases |k.sleep|
  {
    if k.sleep != [] && k.sleep[0].delta <= 0 {
      WakeLoopLooped(MakeReady(k.(sleep := k.sleep[1..]), k.sleep[0].pid));
    }
  }

  /** The end of such a loop. */
  lemma LoopEnds(k: Kern, k2: Kern) returns (k1: Kern, last: bool)
    requires Inv(k) && Inv(k2) && Looped(DeferStart(k), k2)
    ensures Ends(k, k1, last, DeferStop(k2)) && DeferStop(k2).ndefers == k.ndefers
  {
    k1, last := k2.(ndefers := k2.ndefers - 1), k.ndefers == 0 && k2.attempt;
  }

  // ---- every call ----

  lemma PostEnds(k: Kern, s: int) returns (k1: Kern, last: bool)
    requires Inv(k) && 0 <= s < NSEM && k.sems[s].used
    ensures Ends(k, k1, last, Post(k, s))
  {
    last := Released(k.sems[s]) != [];
    k1 := SetSem(k, s, Up(k.sems[s]));
    if last {
      PopQueue(k, s, Up(k.sems[s]));
      EnlistPlaced(k1, k.sems[s].queue[0]);
      k1 := Enlist(k1, k.sems[s].queue[0]);
    }
  }

  lemma SignalNEnds(k: Kern, s: int, n: nat) returns (k1: Kern, last: bool)
    requires Inv(k) && !IsBadSem(k, s)
    ensures Ends(k, k1, last, SignalN(k, s, n))
  {
    PostNInv(DeferStart(k), s, n);
    PostNLooped(DeferStart(k), s, n);
    k1, last := LoopEnds(k, PostN(DeferStart(k), s, n));
  }

  lemma SemResetEnds(k: Kern, s: int, count: nat) returns (k1: Kern, last: bool)
    requires Inv(k) && !IsBadSem(k, s)
    ensures Ends(k, k1, last, SemReset(k, s, count))
  {
    var k2 := Drain(DeferStart(k), s);
    DrainInv(DeferStart(k), s);
    DrainLooped(DeferStart(k), s);
    SetCountPlaced(k2, s, k2.sems[s].(count := count), NPROC);
    k1, last := LoopEnds(k, SetSem(k2, s, k2.sems[s].(count := count)));
  }

  lemma SemDeleteEnds(k: Kern, s: int) returns (k1: Kern, last: bool)
    requires Inv(k) && !IsBadSem(k, s)
    ensures Ends(k, k1, last, SemDelete(k, s))
  {
    var v := k.sems[s].(used := false);
    var k0 := DeferStart(SetSem(k, s, v));
    SetCountPlaced(k, s, v, NPROC);
    ReleaseAllInv(k0, s);
    ReleaseAllSems(k0, s);
    ReleaseAllLooped(k0, s);
    k1, last := LoopEnds(k, ReleaseAll(k0, s));
  }

  lemma WaitEnds(k: Kern, s: int) returns (k1: Kern, last: bool)
    requires Inv(k) && (Parks(k, CWait(s)) ==> CanPark(k))
    ensures Ends(k, k1, last, WaitSem(k, s))
  {
    k1, last := WaitSem(k, s), Parks(k, CWait(s));
    if last {
      WaitPlaced(k, s);
      k1 := SetSem(k, s, Down(k.sems[s], k.curr)).(procs := k.procs[k.curr := k.procs[k.curr].(state := Wait, sem := s)]);
    }
  }

  lemma SemCallEnds(k: Kern, c: Call) returns (k1: Kern, last: bool)
    requires Inv(k) && OnSem(c) && (Parks(k, c) ==> CanPark(k))
    ensures Ends(k, k1, last, Apply(k, c))
  {
    k1, last := Apply(k, c), false;
    match c
    case CWait(s) => k1, last := WaitEnds(k, s);
    case CSignal(s) => if !IsBadSem(k, s) { k1, last := PostEnds(k, s); }
    case CSignalN(s, n) => if !IsBadSem(k, s) && n >= 0 { k1, last := SignalNEnds(k, s, n); }
    case CSemReset(s, n) => if !IsBadSem(k, s) && n >= 0 { k1, last := SemResetEnds(k, s, n); }
    case CSemDelete(s) => if !IsBadSem(k, s) { k1, last := SemDeleteEnds(k, s); }
    case CSemCreate(_) =>
  }

  lemma AsleepEnds(k: Kern, st: PrState, delay: nat) returns (k1: Kern)
    requires Inv(k) && CanPark(k) && (st == Sleep || (st == Rectim && !k.procs[k.curr].hasmsg))
    ensures Ends(k, k1, true, Resched(SetState(k, k.curr, st).(sleep := InsertDelta(k.sleep, k.curr, delay))))
  {
    AsleepPlaced(k, st, delay);
    k1 := SetState(k, k.curr, st).(sleep := InsertDelta(k.sleep, k.curr, delay));
  }

  lemma StopEnds(k: Kern, st: PrState) returns (k1: Kern)
    requires Inv(k) && CanPark(k) && (st == Susp || st == Free || (st == Recv && !k.procs[k.curr].hasmsg))
    ensures Ends(k, k1, true, Resched(SetState(k, k.curr, st)))
  {
    k1 := SetState(k, k.curr, st);
    SetStateFrame(k.procs, k1.procs, k.curr, NPROC, NPROC);
  }

  lemma ReadyEnds(k: Kern, k0: Kern, p: Pid) returns (k1: Kern)
    requires Inv(k) && Sized(k0) && SameTurn(k, k0) && k0.ndefers == k.ndefers && k0.procs[p].state != Free && p != k.curr
    requires k0.procs[k.curr].state == Curr && Placed(Enlist(k0, p), NPROC)
    ensures Ends(k, k1, true, MakeReady(k0, p))
  {
    k1 := Enlist(k0, p);
  }

  lemma SendEnds(k: Kern, p: int, msg: int) returns (k1: Kern, last: bool)
    requires Inv(k)
    ensures Ends(k, k1, last, Send(k, p, msg))
  {
    k1, last := Send(k, p, msg), false;
    if !IsBadPid(k, p) && !k.procs[p].hasmsg {
      var k0 := k.(procs := k.procs[p := k.procs[p].(msg := msg, hasmsg := true)]);
      if k.procs[p].state == Recv {
        SuspLoose(k, p);
        DeliverPlaced(k, p, msg);
        last := true;
        k1 := ReadyEnds(k, k0, p);
      } else if k.procs[p].state == Rectim {
        RemoveDeltaFacts(k.sleep, p);
        RemoveAsleep(k, p, RemoveDelta(k.sleep, p));
        DeliverPlaced(Unsleep(k, p), p, msg);
        last := true;
        k1 := ReadyEnds(k, Unsleep(k0, p), p);
      }
    }
  }

  lemma ResumeEnds(k: Kern, p: int) returns (k1: Kern, last: bool)
    requires Inv(k)
    ensures Ends(k, k1, last, Resume(k, p))
  {
    k1, last := Resume(k, p), !IsBadPid(k, p) && k.procs[p].state == Susp;
    if last {
      SuspLoose(k, p);
      EnlistPlaced(k, p);
      k1 := ReadyEnds(k, k, p);
    }
  }

  lemma SuspendEnds(k: Kern, p: int) returns (k1: Kern, last: bool)
    requires Inv(k) && (Parks(k, CSuspend(p)) ==> CanPark(k))
    ensures Ends(k, k1, last, Suspend(k, p))
  {
    k1, last := Suspend(k, p), Parks(k, CSuspend(p));
    if last { k1 := StopEnds(k, Susp); }
  }

  lemma KillEnds(k: Kern, p: int) returns (k1: Kern, last: bool)
    requires Inv(k) && (Parks(k, CKill(p)) ==> CanPark(k))
    ensures Ends(k, k1, last, Kill(k, p))
  {
    k1, last := Kill(k, p), Parks(k, CKill(p));
    if last { k1 := StopEnds(k, Free); }
  }

  lemma StopDeferEnds(k: Kern) returns (k1: Kern, last: bool)
    requires Inv(k)
    ensures Ends(k, k1, last, DeferStop(k))
  {
    last := k.ndefers == 1 && k.attempt;
    k1 := if last then k.(ndefers := 0) else DeferStop(k);
  }

  lemma MessageEnds(k: Kern, c: Call) returns (k1: Kern, last: bool)
    requires Inv(k) && (Parks(k, c) ==> CanPark(k)) && (c.CReceive? || c.CRecvTime? || c.CRecvClr? || c.CSend?)
    ensures Ends(k, k1, last, Apply(k, c))
  {
    k1, last := Apply(k, c), Parks(k, c);
    match c
    case CReceive => if last { k1 := StopEnds(k, Recv); }
    case CRecvTime(w) => if last { k1 := AsleepEnds(k, Rectim, w); }
    case CSend(p, m) => k1, last := SendEnds(k, p, m);
    case CRecvClr =>
  }

  lemma SleepEnds(k: Kern, d: int) returns (k1: Kern, last: bool)
    requires Inv(k) && (d > 0 ==> CanPark(k))
    ensures Ends(k, k1, last, SleepMs(k, d))
  {
    k1, last := k, d >= 0;
    if d > 0 { k1 := AsleepEnds(k, Sleep, d); }
  }

  lemma CreateEnds(k: Kern, prio: int, stack: bool)
    requires Inv(k)
    ensures Ends(k, Create(k, prio, stack).0, false, Create(k, prio, stack).0)
  {}

  lemma StoppingEnds(k: Kern, c: Call) returns (k1: Kern, last: bool)
    requires Inv(k) && (Parks(k, c) ==> CanPark(k)) && (c.CSuspend? || c.CKill?)
    ensures Ends(k, k1, last, Apply(k, c))
  {
    if c.CSuspend? { k1, last := SuspendEnds(k, c.p); } else { k1, last := KillEnds(k, c.p); }
  }

  lemma StartingEnds(k: Kern, c: Call) returns (k1: Kern, last: bool)
    requires Inv(k) && (c.CResume? || c.CCreate?)
    ensures Ends(k, k1, last, Apply(k, c))
  {
    if c.CResume? {
      k1, last := ResumeEnds(k, c.p);
    } else {
      k1, last := Create(k, c.prio, c.stack).0, false;
      CreateEnds(k, c.prio, c.stack);
    }
  }

  lemma TurnEnds(k: Kern, c: Call) returns (k1: Kern, last: bool)
    requires Inv(k) && (Parks(k, c) ==> CanPark(k))
    requires c.CSleepMs? || c.CYield? || c.CDeferStart? || c.CDeferStop? || c.CFinish?
    ensures Ends(k, k1, last, Apply(k, c))
  {
    match c
    case CSleepMs(d) => k1, last := SleepEnds(k, d);
    case CYield => k1, last := k, true;
    case CDeferStop => k1, last := StopDeferEnds(k);
    case CDeferStart => k1, last := DeferStart(k), false;
    case CFinish => k1, last := k, false;
  }

  /** Every call reschedules at most once, at its end; and it does so, unless that is deferred, whenever it
      has readied somebody. */
  lemma CallEnds(k: Kern, c: Call) returns (k1: Kern, last: bool)
    requires Inv(k) && (Parks(k, c) ==> CanPark(k)) && c != CTick
    ensures Ends(k, k1, last, Apply(k, c))
  {
    if OnSem(c) {
      k1, last := SemCallEnds(k, c);
    } else if c.CReceive? || c.CRecvTime? || c.CRecvClr? || c.CSend? {
      k1, last := MessageEnds(k, c);
    } else if c.CSuspend? || c.CKill? {
      k1, last := StoppingEnds(k, c);
    } else if c.CResume? || c.CCreate? {
      k1, last := StartingEnds(k, c);
    } else {
      k1, last := TurnEnds(k, c);
    }
  }

  // ---- one tick ----

  lemma CountTickInv(k: Kern)
    requires Inv(k)
    ensures Inv(CountTick(k))
  {}

  lemma CountDownEnds(k: Kern) returns (k1: Kern, last: bool)
    requires Inv(k) && k.sleep != []
    ensures Ends(k, k1, last, CountDown(k)) && CountDown(k).ndefers == k.ndefers
  {
    var k2 := CountDownSleeper(k, k.sleep[0].delta - 1);
    k1, last := CountDown(k), false;
    if k2.sleep[0].delta <= 0 { k1, last := DueEnds(k, k2); }
  }

  lemma FrontEnds(k: Kern) returns (k1: Kern, last: bool)
    requires Inv(k)
    ensures Ends(CountTick(k), k1, last, TickFront(k)) && TickFront(k).ndefers == k.ndefers
  {
    CountTickInv(k);
    k1, last := CountTick(k), false;
    if k.sleep != [] { k1, last := CountDownEnds(CountTick(k)); }
  }

  /** wakeup, called when the first delay is used up. */
  lemma DueEnds(k: Kern, k2: Kern) returns (k1: Kern, last: bool)
    requires Inv(k) && k.sleep != [] && k2 == k.(sleep := k.sleep[0 := k.sleep[0].(delta := k.sleep[0].delta - 1)])
    requires k2.sleep[0].delta <= 0
    ensures Ends(k, k1, last, Wakeup(k2)) && Wakeup(k2).ndefers == k.ndefers
  {
    DeferStartInv(k);
    WakeFirst(DeferStart(k), DeferStart(k2));
    WakeLoopLooped(DeferStart(k2));
    k1, last := LoopEnds(k, WakeLoop(DeferStart(k2)));
  }

  /** What a call makes of the processor: whoever takes over has a whole quantum, whoever keeps it has what
      it had. */
  lemma EndsTurns(k: Kern, k1: Kern, last: bool, k': Kern)
    requires Inv(k) && Ends(k, k1, last, k')
    ensures k'.count1000 == k.count1000 && k'.clktime == k.clktime
    ensures k'.preempt == if k'.curr == k.curr then k.preempt else QUANTUM
    ensures k.ndefers == 0 ==> NoneReadied(k.procs, k'.procs) || (Sized(k') && GaveWay(k', k.curr))
  {
    if last { ReschedTurns(k1); }
  }

  /** The quantum is used up by the last of its ticks. */
  function Spent(preempt: int): (r: int) { if preempt == 1 then QUANTUM else preempt - 1 }

  lemma LastMs(k: Kern)
    requires Inv(k)
    ensures k.preempt == 1 ==> TickRest(k) == Resched(k.(preempt := QUANTUM)) && Inv(k.(preempt := QUANTUM))
    ensures k.preempt != 1 ==> TickRest(k) == k.(preempt := Spent(k.preempt)) && 1 <= Spent(k.preempt) <= QUANTUM
  {
    if k.preempt == 1 { PreemptInv(k, QUANTUM); }
  }

  lemma RestTurns(k: Kern)
    requires Inv(k)
    ensures var k' := TickRest(k);
      && k'.count1000 == k.count1000 && k'.clktime == k.clktime && NoneReadied(k.procs, k'.procs)
      && k'.preempt == (if k'.curr == k.curr then Spent(k.preempt) else QUANTUM)
      && (k.ndefers == 0 && (GaveWay(k, k.curr) || k.preempt == 1) ==> GaveWay(k', k.curr))
      && (k'.curr != k.curr ==> k.preempt == 1)
  {
    LastMs(k);
    if k.preempt == 1 { ReschedTurns(k.(preempt := QUANTUM)); } else { SameGaveWay(k, TickRest(k)); }
  }

  lemma SameGaveWay(k: Kern, k': Kern)
    requires Sized(k) && Sized(k') && k'.procs == k.procs && k'.ready == k.ready && k'.curr == k.curr
    ensures GaveWay(k, k.curr) ==> GaveWay(k', k.curr)
    ensures NoneReadied(k.procs, k'.procs)
  {}

  /** clkhandler up to wakeup: the clock has moved on; a process that takes over has a whole quantum. */
  lemma FrontTurns(k: Kern)
    requires Inv(k)
    ensures var f := TickFront(k);
      && Inv(f) && Ticked(k, f) && f.ndefers == k.ndefers && f.preempt == (if f.curr == k.curr then k.preempt else QUANTUM)
      && (k.ndefers == 0 ==> NoneReadied(k.procs, f.procs) || GaveWay(f, k.curr))
  {
    var k1, last := FrontEnds(k);
    EndsTurns(CountTick(k), k1, last, TickFront(k));
    TickFrontInv(k);
  }

  /** What a step makes of the processor. */
  ghost predicate Turned(k: Kern, k': Kern, spends: bool)
    requires Sized(k)
  {
    && Sized(k')
    && k'.preempt == (if k'.curr != k.curr then QUANTUM else if spends then Spent(k.preempt) else k.preempt)
    && (k.ndefers == 0 ==> NoneReadied(k.procs, k'.procs) || GaveWay(k', k.curr))
  }

  lemma TickTurns(k: Kern)
    requires Inv(k)
    ensures Turned(k, Tick(k), true) && Ticked(k, Tick(k))
    ensures k.ndefers == 0 && k.preempt == 1 && Tick(k).curr == k.curr ==> GaveWay(Tick(k), k.curr)
  {
    FrontTurns(k);
    if TickFront(k).curr == k.curr { RestTurns(TickFront(k)); }
  }

  // ---- what holds of every step ----

  /** The step takes a millisecond off the running process's quantum: a tick, or what was left of one. */
  predicate Spends(y: Sys, c: Call)
    requires Sized(y.k) && |y.pc| == NPROC
  {
    c == CTick || (c == CFinish && y.pc[y.k.curr] == InTick)
  }

  /** Whoever takes over the processor has a whole quantum; whoever keeps it loses of it what ticks take. */
  lemma QuantumStep(y: Sys, c: Call)
    requires Good(y) && Enabled(y, c)
    ensures var k, k' := y.k, Step(y, c).k;
      k'.preempt == if k'.curr != k.curr then QUANTUM else if Spends(y, c) then Spent(k.preempt) else k.preempt
  {
    StepTurns(y, c);
  }

  /** The processor is lost in a tick to a sleeper that was due, or with the last of the quantum. */
  lemma TickLoses(k: Kern)
    requires Inv(k) && Tick(k).curr != k.curr
    ensures if TickFront(k).curr == k.curr then k.preempt == 1 else k.sleep != [] && k.sleep[0].delta <= 1
  {
    FrontTurns(k);
    if TickFront(k).curr == k.curr { RestTurns(TickFront(k)); }
  }

  /** A process that loses the processor in a tick, and not for having used up its quantum, has the rest of that
      tick still to do when it runs again; so does nobody else, and only when the first sleeper was due. */
  lemma TickFinishes(y: Sys)
    requires Good(y) && Enabled(y, CTick)
    ensures var k, k', pc' := y.k, Step(y, CTick).k, Step(y, CTick).pc;
      && (pc' == y.pc || pc' == y.pc[k.curr := InTick])
      && (pc'[k.curr] == InTick ==> k'.curr != k.curr && k.sleep != [] && k.sleep[0].delta <= 1)
      && (k'.curr != k.curr && k.preempt > 1 ==> pc'[k.curr] == InTick)
  {
    TickIs(y);
    if Tick(y.k).curr != y.k.curr { TickLoses(y.k); }
  }

  lemma TickIs(y: Sys)
    requires Sized(y.k) && |y.pc| == NPROC
    ensures Step(y, CTick) == Sys(Tick(y.k), if TickFront(y.k).curr == y.k.curr then y.pc else y.pc[y.k.curr := InTick])
    ensures TickFront(y.k).curr != y.k.curr ==> Tick(y.k).curr != y.k.curr
  {}

  /** When a step makes any process eligible, the process that was running gives way to all of its own
      priority, unless rescheduling is deferred. */
  lemma ReadyGivesWay(y: Sys, c: Call, p: Pid)
    requires Good(y) && Enabled(y, c) && y.k.ndefers == 0
    requires !CanRun(y.k.procs[p].state) && CanRun(Step(y, c).k.procs[p].state)
    ensures GaveWay(Step(y, c).k, y.k.curr)
  {
    StepTurns(y, c);
  }

  lemma StepIs(y: Sys, c: Call)
    requires Sized(y.k) && |y.pc| == NPROC && c != CFinish
    ensures Step(y, c).k == Apply(y.k, c) && (Spends(y, c) <==> c == CTick)
  {}

  lemma CallTurns(k: Kern, c: Call)
    requires Inv(k) && (Parks(k, c) ==> CanPark(k)) && c != CTick && c != CFinish
    ensures Turned(k, Apply(k, c), false) && Apply(k, c).count1000 == k.count1000 && Apply(k, c).clktime == k.clktime
  {
    var k1, last := CallEnds(k, c);
    EndsTurns(k, k1, last, Apply(k, c));
  }

  lemma StepTurns(y: Sys, c: Call)
    requires Good(y) && Enabled(y, c)
    ensures Turned(y.k, Step(y, c).k, Spends(y, c))
  {
    if c == CFinish {
      FinishTurns(y);
    } else {
      StepIs(y, c);
      ApplyTurns(y.k, c);
    }
  }

  lemma ApplyTurns(k: Kern, c: Call)
    requires Inv(k) && (Parks(k, c) ==> CanPark(k)) && c != CFinish
    ensures Turned(k, Apply(k, c), c == CTick)
  {
    if c == CTick { TickTurns(k); } else { CallTurns(k, c); }
  }

  /** And of the clock. */
  predicate SameClock(k: Kern, k': Kern) { k'.count1000 == k.count1000 && k'.clktime == k.clktime }

  lemma CallClock(k: Kern, c: Call)
    requires Inv(k) && (Parks(k, c) ==> CanPark(k)) && c != CTick && c != CFinish
    ensures SameClock(k, Apply(k, c))
  {
    CallTurns(k, c);
  }

  lemma FinishClock(y: Sys)
    requires Good(y) && y.pc[y.k.curr] != User
    ensures SameClock(y.k, Step(y, CFinish).k)
  {
    FinishTurns(y);
  }

  lemma OtherClock(y: Sys, c: Call)
    requires Good(y) && Enabled(y, c) && c != CTick
    ensures SameClock(y.k, Step(y, c).k)
  {
    if c == CFinish {
      FinishClock(y);
    } else {
      StepIs(y, c);
      CallClock(y.k, c);
    }
  }

  lemma FinishTurns(y: Sys)
    requires Good(y) && y.pc[y.k.curr] != User
    ensures var k, k' := y.k, Step(y, CFinish).k;
      && Turned(k, k', Spends(y, CFinish)) && k'.count1000 == k.count1000 && k'.clktime == k.clktime
  {
    if y.pc[y.k.curr] == InTick { RestTurns(y.k); }
  }

  // ---- yielding, and the quantum ----

  /** The first ready process runs, and the one that ran is ready behind all of its own priority; nobody else
      moves. */
  ghost predicate Rotated(k: Kern, k': Kern)
    requires Sized(k) && k.ready != []
  {
    && k' == k.(procs := k'.procs, ready := k'.ready, curr := k.ready[0], preempt := QUANTUM) && Sized(k')
    && k'.procs[k.curr].state == Ready && k.curr in k'.ready && GaveWay(k', k.curr)
    && (forall p: Pid :: p != k.curr && p != k.ready[0] ==> k'.procs[p] == k.procs[p])
    && Without(k'.ready, k.curr) == k.ready[1..]
  }

  /** yield, and sleepms of 0: when the first ready process is of the caller's priority it runs, and the
      caller is ready behind all of that priority; otherwise nothing changes. Under deferral a reschedule is
      asked for, and nothing else changes. */
  lemma YieldRotates(y: Sys, c: Call)
    requires Good(y) && Enabled(y, c) && (c == CYield || c == CSleepMs(0))
    ensures var k, k' := y.k, Step(y, c).k;
      if k.ndefers > 0 then k' == k.(attempt := true)
      else if EqualReady(k) then Rotated(k, k')
      else k' == k
  {
    assert Step(y, c).k == Resched(y.k);
    if EqualReady(y.k) { EqualRotates(y.k); } else if y.k.ndefers == 0 { NothingBetter(y.k); }
  }

  lemma NothingBetter(k: Kern)
    requires Inv(k) && k.ndefers == 0 && !EqualReady(k)
    ensures Resched(k) == k
  {
    assert k.ready != [] ==> k.ready[0] in k.ready;
  }

  lemma EqualRotates(k: Kern)
    requires Inv(k) && EqualReady(k)
    ensures k.ndefers == 0 ==> Rotated(k, Resched(k))
  {
    if k.ndefers == 0 {
      RotateIs(k);
      RotateTurns(k);
      assert k.curr !in k.ready;
      BackInserted(k.ready, ReadyPlace(k.procs, k.ready, k.procs[k.curr].prio), k.curr);
    }
  }

  lemma BackInserted(r: seq<Pid>, at: int, c: Pid)
    requires NoDup(r) && c !in r && 1 <= at <= |r|
    ensures Without(r[1..at] + [c] + r[at..], c) == r[1..]
  {
    var rest, s := r[1..], r[1..at] + [c] + r[at..];
    assert s == InsertAt(rest, at - 1, c);
    InsertNoDup(rest, at - 1, c);
    assert s[at - 1] == c;
    WithoutAt(s, at - 1);
    assert s[..at - 1] + s[at..] == rest;
  }

  /** A deferral during which nobody asks for a reschedule leaves everything as it was; one during which the
      caller yields ends as if it had yielded then. */
  lemma DeferralEnds(k: Kern)
    requires Inv(k) && k.ndefers == 0
    ensures DeferStop(DeferStart(k)) == k.(attempt := false)
    ensures DeferStop(DeferStop(DeferStart(DeferStart(k)))) == k.(attempt := false)
    ensures DeferStop(Resched(DeferStart(k))) == Resched(k.(attempt := true))
    ensures DeferStop(DeferStop(DeferStart(Resched(DeferStart(k))))) == Resched(k.(attempt := true))
    ensures DeferStop(k) == k
  {}

  predicate EqualReady(k: Kern)
    requires Sized(k)
  {
    k.ready != [] && k.procs[k.ready[0]].prio == k.procs[k.curr].prio
  }

  /** Along the run p is current, nothing is deferred, and at each tick someone of its priority is first on
      the ready list. */
  ghost predicate Contended(y: Sys, cs: seq<Call>, p: Pid)
    requires Sized(y.k) && |y.pc| == NPROC
    decreases |cs|
  {
    && y.k.curr == p && y.k.ndefers == 0
    && (cs == [] || ((cs[0] == CTick ==> EqualReady(y.k)) && Contended(Step(y, cs[0]), cs[1..], p)))
  }

  /** With its quantum used up, the tick takes the processor from a process that has an equal. */
  lemma LastTick(k: Kern)
    requires Inv(k) && k.ndefers == 0 && k.preempt == 1 && EqualReady(k)
    ensures Tick(k).curr != k.curr
  {
    TickTurns(k);
    TickInv(k);
    TickServed(k);
    if Tick(k).curr == k.curr { StillReady(k); }
  }

  /** The tick takes nobody off the ready list but to run. */
  lemma StillReady(k: Kern)
    requires Inv(k) && k.ready != [] && Tick(k).curr == k.curr
    ensures k.ready[0] in Tick(k).ready && Tick(k).procs[k.ready[0]].prio == k.procs[k.ready[0]].prio
    ensures Tick(k).procs[k.curr].prio == k.procs[k.curr].prio
  {
    TickInv(k);
    assert k.ready[0] in k.ready;
  }

  /** A process that keeps the processor is not left in the middle of a call. */
  lemma UserKept(y: Sys, c: Call)
    requires Good(y) && Enabled(y, c) && y.pc[y.k.curr] == User && Step(y, c).k.curr == y.k.curr
    ensures Step(y, c).pc[y.k.curr] == User
  {
    StepGood(y, c);
    if c.CReceive? { ReceiveMail(y.k, c); }
    if c.CRecvTime? && Parks(y.k, c) { FallsAsleep(y, c, c.maxwait); }
  }

  /** A tick that does not take the processor from a process that has an equal takes a millisecond off its
      quantum. */
  lemma TickKeeps(k: Kern)
    requires Inv(k) && k.ndefers == 0 && EqualReady(k) && Tick(k).curr == k.curr
    ensures k.preempt > 1 && Tick(k).preempt == k.preempt - 1
  {
    TickTurns(k);
    if k.preempt == 1 { LastTick(k); }
  }

  lemma TickStepKeeps(y: Sys)
    requires Good(y) && Enabled(y, CTick) && y.k.ndefers == 0 && EqualReady(y.k) && Step(y, CTick).k.curr == y.k.curr
    ensures y.k.preempt > 1 && Step(y, CTick).k.preempt == y.k.preempt - 1
  {
    StepIs(y, CTick);
    TickKeeps(y.k);
  }

  lemma OtherKeeps(y: Sys, c: Call)
    requires Good(y) && Enabled(y, c) && y.pc[y.k.curr] == User && Step(y, c).k.curr == y.k.curr && c != CTick
    ensures Step(y, c).k.preempt == y.k.preempt
  {
    QuantumStep(y, c);
  }

  /** Nobody keeps the processor from an equal for longer than its quantum: while a process runs and another
      of its priority is first on the ready list, fewer ticks pass than are left of its quantum. */
  lemma {:induction false} RoundRobin(y: Sys, cs: seq<Call>, p: Pid)
    requires Good(y) && Legal(y, cs) && Contended(y, cs, p) && y.pc[p] == User
    ensures Ticks(cs) < y.k.preempt <= QUANTUM
    decreases |cs|
  {
    if cs != [] {
      StepGood(y, cs[0]);
      UserKept(y, cs[0]);
      if cs[0] == CTick { TickStepKeeps(y); } else { OtherKeeps(y, cs[0]); }
      RoundRobin(Step(y, cs[0]), cs[1..], p);
    }
  }

  // ---- the clock ----

  const WRAP := 0x1_0000_0000 * 1000

  /** The clock shows t milliseconds: whole seconds in 32 bits, and the rest. */
  predicate Shows(k: Kern, t: int) {
    0 <= k.count1000 < 1000 && 0 <= k.clktime < 0x1_0000_0000 && k.clktime * 1000 + k.count1000 == t
  }

  /** t, n milliseconds later. */
  function Later(t: int, n: nat): (r: int)
    decreases n
  {
    if n == 0 then t else Later(if t + 1 == WRAP then 0 else t + 1, n - 1)
  }

  lemma {:induction false} LaterIs(t: int, n: nat)
    requires 0 <= t < WRAP
    ensures Later(t, n) == (t + n) % WRAP
    decreases n
  {
    if n > 0 { LaterIs(if t + 1 == WRAP then 0 else t + 1, n - 1); }
  }

  /** What the clock shows after a call. */
  function Advance(t: int, c: Call): (r: int) { if c == CTick then Later(t, 1) else t }

  lemma AdvanceTicks(t: int, cs: seq<Call>)
    requires cs != []
    ensures Later(t, Ticks(cs)) == Later(Advance(t, cs[0]), Ticks(cs[1..]))
  {}

  /** One millisecond more on the clock. */
  predicate Ticked(k: Kern, k': Kern) {
    if k.count1000 + 1 >= 1000 then k'.count1000 == 0 && k'.clktime == (k.clktime + 1) % 0x1_0000_0000
    else k'.count1000 == k.count1000 + 1 && k'.clktime == k.clktime
  }

  lemma TickedShows(k: Kern, k': Kern, t: int)
    requires Shows(k, t) && Ticked(k, k')
    ensures Shows(k', Later(t, 1))
  {
    var s, m := k.clktime, k.count1000;
    assert t == s * 1000 + m;
    if m + 1 >= 1000 && s == 0xFFFF_FFFF {
      assert t + 1 == WRAP;
    }
  }

  lemma TickClock(k: Kern, t: int)
    requires Inv(k) && Shows(k, t)
    ensures Shows(Tick(k), Later(t, 1))
  {
    TickTurns(k);
    TickedShows(k, Tick(k), t);
  }

  lemma SameShows(k: Kern, k': Kern, t: int)
    requires SameClock(k, k') && Shows(k, t)
    ensures Shows(k', t)
  {}

  lemma ClockStep(y: Sys, c: Call, t: int)
    requires Good(y) && Enabled(y, c) && Shows(y.k, t)
    ensures Shows(Step(y, c).k, Advance(t, c))
  {
    if c == CTick {
      StepIs(y, c);
      TickClock(y.k, t);
    } else {
      OtherClock(y, c);
      SameShows(y.k, Step(y, c).k, t);
    }
  }

  /** Over every run the clock counts all ticks, and nothing else. */
  lemma {:induction false} ClockCounts(y: Sys, cs: seq<Call>, t: int)
    requires Good(y) && Legal(y, cs) && Shows(y.k, t)
    ensures Shows(Run(y, cs).k, Later(t, Ticks(cs)))
    decreases |cs|
  {
    if cs != [] {
      StepGood(y, cs[0]);
      ClockStep(y, cs[0], t);
      AdvanceTicks(t, cs);
      ClockCounts(Step(y, cs[0]), cs[1..], Advance(t, cs[0]));
    }
  }

  /** At start-up it shows 0. */
  lemma BootShows(y: Sys)
    requires y == Boot()
    ensures Shows(y.k, 0)
  {}
}
