/** What the calls refuse, what they find free, and in which order sleepers of one tick are woken. */
module KernelAnswers {
  import opened Seqs
  import opened QueueTable
  import opened Semaphores
  import opened KernelSpec
  import opened KernelInvariants
  import opened KernelRuns
  import opened KernelFifo
  import opened KernelSleep
  import opened KernelEffects

  // ---- refusals ----

  predicate NoSuchProcess(k: Kern, p: int)
    requires Sized(k)
  {
    p < 0 || p >= NPROC || k.procs[p].state == Free
  }

  predicate NoSuchSem(k: Kern, s: int)
    requires Sized(k)
  {
    s < 0 || s >= NSEM || !k.sems[s].used
  }

  /** The arguments for which the code answers SYSERR. */
  ghost predicate Refused(k: Kern, c: Call)
    requires Sized(k)
  {
    match c
    case CWait(s) => NoSuchSem(k, s)
    case CSignal(s) => NoSuchSem(k, s)
    case CSignalN(s, n) => NoSuchSem(k, s) || n < 0
    case CSemReset(s, n) => NoSuchSem(k, s) || n < 0
    case CSemDelete(s) => NoSuchSem(k, s)
    case CSemCreate(n) => n < 0 || forall s :: 0 <= s < NSEM ==> k.sems[s].used
    case CSleepMs(d) => d < 0
    case CRecvTime(w) => w < 0
    case CSend(p, _) => NoSuchProcess(k, p) || k.procs[p].hasmsg
    case CSuspend(p) => NoSuchProcess(k, p) || p == NULLPROC || (k.procs[p].state != Curr && k.procs[p].state != Ready)
    case CResume(p) => NoSuchProcess(k, p) || k.procs[p].state != Susp
    case CKill(p) => NoSuchProcess(k, p) || p == NULLPROC
    case CCreate(prio, stack) => prio < 1 || !stack || forall p: Pid :: k.procs[p].state != Free
    case CDeferStop => k.ndefers <= 0
    case _ => false
  }

  /** A call that is refused changes nothing but where the next search for a free entry begins. */
  lemma RefusedChangesNothing(y: Sys, c: Call)
    requires Good(y) && Enabled(y, c) && Refused(y.k, c)
    ensures Step(y, c).pc == y.pc
    ensures Step(y, c).k == y.k.(nextsem := Step(y, c).k.nextsem, nextpid := Step(y, c).k.nextpid)
    ensures !c.CSemCreate? && !c.CCreate? ==> Step(y, c) == y
  {
    if c.CSemCreate? { SemCreateMakes(y.k, c.count); }
    if c.CCreate? { CreateRefused(y, c); }
  }

  lemma CreateRefused(y: Sys, c: Call)
    requires Good(y) && c.CCreate? && Refused(y.k, c)
    ensures Step(y, c).pc == y.pc && Step(y, c).k == y.k.(nextpid := Step(y, c).k.nextpid)
  {
    CreateMakes(y.k, c.prio, c.stack);
  }

  // ---- free entries ----

  /** semcreate fails exactly for a negative count or with every entry in use; otherwise an entry that was
      free is in use with that count and without waiters, and nothing else has changed. */
  lemma SemCreateMakes(k: Kern, count: int)
    requires Inv(k)
    ensures var k', s := SemCreate(k, count).0, SemCreate(k, count).1;
      && (s == SYSERR <==> count < 0 || forall t :: 0 <= t < NSEM ==> k.sems[t].used)
      && (s == SYSERR ==> k' == k.(nextsem := k'.nextsem))
      && (s != SYSERR ==>
           && 0 <= s < NSEM && !k.sems[s].used
           && k' == k.(nextsem := k'.nextsem, sems := k.sems[s := Sem(true, count, [])]))
  {
    FindSemIff(k.sems, k.nextsem);
    var s := SemCreate(k, count).1;
    if s != SYSERR { assert Balanced(k.sems[s]); }
  }

  /** newsem takes the first free entry from where the last search ended, and the next search begins
      behind it. */
  lemma {:induction false} FirstFreeSem(sems: seq<Sem>, next: int, tries: nat, d: nat)
    requires |sems| == NSEM && 0 <= next < NSEM && d < tries <= NSEM
    requires forall e :: 0 <= e < d ==> sems[Around(next, e, NSEM)].used
    requires !sems[Around(next, d, NSEM)].used
    ensures FindSem(sems, next, tries) == (Around(next, d, NSEM), Around(next, d + 1, NSEM))
    decreases tries
  {
    assert Around(next, 0, NSEM) == next;
    if d > 0 {
      var next1 := Around(next, 1, NSEM);
      forall e | 0 <= e < d - 1 ensures sems[Around(next1, e, NSEM)].used { AroundNext(next, e, NSEM); }
      AroundNext(next, d - 1, NSEM);
      assert sems[Around(next, 0, NSEM)].used;
      FirstFreeSem(sems, next1, tries - 1, d - 1);
    }
  }

  /** newpid likewise takes the first free slot from there on, where NPROC stands for 0. */
  lemma {:induction false} FirstFreePid(procs: seq<Proc>, next: int, tries: nat, b: int, d: nat)
    requires |procs| == NPROC && 0 <= next <= NPROC && d < tries <= NPROC && b == (if next == NPROC then 0 else next)
    requires forall e :: 0 <= e < d ==> procs[Around(b, e, NPROC)].state != Free
    requires procs[Around(b, d, NPROC)].state == Free
    ensures FindPid(procs, next, tries) == (Around(b, d, NPROC), Around(b, d, NPROC) + 1)
    decreases tries
  {
    assert next % NPROC == b && Around(b, 0, NPROC) == b;
    if d > 0 {
      var b1 := Around(b, 1, NPROC);
      forall e | 0 <= e < d - 1 ensures procs[Around(b1, e, NPROC)].state != Free { AroundNext(b, e, NPROC); }
      AroundNext(b, d - 1, NPROC);
      assert procs[Around(b, 0, NPROC)].state != Free;
      FirstFreePid(procs, b + 1, tries - 1, b1, d - 1);
    }
  }

  /** semcreate: the entry d places on from where the last search ended, when it is the first free one. */
  lemma SemCreateTakesNext(k: Kern, count: nat, d: nat)
    requires Sized(k) && d < NSEM && !k.sems[Around(k.nextsem, d, NSEM)].used
    requires forall e :: 0 <= e < d ==> k.sems[Around(k.nextsem, e, NSEM)].used
    ensures var r := SemCreate(k, count); r.1 == Around(k.nextsem, d, NSEM) && r.0.nextsem == Around(k.nextsem, d + 1, NSEM)
  {
    FirstFreeSem(k.sems, k.nextsem, NSEM, d);
  }

  /** create: likewise, and the search has moved on even if then there is no stack. */
  lemma CreateTakesNext(k: Kern, prio: int, stack: bool, b: int, d: nat)
    requires Sized(k) && prio >= 1 && d < NPROC && b == (if k.nextpid == NPROC then 0 else k.nextpid)
    requires k.procs[Around(b, d, NPROC)].state == Free
    requires forall e :: 0 <= e < d ==> k.procs[Around(b, e, NPROC)].state != Free
    ensures var r, p := Create(k, prio, stack), Around(b, d, NPROC); r.0.nextpid == p + 1 && r.1 == if stack then p else SYSERR
  {
    FirstFreePid(k.procs, k.nextpid, NPROC, b, d);
  }

  /** At start-up there is the null process, which runs, and nothing else. */
  lemma BootMakes(k: Kern)
    requires k == Boot().k
    ensures k.curr == NULLPROC && k.procs[NULLPROC].state == Curr && k.procs[NULLPROC].prio == 0
    ensures forall p: Pid :: p != NULLPROC ==> k.procs[p].state == Free
    ensures forall s :: 0 <= s < NSEM ==> !k.sems[s].used
    ensures k.ready == [] && k.sleep == [] && k.ndefers == 0 && k.preempt == QUANTUM && k.nextsem == 0 && k.nextpid == 1
  {}

  // ---- sleepers of one tick ----

  lemma {:induction false} DeltaIndexIs(s: seq<Sleeper>, key: int, i: nat)
    requires NonNegative(s) && NoDup(SleepPids(s)) && i < |s|
    ensures i < DeltaIndex(s, key) <==> Deadline(s, s[i].pid) <= key
  {
    if i > 0 {
      assert SleepPids(s)[i] != SleepPids(s)[0];
      assert SleepPids(s[1..]) == SleepPids(s)[1..] && s[1..][i - 1] == s[i];
      DeltaIndexIs(s[1..], key - s[0].delta, i - 1);
      DeadlineAtLeast(s, i);
    }
  }

  lemma DeadlineAtLeast(s: seq<Sleeper>, i: nat)
    requires NonNegative(s) && i < |s|
    ensures Deadline(s, s[i].pid) >= s[0].delta
  {
    assert Sleeps(s, s[i].pid);
    DeadlineNonNegative(s, s[i].pid);
  }

  /** A new sleeper goes behind exactly those whose deadline is not later than its own. */
  lemma SleepsBehind(s: seq<Sleeper>, p: Pid, key: int, q: Pid)
    requires NonNegative(s) && NoDup(SleepPids(s)) && p !in SleepPids(s) && q in SleepPids(s)
    ensures var r := SleepPids(InsertDelta(s, p, key));
      if Deadline(s, q) <= key then Before(r, q, p) else Before(r, p, q)
  {
    var ids, at := SleepPids(s), DeltaIndex(s, key);
    var i := Index(ids, q);
    var r := InsertAt(ids, at, p);
    InsertDeltaPids(s, p, key);
    DeltaIndexIs(s, key, i);
    if i < at { BeforeAt(r, i, at); } else { BeforeAt(r, at, i + 1); }
  }

  /** The sleeper that is taken off is on the ready list. */
  lemma PoppedIsReady(k: Kern, k1: Kern)
    requires Inv(k) && k.ndefers >= 1 && k.sleep != []
    requires k1 == MakeReady(k.(sleep := k.sleep[1..]), k.sleep[0].pid)
    ensures Inv(k1) && k1.ndefers == k.ndefers && k.sleep[0].pid in k1.ready && SamePrio(k.procs, k1.procs)
  {
    assert SleepPids(k.sleep)[0] == k.sleep[0].pid && k.sleep[0].pid in SleepPids(k.sleep);
    PopSleeper(k);
    PopSleeperGrew(k);
  }

  /** And one that the loop wakes goes there. */
  lemma WokenIsReady(k: Kern, q: Pid)
    requires Inv(k) && k.ndefers >= 1 && q in SleepPids(k.sleep) && q !in SleepPids(Expire(k.sleep))
    ensures Inv(WakeLoop(k)) && GrewK(k, WakeLoop(k)) && q !in k.ready && q in WakeLoop(k).ready
  {
    WakeLoopInv(k);
    WakeLoopGrew(k);
    assert Asleep(k.procs[q].state) && k.procs[k.curr].state == Curr;
    assert CanRun(WakeLoop(k).procs[q].state) && WakeLoop(k).curr == k.curr != q;
  }

  /** p has been woken, and q is to be. */
  ghost predicate FirstDue(k: Kern, p: Pid, q: Pid) {
    && Inv(k) && k.ndefers >= 1 && p in k.ready && q in SleepPids(k.sleep) && q !in SleepPids(Expire(k.sleep))
    && k.procs[p].prio >= k.procs[q].prio
  }

  /** One woken before is ahead of the next. */
  lemma FirstWoken(k: Kern, p: Pid, q: Pid)
    requires FirstDue(k, p, q)
    ensures Before(WakeLoop(k).ready, p, q)
  {
    WokenIsReady(k, q);
    LinesUp(k.ready, WakeLoop(k).ready, k.procs, p, q);
  }

  /** One round of wakeup's loop. */
  lemma WakeLoopNext(k: Kern, p: Pid, q: Pid) returns (k1: Kern)
    requires Inv(k) && k.ndefers >= 1 && k.sleep != [] && k.sleep[0].delta <= 0
    ensures Inv(k1) && k1.ndefers >= 1 && k1.sleep == k.sleep[1..] && k.sleep[0].pid in k1.ready
    ensures k1.procs[p].prio == k.procs[p].prio && k1.procs[q].prio == k.procs[q].prio
    ensures WakeLoop(k) == WakeLoop(k1) && Expire(k.sleep) == Expire(k1.sleep)
  {
    k1 := MakeReady(k.(sleep := k.sleep[1..]), k.sleep[0].pid);
    PoppedIsReady(k, k1);
  }

  /** The loop is to wake q, behind p and of no higher priority. */
  ghost predicate BothDue(k: Kern, i: nat, j: nat, p: Pid, q: Pid) {
    && Inv(k) && k.ndefers >= 1 && DueAt(k.sleep, i, j, p, q) && k.procs[p].prio >= k.procs[q].prio
  }

  ghost predicate DueAt(s: seq<Sleeper>, i: nat, j: nat, p: Pid, q: Pid) {
    i < j < |s| && s[i].pid == p && s[j].pid == q && q !in SleepPids(Expire(s))
  }

  lemma DueNext(s: seq<Sleeper>, i: nat, j: nat, p: Pid, q: Pid)
    requires DueAt(s, i, j, p, q)
    ensures s[0].delta <= 0 && q in SleepPids(s[1..]) && q !in SleepPids(Expire(s[1..]))
  {
    assert SleepPids(s)[j] == q && SleepPids(s[1..])[j - 1] == q;
  }

  lemma DueRest(s: seq<Sleeper>, i: nat, j: nat, p: Pid, q: Pid, i': nat, j': nat)
    requires DueAt(s, i, j, p, q) && i == i' + 1 && j == j' + 1
    ensures s[0].delta <= 0 && DueAt(s[1..], i', j', p, q)
  {
    DueNext(s, i, j, p, q);
  }

  lemma FirstInOrder(k: Kern, j: nat, p: Pid, q: Pid)
    requires BothDue(k, 0, j, p, q)
    ensures Before(WakeLoop(k).ready, p, q)
  {
    DueNext(k.sleep, 0, j, p, q);
    var k1 := WakeLoopNext(k, p, q);
    FirstWoken(k1, p, q);
  }

  lemma BothDueNext(k: Kern, i: nat, j: nat, p: Pid, q: Pid, i': nat, j': nat) returns (k1: Kern)
    requires BothDue(k, i, j, p, q) && i == i' + 1 && j == j' + 1
    ensures BothDue(k1, i', j', p, q) && WakeLoop(k) == WakeLoop(k1)
  {
    DueRest(k.sleep, i, j, p, q, i', j');
    k1 := WakeLoopNext(k, p, q);
  }

  /** wakeup's loop readies sleepers in the order of the list. */
  lemma {:induction false} WokenInOrder(k: Kern, i: nat, j: nat, p: Pid, q: Pid)
    requires BothDue(k, i, j, p, q)
    ensures Before(WakeLoop(k).ready, p, q)
    decreases i
  {
    if i == 0 {
      FirstInOrder(k, j, p, q);
    } else {
      var i', j' := i - 1, j - 1;
      var k1 := BothDueNext(k, i, j, p, q, i', j');
      WokenInOrder(k1, i', j', p, q);
    }
  }

  lemma LinesUp(r: seq<Pid>, r': seq<Pid>, ps: Procs, p: Pid, q: Pid)
    requires Grew(r, r', ps) && p in r && q !in r && q in r' && ps[p].prio >= ps[q].prio
    ensures Before(r', p, q)
  {}

  /** The state wakeup's loop starts from, with 0 for the first delay: -1 in its place makes no difference. */
  lemma DueAtZero(k: Kern, k2: Kern) returns (z: Kern)
    requires Inv(k) && k.sleep != [] && k.sleep[0].delta <= 1
    requires k2 == k.(sleep := k.sleep[0 := k.sleep[0].(delta := k.sleep[0].delta - 1)])
    ensures z == DeferStart(k.(sleep := k.sleep[0 := k.sleep[0].(delta := 0)])) && Inv(z)
    ensures WakeLoop(DeferStart(k2)) == WakeLoop(z) && Expire(k2.sleep) == Expire(z.sleep)
  {
    z := DeferStart(k.(sleep := k.sleep[0 := k.sleep[0].(delta := 0)]));
    SetDeltaInv(k, 0);
    assert z.sleep[1..] == k2.sleep[1..] == k.sleep[1..];
    WakeLoopUnfold(DeferStart(k), DeferStart(k2));
    WakeLoopUnfold(DeferStart(k), z);
  }

  /** p is served before q: q does not run, and while both wait p is ahead of it. */
  ghost predicate First(k: Kern, p: Pid, q: Pid) {
    k.curr != q && (p in k.ready && q in k.ready ==> Before(k.ready, p, q))
  }

  lemma FirstStays(k: Kern, k': Kern, p: Pid, q: Pid)
    requires Inv(k) && Inv(k') && ServedK(k, k') && Before(k.ready, p, q) && k.procs[p].prio >= k.procs[q].prio
    requires CanRun(k'.procs[p].state)
    ensures First(k', p, q)
  {
    OneAhead(k.ready, p, q);
    assert p in k.ready && q in k.ready && p != q;
    assert q != k.curr;
    if p in k'.ready { ServedFirst(k.ready, k.curr, k'.ready, k'.curr, k.procs, p, q); }
  }

  /** What the loop has readied is what the whole tick serves. */
  lemma LoopThenTick(k: Kern, w: Kern)
    requires Inv(k) && Inv(w) && TickFront(k) == DeferStop(w) && w.curr == k.curr
    ensures ServedK(w, Tick(k)) && Readied(w.procs, Tick(k).procs)
  {
    DeferStopInv(w);
    DeferStopServed(w);
    TickFrontInv(k);
    if TickFront(k).curr == k.curr {
      TickRestServed(TickFront(k));
      TickRestInv(TickFront(k));
      SameGrew(w, TickFront(k));
      GrewThenServed(w, TickFront(k), Tick(k));
    }
  }

  lemma DueFront(k: Kern, k2: Kern)
    requires Sized(k) && k.sleep != [] && k.sleep[0].delta <= 1
    requires k2 == CountTick(k).(sleep := k.sleep[0 := k.sleep[0].(delta := k.sleep[0].delta - 1)])
    ensures TickFront(k) == DeferStop(WakeLoop(DeferStart(k2)))
  {
    var k1 := CountDownSleeper(CountTick(k), k.sleep[0].delta - 1);
  }

  lemma NoneDue(k: Kern, j: nat)
    requires Sized(k) && j < |k.sleep| && k.sleep[0].delta > 1
    ensures k.sleep[j].pid in SleepPids(Tick(k).sleep)
  {
    var r := k.sleep[0 := k.sleep[0].(delta := k.sleep[0].delta - 1)];
    assert Tick(k).sleep == r && SleepPids(r)[j] == k.sleep[j].pid;
  }

  /** The state after wakeup's loop. */
  lemma DueInOrder(k: Kern, i: nat, j: nat, p: Pid, q: Pid) returns (w: Kern)
    requires Inv(k) && i < j < |k.sleep| && p == k.sleep[i].pid && q == k.sleep[j].pid && k.sleep[0].delta <= 1
    requires q !in SleepPids(TickSleep(k.sleep)) && k.procs[p].prio >= k.procs[q].prio
    ensures Inv(w) && TickFront(k) == DeferStop(w) && w.curr == k.curr && SamePrio(k.procs, w.procs) && Before(w.ready, p, q)
  {
    var k0 := CountTick(k);
    assert SleepPids(k.sleep)[i] == p && SleepPids(k.sleep)[j] == q && Inv(k0);
    var k2 := k0.(sleep := k.sleep[0 := k.sleep[0].(delta := k.sleep[0].delta - 1)]);
    var z := DueAtZero(k0, k2);
    assert z.sleep[i].pid == p && z.sleep[j].pid == q;
    WokenInOrder(z, i, j, p, q);
    DueFront(k, k2);
    WakeLoopInv(z);
    WakeLoopGrew(z);
    w := WakeLoop(z);
  }

  lemma TickSleepIs(k: Kern)
    requires Sized(k)
    ensures Tick(k).sleep == TickSleep(k.sleep)
  {}

  /** Of two sleepers that one tick wakes, the first on the list is served first, unless the other is of
      higher priority: of equals, that is, the one that was asleep first (SleepsBehind). */
  lemma TickWakesInOrder(k: Kern, i: nat, j: nat)
    requires Inv(k) && i < j < |k.sleep| && k.sleep[j].pid !in SleepPids(Tick(k).sleep)
    requires k.procs[k.sleep[i].pid].prio >= k.procs[k.sleep[j].pid].prio
    ensures First(Tick(k), k.sleep[i].pid, k.sleep[j].pid)
  {
    if k.sleep[0].delta > 1 {
      NoneDue(k, j);
      assert false;
    }
    TickSleepIs(k);
    var w := DueInOrder(k, i, j, k.sleep[i].pid, k.sleep[j].pid);
    LoopThenTick(k, w);
    TickInv(k);
    ReadyStays(w, Tick(k), k.sleep[i].pid);
    FirstStays(w, Tick(k), k.sleep[i].pid, k.sleep[j].pid);
  }

  lemma ReadyStays(k: Kern, k': Kern, p: Pid)
    requires Inv(k) && Inv(k') && Readied(k.procs, k'.procs)
    ensures p in k.ready ==> CanRun(k'.procs[p].state)
  {}
}
