/** What holds in every reachable state of the kernel: each process is on exactly the queue its state
    names, semaphore counts match their queues, exactly one process runs and none ready beats it. */
module KernelInvariants {
  import opened Seqs
  import opened QueueTable
  import opened Semaphores
  import opened KernelSpec

  type Procs = ps: seq<Proc> | |ps| == NPROC witness seq(NPROC, _ => Proc(Free, 0, -1, 0, false))

  // ---- the invariant; x is a process momentarily on no queue (NPROC when there is none) ----

  ghost predicate ReadyX(ps: Procs, ready: seq<Pid>, x: int) {
    && NoDup(ready)
    && (forall p: Pid :: p in ready <==> p != x && ps[p].state == Ready)
    && (forall i, j :: 0 <= i < j < |ready| ==> ps[ready[i]].prio >= ps[ready[j]].prio)
  }

  predicate Asleep(st: PrState) { st == Sleep || st == Rectim }

  ghost predicate SleepX(ps: Procs, sleep: seq<Sleeper>, x: int) {
    && NoDup(SleepPids(sleep))
    && (forall p: Pid :: p in SleepPids(sleep) <==> p != x && Asleep(ps[p].state))
    && (forall i :: 0 <= i < |sleep| ==> sleep[i].delta >= 0)
  }

  /** The queue of semaphore s holds exactly the processes that wait on s. */
  ghost predicate QueueHolds(ps: Procs, queue: seq<Pid>, x: int, s: int) {
    && NoDup(queue)
    && forall p: Pid :: p in queue <==> p != x && ps[p].state == Wait && ps[p].sem == s
  }

  ghost predicate WaitX(ps: Procs, sems: seq<Sem>, x: int) {
    && (forall s :: 0 <= s < |sems| ==> QueueHolds(ps, sems[s].queue, x, s))
    && (forall p: Pid :: ps[p].state == Wait ==> 0 <= ps[p].sem < |sems|)
  }

  /** The null process is always current or ready, below every other priority; only the current
      process may be marked so; a process waiting for a message has none. */
  ghost predicate ProcsOk(ps: Procs, curr: Pid) {
    && (ps[NULLPROC].state == Curr || ps[NULLPROC].state == Ready) && ps[NULLPROC].prio == 0
    && (forall p: Pid :: p != NULLPROC && ps[p].state != Free ==> ps[p].prio >= 1)
    && (forall p: Pid :: ps[p].state == Curr ==> p == curr)
    && (forall p: Pid :: ps[p].state == Recv || ps[p].state == Rectim ==> !ps[p].hasmsg)
  }

  ghost predicate Placed(k: Kern, x: int) {
    && Sized(k) && k.ndefers >= 0 && 1 <= k.preempt <= QUANTUM
    && ReadyX(k.procs, k.ready, x) && SleepX(k.procs, k.sleep, x) && WaitX(k.procs, k.sems, x)
    && ProcsOk(k.procs, k.curr)
  }

  ghost predicate SemsOk(sems: seq<Sem>) {
    forall s :: 0 <= s < |sems| ==> Balanced(sems[s])
  }

  ghost predicate NoneBeats(k: Kern)
    requires Sized(k)
  {
    forall p :: p in k.ready ==> k.procs[p].prio <= k.procs[k.curr].prio
  }

  /** The current process is running and, unless a reschedule is owed, no ready process beats it. */
  ghost predicate Running(k: Kern)
    requires Sized(k)
  {
    k.procs[k.curr].state == Curr && (k.ndefers == 0 || !k.attempt ==> NoneBeats(k))
  }

  ghost predicate Inv(k: Kern) { Placed(k, NPROC) && SemsOk(k.sems) && Running(k) }

  // ---- changes of one process's state ----

  /** Changing the state of p keeps the queues that p is on neither before nor after. */
  lemma SetStateFrame(ps: Procs, ps': Procs, p: Pid, x: int, x': int)
    requires forall q: Pid :: q != p ==> ps'[q] == ps[q]
    requires ps'[p].prio == ps[p].prio
    requires (x == p || x == NPROC) && (x' == p || x' == NPROC)
    ensures (p != x && ps[p].state == Ready) == (p != x' && ps'[p].state == Ready) ==>
      forall ready: seq<Pid> :: ReadyX(ps, ready, x) ==> ReadyX(ps', ready, x')
    ensures (p != x && Asleep(ps[p].state)) == (p != x' && Asleep(ps'[p].state)) ==>
      forall sleep: seq<Sleeper> :: SleepX(ps, sleep, x) ==> SleepX(ps', sleep, x')
    ensures (p == x || ps[p].state != Wait) && (p == x' || ps'[p].state != Wait) ==>
      forall sems: seq<Sem> :: WaitX(ps, sems, x) && (ps'[p].state == Wait ==> 0 <= ps'[p].sem < |sems|)
        ==> WaitX(ps', sems, x')
  {
    forall sems: seq<Sem> | WaitX(ps, sems, x)
      && (p == x || ps[p].state != Wait) && (p == x' || ps'[p].state != Wait)
      && (ps'[p].state == Wait ==> 0 <= ps'[p].sem < |sems|)
      ensures WaitX(ps', sems, x')
    {
      forall s | 0 <= s < |sems| ensures QueueHolds(ps', sems[s].queue, x', s) {
        assert QueueHolds(ps, sems[s].queue, x, s);
      }
    }
  }

  lemma InsertSorted(procs: Procs, s: seq<Pid>, p: Pid)
    requires NoDup(s) && p !in s
    requires forall i, j :: 0 <= i < j < |s| ==> procs[s[i]].prio >= procs[s[j]].prio
    ensures var r := InsertAt(s, ReadyPlace(procs, s, procs[p].prio), p);
      NoDup(r) && forall i, j :: 0 <= i < j < |r| ==> procs[r[i]].prio >= procs[r[j]].prio
  {
    InsertNoDup(s, ReadyPlace(procs, s, procs[p].prio), p);
  }

  lemma EnlistReady(k: Kern, p: Pid)
    requires Sized(k) && ReadyX(k.procs, k.ready, p)
    ensures ReadyX(Enlist(k, p).procs, Enlist(k, p).ready, NPROC) && p in Enlist(k, p).ready
  {
    InsertSorted(k.procs, k.ready, p);
    var r := Enlist(k, p);
    assert forall q: Pid :: r.procs[q].prio == k.procs[q].prio;
    assert forall q: Pid :: q in r.ready <==> q == p || q in k.ready;
  }

  /** Marking p, in no queue, ready leaves the sleep list and the semaphore queues right. */
  lemma MarkReadyFrame(ps: Procs, ps': Procs, sleep: seq<Sleeper>, sems: seq<Sem>, p: Pid)
    requires SleepX(ps, sleep, p) && WaitX(ps, sems, p)
    requires ps'[p].state == Ready && forall q: Pid :: q != p ==> ps'[q] == ps[q]
    ensures SleepX(ps', sleep, NPROC) && WaitX(ps', sems, NPROC)
  {
    forall s | 0 <= s < |sems| ensures QueueHolds(ps', sems[s].queue, NPROC, s) {
      assert QueueHolds(ps, sems[s].queue, p, s);
    }
  }

  lemma EnlistPlaced(k: Kern, p: Pid)
    requires Placed(k, p) && k.procs[p].state != Free
    ensures Placed(Enlist(k, p), NPROC) && p in Enlist(k, p).ready
  {
    EnlistReady(k, p);
    MarkReadyFrame(k.procs, Enlist(k, p).procs, k.sleep, k.sems, p);
  }

  predicate CanRun(st: PrState) { st == Curr || st == Ready }

  /** From ps to ps' nothing but states changed, and only by readying a waiting or sleeping process
      or by choosing another current process. */
  ghost predicate Readied(ps: Procs, ps': Procs) {
    forall p: Pid ::
      && ps'[p] == ps[p].(state := ps'[p].state)
      && (ps'[p].state == ps[p].state
          || (CanRun(ps'[p].state) && (CanRun(ps[p].state) || Asleep(ps[p].state) || ps[p].state == Wait)))
  }

  lemma ReadiedTrans(ps: Procs, ps1: Procs, ps2: Procs)
    requires Readied(ps, ps1) && Readied(ps1, ps2)
    ensures Readied(ps, ps2)
  {}

  // ---- scheduling ----

  /** A switch is only forced when some process is ready: at the least the null process. */
  lemma ReadyNeverEmpty(k: Kern)
    requires Placed(k, NPROC) && k.procs[k.curr].state != Curr
    ensures k.ready != []
  {
    assert NULLPROC in k.ready;
  }

  lemma SwitchPlaced(k: Kern)
    requires Placed(k, NPROC) && k.ready != [] && forall p: Pid :: k.procs[p].state != Curr
    ensures Placed(Switch(k), NPROC) && Switch(k).procs[Switch(k).curr].state == Curr && NoneBeats(Switch(k))
  {
    var r := Switch(k);
    var h := k.ready[0];
    SwitchReady(k.procs, r.procs, k.ready, h);
    SetStateFrame(k.procs, r.procs, h, NPROC, NPROC);
  }

  lemma SwitchReady(ps: Procs, ps': Procs, ready: seq<Pid>, h: Pid)
    requires ReadyX(ps, ready, NPROC) && ready != [] && h == ready[0] && ps' == ps[h := ps[h].(state := Curr)]
    ensures ps[h].state == Ready && ReadyX(ps', ready[1..], NPROC)
    ensures forall p :: p in ready[1..] ==> ps'[p].prio <= ps'[h].prio
  {
    assert h in ready && forall p: Pid :: p in ready <==> p == h || p in ready[1..];
    assert forall p: Pid :: ps'[p].prio == ps[p].prio;
  }

  /** The running process is on no queue. */
  lemma CurrLoose(k: Kern)
    requires Placed(k, NPROC) && k.procs[k.curr].state == Curr
    ensures Placed(k, k.curr)
  {
    SetStateFrame(k.procs, k.procs, k.curr, NPROC, k.curr);
  }

  /** After resched with no deferral outstanding the best ready process runs; a deferred one is noted. */
  lemma ReschedPlaced(k: Kern)
    requires Placed(k, NPROC) && (k.ndefers == 0 || k.procs[k.curr].state == Curr)
    ensures Placed(Resched(k), NPROC) && Running(Resched(k)) && Resched(k).ndefers == k.ndefers
  {
    if k.ndefers > 0 {
    } else if k.procs[k.curr].state == Curr {
      if k.ready == [] || k.procs[k.curr].prio > k.procs[k.ready[0]].prio {
        assert forall i :: 0 < i < |k.ready| ==> k.procs[k.ready[0]].prio >= k.procs[k.ready[i]].prio;
      } else {
        CurrLoose(k);
        EnlistPlaced(k, k.curr);
        SwitchPlaced(Enlist(k, k.curr));
      }
    } else {
      ReadyNeverEmpty(k);
      SwitchPlaced(k);
    }
  }

  lemma ReschedReadied(k: Kern)
    requires Placed(k, NPROC)
    ensures Readied(k.procs, Resched(k).procs)
  {
    if k.ndefers <= 0 && k.ready != [] {
      assert k.ready[0] in k.ready;
      if k.procs[k.curr].state == Curr && k.procs[k.curr].prio <= k.procs[k.ready[0]].prio {
        CurrLoose(k);
        EnlistReady(k, k.curr);
        assert Enlist(k, k.curr).ready[0] in Enlist(k, k.curr).ready;
      }
    }
  }

  /** Ready and resched: p had just left its queue. */
  lemma MakeReadyPlaced(k: Kern, p: Pid)
    requires Placed(k, p) && k.procs[p].state != Free && p != k.curr && k.procs[k.curr].state == Curr
    ensures Placed(MakeReady(k, p), NPROC) && Running(MakeReady(k, p)) && MakeReady(k, p).ndefers == k.ndefers
    ensures CanRun(MakeReady(k, p).procs[p].state)
    ensures Asleep(k.procs[p].state) || k.procs[p].state == Wait ==> Readied(k.procs, MakeReady(k, p).procs)
  {
    EnlistPlaced(k, p);
    ReschedPlaced(Enlist(k, p));
    ReschedReadied(Enlist(k, p));
  }

  lemma DeferStartInv(k: Kern)
    requires Inv(k)
    ensures Inv(DeferStart(k)) && DeferStart(k).ndefers >= 1
  {}

  /** No reschedule asked for during nested deferral is lost: the last DEFER_STOP performs it. */
  lemma DeferStopInv(k: Kern)
    requires Inv(k)
    ensures Inv(DeferStop(k)) && Readied(k.procs, DeferStop(k).procs)
  {
    if k.ndefers == 1 && k.attempt {
      ReschedPlaced(k.(ndefers := 0));
      ReschedReadied(k.(ndefers := 0));
    }
  }

  // ---- semaphores ----

  /** The first waiter of s, unlinked from its queue and not yet queued elsewhere. */
  lemma PopQueue(k: Kern, s: int, v: Sem)
    requires Placed(k, NPROC) && 0 <= s < NSEM && k.sems[s].queue != [] && v.queue == k.sems[s].queue[1..]
    ensures var p := k.sems[s].queue[0];
      k.procs[p].state == Wait && k.procs[p].sem == s && Placed(SetSem(k, s, v), p)
  {
    var p := k.sems[s].queue[0];
    assert QueueHolds(k.procs, k.sems[s].queue, NPROC, s);
    assert p in k.sems[s].queue;
    SetStateFrame(k.procs, k.procs, p, NPROC, p);
    var sems' := k.sems[s := v];
    forall t | 0 <= t < NSEM ensures QueueHolds(k.procs, sems'[t].queue, p, t) {
      assert QueueHolds(k.procs, k.sems[t].queue, NPROC, t);
      if t == s { assert forall q: Pid :: q in k.sems[s].queue <==> q == p || q in v.queue; }
    }
  }

  /** Semaphore counts do not matter to where processes are. */
  lemma SetCountPlaced(k: Kern, s: int, v: Sem, x: int)
    requires Placed(k, x) && 0 <= s < NSEM && v.queue == k.sems[s].queue
    ensures Placed(SetSem(k, s, v), x)
  {
    var sems' := k.sems[s := v];
    forall t | 0 <= t < NSEM ensures QueueHolds(k.procs, sems'[t].queue, x, t) {
      assert QueueHolds(k.procs, k.sems[t].queue, x, t);
    }
  }

  /** Unlinking the first waiter and readying it. */
  lemma PopReadyInv(k: Kern, s: int, v: Sem)
    requires Placed(k, NPROC) && Running(k) && 0 <= s < NSEM && k.sems[s].queue != []
    requires v.queue == k.sems[s].queue[1..]
    ensures var r := MakeReady(SetSem(k, s, v), k.sems[s].queue[0]);
      && Placed(r, NPROC) && Running(r) && r.ndefers == k.ndefers && r.sems == k.sems[s := v]
      && Readied(k.procs, r.procs)
  {
    PopQueue(k, s, v);
    MakeReadyPlaced(SetSem(k, s, v), k.sems[s].queue[0]);
  }

  lemma PostInv(k: Kern, s: int)
    requires Inv(k) && 0 <= s < NSEM && k.sems[s].used
    ensures Inv(Post(k, s)) && Post(k, s).ndefers == k.ndefers && Post(k, s).sems[s].used
    ensures Readied(k.procs, Post(k, s).procs)
  {
    SemsOkSet(k.sems, s, Up(k.sems[s]));
    if Released(k.sems[s]) == [] {
      SetCountPlaced(k, s, Up(k.sems[s]), NPROC);
    } else {
      PopReadyInv(k, s, Up(k.sems[s]));
    }
  }

  lemma SemsOkSet(sems: seq<Sem>, s: int, v: Sem)
    requires SemsOk(sems) && 0 <= s < |sems| && (Balanced(sems[s]) ==> Balanced(v))
    ensures SemsOk(sems[s := v]) && Balanced(sems[s])
  {}

  lemma SignalInv(k: Kern, s: int)
    requires Inv(k)
    ensures Inv(Signal(k, s)) && Readied(k.procs, Signal(k, s).procs)
  {
    if !IsBadSem(k, s) { PostInv(k, s); }
  }

  lemma PostNUnfold(k: Kern, s: int, n: nat, rest: nat)
    requires Sized(k) && 0 <= s < NSEM && n == rest + 1
    ensures PostN(k, s, n) == PostN(Post(k, s), s, rest)
  {}

  lemma {:induction false} PostNInv(k: Kern, s: int, n: nat)
    requires Inv(k) && 0 <= s < NSEM && k.sems[s].used
    ensures Inv(PostN(k, s, n)) && PostN(k, s, n).ndefers == k.ndefers
    ensures Readied(k.procs, PostN(k, s, n).procs)
    decreases n, 0
  {
    if n > 0 {
      PostInv(k, s);
      var rest: nat := n - 1;
      PostNUnfold(k, s, n, rest);
      PostNNext(k, Post(k, s), s, rest);
    }
  }

  lemma {:induction false} PostNNext(k: Kern, k1: Kern, s: int, n: nat)
    requires Inv(k1) && 0 <= s < NSEM && k1.sems[s].used && Sized(k) && k1.ndefers == k.ndefers && Readied(k.procs, k1.procs)
    ensures Inv(PostN(k1, s, n)) && PostN(k1, s, n).ndefers == k.ndefers
    ensures Readied(k.procs, PostN(k1, s, n).procs)
    decreases n, 1
  {
    PostNInv(k1, s, n);
    ReadiedTrans(k.procs, k1.procs, PostN(k1, s, n).procs);
  }

  lemma SignalNInv(k: Kern, s: int, n: int)
    requires Inv(k)
    ensures Inv(SignalN(k, s, n)) && Readied(k.procs, SignalN(k, s, n).procs)
  {
    if !IsBadSem(k, s) && n >= 0 {
      DeferStartInv(k);
      PostNInv(DeferStart(k), s, n);
      DeferStopInv(PostN(DeferStart(k), s, n));
    }
  }

  /** The caller may give up the processor: it is not the null process, and no deferral is outstanding. */
  predicate CanPark(k: Kern) { k.curr != NULLPROC && k.ndefers == 0 }

  /** A caller that gives up the processor without being allowed to: under deferral it stays current
      without being marked so, and the null process is no longer there to run. */
  lemma ParkBreaks(k: Kern, k1: Kern)
    requires Inv(k) && Sized(k1) && k1.curr == k.curr && k1.ndefers == k.ndefers && k1.ready == k.ready && !CanPark(k)
    requires k1.procs[k.curr].state != Curr && k1.procs[k.curr].state != Ready
    ensures !Inv(Resched(k1))
  {
    if k.ndefers == 0 && k.ready != [] { assert k.ready[0] in k.ready; }
  }

  /** What a caller leaves that gives up the processor under deferral: it is on the queue its new state
      names and is nevertheless still the current one; a reschedule is owed. */
  ghost predicate Stalled(k: Kern) {
    && Placed(k, NPROC) && SemsOk(k.sems) && k.ndefers > 0 && k.attempt && k.procs[k.curr].state != Curr
  }

  /** Stopping the deferrals from there gives up the processor after all, and loses nothing. */
  lemma StalledStops(k: Kern)
    requires Stalled(k)
    ensures if k.ndefers == 1 then Inv(DeferStop(k)) else Stalled(DeferStop(k))
    ensures Readied(k.procs, DeferStop(k).procs)
  {
    if k.ndefers == 1 {
      ReschedPlaced(k.(ndefers := 0));
      ReschedReadied(k.(ndefers := 0));
    }
  }

  /** The current process queued on s, before it gives up the processor. */
  lemma WaitPlaced(k: Kern, s: int)
    requires Inv(k) && 0 <= s < NSEM && Blocks(k.sems[s]) && k.curr != NULLPROC
    ensures Placed(SetSem(k, s, Down(k.sems[s], k.curr)).(
      procs := k.procs[k.curr := k.procs[k.curr].(state := Wait, sem := s)]), NPROC)
  {
    var c := k.curr;
    var ps := k.procs[c := k.procs[c].(state := Wait, sem := s)];
    var k1 := SetSem(k, s, Down(k.sems[s], c)).(procs := ps);
    SetStateFrame(k.procs, ps, c, NPROC, NPROC);
    forall t | 0 <= t < NSEM ensures QueueHolds(ps, k1.sems[t].queue, NPROC, t) {
      assert QueueHolds(k.procs, k.sems[t].queue, NPROC, t);
    }
  }

  lemma WaitSemInv(k: Kern, s: int)
    requires Inv(k)
    ensures Inv(WaitSem(k, s)) <==> (!IsBadSem(k, s) && Blocks(k.sems[s]) ==> CanPark(k))
  {
    if IsBadSem(k, s) {
    } else if Blocks(k.sems[s]) {
      var k1 := SetSem(k, s, Down(k.sems[s], k.curr)).(
        procs := k.procs[k.curr := k.procs[k.curr].(state := Wait, sem := s)]);
      if CanPark(k) {
        WaitPlaced(k, s);
        ReschedPlaced(k1);
      } else {
        ParkBreaks(k, k1);
      }
    } else {
      SetCountPlaced(k, s, Down(k.sems[s], k.curr), NPROC);
    }
  }

  lemma {:induction false} DrainInv(k: Kern, s: int)
    requires Placed(k, NPROC) && Running(k) && 0 <= s < NSEM
    ensures Placed(Drain(k, s), NPROC) && Running(Drain(k, s)) && Drain(k, s).ndefers == k.ndefers
    ensures Readied(k.procs, Drain(k, s).procs)
    decreases |k.sems[s].queue|
  {
    if k.sems[s].queue != [] {
      PopReadyInv(k, s, k.sems[s].(queue := k.sems[s].queue[1..]));
      DrainInv(PopOne(k, s), s);
    }
  }

  lemma SemResetInv(k: Kern, s: int, count: int)
    requires Inv(k)
    ensures Inv(SemReset(k, s, count)) && Readied(k.procs, SemReset(k, s, count).procs)
  {
    if count >= 0 && !IsBadSem(k, s) {
      var k1 := DeferStart(k);
      DrainInv(k1, s);
      var k2 := Drain(k1, s);
      SetCountPlaced(k2, s, k2.sems[s].(count := count), NPROC);
      DeferStopInv(SetSem(k2, s, k2.sems[s].(count := count)));
    }
  }

  lemma ReleaseStep(k: Kern, s: int)
    requires Placed(k, NPROC) && Running(k) && 0 <= s < NSEM && k.sems[s].queue != []
    ensures var v := k.sems[s].(count := k.sems[s].count + 1);
      var r := PopOne(SetSem(k, s, v), s);
      && Placed(r, NPROC) && Running(r) && r.ndefers == k.ndefers
      && r.sems == k.sems[s := v.(queue := v.queue[1..])] && Readied(k.procs, r.procs)
  {
    var v := k.sems[s].(count := k.sems[s].count + 1);
    SetCountPlaced(k, s, v, NPROC);
    PopReadyInv(SetSem(k, s, v), s, v.(queue := v.queue[1..]));
  }

  /** semdelete's loop leaves exactly when the queue is empty, so it never readies EMPTY. */
  lemma {:induction false} ReleaseAllSems(k: Kern, s: int)
    requires Sized(k) && 0 <= s < NSEM && |k.sems[s].queue| == Max0(-k.sems[s].count)
    ensures ReleaseAll(k, s).sems == k.sems[s := Sem(k.sems[s].used, Max0(k.sems[s].count) + 1, [])]
    decreases -k.sems[s].count
  {
    var v := k.sems[s].(count := k.sems[s].count + 1);
    if k.sems[s].count < 0 {
      var r := PopOne(SetSem(k, s, v), s);
      ReleaseAllSems(r, s);
      assert ReleaseAll(k, s) == ReleaseAll(r, s);
    }
  }

  lemma {:induction false} ReleaseAllInv(k: Kern, s: int)
    requires Placed(k, NPROC) && Running(k) && 0 <= s < NSEM
    requires |k.sems[s].queue| == Max0(-k.sems[s].count)
    ensures Placed(ReleaseAll(k, s), NPROC) && Running(ReleaseAll(k, s)) && ReleaseAll(k, s).ndefers == k.ndefers
    ensures Readied(k.procs, ReleaseAll(k, s).procs)
    decreases -k.sems[s].count, 0
  {
    if k.sems[s].count < 0 {
      var r := ReleaseGo(k, s);
      ReleaseNext(k, r, s);
    } else {
      SetCountPlaced(k, s, k.sems[s].(count := k.sems[s].count + 1), NPROC);
    }
  }

  lemma ReleaseGo(k: Kern, s: int) returns (r: Kern)
    requires Placed(k, NPROC) && Running(k) && 0 <= s < NSEM && k.sems[s].count < 0
    requires |k.sems[s].queue| == -k.sems[s].count
    ensures Placed(r, NPROC) && Running(r) && r.ndefers == k.ndefers && Readied(k.procs, r.procs)
    ensures r.sems[s].count == k.sems[s].count + 1 && |r.sems[s].queue| == -r.sems[s].count
    ensures ReleaseAll(k, s) == ReleaseAll(r, s)
  {
    ReleaseStep(k, s);
    r := PopOne(SetSem(k, s, k.sems[s].(count := k.sems[s].count + 1)), s);
  }

  lemma {:induction false} ReleaseNext(k: Kern, r: Kern, s: int)
    requires Placed(r, NPROC) && Running(r) && 0 <= s < NSEM && |r.sems[s].queue| == Max0(-r.sems[s].count)
    requires Sized(k) && r.ndefers == k.ndefers && Readied(k.procs, r.procs)
    ensures Placed(ReleaseAll(r, s), NPROC) && Running(ReleaseAll(r, s)) && ReleaseAll(r, s).ndefers == k.ndefers
    ensures Readied(k.procs, ReleaseAll(r, s).procs)
    decreases -r.sems[s].count, 1
  {
    ReleaseAllInv(r, s);
    ReadiedTrans(k.procs, r.procs, ReleaseAll(r, s).procs);
  }

  lemma SemDeleteInv(k: Kern, s: int)
    requires Inv(k)
    ensures Inv(SemDelete(k, s)) && Readied(k.procs, SemDelete(k, s).procs)
  {
    if !IsBadSem(k, s) {
      var v := k.sems[s].(used := false);
      SetCountPlaced(k, s, v, NPROC);
      var k1 := DeferStart(SetSem(k, s, v));
      ReleaseAllInv(k1, s);
      ReleaseAllSems(k1, s);
      DeferStopInv(ReleaseAll(k1, s));
    }
  }

  lemma SemCreateInv(k: Kern, count: int)
    requires Inv(k)
    ensures Inv(SemCreate(k, count).0)
  {
    if count >= 0 {
      var f := FindSem(k.sems, k.nextsem, |k.sems|);
      if f.0 != SYSERR {
        SetCountPlaced(k, f.0, k.sems[f.0].(used := true, count := count), NPROC);
      }
    }
  }

  // ---- sleeping ----

  function DeltaIndex(s: seq<Sleeper>, key: int): (i: int)
    ensures 0 <= i <= |s|
  {
    if s == [] || s[0].delta > key then 0 else 1 + DeltaIndex(s[1..], key - s[0].delta)
  }

  ghost predicate NonNegative(s: seq<Sleeper>) { forall i :: 0 <= i < |s| ==> s[i].delta >= 0 }

  lemma SleepPidsCons(x: Sleeper, s: seq<Sleeper>)
    ensures SleepPids([x] + s) == [x.pid] + SleepPids(s)
  {}

  lemma {:induction false} InsertDeltaPids(s: seq<Sleeper>, p: Pid, key: int)
    ensures SleepPids(InsertDelta(s, p, key)) == InsertAt(SleepPids(s), DeltaIndex(s, key), p)
  {
    if s != [] && s[0].delta <= key {
      var rest := InsertDelta(s[1..], p, key - s[0].delta);
      InsertDeltaPids(s[1..], p, key - s[0].delta);
      SleepPidsCons(s[0], s[1..]);
      SleepPidsCons(s[0], rest);
      assert s == [s[0]] + s[1..] && InsertDelta(s, p, key) == [s[0]] + rest;
    }
  }

  lemma {:induction false} InsertDeltaFacts(s: seq<Sleeper>, p: Pid, key: int)
    ensures SleepPids(InsertDelta(s, p, key)) == InsertAt(SleepPids(s), DeltaIndex(s, key), p)
    ensures NonNegative(s) && key >= 0 ==> NonNegative(InsertDelta(s, p, key))
  {
    InsertDeltaPids(s, p, key);
    if NonNegative(s) && key >= 0 { InsertDeltaNonNegative(s, p, key); }
  }

  lemma {:induction false} InsertDeltaNonNegative(s: seq<Sleeper>, p: Pid, key: int)
    requires NonNegative(s) && key >= 0
    ensures NonNegative(InsertDelta(s, p, key))
  {
    if s != [] && s[0].delta <= key { InsertDeltaNonNegative(s[1..], p, key - s[0].delta); }
  }

  lemma {:induction false} RemoveDeltaFacts(s: seq<Sleeper>, p: Pid)
    ensures SleepPids(RemoveDelta(s, p)) == Without(SleepPids(s), p)
    ensures NonNegative(s) ==> NonNegative(RemoveDelta(s, p))
  {
    if s != [] {
      var ids := SleepPids(s);
      assert ids[1..] == SleepPids(s[1..]) && ids[0] == s[0].pid;
      if s[0].pid == p {
        assert SleepPids(RemoveDelta(s, p)) == ids[1..];
      } else {
        RemoveDeltaFacts(s[1..], p);
        assert RemoveDelta(s, p) == [s[0]] + RemoveDelta(s[1..], p);
        assert SleepPids(RemoveDelta(s, p)) == [s[0].pid] + SleepPids(RemoveDelta(s[1..], p));
      }
    }
  }

  /** The current process, put on the sleep list in state st. */
  lemma AsleepPlaced(k: Kern, st: PrState, delay: int)
    requires Inv(k) && k.curr != NULLPROC && delay >= 0
    requires st == Sleep || (st == Rectim && !k.procs[k.curr].hasmsg)
    ensures Placed(SetState(k, k.curr, st).(sleep := InsertDelta(k.sleep, k.curr, delay)), NPROC)
  {
    var k1 := SetState(k, k.curr, st).(sleep := InsertDelta(k.sleep, k.curr, delay));
    SetStateFrame(k.procs, k1.procs, k.curr, NPROC, NPROC);
    InsertDeltaFacts(k.sleep, k.curr, delay);
    InsertNoDup(SleepPids(k.sleep), DeltaIndex(k.sleep, delay), k.curr);
    assert SleepX(k1.procs, k1.sleep, NPROC);
  }

  lemma BlockAsleep(k: Kern, st: PrState, delay: int)
    requires Inv(k) && delay >= 0 && (st == Sleep || (st == Rectim && !k.procs[k.curr].hasmsg))
    ensures Inv(Resched(SetState(k, k.curr, st).(sleep := InsertDelta(k.sleep, k.curr, delay)))) <==> CanPark(k)
  {
    var k1 := SetState(k, k.curr, st).(sleep := InsertDelta(k.sleep, k.curr, delay));
    if CanPark(k) {
      AsleepPlaced(k, st, delay);
      ReschedPlaced(k1);
    } else {
      ParkBreaks(k, k1);
    }
  }

  lemma SleepMsInv(k: Kern, delay: int)
    requires Inv(k)
    ensures Inv(SleepMs(k, delay)) <==> (delay > 0 ==> CanPark(k))
  {
    if delay == 0 { ReschedPlaced(k); }
    if delay > 0 { BlockAsleep(k, Sleep, delay); }
  }

  /** A sleeper taken off the sleep list and not yet queued elsewhere. */
  lemma RemoveAsleep(k: Kern, p: Pid, sleep': seq<Sleeper>)
    requires Placed(k, NPROC) && Asleep(k.procs[p].state)
    requires SleepPids(sleep') == Without(SleepPids(k.sleep), p) && NonNegative(sleep')
    ensures Placed(k.(sleep := sleep'), p)
  {
    SetStateFrame(k.procs, k.procs, p, NPROC, p);
    WithoutNoDup(SleepPids(k.sleep), p);
  }

  /** The state on entry to wakeup's loop when the first delay is (k2) or is about to be (k) used up. */
  lemma {:induction false} PopSleeper(k: Kern)
    requires Inv(k) && k.ndefers >= 1 && k.sleep != []
    ensures Inv(MakeReady(k.(sleep := k.sleep[1..]), k.sleep[0].pid))
    ensures MakeReady(k.(sleep := k.sleep[1..]), k.sleep[0].pid).ndefers == k.ndefers
    ensures Readied(k.procs, MakeReady(k.(sleep := k.sleep[1..]), k.sleep[0].pid).procs)
  {
    var p := k.sleep[0].pid;
    assert SleepPids(k.sleep)[0] == p && SleepPids(k.sleep[1..]) == SleepPids(k.sleep)[1..];
    assert p in SleepPids(k.sleep);
    RemoveAsleep(k, p, k.sleep[1..]);
    MakeReadyPlaced(k.(sleep := k.sleep[1..]), p);
  }

  lemma {:induction false} WakeLoopInv(k: Kern)
    requires Inv(k) && k.ndefers >= 1
    ensures Inv(WakeLoop(k)) && WakeLoop(k).ndefers == k.ndefers && Readied(k.procs, WakeLoop(k).procs)
    decreases |k.sleep|
  {
    if k.sleep != [] && k.sleep[0].delta <= 0 {
      PopSleeper(k);
      WakeLoopInv(MakeReady(k.(sleep := k.sleep[1..]), k.sleep[0].pid));
    }
  }

  lemma WakeLoopUnfold(k: Kern, k2: Kern)
    requires Sized(k) && k.sleep != [] && k2 == k.(sleep := k2.sleep) && k2.sleep != []
    requires k2.sleep[1..] == k.sleep[1..] && k2.sleep[0].pid == k.sleep[0].pid && k2.sleep[0].delta <= 0
    ensures WakeLoop(k2) == WakeLoop(MakeReady(k.(sleep := k.sleep[1..]), k.sleep[0].pid))
  {
    assert k2.(sleep := k2.sleep[1..]) == k.(sleep := k.sleep[1..]);
  }

  /** A delay of zero in front (left by recvtime(0)) is driven to -1 by the tick, and removed. */
  lemma WakeFirst(k: Kern, k2: Kern)
    requires Inv(k) && k.ndefers >= 1 && k.sleep != [] && k2 == k.(sleep := k2.sleep) && k2.sleep != []
    requires k2.sleep[1..] == k.sleep[1..] && k2.sleep[0].pid == k.sleep[0].pid && k2.sleep[0].delta <= 0
    ensures Inv(WakeLoop(k2)) && Readied(k.procs, WakeLoop(k2).procs)
  {
    PopSleeper(k);
    WakeLoopUnfold(k, k2);
    WakeLoopInv(MakeReady(k.(sleep := k.sleep[1..]), k.sleep[0].pid));
  }

  lemma WakeupInv(k: Kern, d: int)
    requires Inv(k) && k.sleep != [] && (d == 0 || d == -1)
    ensures var w := Wakeup(k.(sleep := k.sleep[0 := k.sleep[0].(delta := d)]));
      Inv(w) && Readied(k.procs, w.procs)
  {
    var k2 := DeferStart(k.(sleep := k.sleep[0 := k.sleep[0].(delta := d)]));
    DeferStartInv(k);
    WakeFirst(DeferStart(k), k2);
    DeferStopInv(WakeLoop(k2));
  }

  lemma SetDeltaInv(k: Kern, d: int)
    requires Inv(k) && k.sleep != [] && d >= 0
    ensures Inv(k.(sleep := k.sleep[0 := k.sleep[0].(delta := d)]))
  {
    assert SleepPids(k.sleep[0 := k.sleep[0].(delta := d)]) == SleepPids(k.sleep);
  }

  /** One tick takes one millisecond off the first delay, and wakes its owner once none is left. */
  lemma CountDownInv(k: Kern)
    requires Inv(k) && k.sleep != []
    ensures Inv(CountDown(k)) && Readied(k.procs, CountDown(k).procs)
  {
    var d := k.sleep[0].delta - 1;
    if d <= 0 { WakeupInv(k, d); } else { SetDeltaInv(k, d); }
  }

  lemma TickFrontInv(k: Kern)
    requires Inv(k)
    ensures Inv(TickFront(k)) && Readied(k.procs, TickFront(k).procs)
  {
    assert Inv(CountTick(k));
    if k.sleep != [] { CountDownInv(CountTick(k)); }
  }

  lemma PreemptInv(k: Kern, v: int)
    requires Inv(k) && 1 <= v <= QUANTUM
    ensures Inv(k.(preempt := v))
  {}

  lemma TickRestInv(k: Kern)
    requires Inv(k)
    ensures Inv(TickRest(k)) && Readied(k.procs, TickRest(k).procs)
  {
    if k.preempt == 1 {
      PreemptInv(k, QUANTUM);
      ReschedInv(k.(preempt := QUANTUM));
      assert TickRest(k) == Resched(k.(preempt := QUANTUM));
    } else {
      PreemptInv(k, 1);
      assert TickRest(k) == k.(preempt := 1);
    }
  }

  lemma AfterFrontInv(ps: Procs, curr: Pid, k: Kern)
    requires Inv(k) && Readied(ps, k.procs)
    ensures Inv(AfterFront(curr, k)) && Readied(ps, AfterFront(curr, k).procs)
  {
    if k.curr == curr { TickRestInv(k); }
  }

  lemma TickInv(k: Kern)
    requires Inv(k)
    ensures Inv(Tick(k)) && Readied(k.procs, Tick(k).procs)
  {
    TickFrontInv(k);
    AfterFrontInv(k.procs, k.curr, TickFront(k));
  }

  lemma ReschedInv(k: Kern)
    requires Inv(k)
    ensures Inv(Resched(k)) && Readied(k.procs, Resched(k).procs)
  {
    ReschedPlaced(k);
    ReschedReadied(k);
  }

  // ---- messages and process control ----

  lemma ReceiveInv(k: Kern)
    requires Inv(k)
    ensures Inv(Receive(k)) <==> (!k.procs[k.curr].hasmsg ==> CanPark(k))
  {
    if !k.procs[k.curr].hasmsg {
      var k1 := SetState(k, k.curr, Recv);
      if CanPark(k) {
        SetStateFrame(k.procs, k1.procs, k.curr, NPROC, NPROC);
        ReschedPlaced(k1);
      } else {
        ParkBreaks(k, k1);
      }
    } else {
      TakeInv(k);
    }
  }

  lemma TakeInv(k: Kern)
    requires Inv(k)
    ensures Inv(Take(k))
  {
    SetStateFrame(k.procs, Take(k).procs, k.curr, NPROC, NPROC);
  }

  lemma RecvTimeInv(k: Kern, maxwait: int)
    requires Inv(k)
    ensures Inv(RecvTime(k, maxwait)) <==> (maxwait >= 0 && !k.procs[k.curr].hasmsg ==> CanPark(k))
  {
    if maxwait >= 0 {
      if k.procs[k.curr].hasmsg { TakeInv(k); } else { BlockAsleep(k, Rectim, maxwait); }
    }
  }

  /** p, in no queue, gets a message and becomes ready. */
  lemma DeliverPlaced(k: Kern, p: Pid, msg: int)
    requires Placed(k, p) && k.procs[p].state != Free
    requires k.procs[p].state == Recv || k.procs[p].state == Rectim
    ensures Placed(Enlist(k.(procs := k.procs[p := k.procs[p].(msg := msg, hasmsg := true)]), p), NPROC)
  {
    var ps := k.procs[p := k.procs[p].(msg := msg, hasmsg := true)];
    var k1 := k.(procs := ps);
    MailFrame(k.procs, ps, k.ready, k.sleep, k.sems, p);
    EnlistReady(k1, p);
    MarkReadyFrame(ps, Enlist(k1, p).procs, k.sleep, k.sems, p);
    DeliverProcs(k.procs, ps, Enlist(k1, p).procs, k.curr, p);
  }

  /** Messages do not matter to where processes are. */
  lemma MailFrame(ps: Procs, ps': Procs, ready: seq<Pid>, sleep: seq<Sleeper>, sems: seq<Sem>, x: int)
    requires ReadyX(ps, ready, x) && SleepX(ps, sleep, x) && WaitX(ps, sems, x)
    requires forall q: Pid :: ps'[q].state == ps[q].state && ps'[q].prio == ps[q].prio && ps'[q].sem == ps[q].sem
    ensures ReadyX(ps', ready, x) && SleepX(ps', sleep, x) && WaitX(ps', sems, x)
  {
    forall s | 0 <= s < |sems| ensures QueueHolds(ps', sems[s].queue, x, s) {
      assert QueueHolds(ps, sems[s].queue, x, s);
    }
  }

  lemma DeliverProcs(ps: Procs, ps1: Procs, ps2: Procs, curr: Pid, p: Pid)
    requires ProcsOk(ps, curr) && ps[p].state != Free
    requires forall q: Pid :: q != p ==> ps1[q] == ps[q] && ps2[q] == ps1[q]
    requires ps1[p].prio == ps[p].prio && ps2[p] == ps1[p].(state := Ready)
    ensures ProcsOk(ps2, curr)
  {}

  lemma DeliverReady(k: Kern, p: Pid, msg: int)
    requires Placed(k, p) && Running(k) && p != k.curr && k.procs[p].state != Free
    requires k.procs[p].state == Recv || k.procs[p].state == Rectim
    ensures var k1 := k.(procs := k.procs[p := k.procs[p].(msg := msg, hasmsg := true)]);
      var r := MakeReady(k1, p);
      Placed(r, NPROC) && Running(r) && r.ndefers == k.ndefers
  {
    DeliverPlaced(k, p, msg);
    ReschedPlaced(Enlist(k.(procs := k.procs[p := k.procs[p].(msg := msg, hasmsg := true)]), p));
  }

  lemma SendInv(k: Kern, p: int, msg: int)
    requires Inv(k)
    ensures Inv(Send(k, p, msg))
  {
    if !IsBadPid(k, p) && !k.procs[p].hasmsg {
      if k.procs[p].state == Recv {
        SetStateFrame(k.procs, k.procs, p, NPROC, p);
        DeliverReady(k, p, msg);
      } else if k.procs[p].state == Rectim {
        RemoveDeltaFacts(k.sleep, p);
        RemoveAsleep(k, p, RemoveDelta(k.sleep, p));
        DeliverReady(Unsleep(k, p), p, msg);
      } else {
        SetMsgInv(k, p, k.procs[p].(msg := msg, hasmsg := true));
      }
    }
  }

  lemma SetMsgInv(k: Kern, p: Pid, v: Proc)
    requires Inv(k) && k.procs[p].state != Recv && k.procs[p].state != Rectim
    requires v.state == k.procs[p].state && v.prio == k.procs[p].prio && v.sem == k.procs[p].sem
    ensures Inv(k.(procs := k.procs[p := v]))
  {
    var ps := k.procs[p := v];
    SetStateFrame(k.procs, ps, p, NPROC, NPROC);
    forall s | 0 <= s < NSEM ensures QueueHolds(ps, k.sems[s].queue, NPROC, s) {
      assert QueueHolds(k.procs, k.sems[s].queue, NPROC, s);
    }
  }

  lemma SuspendInv(k: Kern, p: int)
    requires Inv(k)
    ensures Inv(Suspend(k, p)) <==> (p == k.curr && p != NULLPROC ==> CanPark(k))
  {
    if IsBadPid(k, p) || p == NULLPROC {
    } else if k.procs[p].state == Ready {
      RemoveReady(k, p, Susp);
    } else if k.procs[p].state == Curr {
      StopCurrent(k, Susp);
    }
  }

  /** The current process suspended or killed. */
  lemma StopCurrent(k: Kern, st: PrState)
    requires Inv(k) && (st == Susp || st == Free) && k.curr != NULLPROC
    ensures Inv(Resched(SetState(k, k.curr, st))) <==> CanPark(k)
  {
    var k1 := SetState(k, k.curr, st);
    if CanPark(k) {
      SetStateFrame(k.procs, k1.procs, k.curr, NPROC, NPROC);
      ReschedPlaced(k1);
    } else {
      ParkBreaks(k, k1);
    }
  }

  lemma {:induction false} WithoutSorted(ps: Procs, s: seq<Pid>, p: Pid)
    requires forall i, j :: 0 <= i < j < |s| ==> ps[s[i]].prio >= ps[s[j]].prio
    ensures forall i, j :: 0 <= i < j < |Without(s, p)| ==> ps[Without(s, p)[i]].prio >= ps[Without(s, p)[j]].prio
  {
    if s != [] && s[0] != p {
      WithoutSorted(ps, s[1..], p);
      forall x | x in Without(s[1..], p) ensures ps[s[0]].prio >= ps[x].prio {
        assert x in s[1..];
      }
    }
  }

  lemma WithoutReady(ps: Procs, ready: seq<Pid>, p: Pid, st: PrState)
    requires ReadyX(ps, ready, NPROC) && st != Ready && p in ready
    ensures ReadyX(ps[p := ps[p].(state := st)], Without(ready, p), NPROC)
  {
    WithoutNoDup(ready, p);
    WithoutSorted(ps, ready, p);
    assert forall q: Pid :: ps[p := ps[p].(state := st)][q].prio == ps[q].prio;
  }

  lemma RemoveReady(k: Kern, p: Pid, st: PrState)
    requires Inv(k) && p != NULLPROC && k.procs[p].state == Ready && (st == Susp || st == Free)
    ensures Inv(SetState(k, p, st).(ready := Without(k.ready, p)))
  {
    WithoutReady(k.procs, k.ready, p, st);
    RemovedRest(k.procs, k.procs[p := k.procs[p].(state := st)], k.sleep, k.sems, k.curr, p, st);
  }

  lemma RemovedRest(ps: Procs, ps': Procs, sleep: seq<Sleeper>, sems: seq<Sem>, curr: Pid, p: Pid, st: PrState)
    requires SleepX(ps, sleep, NPROC) && WaitX(ps, sems, NPROC) && ProcsOk(ps, curr)
    requires p != NULLPROC && ps[p].state == Ready && (st == Susp || st == Free) && ps' == ps[p := ps[p].(state := st)]
    ensures SleepX(ps', sleep, NPROC) && WaitX(ps', sems, NPROC) && ProcsOk(ps', curr)
  {
    SetStateFrame(ps, ps', p, NPROC, NPROC);
  }

  lemma ResumeInv(k: Kern, p: int)
    requires Inv(k)
    ensures Inv(Resume(k, p))
  {
    if !IsBadPid(k, p) && k.procs[p].state == Susp {
      SetStateFrame(k.procs, k.procs, p, NPROC, p);
      MakeReadyPlaced(k, p);
    }
  }

  lemma WithoutWaiter(ps: Procs, sems: seq<Sem>, p: Pid, v: Sem)
    requires WaitX(ps, sems, NPROC) && ps[p].state == Wait && v.queue == Without(sems[ps[p].sem].queue, p)
    ensures p in sems[ps[p].sem].queue
    ensures WaitX(ps[p := ps[p].(state := Free)], sems[ps[p].sem := v], NPROC)
  {
    var s := ps[p].sem;
    var ps', sems' := ps[p := ps[p].(state := Free)], sems[s := v];
    assert QueueHolds(ps, sems[s].queue, NPROC, s);
    WithoutNoDup(sems[s].queue, p);
    forall t | 0 <= t < |sems| ensures QueueHolds(ps', sems'[t].queue, NPROC, t) {
      assert QueueHolds(ps, sems[t].queue, NPROC, t);
    }
  }

  lemma KillWaiting(k: Kern, p: Pid)
    requires Inv(k) && p != NULLPROC && k.procs[p].state == Wait
    ensures Inv(Kill(k, p))
  {
    var s := k.procs[p].sem;
    var r := Kill(k, p);
    assert Balanced(k.sems[s]);
    WithoutWaiter(k.procs, k.sems, p, r.sems[s]);
    SetStateFrame(k.procs, r.procs, p, NPROC, NPROC);
  }

  lemma KillInv(k: Kern, p: int)
    requires Inv(k)
    ensures Inv(Kill(k, p)) <==> (p == k.curr && p != NULLPROC ==> CanPark(k))
  {
    if !IsBadPid(k, p) && p != NULLPROC {
      var k1 := SetState(k, p, Free);
      SetStateFrame(k.procs, k1.procs, p, NPROC, NPROC);
      match k.procs[p].state
      case Curr => StopCurrent(k, Free);
      case Wait => KillWaiting(k, p);
      case Ready => RemoveReady(k, p, Free);
      case Sleep => KillAsleep(k, p);
      case Rectim => KillAsleep(k, p);
      case _ =>
    }
  }

  lemma KillAsleep(k: Kern, p: Pid)
    requires Inv(k) && p != NULLPROC && Asleep(k.procs[p].state)
    ensures Inv(Unsleep(SetState(k, p, Free), p))
  {
    RemoveDeltaFacts(k.sleep, p);
    RemoveAsleep(k, p, RemoveDelta(k.sleep, p));
    SetStateFrame(k.procs, SetState(k, p, Free).procs, p, p, NPROC);
  }

  lemma CreateInv(k: Kern, prio: int, stack: bool)
    requires Inv(k)
    ensures Inv(Create(k, prio, stack).0)
  {
    if prio >= 1 {
      var f := FindPid(k.procs, k.nextpid, |k.procs|);
      if f.0 != SYSERR && stack {
        NewProcInv(k, f.0, prio);
      }
    }
  }

  lemma NewProcInv(k: Kern, p: Pid, prio: int)
    requires Inv(k) && k.procs[p].state == Free && prio >= 1
    ensures Inv(k.(procs := k.procs[p := Proc(Susp, prio, -1, k.procs[p].msg, false)]))
  {
    var ps := k.procs[p := Proc(Susp, prio, -1, k.procs[p].msg, false)];
    assert p !in k.ready;
    assert forall q :: q in k.ready ==> ps[q] == k.procs[q];
    forall s | 0 <= s < NSEM ensures QueueHolds(ps, k.sems[s].queue, NPROC, s) {
      assert QueueHolds(k.procs, k.sems[s].queue, NPROC, s);
    }
  }
}
