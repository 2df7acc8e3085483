/** Equal priorities are served first come, first served: a ready process is never passed over for one
    of no higher priority that was not ahead of it. */
module KernelFifo {
  import opened Seqs
  import opened QueueTable
  import opened Semaphores
  import opened KernelSpec
  import opened KernelInvariants
  import opened KernelRuns

  // ---- ready lists ----

  ghost predicate Before(s: seq<Pid>, p: Pid, q: Pid) {
    exists i, j :: 0 <= i < j < |s| && s[i] == p && s[j] == q
  }

  lemma BeforeAt(s: seq<Pid>, i: int, j: int)
    requires 0 <= i < j < |s|
    ensures Before(s, s[i], s[j])
  {}

  /** In a list without duplicates one of two members is ahead, and only one. */
  lemma OneAhead(s: seq<Pid>, p: Pid, q: Pid)
    requires NoDup(s)
    ensures p in s && q in s && p != q ==> Before(s, p, q) || Before(s, q, p)
    ensures !(Before(s, p, q) && Before(s, q, p)) && !Before(s, p, p)
  {
    if p in s && q in s && p != q {
      var i, j := Index(s, p), Index(s, q);
      if i < j { BeforeAt(s, i, j); } else { BeforeAt(s, j, i); }
    }
  }

  ghost predicate OrderKept(r: seq<Pid>, r': seq<Pid>) {
    forall p: Pid, q: Pid {:trigger Before(r', p, q)} :: Before(r, p, q) && p in r' && q in r' ==> Before(r', p, q)
  }

  /** Newcomers line up behind everyone of their priority or a higher one. */
  ghost predicate LinedUp(r: seq<Pid>, r': seq<Pid>, ps: Procs) {
    forall p: Pid, x: Pid {:trigger Before(r', p, x)} ::
      p in r && p in r' && x in r' && x !in r && ps[p].prio >= ps[x].prio ==> Before(r', p, x)
  }

  /** Processes were only added. */
  ghost predicate Grew(r: seq<Pid>, r': seq<Pid>, ps: Procs) {
    (forall p :: p in r ==> p in r') && OrderKept(r, r') && LinedUp(r, r', ps)
  }

  /** If c' took over, everyone who was ready and still is was behind it, or is of lower priority. */
  ghost predicate TookOver(r: seq<Pid>, c: Pid, r': seq<Pid>, c': Pid, ps: Procs) {
    c' != c ==> forall p: Pid {:trigger Before(r, c', p)} ::
      p in r && p in r' ==> Before(r, c', p) || (c' !in r && ps[p].prio < ps[c'].prio)
  }

  ghost predicate Served(r: seq<Pid>, c: Pid, r': seq<Pid>, c': Pid, ps: Procs) {
    OrderKept(r, r') && LinedUp(r, r', ps) && TookOver(r, c, r', c', ps)
  }

  lemma GrewTrans(r: seq<Pid>, r1: seq<Pid>, r2: seq<Pid>, ps: Procs)
    requires Grew(r, r1, ps) && Grew(r1, r2, ps)
    ensures Grew(r, r2, ps)
  {
    forall p: Pid, x: Pid | p in r && x in r2 && x !in r && ps[p].prio >= ps[x].prio ensures Before(r2, p, x) {
      if x in r1 { assert Before(r1, p, x); }
    }
  }

  lemma GrewServed(r: seq<Pid>, r1: seq<Pid>, c: Pid, r2: seq<Pid>, c2: Pid, ps: Procs)
    requires Grew(r, r1, ps) && Served(r1, c, r2, c2, ps) && NoDup(r1)
    ensures Served(r, c, r2, c2, ps)
  {
    forall p: Pid, x: Pid | p in r && p in r2 && x in r2 && x !in r && ps[p].prio >= ps[x].prio
      ensures Before(r2, p, x)
    {
      if x in r1 { assert Before(r1, p, x); }
    }
    forall p: Pid, q: Pid | Before(r, p, q) && p in r2 && q in r2 ensures Before(r2, p, q) {
      assert p in r && q in r && Before(r1, p, q);
    }
    if c2 != c { TookOverGrew(r, r1, c, r2, c2, ps); }
  }

  lemma TookOverGrew(r: seq<Pid>, r1: seq<Pid>, c: Pid, r2: seq<Pid>, c2: Pid, ps: Procs)
    requires Grew(r, r1, ps) && TookOver(r1, c, r2, c2, ps) && NoDup(r1) && c2 != c
    ensures TookOver(r, c, r2, c2, ps)
  {
    forall p: Pid | p in r && p in r2 ensures Before(r, c2, p) || (c2 !in r && ps[p].prio < ps[c2].prio) {
      assert p in r1;
      if Before(r1, c2, p) {
        OneAhead(r1, c2, p);
        if c2 in r {
          AheadAlready(r, r1, c2, p);
        } else {
          assert c2 in r1 && !Before(r1, p, c2);
        }
      }
    }
  }

  lemma AheadAlready(r: seq<Pid>, r1: seq<Pid>, p: Pid, q: Pid)
    requires OrderKept(r, r1) && (forall x :: x in r ==> x in r1) && NoDup(r1) && p in r && q in r && Before(r1, p, q)
    ensures Before(r, p, q)
  {
    OneAhead(r1, p, q);
    var i, j := Index(r, p), Index(r, q);
    if i < j { BeforeAt(r, i, j); }
    if j < i { BeforeAt(r, j, i); }
  }

  // ---- what happens to the ready list ----

  lemma InsertKeepsOrder(s: seq<Pid>, at: int, x: Pid)
    requires 0 <= at <= |s|
    ensures OrderKept(s, InsertAt(s, at, x))
    ensures forall i :: 0 <= i < at ==> Before(InsertAt(s, at, x), s[i], x)
  {
    var r := InsertAt(s, at, x);
    forall p: Pid, q: Pid | Before(s, p, q) ensures Before(r, p, q) {
      var i, j :| 0 <= i < j < |s| && s[i] == p && s[j] == q;
      BeforeAt(r, if i < at then i else i + 1, if j < at then j else j + 1);
    }
    forall i | 0 <= i < at ensures Before(r, s[i], x) { BeforeAt(r, i, at); }
  }

  lemma EnlistGrew(k: Kern, p: Pid)
    requires Sized(k) && ReadyX(k.procs, k.ready, p)
    ensures Grew(k.ready, Enlist(k, p).ready, k.procs) && NoDup(Enlist(k, p).ready)
  {
    var at := ReadyPlace(k.procs, k.ready, k.procs[p].prio);
    InsertKeepsOrder(k.ready, at, p);
    InsertNoDup(k.ready, at, p);
    forall q: Pid | q in k.ready && k.procs[q].prio >= k.procs[p].prio ensures Before(Enlist(k, p).ready, q, p) {
      ReadyIsFifo(k.procs, k.ready, p, Index(k.ready, q));
    }
  }

  lemma RestKeepsOrder(s: seq<Pid>)
    requires NoDup(s) && s != []
    ensures OrderKept(s, s[1..]) && forall p :: p in s[1..] ==> Before(s, s[0], p)
  {
    forall p: Pid, q: Pid | Before(s, p, q) && p in s[1..] ensures Before(s[1..], p, q) {
      var i, j :| 0 <= i < j < |s| && s[i] == p && s[j] == q;
      var h := Index(s[1..], p);
      assert s[h + 1] == p;
      BeforeAt(s[1..], i - 1, j - 1);
    }
    forall p | p in s[1..] ensures Before(s, s[0], p) { BeforeAt(s, 0, Index(s[1..], p) + 1); }
  }

  lemma SwitchServed(k: Kern)
    requires Sized(k) && NoDup(k.ready)
    ensures Served(k.ready, k.curr, Switch(k).ready, Switch(k).curr, k.procs)
  {
    if k.ready != [] { RestKeepsOrder(k.ready); }
  }

  lemma WithoutKeepsOrder(s: seq<Pid>, x: Pid)
    requires NoDup(s)
    ensures OrderKept(s, Without(s, x))
  {
    if x in s {
      var m := Index(s, x);
      WithoutAt(s, m);
      var r := Without(s, x);
      forall p: Pid, q: Pid | Before(s, p, q) && p in r && q in r ensures Before(r, p, q) {
        var i, j :| 0 <= i < j < |s| && s[i] == p && s[j] == q;
        BeforeAt(r, if i < m then i else i - 1, if j < m then j else j - 1);
      }
    }
  }

  /** The list only lost x. */
  lemma LostServed(k: Kern, x: Pid, k': Kern)
    requires Sized(k) && NoDup(k.ready) && k'.ready == Without(k.ready, x) && k'.curr == k.curr
    ensures Served(k.ready, k.curr, k'.ready, k'.curr, k.procs)
  {
    WithoutKeepsOrder(k.ready, x);
  }

  // ---- the kernel ----

  ghost predicate SamePrio(ps: Procs, ps': Procs) { forall p: Pid :: ps'[p].prio == ps[p].prio }

  ghost predicate GrewK(k: Kern, k': Kern)
    requires Sized(k) && Sized(k')
  {
    k'.curr == k.curr && SamePrio(k.procs, k'.procs) && Grew(k.ready, k'.ready, k.procs)
  }

  ghost predicate ServedK(k: Kern, k': Kern)
    requires Sized(k)
  {
    Served(k.ready, k.curr, k'.ready, k'.curr, k.procs)
  }

  lemma PrioFrame(ps: Procs, ps': Procs, r: seq<Pid>, r': seq<Pid>)
    requires SamePrio(ps, ps')
    ensures Grew(r, r', ps') ==> Grew(r, r', ps)
    ensures forall c: Pid, c': Pid :: Served(r, c, r', c', ps') ==> Served(r, c, r', c', ps)
  {}

  lemma GrewKTrans(k: Kern, k1: Kern, k2: Kern)
    requires Sized(k) && Sized(k1) && Sized(k2) && GrewK(k, k1) && GrewK(k1, k2)
    ensures GrewK(k, k2)
  {
    PrioFrame(k.procs, k1.procs, k1.ready, k2.ready);
    GrewTrans(k.ready, k1.ready, k2.ready, k.procs);
  }

  lemma GrewThenServed(k: Kern, k1: Kern, k2: Kern)
    requires Sized(k) && Sized(k1) && GrewK(k, k1) && ServedK(k1, k2) && NoDup(k1.ready)
    ensures ServedK(k, k2)
  {
    PrioFrame(k.procs, k1.procs, k1.ready, k2.ready);
    GrewServed(k.ready, k1.ready, k.curr, k2.ready, k2.curr, k.procs);
  }

  lemma SameServed(k: Kern, k': Kern)
    requires Sized(k) && k'.ready == k.ready && k'.curr == k.curr
    ensures ServedK(k, k')
  {}

  /** Nothing that matters to the ready list changed. */
  lemma SameGrew(k: Kern, k': Kern)
    requires Sized(k) && Sized(k') && k'.ready == k.ready && k'.curr == k.curr && SamePrio(k.procs, k'.procs)
    ensures GrewK(k, k')
  {}

  lemma ReschedServed(k: Kern)
    requires Placed(k, NPROC)
    ensures ServedK(k, Resched(k))
    ensures Resched(k).curr == k.curr && k.procs[k.curr].state == Curr ==> Resched(k).ready == k.ready
  {
    if k.ndefers > 0 {
    } else if k.procs[k.curr].state == Curr {
      if k.ready != [] && k.procs[k.curr].prio <= k.procs[k.ready[0]].prio {
        PreemptServed(k);
      }
    } else {
      SwitchServed(k);
    }
  }

  lemma PreemptServed(k: Kern)
    requires Placed(k, NPROC) && k.procs[k.curr].state == Curr
    requires k.ready != [] && k.procs[k.curr].prio <= k.procs[k.ready[0]].prio
    ensures ServedK(k, Switch(Enlist(k, k.curr))) && Switch(Enlist(k, k.curr)).curr == k.ready[0] != k.curr
  {
    CurrLoose(k);
    var k1 := Enlist(k, k.curr);
    EnlistGrew(k, k.curr);
    EnlistSame(k, k.curr);
    SwitchServed(k1);
    GrewThenServed(k, k1, Switch(k1));
    assert k.ready[0] in k.ready;
  }

  lemma EnlistSame(k: Kern, p: Pid)
    requires Sized(k)
    ensures Enlist(k, p).curr == k.curr && SamePrio(k.procs, Enlist(k, p).procs) && Enlist(k, p).ndefers == k.ndefers
  {}

  /** Readying p, which has left its queue. */
  lemma MakeReadyServed(k: Kern, p: Pid)
    requires Placed(k, p) && k.procs[p].state != Free
    ensures ServedK(k, MakeReady(k, p))
    ensures k.ndefers > 0 ==> GrewK(k, MakeReady(k, p))
  {
    var k1 := Enlist(k, p);
    EnlistGrew(k, p);
    EnlistSame(k, p);
    EnlistPlaced(k, p);
    ReschedServed(k1);
    GrewThenServed(k, k1, Resched(k1));
  }

  lemma DeferStopServed(k: Kern)
    requires Inv(k)
    ensures ServedK(k, DeferStop(k))
    ensures DeferStop(k).curr == k.curr ==> DeferStop(k).ready == k.ready
  {
    if k.ndefers == 1 && k.attempt { ReschedServed(k.(ndefers := 0)); }
  }

  // ---- semaphores ----

  /** The first waiter of s is unlinked and readied. */
  lemma PopReadyServed(k: Kern, s: int, v: Sem)
    requires Placed(k, NPROC) && 0 <= s < NSEM && k.sems[s].queue != [] && v.queue == k.sems[s].queue[1..]
    ensures var r := MakeReady(SetSem(k, s, v), k.sems[s].queue[0]);
      ServedK(k, r) && (k.ndefers > 0 ==> GrewK(k, r))
  {
    PopQueue(k, s, v);
    MakeReadyServed(SetSem(k, s, v), k.sems[s].queue[0]);
  }

  lemma PostServed(k: Kern, s: int)
    requires Inv(k) && 0 <= s < NSEM && k.sems[s].used
    ensures ServedK(k, Post(k, s)) && (k.ndefers > 0 ==> GrewK(k, Post(k, s)))
  {
    if Released(k.sems[s]) == [] {
      SameGrew(k, Post(k, s));
    } else {
      PopReadyServed(k, s, Up(k.sems[s]));
    }
  }

  /** n more signals lead from k to goal. */
  ghost predicate PostsTo(k: Kern, s: int, n: nat, goal: Kern) {
    Sized(k) && 0 <= s < NSEM && PostN(k, s, n) == goal && Sized(goal)
  }

  lemma {:induction false} PostNGrew(k: Kern, s: int, n: nat, goal: Kern)
    requires Inv(k) && PostsTo(k, s, n, goal) && k.sems[s].used && k.ndefers > 0
    ensures GrewK(k, goal)
    decreases n
  {
    if n == 0 {
      SameGrew(k, k);
    } else {
      var r, rest := PostOneGrew(k, s, n, goal);
      PostNGrew(r, s, rest, goal);
      GrewKTrans(k, r, goal);
    }
  }

  lemma PostOneGrew(k: Kern, s: int, n: nat, goal: Kern) returns (r: Kern, rest: nat)
    requires Inv(k) && PostsTo(k, s, n, goal) && k.sems[s].used && k.ndefers > 0 && n > 0
    ensures Inv(r) && PostsTo(r, s, rest, goal) && r.sems[s].used && r.ndefers == k.ndefers && GrewK(k, r) && rest < n
  {
    r, rest := Post(k, s), n - 1;
    PostsToStep(k, s, n, rest, goal);
    PostInv(k, s);
    PostServed(k, s);
  }

  lemma PostsToStep(k: Kern, s: int, n: nat, rest: nat, goal: Kern)
    requires PostsTo(k, s, n, goal) && n > 0 && rest == n - 1
    ensures PostsTo(Post(k, s), s, rest, goal)
  {}

  /** A loop under deferral, and the end of the deferral. */
  lemma LoopServed(k: Kern, k1: Kern, k2: Kern)
    requires Sized(k) && Sized(k1) && GrewK(k, k1) && Inv(k2) && k2.ready == k1.ready && k2.curr == k1.curr
    requires SamePrio(k1.procs, k2.procs)
    ensures ServedK(k, DeferStop(k2))
  {
    SameGrew(k1, k2);
    GrewKTrans(k, k1, k2);
    DeferStopServed(k2);
    GrewThenServed(k, k2, DeferStop(k2));
  }

  lemma SignalNServed(k: Kern, s: int, n: int)
    requires Inv(k)
    ensures ServedK(k, SignalN(k, s, n))
  {
    if !IsBadSem(k, s) && n >= 0 {
      var k1 := DeferStart(k);
      DeferStartInv(k);
      PostNInv(k1, s, n);
      PostNGrew(k1, s, n, PostN(k1, s, n));
      LoopServed(k1, PostN(k1, s, n), PostN(k1, s, n));
    }
  }

  lemma {:induction false} DrainGrew(k: Kern, s: int)
    requires Placed(k, NPROC) && Running(k) && 0 <= s < NSEM && k.ndefers > 0
    ensures GrewK(k, Drain(k, s))
    decreases |k.sems[s].queue|
  {
    if k.sems[s].queue == [] {
      SameGrew(k, k);
    } else {
      var v := k.sems[s].(queue := k.sems[s].queue[1..]);
      PopReadyInv(k, s, v);
      PopReadyServed(k, s, v);
      DrainGrew(PopOne(k, s), s);
      GrewKTrans(k, PopOne(k, s), Drain(PopOne(k, s), s));
    }
  }

  lemma SemResetServed(k: Kern, s: int, count: int)
    requires Inv(k)
    ensures ServedK(k, SemReset(k, s, count))
  {
    if count >= 0 && !IsBadSem(k, s) {
      var k1 := DeferStart(k);
      DrainInv(k1, s);
      DrainGrew(k1, s);
      var k2 := Drain(k1, s);
      var k3 := SetSem(k2, s, k2.sems[s].(count := count));
      SetCountPlaced(k2, s, k2.sems[s].(count := count), NPROC);
      LoopServed(k1, k2, k3);
    }
  }

  lemma {:induction false} ReleaseAllGrew(k: Kern, s: int)
    requires Placed(k, NPROC) && Running(k) && 0 <= s < NSEM && k.ndefers > 0
    requires |k.sems[s].queue| == Max0(-k.sems[s].count)
    ensures GrewK(k, ReleaseAll(k, s))
    decreases -k.sems[s].count
  {
    if k.sems[s].count < 0 {
      var r := ReleaseOneGrew(k, s);
      ReleaseAllGrew(r, s);
      GrewKTrans(k, r, ReleaseAll(r, s));
    } else {
      SameGrew(k, ReleaseAll(k, s));
    }
  }

  lemma ReleaseOneGrew(k: Kern, s: int) returns (r: Kern)
    requires Placed(k, NPROC) && Running(k) && 0 <= s < NSEM && k.ndefers > 0
    requires k.sems[s].count < 0 && |k.sems[s].queue| == -k.sems[s].count
    ensures Placed(r, NPROC) && Running(r) && r.ndefers == k.ndefers && GrewK(k, r)
    ensures r.sems[s].count == k.sems[s].count + 1 && |r.sems[s].queue| == -r.sems[s].count
    ensures ReleaseAll(k, s) == ReleaseAll(r, s)
  {
    var v := k.sems[s].(count := k.sems[s].count + 1);
    ReleaseStep(k, s);
    SetCountPlaced(k, s, v, NPROC);
    PopReadyServed(SetSem(k, s, v), s, v.(queue := v.queue[1..]));
    r := PopOne(SetSem(k, s, v), s);
  }

  lemma SemDeleteServed(k: Kern, s: int)
    requires Inv(k)
    ensures ServedK(k, SemDelete(k, s))
  {
    if !IsBadSem(k, s) {
      var v := k.sems[s].(used := false);
      SetCountPlaced(k, s, v, NPROC);
      var k1 := DeferStart(SetSem(k, s, v));
      var k2 := ReleaseAll(k1, s);
      ReleaseAllInv(k1, s);
      ReleaseAllSems(k1, s);
      ReleaseAllGrew(k1, s);
      LoopServed(k1, k2, k2);
    }
  }

  /** The current process blocks, which leaves the ready list alone, and gives up the processor. */
  lemma BlockServed(k: Kern, k1: Kern)
    requires Sized(k) && Placed(k1, NPROC) && k1.ready == k.ready && k1.curr == k.curr && SamePrio(k.procs, k1.procs)
    ensures ServedK(k, Resched(k1))
  {
    SameGrew(k, k1);
    ReschedServed(k1);
    GrewThenServed(k, k1, Resched(k1));
  }

  lemma WaitServed(k: Kern, s: int)
    requires Inv(k) && (Parks(k, CWait(s)) ==> k.curr != NULLPROC && k.ndefers == 0)
    ensures ServedK(k, WaitSem(k, s))
  {
    if Parks(k, CWait(s)) {
      var c := k.curr;
      var k1 := SetSem(k, s, Down(k.sems[s], c)).(procs := k.procs[c := k.procs[c].(state := Wait, sem := s)]);
      WaitPlaced(k, s);
      BlockServed(k, k1);
    }
  }

  // ---- time ----

  lemma AsleepServed(k: Kern, st: PrState, delay: int)
    requires Inv(k) && k.curr != NULLPROC && delay >= 0
    requires st == Sleep || (st == Rectim && !k.procs[k.curr].hasmsg)
    ensures ServedK(k, Resched(SetState(k, k.curr, st).(sleep := InsertDelta(k.sleep, k.curr, delay))))
  {
    AsleepPlaced(k, st, delay);
    BlockServed(k, SetState(k, k.curr, st).(sleep := InsertDelta(k.sleep, k.curr, delay)));
  }

  lemma PopSleeperGrew(k: Kern)
    requires Inv(k) && k.ndefers >= 1 && k.sleep != []
    ensures GrewK(k, MakeReady(k.(sleep := k.sleep[1..]), k.sleep[0].pid))
  {
    var p := k.sleep[0].pid;
    assert SleepPids(k.sleep)[0] == p && SleepPids(k.sleep[1..]) == SleepPids(k.sleep)[1..];
    assert p in SleepPids(k.sleep);
    RemoveAsleep(k, p, k.sleep[1..]);
    MakeReadyServed(k.(sleep := k.sleep[1..]), p);
  }

  lemma {:induction false} WakeLoopGrew(k: Kern)
    requires Inv(k) && k.ndefers >= 1
    ensures GrewK(k, WakeLoop(k))
    decreases |k.sleep|
  {
    if k.sleep != [] && k.sleep[0].delta <= 0 {
      var k1 := MakeReady(k.(sleep := k.sleep[1..]), k.sleep[0].pid);
      PopSleeper(k);
      PopSleeperGrew(k);
      WakeLoopGrew(k1);
      GrewKTrans(k, k1, WakeLoop(k1));
    } else {
      SameGrew(k, k);
    }
  }

  /** The loop on a list whose first delay is used up, or about to be. */
  lemma WakeFirstGrew(k: Kern, k2: Kern)
    requires Inv(k) && k.ndefers >= 1 && k.sleep != [] && k2 == k.(sleep := k2.sleep) && k2.sleep != []
    requires k2.sleep[1..] == k.sleep[1..] && k2.sleep[0].pid == k.sleep[0].pid && k2.sleep[0].delta <= 0
    ensures GrewK(k, WakeLoop(k2))
  {
    var k1 := MakeReady(k.(sleep := k.sleep[1..]), k.sleep[0].pid);
    PopSleeper(k);
    PopSleeperGrew(k);
    WakeLoopGrew(k1);
    GrewKTrans(k, k1, WakeLoop(k1));
    WakeLoopUnfold(k, k2);
  }

  lemma WakeupServed(k: Kern, d: int)
    requires Inv(k) && k.sleep != [] && (d == 0 || d == -1)
    ensures var w := Wakeup(k.(sleep := k.sleep[0 := k.sleep[0].(delta := d)]));
      ServedK(k, w) && (w.curr == k.curr ==> GrewK(k, w))
  {
    var k1, k2 := DeferStart(k), DeferStart(k.(sleep := k.sleep[0 := k.sleep[0].(delta := d)]));
    DeferStartInv(k);
    WakeFirst(k1, k2);
    WakeFirstGrew(k1, k2);
    LoopServed(k1, WakeLoop(k2), WakeLoop(k2));
    WakeupInv(k, d);
    DeferStopServed(WakeLoop(k2));
    if DeferStop(WakeLoop(k2)).curr == k.curr { GrewFrom(k1, WakeLoop(k2), DeferStop(WakeLoop(k2))); }
  }

  lemma GrewFrom(k: Kern, k1: Kern, k2: Kern)
    requires Sized(k) && Sized(k1) && Sized(k2) && GrewK(k, k1) && k2.ready == k1.ready && k2.curr == k1.curr
    requires SamePrio(k.procs, k2.procs)
    ensures GrewK(k, k2)
  {}

  lemma CountDownSleeper(k: Kern, d: int) returns (k1: Kern)
    requires Sized(k) && k.sleep != [] && d == k.sleep[0].delta - 1
    ensures k1 == k.(sleep := k.sleep[0 := k.sleep[0].(delta := d)])
    ensures CountDown(k) == if d <= 0 then Wakeup(k1) else k1
  {
    k1 := k.(sleep := k.sleep[0 := k.sleep[0].(delta := d)]);
  }

  lemma CountDownServed(k: Kern)
    requires Inv(k) && k.sleep != []
    ensures ServedK(k, CountDown(k)) && (CountDown(k).curr == k.curr ==> GrewK(k, CountDown(k)))
  {
    var d := k.sleep[0].delta - 1;
    assert SleepX(k.procs, k.sleep, NPROC);
    if d <= 0 { WakeupServed(k, d); }
    var k1 := CountDownSleeper(k, d);
    if d > 0 { SameGrew(k, k1); }
  }

  lemma TickFrontServed(k: Kern)
    requires Inv(k)
    ensures ServedK(k, TickFront(k)) && (TickFront(k).curr == k.curr ==> GrewK(k, TickFront(k)))
  {
    var k1 := CountTick(k);
    assert Inv(k1) && k1.ready == k.ready && k1.curr == k.curr && k1.sleep == k.sleep;
    if k.sleep != [] { CountDownServed(k1); } else { SameGrew(k, k1); }
  }

  lemma TickRestServed(k: Kern)
    requires Inv(k)
    ensures ServedK(k, TickRest(k))
  {
    if k.preempt == 1 {
      PreemptInv(k, QUANTUM);
      var k1 := k.(preempt := QUANTUM);
      ReschedServed(k1);
      assert TickRest(k) == Resched(k1);
    } else {
      assert TickRest(k) == k.(preempt := 1);
    }
  }

  lemma TickServed(k: Kern)
    requires Inv(k)
    ensures ServedK(k, Tick(k))
  {
    var k1 := TickFront(k);
    TickFrontInv(k);
    TickFrontServed(k);
    if k1.curr == k.curr {
      TickRestServed(k1);
      GrewThenServed(k, k1, TickRest(k1));
    }
  }

  // ---- messages and processes ----

  lemma DeliverServed(k: Kern, p: Pid, msg: int)
    requires Placed(k, p) && (k.procs[p].state == Recv || k.procs[p].state == Rectim)
    ensures ServedK(k, MakeReady(k.(procs := k.procs[p := k.procs[p].(msg := msg, hasmsg := true)]), p))
  {
    var k1 := k.(procs := k.procs[p := k.procs[p].(msg := msg, hasmsg := true)]);
    DeliverPlaced(k, p, msg);
    MailFrame(k.procs, k1.procs, k.ready, k.sleep, k.sems, p);
    EnlistGrew(k1, p);
    EnlistSame(k1, p);
    SameGrew(k, k1);
    GrewKTrans(k, k1, Enlist(k1, p));
    ReschedServed(Enlist(k1, p));
    GrewThenServed(k, Enlist(k1, p), Resched(Enlist(k1, p)));
  }

  lemma SendServed(k: Kern, p: int, msg: int)
    requires Inv(k)
    ensures ServedK(k, Send(k, p, msg))
  {
    if !IsBadPid(k, p) && !k.procs[p].hasmsg {
      if k.procs[p].state == Recv {
        SuspLoose(k, p);
        DeliverServed(k, p, msg);
      } else if k.procs[p].state == Rectim {
        RemoveDeltaFacts(k.sleep, p);
        RemoveAsleep(k, p, RemoveDelta(k.sleep, p));
        DeliverServed(Unsleep(k, p), p, msg);
      }
    }
  }

  lemma ReceiveServed(k: Kern)
    requires Inv(k) && (!k.procs[k.curr].hasmsg ==> k.curr != NULLPROC && k.ndefers == 0)
    ensures ServedK(k, Receive(k))
  {
    if !k.procs[k.curr].hasmsg { StopServed(k, Recv); }
  }

  /** The current process leaves the processor in a state that is on no queue. */
  lemma StopServed(k: Kern, st: PrState)
    requires Inv(k) && k.curr != NULLPROC && (st == Susp || st == Free || (st == Recv && !k.procs[k.curr].hasmsg))
    ensures ServedK(k, Resched(SetState(k, k.curr, st)))
  {
    var k1 := SetState(k, k.curr, st);
    SetStateFrame(k.procs, k1.procs, k.curr, NPROC, NPROC);
    BlockServed(k, k1);
  }

  lemma SuspendServed(k: Kern, p: int)
    requires Inv(k) && (p == k.curr && p != NULLPROC ==> k.ndefers == 0)
    ensures ServedK(k, Suspend(k, p))
  {
    if !IsBadPid(k, p) && p != NULLPROC && k.procs[p].state == Ready {
      LostServed(k, p, Suspend(k, p));
    } else if !IsBadPid(k, p) && p != NULLPROC && k.procs[p].state == Curr {
      StopServed(k, Susp);
    }
  }

  lemma ResumeServed(k: Kern, p: int)
    requires Inv(k)
    ensures ServedK(k, Resume(k, p))
  {
    if !IsBadPid(k, p) && k.procs[p].state == Susp {
      SuspLoose(k, p);
      MakeReadyServed(k, p);
    }
  }

  lemma KillServed(k: Kern, p: int)
    requires Inv(k) && (p == k.curr && p != NULLPROC ==> k.ndefers == 0)
    ensures ServedK(k, Kill(k, p))
  {
    if !IsBadPid(k, p) && p != NULLPROC {
      if k.procs[p].state == Curr {
        StopServed(k, Free);
      } else if k.procs[p].state == Ready {
        LostServed(k, p, Kill(k, p));
      } else {
        SameServed(k, Kill(k, p));
      }
    }
  }

  lemma ApplyServed(k: Kern, c: Call)
    requires Inv(k) && (Parks(k, c) ==> k.curr != NULLPROC && k.ndefers == 0)
    ensures ServedK(k, Apply(k, c))
  {
    if OnSem(c) {
      ApplySemServed(k, c);
    } else if c.CSleepMs? {
      if c.delay == 0 { ReschedServed(k); }
      if c.delay > 0 { AsleepServed(k, Sleep, c.delay); }
    } else if c.CRecvTime? {
      if Parks(k, c) { AsleepServed(k, Rectim, c.maxwait); }
    } else if c.CReceive? {
      ReceiveServed(k);
    } else if c.CSend? {
      SendServed(k, c.p, c.msg);
    } else {
      ApplyRestServed(k, c);
    }
  }

  lemma ApplyRestServed(k: Kern, c: Call)
    requires Inv(k) && (Parks(k, c) ==> k.curr != NULLPROC && k.ndefers == 0)
    requires !OnSem(c) && !c.CSleepMs? && !c.CRecvTime? && !c.CReceive? && !c.CSend?
    ensures ServedK(k, Apply(k, c))
  {
    if c.CYield? {
      ReschedServed(k);
    } else if c.CSuspend? {
      SuspendServed(k, c.p);
    } else if c.CResume? {
      ResumeServed(k, c.p);
    } else if c.CKill? {
      KillServed(k, c.p);
    } else if c.CDeferStop? {
      DeferStopServed(k);
    } else if c.CTick? {
      TickServed(k);
    } else {
      SameServed(k, Apply(k, c));
    }
  }

  lemma ApplySemServed(k: Kern, c: Call)
    requires Inv(k) && (Parks(k, c) ==> k.curr != NULLPROC && k.ndefers == 0) && OnSem(c)
    ensures ServedK(k, Apply(k, c))
  {
    match c
    case CWait(s) => WaitServed(k, s);
    case CSignal(s) => if !IsBadSem(k, s) { PostServed(k, s); }
    case CSignalN(s, n) => SignalNServed(k, s, n);
    case CSemReset(s, n) => SemResetServed(k, s, n);
    case CSemDelete(s) => SemDeleteServed(k, s);
    case CSemCreate(n) => SameServed(k, Apply(k, c));
  }

  /** In every step of every process the ready list is served in order. */
  lemma StepServed(y: Sys, c: Call)
    requires Good(y) && Enabled(y, c)
    ensures ServedK(y.k, Step(y, c).k)
  {
    if c == CFinish {
      if y.pc[y.k.curr] == InTick { TickRestServed(y.k); }
    } else {
      ApplyServed(y.k, c);
    }
  }

  // ---- over runs ----

  /** p is ready and q neither runs nor is ahead of p. */
  ghost predicate WaitsFirst(k: Kern, p: Pid, q: Pid) {
    p in k.ready && q != k.curr && !Before(k.ready, q, p)
  }

  /** Along the run p stays ready, and q is of no higher priority. */
  ghost predicate StaysReady(y: Sys, cs: seq<Call>, p: Pid, q: Pid)
    requires Sized(y.k) && |y.pc| == NPROC
    decreases |cs|
  {
    && p in y.k.ready && y.k.procs[q].prio <= y.k.procs[p].prio
    && (cs == [] || StaysReady(Step(y, cs[0]), cs[1..], p, q))
  }

  lemma StepWaitsFirst(y: Sys, c: Call, p: Pid, q: Pid)
    requires Good(y) && Enabled(y, c) && WaitsFirst(y.k, p, q) && p != q
    requires y.k.procs[q].prio <= y.k.procs[p].prio && p in Step(y, c).k.ready
    ensures WaitsFirst(Step(y, c).k, p, q)
  {
    StepServed(y, c);
    StepGood(y, c);
    ServedFirst(y.k.ready, y.k.curr, Step(y, c).k.ready, Step(y, c).k.curr, y.k.procs, p, q);
  }

  lemma ServedFirst(r: seq<Pid>, c: Pid, r': seq<Pid>, c': Pid, ps: Procs, p: Pid, q: Pid)
    requires Served(r, c, r', c', ps) && NoDup(r) && NoDup(r') && p != q && p in r && p in r'
    requires q != c && !Before(r, q, p) && ps[q].prio <= ps[p].prio
    ensures q != c' && !Before(r', q, p)
  {
    OneAhead(r, p, q);
    OneAhead(r', p, q);
  }

  /** A process that is ready, and stays so, is not passed over: whoever is of no higher priority and not
      ahead of it does not get the processor before it. */
  lemma {:induction false} NotPassedOver(y: Sys, cs: seq<Call>, p: Pid, q: Pid)
    requires Good(y) && Legal(y, cs) && WaitsFirst(y.k, p, q) && p != q && StaysReady(y, cs, p, q)
    ensures Run(y, cs).k.curr != q && p in Run(y, cs).k.ready && !Before(Run(y, cs).k.ready, q, p)
    decreases |cs|
  {
    if cs != [] {
      StepGood(y, cs[0]);
      StepWaitsFirst(y, cs[0], p, q);
      NotPassedOver(Step(y, cs[0]), cs[1..], p, q);
    }
  }
}
