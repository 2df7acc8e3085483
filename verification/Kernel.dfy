/** The kernel calls over the process, semaphore and queue tables, statement by statement. Every
    method is proved to take the abstract state k from one value to the one KernelSpec names. */
module KernelCalls {
  import opened Seqs
  import opened QueueTable
  import opened Semaphores
  import opened KernelInvariants
  import opened S = KernelSpec
  import opened KernelRuns
  import Queues

  /** A semaphore table entry: its waiters are the queue with id squeue. */
  datatype SEntry = SEntry(used: bool, scount: int, squeue: int)

  const READYLIST := NPROC + 2 * NSEM
  const SLEEPQ := READYLIST + 2

  /** The queue id of semaphore s: sysinit takes ids in this order. */
  function SQueue(s: int): (q: int) { NPROC + 2 * s }

  /** With keys that are the priorities, insert's place is the one of the ready list. */
  lemma {:induction false} PlaceIsReadyPlace(t: seq<QEntry>, ps: Procs, s: seq<Pid>, key: int)
    requires |t| == NQENT && Pids(s) && forall i :: 0 <= i < |s| ==> t[s[i]].key == ps[s[i]].prio
    ensures Place(t, s, key) == ReadyPlace(ps, s, key)
  {
    if s != [] && ps[s[0]].prio >= key {
      PlaceIsReadyPlace(t, ps, s[1..], key);
    }
  }

  /** InsertDelta by position: the index insertd stops at, and what is left of the key there. */
  function PutDelta(s: seq<Sleeper>, at: int, p: Pid, key: int): (r: seq<Sleeper>)
    requires 0 <= at <= |s|
  {
    s[..at] + [Sleeper(p, key)] + (if at == |s| then [] else [s[at].(delta := s[at].delta - key)] + s[at + 1..])
  }

  lemma {:induction false} DeltaPlaceIs(t: seq<QEntry>, s: seq<Sleeper>, p: Pid, key: int)
    requires |t| == NQENT && Pids(SleepPids(s)) && forall i :: 0 <= i < |s| ==> t[s[i].pid].key == s[i].delta
    ensures var at := DeltaPlace(t, SleepPids(s), key); InsertDelta(s, p, key) == PutDelta(s, at.0, p, at.1)
  {
    var ids := SleepPids(s);
    if s != [] && s[0].delta <= key {
      assert ids[0] == s[0].pid && ids[1..] == SleepPids(s[1..]);
      DeltaPlaceIs(t, s[1..], p, key - s[0].delta);
      var at := DeltaPlace(t, SleepPids(s[1..]), key - s[0].delta);
      assert DeltaPlace(t, ids, key) == (at.0 + 1, at.1);
      PutDeltaCons(s, at.0, p, at.1);
    }
  }

  lemma PutDeltaCons(s: seq<Sleeper>, at: int, p: Pid, key: int)
    requires s != [] && 0 <= at <= |s| - 1
    ensures [s[0]] + PutDelta(s[1..], at, p, key) == PutDelta(s, at + 1, p, key)
  {
    assert s[..at + 1] == [s[0]] + s[1..][..at];
    assert at < |s| - 1 ==> s[1..][at + 1..] == s[at + 2..];
  }

  /** unsleep's effect by position. */
  lemma {:induction false} RemoveDeltaIs(s: seq<Sleeper>, i: int)
    requires NoDup(SleepPids(s)) && 0 <= i < |s|
    ensures var r := RemoveDelta(s, s[i].pid);
      && |r| == |s| - 1
      && (forall j :: 0 <= j < i ==> r[j] == s[j])
      && (i + 1 < |s| ==> r[i] == s[i + 1].(delta := s[i + 1].delta + s[i].delta))
      && (forall j :: i + 1 < j < |s| ==> r[j - 1] == s[j])
  {
    if i > 0 {
      assert SleepPids(s)[i] != SleepPids(s)[0];
      assert SleepPids(s[1..]) == SleepPids(s)[1..];
      RemoveDeltaIs(s[1..], i - 1);
      assert RemoveDelta(s, s[i].pid) == [s[0]] + RemoveDelta(s[1..], s[i].pid);
    }
  }

  /** p is on no queue, and every other process on the one its state names. */
  ghost predicate Loose(k: Kern, p: int) {
    Sized(k) && ReadyX(k.procs, k.ready, p) && SleepX(k.procs, k.sleep, p) && WaitX(k.procs, k.sems, p)
  }

  // ---- the queue table holds the abstract queues ----

  ghost predicate AllQueues(lists: map<int, seq<int>>) { forall q :: q in lists <==> IsQueue(q) }

  ghost predicate SemsTied(sems: seq<Sem>, semt: seq<SEntry>, lists: map<int, seq<int>>) {
    && |sems| == |semt| == NSEM && AllQueues(lists)
    && forall s :: 0 <= s < NSEM ==>
         semt[s] == SEntry(sems[s].used, sems[s].count, SQueue(s)) && lists[SQueue(s)] == sems[s].queue
  }

  /** The keys on the ready list are the priorities. */
  ghost predicate ReadyTied(ps: Procs, ready: seq<Pid>, lists: map<int, seq<int>>, t: seq<QEntry>) {
    && |t| == NQENT && AllQueues(lists) && lists[READYLIST] == ready
    && forall p :: p in ready ==> t[p].key == ps[p].prio
  }

  /** The keys on the sleep list are the delays. */
  ghost predicate SleepTied(sleep: seq<Sleeper>, lists: map<int, seq<int>>, t: seq<QEntry>) {
    && |t| == NQENT && AllQueues(lists) && lists[SLEEPQ] == SleepPids(sleep)
    && forall i :: 0 <= i < |sleep| ==> t[sleep[i].pid].key == sleep[i].delta
  }

  ghost predicate Tied(k: Kern, semt: seq<SEntry>, lists: map<int, seq<int>>, t: seq<QEntry>) {
    && Sized(k) && SemsTied(k.sems, semt, lists) && ReadyTied(k.procs, k.ready, lists, t)
    && SleepTied(k.sleep, lists, t)
  }

  lemma SemsFrame(sems: seq<Sem>, semt: seq<SEntry>, lists: map<int, seq<int>>, q: int, v: seq<int>)
    requires SemsTied(sems, semt, lists) && (q == READYLIST || q == SLEEPQ)
    ensures SemsTied(sems, semt, lists[q := v])
  {}

  lemma ReadyFrame(ps: Procs, ready: seq<Pid>, lists: map<int, seq<int>>, q: int, v: seq<int>,
                   t: seq<QEntry>, t': seq<QEntry>, x: int)
    requires ReadyTied(ps, ready, lists, t) && q in lists && q != READYLIST && x !in ready && SameKeys(t, t', x)
    ensures ReadyTied(ps, ready, lists[q := v], t')
  {}

  lemma SleepFrame(sleep: seq<Sleeper>, lists: map<int, seq<int>>, q: int, v: seq<int>,
                   t: seq<QEntry>, t': seq<QEntry>, x: int)
    requires SleepTied(sleep, lists, t) && q in lists && q != SLEEPQ && x !in SleepPids(sleep) && SameKeys(t, t', x)
    ensures SleepTied(sleep, lists[q := v], t')
  {
    forall i | 0 <= i < |sleep| ensures t'[sleep[i].pid].key == sleep[i].delta {
      assert SleepPids(sleep)[i] == sleep[i].pid;
    }
  }

  lemma EnlistTied(k: Kern, semt: seq<SEntry>, lists: map<int, seq<int>>, t: seq<QEntry>, t': seq<QEntry>, p: Pid)
    requires Loose(k, p) && Tied(k, semt, lists, t) && SameKeys(t, t', p) && t'[p].key == k.procs[p].prio
    ensures var at := Place(t, lists[READYLIST], k.procs[p].prio);
      Tied(S.Enlist(k, p), semt, lists[READYLIST := InsertAt(lists[READYLIST], at, p)], t')
  {
    PlaceIsReadyPlace(t, k.procs, k.ready, k.procs[p].prio);
    var k1 := S.Enlist(k, p);
    SemsFrame(k.sems, semt, lists, READYLIST, k1.ready);
    SleepFrame(k.sleep, lists, READYLIST, k1.ready, t, t', p);
    assert forall q: Pid :: k1.procs[q].prio == k.procs[q].prio;
  }

  /** Only states of processes changed. */
  lemma StateTied(k: Kern, p: Pid, v: Proc, semt: seq<SEntry>, lists: map<int, seq<int>>, t: seq<QEntry>)
    requires Tied(k, semt, lists, t) && v.prio == k.procs[p].prio
    ensures Tied(k.(procs := k.procs[p := v]), semt, lists, t)
  {}

  lemma SwitchTied(k: Kern, semt: seq<SEntry>, lists: map<int, seq<int>>, t: seq<QEntry>, t': seq<QEntry>)
    requires Tied(k, semt, lists, t) && k.ready != [] && SameKeys(t, t', EMPTY)
    ensures Tied(S.Switch(k), semt, lists[READYLIST := k.ready[1..]], t')
  {
    SemsFrame(k.sems, semt, lists, READYLIST, k.ready[1..]);
    SleepFrame(k.sleep, lists, READYLIST, k.ready[1..], t, t', EMPTY);
    assert forall p: Pid :: S.Switch(k).procs[p].prio == k.procs[p].prio;
  }

  /** Semaphore s got the value v, and its queue in the table the queue of v. */
  lemma SemTied(k: Kern, s: int, v: Sem, x: int, semt: seq<SEntry>, lists: map<int, seq<int>>,
                t: seq<QEntry>, t': seq<QEntry>)
    requires Tied(k, semt, lists, t) && 0 <= s < NSEM && SameKeys(t, t', x)
    requires x !in k.ready && x !in SleepPids(k.sleep)
    ensures IsQueue(SQueue(s)) && SQueue(s) in lists
    ensures Tied(SetSem(k, s, v), semt[s := SEntry(v.used, v.count, SQueue(s))], lists[SQueue(s) := v.queue], t')
  {
    var q := SQueue(s);
    assert IsQueue(q);
    ReadyFrame(k.procs, k.ready, lists, q, v.queue, t, t', x);
    SleepFrame(k.sleep, lists, q, v.queue, t, t', x);
  }

  /** The count or use of semaphore s changed, its queue did not. */
  lemma CountTied(k: Kern, s: int, v: Sem, semt: seq<SEntry>, lists: map<int, seq<int>>, t: seq<QEntry>)
    requires Tied(k, semt, lists, t) && 0 <= s < NSEM && v.queue == k.sems[s].queue
    ensures Tied(SetSem(k, s, v), semt[s := SEntry(v.used, v.count, SQueue(s))], lists, t)
  {
    SemTied(k, s, v, EMPTY, semt, lists, t, t);
    assert lists[SQueue(s) := v.queue] == lists;
  }

  /** A queue of the table and the abstract queue it holds lose the same process alike. */
  lemma {:induction false} WithoutPid(s: seq<Pid>, t: seq<int>, p: Pid)
    requires s == t
    ensures Without(s, p) == Without(t, p as int)
  {
    if s != [] && s[0] != p {
      WithoutPid(s[1..], t[1..], p);
    }
  }

  /** Taking a process out of the one queue that holds it. */
  lemma UnlinkIs(lists: map<int, seq<int>>, q: int, p: int)
    requires Apart(lists) && q in lists && p in lists[q]
    ensures Unlink(lists, p) == lists[q := Without(lists[q], p)]
  {
    var i := Index(lists[q], p);
    UnlinkOne(lists, q, i);
    WithoutAt(lists[q], i);
  }

  /** The keys after insertd: p has what was left of the delay, its successor the rest of its own. */
  ghost predicate DeltaKeys(t: seq<QEntry>, t': seq<QEntry>, s: seq<int>, p: int, at: (int, int)) {
    && |t| == |t'| == NQENT && Pids(s) && 0 <= p < NPROC && 0 <= at.0 <= |s| && t'[p].key == at.1
    && (at.0 < |s| ==> t'[s[at.0]].key == t[s[at.0]].key - at.1)
    && (forall q: Pid :: q != p && (at.0 < |s| ==> q != s[at.0]) ==> t'[q].key == t[q].key)
  }

  lemma PutDeltaPids(sleep: seq<Sleeper>, at: int, p: Pid, key: int)
    requires 0 <= at <= |sleep|
    ensures SleepPids(PutDelta(sleep, at, p, key)) == InsertAt(SleepPids(sleep), at, p)
  {}

  lemma PutDeltaKeys(sleep: seq<Sleeper>, p: Pid, at: (int, int), t: seq<QEntry>, t': seq<QEntry>)
    requires DeltaKeys(t, t', SleepPids(sleep), p, at) && p !in SleepPids(sleep) && NoDup(SleepPids(sleep))
    requires forall i :: 0 <= i < |sleep| ==> t[sleep[i].pid].key == sleep[i].delta
    ensures var r := PutDelta(sleep, at.0, p, at.1);
      forall i :: 0 <= i < |r| ==> t'[r[i].pid].key == r[i].delta
  {
    var s, r := SleepPids(sleep), PutDelta(sleep, at.0, p, at.1);
    forall i | 0 <= i < |r| ensures t'[r[i].pid].key == r[i].delta {
      if i < at.0 {
        assert s[i] == r[i].pid && s[i] in s;
      } else if i > at.0 + 1 {
        assert s[i - 1] == r[i].pid && s[i - 1] in s;
      }
    }
  }

  lemma InsertDeltaTied(k: Kern, p: Pid, delay: int, semt: seq<SEntry>, lists: map<int, seq<int>>,
                        t: seq<QEntry>, t': seq<QEntry>)
    requires Tied(k, semt, lists, t) && p !in k.ready && p !in SleepPids(k.sleep)
    requires NoDup(SleepPids(k.sleep)) && forall q: Pid :: q in k.ready ==> q !in SleepPids(k.sleep)
    requires DeltaKeys(t, t', lists[SLEEPQ], p, DeltaPlace(t, lists[SLEEPQ], delay))
    ensures var s := lists[SLEEPQ]; var at := DeltaPlace(t, s, delay);
      Tied(k.(sleep := InsertDelta(k.sleep, p, delay)), semt, lists[SLEEPQ := InsertAt(s, at.0, p)], t')
  {
    var s := lists[SLEEPQ];
    var at := DeltaPlace(t, s, delay);
    DeltaPlaceIs(t, k.sleep, p, delay);
    SemsFrame(k.sems, semt, lists, SLEEPQ, InsertAt(s, at.0, p));
    PutDeltaPids(k.sleep, at.0, p, at.1);
    PutDeltaKeys(k.sleep, p, at, t, t');
    forall q | q in k.ready ensures t'[q].key == k.procs[q].prio {
      assert at.0 < |s| ==> s[at.0] in s;
    }
  }

  /** unsleep: p is gone and its successor's key has grown by p's. */
  lemma RemoveDeltaTied(k: Kern, i: int, semt: seq<SEntry>, lists: map<int, seq<int>>,
                        t: seq<QEntry>, t': seq<QEntry>)
    requires Tied(k, semt, lists, t) && 0 <= i < |k.sleep| && NoDup(SleepPids(k.sleep)) && |t'| == NQENT
    requires forall q: Pid :: q in k.ready ==> q !in SleepPids(k.sleep)
    requires i + 1 < |k.sleep| ==>
      SameKeys(t, t', k.sleep[i + 1].pid)
      && t'[k.sleep[i + 1].pid].key == t[k.sleep[i + 1].pid].key + t[k.sleep[i].pid].key
    requires i + 1 == |k.sleep| ==> SameKeys(t, t', EMPTY)
    ensures var p := k.sleep[i].pid;
      Tied(Unsleep(k, p), semt, lists[SLEEPQ := Without(lists[SLEEPQ], p)], t')
  {
    var p, s := k.sleep[i].pid, SleepPids(k.sleep);
    var r := RemoveDelta(k.sleep, p);
    RemoveDeltaFacts(k.sleep, p);
    RemoveDeltaIs(k.sleep, i);
    WithoutPid(s, lists[SLEEPQ], p);
    SemsFrame(k.sems, semt, lists, SLEEPQ, Without(s, p));
    forall j | 0 <= j < |r| ensures t'[r[j].pid].key == r[j].delta {
      if j < i { assert s[j] == r[j].pid; } else { assert s[j + 1] == r[j].pid; }
    }
    forall q | q in k.ready ensures t'[q].key == k.procs[q].prio {
      assert i + 1 < |s| ==> s[i + 1] in s;
    }
  }

  /** The first sleeper is taken off without passing anything on (wakeup). */
  lemma PopSleeperTied(k: Kern, semt: seq<SEntry>, lists: map<int, seq<int>>, t: seq<QEntry>, t': seq<QEntry>)
    requires Tied(k, semt, lists, t) && k.sleep != [] && SameKeys(t, t', EMPTY)
    ensures Tied(k.(sleep := k.sleep[1..]), semt, lists[SLEEPQ := lists[SLEEPQ][1..]], t')
  {
    SemsFrame(k.sems, semt, lists, SLEEPQ, lists[SLEEPQ][1..]);
    assert SleepPids(k.sleep[1..]) == SleepPids(k.sleep)[1..];
  }

  lemma CountDownTied(k: Kern, d: int, semt: seq<SEntry>, lists: map<int, seq<int>>, t: seq<QEntry>, t': seq<QEntry>)
    requires Tied(k, semt, lists, t) && k.sleep != [] && SameKeys(t, t', k.sleep[0].pid)
    requires t'[k.sleep[0].pid].key == d && NoDup(SleepPids(k.sleep))
    requires forall q: Pid :: q in k.ready ==> q !in SleepPids(k.sleep)
    ensures Tied(k.(sleep := k.sleep[0 := k.sleep[0].(delta := d)]), semt, lists, t')
  {
    var s, r := SleepPids(k.sleep), k.sleep[0 := k.sleep[0].(delta := d)];
    assert SleepPids(r) == s;
    assert s[0] in s;
    forall i | 0 <= i < |r| ensures t'[r[i].pid].key == r[i].delta {
      assert i > 0 ==> s[i] != s[0];
    }
  }

  lemma RemoveReadyTied(k: Kern, p: Pid, semt: seq<SEntry>, lists: map<int, seq<int>>, t: seq<QEntry>, t': seq<QEntry>)
    requires Tied(k, semt, lists, t) && SameKeys(t, t', EMPTY)
    ensures Tied(k.(ready := Without(k.ready, p)), semt, lists[READYLIST := Without(lists[READYLIST], p)], t')
  {
    WithoutPid(k.ready, lists[READYLIST], p);
    SemsFrame(k.sems, semt, lists, READYLIST, Without(k.ready, p));
    SleepFrame(k.sleep, lists, READYLIST, Without(k.ready, p), t, t', EMPTY);
  }

  /** The current process waiting at the end of the queue of sem. */
  function Joined(k: Kern, sem: int): (r: Kern)
    requires Sized(k) && 0 <= sem < NSEM
    ensures Sized(r)
  {
    var v := k.sems[sem];
    SetSem(k, sem, v.(queue := v.queue + [k.curr])).(
      procs := k.procs[k.curr := k.procs[k.curr].(state := Wait, sem := sem)])
  }

  lemma WaitIs(k: Kern, sem: int)
    requires Sized(k) && !IsBadSem(k, sem) && Blocks(k.sems[sem])
    ensures var k1 := SetSem(k, sem, k.sems[sem].(count := k.sems[sem].count - 1));
      && Joined(k1, sem) == SetSem(k, sem, Down(k.sems[sem], k.curr)).(
        procs := k.procs[k.curr := k.procs[k.curr].(state := Wait, sem := sem)])
      && S.WaitSem(k, sem) == S.Resched(Joined(k1, sem))
  {
    assert k.sems[sem := k.sems[sem].(count := k.sems[sem].count - 1)][sem := Down(k.sems[sem], k.curr)]
      == k.sems[sem := Down(k.sems[sem], k.curr)];
  }

  lemma SignalNIs(k: Kern, k1: Kern, k2: Kern, k3: Kern, sem: int, n: nat)
    requires Sized(k) && !IsBadSem(k, sem) && k1 == S.DeferStart(k) && k2 == PostN(k1, sem, n) && k3 == S.DeferStop(k2)
    ensures k3 == S.SignalN(k, sem, n)
  {}

  /** Where the rest of the draining loop leads. */
  ghost predicate Drains(k: Kern, sem: int, goal: Kern) {
    Sized(k) && 0 <= sem < NSEM && Drain(k, sem) == goal
  }

  lemma DrainStep(k: Kern, sem: int, goal: Kern)
    requires Drains(k, sem, goal) && k.sems[sem].queue != []
    ensures Drains(S.PopOne(k, sem), sem, goal)
  {}

  ghost predicate Releases(k: Kern, sem: int, goal: Kern) {
    Sized(k) && 0 <= sem < NSEM && ReleaseAll(k, sem) == goal
  }

  lemma ReleasesStep(k: Kern, sem: int, goal: Kern)
    requires Releases(k, sem, goal) && k.sems[sem].count < 0 && k.sems[sem].queue != []
    ensures Releases(S.PopOne(SetSem(k, sem, k.sems[sem].(count := k.sems[sem].count + 1)), sem), sem, goal)
  {}

  lemma SemResetIs(k: Kern, k1: Kern, k2: Kern, k3: Kern, k4: Kern, sem: int, count: int)
    requires Sized(k) && count >= 0 && !IsBadSem(k, sem) && k1 == S.DeferStart(k) && k2 == Drain(k1, sem)
    requires k3 == SetSem(k2, sem, k2.sems[sem].(count := count)) && k4 == S.DeferStop(k3)
    ensures k4 == S.SemReset(k, sem, count)
  {}

  lemma SemResetPlan(k: Kern, sem: int, count: int)
    requires Inv(k) && !IsBadSem(k, sem) && count >= 0
    ensures var k1 := S.DeferStart(k);
      && Placed(k1, NPROC) && Running(k1)
      && Inv(SetSem(Drain(k1, sem), sem, Drain(k1, sem).sems[sem].(count := count)))
  {
    var k1 := S.DeferStart(k);
    DrainInv(k1, sem);
    var k2 := Drain(k1, sem);
    SetCountPlaced(k2, sem, k2.sems[sem].(count := count), NPROC);
  }

  lemma SemDeletePlan(k: Kern, sem: int)
    requires Inv(k) && !IsBadSem(k, sem)
    ensures var k1 := S.DeferStart(SetSem(k, sem, k.sems[sem].(used := false)));
      && Placed(k1, NPROC) && Running(k1) && |k1.sems[sem].queue| == Max0(-k1.sems[sem].count)
      && Inv(ReleaseAll(k1, sem))
  {
    var v := k.sems[sem].(used := false);
    assert Balanced(k.sems[sem]);
    SetCountPlaced(k, sem, v, NPROC);
    var k1 := S.DeferStart(SetSem(k, sem, v));
    ReleaseAllInv(k1, sem);
    ReleaseAllSems(k1, sem);
    assert SemsOk(ReleaseAll(k1, sem).sems) by { assert SemsOk(k.sems); }
  }

  lemma SemDeleteIs(k: Kern, k1: Kern, k2: Kern, k3: Kern, sem: int)
    requires Sized(k) && !IsBadSem(k, sem)
    requires k1 == S.DeferStart(SetSem(k, sem, k.sems[sem].(used := false)))
    requires k2 == ReleaseAll(k1, sem) && k3 == S.DeferStop(k2)
    ensures k3 == S.SemDelete(k, sem)
  {}

  /** Where the rest of newsem's search leads. */
  ghost predicate FindsSem(sems: seq<Sem>, next: int, tries: int, f: (int, int)) {
    |sems| == NSEM && 0 <= next < NSEM && tries >= 0 && FindSem(sems, next, tries) == f
  }

  lemma FindsStep(sems: seq<Sem>, next: int, tries: int, next1: int, rest: int, f: (int, int))
    requires FindsSem(sems, next, tries, f) && tries > 0 && rest == tries - 1
    requires next1 == if next + 1 >= NSEM then 0 else next + 1
    ensures if sems[next].used then FindsSem(sems, next1, rest, f) else f == (next, next1)
  {}

  /** newsem's outcome: the entry found is marked used, and the next search starts behind it. */
  ghost predicate NewSemIs(k: Kern, k': Kern, sem: int) {
    && Sized(k) && sem == FindSem(k.sems, k.nextsem, |k.sems|).0
    && var k1 := k.(nextsem := FindSem(k.sems, k.nextsem, |k.sems|).1);
       k' == if sem == SYSERR then k1 else SetSem(k1, sem, k1.sems[sem].(used := true))
  }

  lemma SemCreateIs(k: Kern, k1: Kern, k2: Kern, sem: int, count: int)
    requires Sized(k) && NewSemIs(k, k1, sem) && count >= 0
    requires k2 == if sem == SYSERR then k1 else SetSem(k1, sem, k1.sems[sem].(count := count))
    ensures k2 == S.SemCreate(k, count).0 && sem == S.SemCreate(k, count).1
  {
    if sem != SYSERR {
      var v := k.sems[sem].(used := true);
      assert k.sems[sem := v][sem := v.(count := count)] == k.sems[sem := v.(count := count)];
    }
  }

  /** The first delay, used up, may have been driven below zero; all else is as the invariant says. */
  ghost predicate FirstExpired(k: Kern) {
    k.sleep != [] && k.sleep[0].delta <= 0 && Inv(k.(sleep := k.sleep[0 := k.sleep[0].(delta := 0)]))
  }

  lemma CountDownPlan(k: Kern, d: int)
    requires Inv(k) && k.sleep != [] && d == k.sleep[0].delta - 1
    ensures NoDup(SleepPids(k.sleep))
    ensures var k1 := k.(sleep := k.sleep[0 := k.sleep[0].(delta := d)]);
      if d <= 0 then FirstExpired(k1) else Inv(k1)
  {
    var k1 := k.(sleep := k.sleep[0 := k.sleep[0].(delta := d)]);
    SetDeltaInv(k, if d <= 0 then 0 else d);
    assert k1.(sleep := k1.sleep[0 := k1.sleep[0].(delta := 0)]) == k.(sleep := k.sleep[0 := k.sleep[0].(delta := 0)]);
  }

  lemma SleeperLoose(k: Kern)
    requires Inv(k) && k.sleep != []
    ensures var p, k1 := k.sleep[0].pid, k.(sleep := k.sleep[1..]);
      && Loose(k1, p) && k1.procs[p].state != Free && k1.procs[p].prio > MINKEY && Placed(S.Enlist(k1, p), NPROC)
  {
    var p, k1 := k.sleep[0].pid, k.(sleep := k.sleep[1..]);
    assert SleepPids(k.sleep)[0] == p && SleepPids(k1.sleep) == SleepPids(k.sleep)[1..];
    assert p in SleepPids(k.sleep);
    RemoveAsleep(k, p, k1.sleep);
    EnlistPlaced(k1, p);
  }

  /** Taking off the first sleeper, which is due, and readying it restores the invariant. */
  lemma PopExpired(k: Kern)
    requires (Inv(k) || FirstExpired(k)) && k.ndefers >= 1 && k.sleep != [] && k.sleep[0].delta <= 0
    ensures var p, k1 := k.sleep[0].pid, k.(sleep := k.sleep[1..]);
      && Loose(k1, p) && k1.procs[p].state != Free && k1.procs[p].prio > MINKEY && Placed(S.Enlist(k1, p), NPROC)
      && Inv(S.MakeReady(k1, p)) && S.MakeReady(k1, p).ndefers == k.ndefers
  {
    var k0 := if Inv(k) then k else k.(sleep := k.sleep[0 := k.sleep[0].(delta := 0)]);
    assert k0.(sleep := k0.sleep[1..]) == k.(sleep := k.sleep[1..]);
    PopSleeper(k0);
    SleeperLoose(k0);
  }

  lemma CountDownIs(k: Kern, k1: Kern, due: bool)
    requires Sized(k) && k.sleep != []
    requires k1 == k.(sleep := k.sleep[0 := k.sleep[0].(delta := k.sleep[0].delta - 1)])
    requires due <==> k1.sleep[0].delta <= 0
    ensures S.CountDown(k) == if due then S.Wakeup(k1) else k1
  {}

  lemma TickFrontIs(k: Kern, k1: Kern, k2: Kern)
    requires Sized(k) && k1 == CountTick(k) && k2 == (if k.sleep == [] then k1 else S.CountDown(k1))
    ensures k2 == TickFront(k)
  {}

  lemma TickIs(k: Kern, k2: Kern)
    requires Sized(k) && k2 == TickFront(k)
    ensures Tick(k) == if k2.curr == k.curr then TickRest(k2) else k2
  {}

  lemma TickRestIs(k: Kern, k1: Kern)
    requires Inv(k) && k1 == if k.preempt == 1 then S.Resched(k.(preempt := QUANTUM)) else k.(preempt := k.preempt - 1)
    ensures k1 == TickRest(k) && (k.preempt == 1 ==> Placed(k.(preempt := QUANTUM), NPROC))
  {
    assert (k.preempt - 1) % TWO32 == k.preempt - 1;
    PreemptInv(k, QUANTUM);
  }

  ghost predicate Wakes(k: Kern, goal: Kern) { Sized(k) && WakeLoop(k) == goal }

  lemma WakesStep(k: Kern, goal: Kern)
    requires Wakes(k, goal) && k.sleep != [] && k.sleep[0].delta <= 0
    ensures Wakes(S.MakeReady(k.(sleep := k.sleep[1..]), k.sleep[0].pid), goal)
  {}

  function WithMessage(k: Kern, p: Pid, msg: int): (r: Kern)
    requires Sized(k)
    ensures Sized(r)
  {
    k.(procs := k.procs[p := k.procs[p].(msg := msg, hasmsg := true)])
  }

  lemma SendRecvPlan(k: Kern, p: Pid, msg: int)
    requires Inv(k) && k.procs[p].state == Recv
    ensures var k1 := WithMessage(k, p, msg);
      Loose(k1, p) && k1.procs[p].prio > MINKEY && Placed(S.Enlist(k1, p), NPROC)
  {
    SuspLoose(k, p);
    DeliverPlaced(k, p, msg);
    SetStateFrame(k.procs, WithMessage(k, p, msg).procs, p, p, p);
  }

  lemma SendRectimPlan(k: Kern, p: Pid, msg: int)
    requires Inv(k) && k.procs[p].state == Rectim
    ensures var k1 := WithMessage(k, p, msg);
      ReadyX(k1.procs, k1.ready, NPROC) && SleepX(k1.procs, k1.sleep, NPROC)
    ensures var k2 := S.Unsleep(WithMessage(k, p, msg), p);
      Loose(k2, p) && k2.procs[p].prio > MINKEY && Placed(S.Enlist(k2, p), NPROC)
  {
    SetStateFrame(k.procs, WithMessage(k, p, msg).procs, p, NPROC, NPROC);
    RemoveDeltaFacts(k.sleep, p);
    RemoveAsleep(k, p, RemoveDelta(k.sleep, p));
    DeliverPlaced(S.Unsleep(k, p), p, msg);
    SetStateFrame(k.procs, WithMessage(k, p, msg).procs, p, p, p);
  }

  lemma RecvPlan(k: Kern)
    requires Inv(k) && !k.procs[k.curr].hasmsg && k.curr != NULLPROC
    ensures Placed(SetState(k, k.curr, Recv), NPROC)
  {
    SetStateFrame(k.procs, SetState(k, k.curr, Recv).procs, k.curr, NPROC, NPROC);
  }

  lemma SuspendPlan(k: Kern, p: Pid, st: PrState)
    requires Inv(k) && k.procs[p].state == Curr && p != NULLPROC && (st == Susp || st == Free)
    ensures Placed(SetState(k, p, st), NPROC)
  {
    SetStateFrame(k.procs, SetState(k, p, st).procs, p, NPROC, NPROC);
  }

  lemma WaiterQueued(k: Kern, p: Pid)
    requires Inv(k) && k.procs[p].state == Wait
    ensures 0 <= k.procs[p].sem < NSEM && p in k.sems[k.procs[p].sem].queue
  {
    assert QueueHolds(k.procs, k.sems[k.procs[p].sem].queue, NPROC, k.procs[p].sem);
  }

  function LeftSem(k: Kern, s: int, p: Pid): (r: Kern)
    requires Sized(k) && 0 <= s < NSEM
    ensures Sized(r)
  {
    SetSem(k, s, k.sems[s].(count := k.sems[s].count + 1, queue := Without(k.sems[s].queue, p)))
  }

  lemma KillWaiterIs(k: Kern, k1: Kern, s: int, p: Pid)
    requires Sized(k) && k.procs[p].state == Wait && p != NULLPROC && 0 <= s < NSEM && s == k.procs[p].sem
    requires k1 == LeftSem(k, s, p)
    ensures k1.(procs := k1.procs[p := k1.procs[p].(state := Free)]) == S.Kill(k, p)
  {}

  /** Where the rest of newpid's search leads. */
  ghost predicate FindsPid(procs: seq<Proc>, next: int, tries: int, f: (int, int)) {
    |procs| == NPROC && 0 <= next <= NPROC && tries >= 0 && FindPid(procs, next, tries) == f
  }

  lemma FindsPidStep(procs: seq<Proc>, next: int, tries: int, next1: int, rest: int, f: (int, int))
    requires FindsPid(procs, next, tries, f) && tries > 0 && rest == tries - 1 && next1 == next % NPROC + 1
    ensures if procs[next % NPROC].state != Free then FindsPid(procs, next1, rest, f) else f == (next % NPROC, next1)
  {}

  lemma CreateIs(k: Kern, prio: int, stack: bool, pid: int)
    requires Sized(k) && prio >= 1 && pid == FindPid(k.procs, k.nextpid, |k.procs|).0
    ensures var k1 := k.(nextpid := FindPid(k.procs, k.nextpid, |k.procs|).1);
      S.Create(k, prio, stack) ==
        if pid == SYSERR || !stack then (k1, SYSERR)
        else (k1.(procs := k1.procs[pid := Proc(Susp, prio, -1, k1.procs[pid].msg, false)]), pid)
  {}

  /** A slot that was free is on no queue, so its priority is no key. */
  lemma NewProcTied(k: Kern, p: Pid, prio: int, semt: seq<SEntry>, lists: map<int, seq<int>>, t: seq<QEntry>)
    requires Tied(k, semt, lists, t) && ReadyX(k.procs, k.ready, NPROC) && k.procs[p].state == Free
    ensures Tied(k.(procs := k.procs[p := Proc(Susp, prio, -1, k.procs[p].msg, false)]), semt, lists, t)
  {
    assert p !in k.ready;
  }

  /** n more signals lead from k to goal. */
  ghost predicate Posts(k: Kern, sem: int, n: int, goal: Kern) {
    Sized(k) && 0 <= sem < NSEM && n >= 0 && PostN(k, sem, n) == goal
  }

  lemma PostNStep(k: Kern, sem: int, n: nat, rest: nat, goal: Kern)
    requires Posts(k, sem, n, goal) && n > 0 && rest == n - 1
    ensures Posts(S.Post(k, sem), sem, rest, goal)
  {}

  class Kernel {
    const proctab: array<Proc>
    const semtab: array<SEntry>
    const queue: Queues.Table
    var currpid: int
    var ndefers: int
    var attempt: bool
    var preempt: int
    var count1000: int
    var clktime: int
    var nextsem: int
    var nextpid: int
    ghost var k: Kern

    ghost predicate Shape()
      reads this, queue, queue.tab
    {
      && proctab.Length == NPROC && semtab.Length == NSEM
      && proctab as object != semtab && proctab as object != queue.tab && semtab as object != queue.tab
      && queue.Valid() && queue.nextqid == NQENT && Sized(k)
    }

    ghost predicate ScalarsMatch()
      reads this
    {
      && currpid == k.curr && ndefers == k.ndefers && attempt == k.attempt && preempt == k.preempt
      && count1000 == k.count1000 && clktime == k.clktime && nextsem == k.nextsem && nextpid == k.nextpid
    }

    /** The tables hold the abstract state. */
    ghost predicate Valid()
      reads this, proctab, semtab, queue, queue.tab
    {
      && Shape() && ScalarsMatch() && proctab[..] == k.procs
      && Tied(k, semtab[..], queue.lists, queue.tab[..])
    }

    predicate BadPid(p: int)
      requires proctab.Length == NPROC
      reads proctab
    {
      p < 0 || p >= NPROC || proctab[p].state == Free
    }

    predicate BadSem(s: int)
      requires semtab.Length == NSEM
      reads semtab
    {
      s < 0 || s >= NSEM || !semtab[s].used
    }

    /** sysinit: free tables, one queue per semaphore, the ready list, and clkinit's sleep queue. */
    constructor ()
      ensures Valid() && k == Boot().k
      ensures fresh(proctab) && fresh(semtab) && fresh(queue) && fresh(queue.tab)
    {
      proctab := new Proc[NPROC](p => Proc(if p == 0 then Curr else Free, 0, -1, 0, false));
      semtab := new SEntry[NSEM](_ => SEntry(false, 0, 0));
      queue := new Queues.Table();
      currpid, ndefers, attempt, preempt := 0, 0, false, QUANTUM;
      count1000, clktime, nextsem, nextpid := 0, 0, 0, 1;
      k := Boot().k;
      new;
      assert proctab[..] == k.procs;
      MakeQueues();
      BootTied(semtab[..], queue.lists, queue.tab[..]);
    }

    /** One queue for each semaphore, then the ready list and the sleep queue. */
    method MakeQueues()
      requires queue.Valid() && queue.nextqid == SQueue(0) && queue.lists == map[] && semtab.Length == NSEM
      requires semtab as object != queue.tab && forall s :: 0 <= s < NSEM ==> semtab[s] == SEntry(false, 0, 0)
      modifies semtab, queue, queue.tab
      ensures queue.Valid() && queue.nextqid == NQENT && forall q :: q in queue.lists ==> queue.lists[q] == []
      ensures forall s :: 0 <= s < NSEM ==> semtab[s] == SEntry(false, 0, SQueue(s))
    {
      var i := 0;
      while i < NSEM
        invariant 0 <= i <= NSEM && queue.Valid() && queue.nextqid == SQueue(i)
        invariant forall s :: 0 <= s < NSEM ==>
          semtab[s] == (if s < i then SEntry(false, 0, SQueue(s)) else SEntry(false, 0, 0))
        invariant forall q :: q in queue.lists ==> queue.lists[q] == []
      {
        var q := queue.NewQueue();
        semtab[i] := semtab[i].(squeue := q);
        i := i + 1;
      }
      var readylist := queue.NewQueue();
      var sleepq := queue.NewQueue();
    }

    static lemma BootTied(semt: seq<SEntry>, lists: map<int, seq<int>>, t: seq<QEntry>)
      requires |semt| == NSEM && |t| == NQENT && AllQueues(lists) && forall q :: q in lists ==> lists[q] == []
      requires forall s :: 0 <= s < NSEM ==> semt[s] == SEntry(false, 0, SQueue(s))
      ensures Tied(Boot().k, semt, lists, t)
    {
      forall s | 0 <= s < NSEM ensures lists[SQueue(s)] == [] {
        assert IsQueue(SQueue(s));
      }
      assert SleepPids([]) == [];
      assert SemsTied(Boot().k.sems, semt, lists);
    }

    /** A process the invariant says is on no queue is on none in the table. */
    lemma NotQueued(p: Pid)
      requires Valid() && Loose(k, p)
      ensures !Queued(queue.lists, p)
    {
      assert p !in k.ready && p !in SleepPids(k.sleep);
      forall s | 0 <= s < NSEM ensures p !in k.sems[s].queue {
        assert QueueHolds(k.procs, k.sems[s].queue, p, s);
      }
      assert SemsTied(k.sems, semtab[..], queue.lists);
      forall q | q in queue.lists ensures p !in queue.lists[q] {
        if q < READYLIST {
          var s := (q - NPROC) / 2;
          assert q == SQueue(s);
        } else {
          assert q == READYLIST || q == SLEEPQ;
        }
      }
    }

    /** prstate = PR_READY, and insert into the ready list by priority. */
    method Enlist(pid: int)
      requires Valid() && 0 <= pid < NPROC && Loose(k, pid) && k.procs[pid].state != Free
      requires k.procs[pid].prio > MINKEY
      modifies this`k, proctab, queue`lists, queue.tab
      ensures Valid() && k == S.Enlist(old(k), pid)
    {
      NotQueued(pid);
      ghost var t := queue.tab[..];
      ghost var lists := queue.lists;
      var prio := proctab[pid].prio;
      proctab[pid] := proctab[pid].(state := Ready);
      InsertReady(pid, prio);
      EnlistTied(k, semtab[..], lists, t, queue.tab[..], pid);
      k := S.Enlist(k, pid);
    }

    /** insert(pid, readylist, prio), of a process in no queue. */
    method InsertReady(pid: int, prio: int)
      requires queue.Valid() && READYLIST in queue.lists && 0 <= pid < NPROC && !Queued(queue.lists, pid) && prio > MINKEY
      requires proctab.Length == NPROC && proctab[pid].state != Free
      modifies queue`lists, queue.tab
      ensures queue.Valid() && queue.tab[pid].key == prio && SameKeys(old(queue.tab[..]), queue.tab[..], pid)
      ensures queue.lists == old(queue.lists)[READYLIST :=
        InsertAt(old(queue.lists)[READYLIST], Place(old(queue.tab[..]), old(queue.lists)[READYLIST], prio), pid)]
    {
      var ok := queue.Insert(pid, READYLIST, prio, BadPid(pid));
    }

    /** The next process to run takes the processor (ctxsw). */
    method Switch()
      requires Valid() && k.ready != []
      modifies this`k, this`currpid, this`preempt, proctab, queue`lists, queue.tab
      ensures Valid() && k == S.Switch(old(k))
    {
      ghost var t, lists := queue.tab[..], queue.lists;
      currpid := queue.Dequeue(READYLIST);
      SwitchTied(k, semtab[..], lists, t, queue.tab[..]);
      proctab[currpid] := proctab[currpid].(state := Curr);
      preempt := QUANTUM;
      k := S.Switch(k);
    }

    /** firstkey(readylist): the tail's key when the list is empty. */
    method FirstReadyKey() returns (key: int)
      requires Valid()
      ensures key == if k.ready == [] then MINKEY else k.procs[k.ready[0]].prio
    {
      queue.FirstIdIs(READYLIST);
      assert Linked(queue.tab[..], READYLIST, queue.lists[READYLIST]);
      assert k.ready != [] ==> k.ready[0] in k.ready;
      key := queue.tab[queue.FirstId(READYLIST)].key;
    }

    method Resched()
      requires Valid() && Placed(k, NPROC)
      modifies this`k, this`currpid, this`preempt, this`attempt, proctab, queue`lists, queue.tab
      ensures Valid() && k == S.Resched(old(k))
    {
      if ndefers > 0 {
        attempt := true;
        k := S.Resched(k);
        return;
      }
      if proctab[currpid].state == Curr {
        var first := FirstReadyKey();
        assert k.procs[k.curr].prio >= 0;
        if proctab[currpid].prio > first {
          return;
        }
        CurrLoose(k);
        Enlist(currpid);
      } else {
        ReadyNeverEmpty(k);
      }
      Switch();
    }

    method DeferStart()
      requires Valid()
      modifies this`k, this`ndefers, this`attempt
      ensures Valid() && k == S.DeferStart(old(k))
    {
      if ndefers == 0 {
        attempt := false;
      }
      ndefers := ndefers + 1;
      k := S.DeferStart(k);
    }

    method DeferStop() returns (r: int)
      requires Valid() && Placed(k, NPROC)
      modifies this, proctab, queue`lists, queue.tab
      ensures Valid() && k == S.DeferStop(old(k))
      ensures r == if old(k).ndefers <= 0 then SYSERR else OK
    {
      if ndefers <= 0 {
        return SYSERR;
      }
      ndefers := ndefers - 1;
      k := k.(ndefers := k.ndefers - 1);
      if ndefers == 0 && attempt {
        Resched();
      }
      return OK;
    }

    method MakeReady(pid: int) returns (r: int)
      requires Valid()
      requires !IsBadPid(k, pid) ==>
        Loose(k, pid) && k.procs[pid].prio > MINKEY && Placed(S.Enlist(k, pid), NPROC)
      modifies this`k, this`currpid, this`preempt, this`attempt, proctab, queue`lists, queue.tab
      ensures Valid() && k == S.MakeReady(old(k), pid)
      ensures r == if IsBadPid(old(k), pid) then SYSERR else OK
    {
      if BadPid(pid) {
        return SYSERR;
      }
      Enlist(pid);
      Resched();
      return OK;
    }

    // ---- wait.c, signal.c, signaln.c, semreset.c, semdelete.c, semcreate.c ----

    /** semptr->scount = count. */
    method SetCount(sem: int, count: int)
      requires Valid() && 0 <= sem < NSEM
      modifies this`k, semtab
      ensures Valid() && k == SetSem(old(k), sem, old(k).sems[sem].(count := count))
    {
      ghost var v, semt := k.sems[sem].(count := count), semtab[..];
      CountTied(k, sem, v, semt, queue.lists, queue.tab[..]);
      semtab[sem] := semtab[sem].(scount := count);
      assert semtab[..] == semt[sem := SEntry(v.used, v.count, SQueue(sem))];
      k := SetSem(k, sem, v);
    }

    /** semptr->scount changes by d. */
    method AddCount(sem: int, d: int)
      requires Valid() && 0 <= sem < NSEM
      modifies this`k, semtab
      ensures Valid() && k == SetSem(old(k), sem, old(k).sems[sem].(count := old(k).sems[sem].count + d))
    {
      SetCount(sem, semtab[sem].scount + d);
    }

    /** The current process is marked waiting on sem and enqueued there. */
    method JoinQueue(sem: int)
      requires Valid() && 0 <= sem < NSEM && Loose(k, k.curr) && k.procs[k.curr].state != Free
      modifies this`k, proctab, queue`lists, queue.tab
      ensures Valid()
      ensures k == Joined(old(k), sem)
    {
      NotQueued(k.curr);
      ghost var v := k.sems[sem].(queue := k.sems[sem].queue + [k.curr]);
      ghost var semt, lists, t := semtab[..], queue.lists, queue.tab[..];
      SemTied(k, sem, v, k.curr, semt, lists, t, t);
      proctab[currpid] := proctab[currpid].(state := Wait);
      proctab[currpid] := proctab[currpid].(sem := sem);
      var e := queue.Enqueue(currpid, semtab[sem].squeue, BadPid(currpid));
      SemTied(k, sem, v, k.curr, semt, lists, t, queue.tab[..]);
      assert semt[sem := SEntry(v.used, v.count, SQueue(sem))] == semtab[..];
      StateTied(SetSem(k, sem, v), k.curr, proctab[currpid], semtab[..], queue.lists, queue.tab[..]);
      k := Joined(k, sem);
    }

    /** Decrement; a negative count queues the caller on the semaphore and gives up the processor. */
    method WaitSem(sem: int) returns (r: int)
      requires Valid() && Inv(k)
      requires Parks(k, CWait(sem)) ==> currpid != NULLPROC
      modifies this, proctab, semtab, queue`lists, queue.tab
      ensures Valid() && k == S.WaitSem(old(k), sem)
      ensures r == if IsBadSem(old(k), sem) then SYSERR else OK
    {
      if BadSem(sem) {
        return SYSERR;
      }
      ghost var k0 := k;
      CurrLoose(k);
      AddCount(sem, -1);
      if semtab[sem].scount < 0 {
        SetCountPlaced(k0, sem, k.sems[sem], k.curr);
        JoinQueue(sem);
        WaitPlaced(k0, sem);
        WaitIs(k0, sem);
        Resched();
      }
      return OK;
    }

    /** The first waiter, which there is, leaves the queue: by dequeue, or by getfirst. */
    method PopFirst(sem: int, clear: bool) returns (pid: int)
      requires Valid() && 0 <= sem < NSEM && k.sems[sem].queue != []
      modifies this`k, queue`lists, queue.tab
      ensures Valid() && pid == old(k).sems[sem].queue[0]
      ensures k == SetSem(old(k), sem, old(k).sems[sem].(queue := old(k).sems[sem].queue[1..]))
    {
      ghost var v := k.sems[sem].(queue := k.sems[sem].queue[1..]);
      ghost var semt, lists, t := semtab[..], queue.lists, queue.tab[..];
      SemTied(k, sem, v, EMPTY, semt, lists, t, t);
      if clear {
        pid := queue.Dequeue(semtab[sem].squeue);
      } else {
        pid := queue.GetFirst(semtab[sem].squeue);
      }
      SemTied(k, sem, v, EMPTY, semt, lists, t, queue.tab[..]);
      assert semt[sem := SEntry(v.used, v.count, SQueue(sem))] == semtab[..];
      k := SetSem(k, sem, v);
    }

    /** semptr->scount++, and ready(dequeue()) when it was negative: the body shared by signal and signaln. */
    method Post(sem: int)
      requires Valid() && Inv(k) && 0 <= sem < NSEM && k.sems[sem].used
      modifies this, proctab, semtab, queue`lists, queue.tab
      ensures Valid() && k == S.Post(old(k), sem)
    {
      assert Balanced(k.sems[sem]);
      ghost var k0, q := k, k.sems[sem].queue;
      AddCount(sem, 1);
      if semtab[sem].scount - 1 < 0 {
        PopQueue(k0, sem, Up(k0.sems[sem]));
        var pid := PopFirst(sem, true);
        assert k == SetSem(k0, sem, Up(k0.sems[sem]));
        EnlistPlaced(k, q[0]);
        var ok := MakeReady(pid);
      }
    }

    method Signal(sem: int) returns (r: int)
      requires Valid() && Inv(k)
      modifies this, proctab, semtab, queue`lists, queue.tab
      ensures Valid() && k == S.Signal(old(k), sem)
      ensures r == if IsBadSem(old(k), sem) then SYSERR else OK
    {
      if BadSem(sem) {
        return SYSERR;
      }
      Post(sem);
      return OK;
    }

    /** signaln's loop, under deferral. */
    method PostLoop(sem: int, count: nat)
      requires Valid() && Inv(k) && !IsBadSem(k, sem)
      modifies this, proctab, semtab, queue`lists, queue.tab
      ensures Valid() && Inv(k) && k == PostN(old(k), sem, count)
    {
      ghost var goal := PostN(k, sem, count);
      var n := count;
      while n > 0
        invariant 0 <= n <= count && Valid() && Inv(k) && k.sems[sem].used
        invariant Posts(k, sem, n, goal)
      {
        PostInv(k, sem);
        var rest := n - 1;
        PostNStep(k, sem, n, rest, goal);
        Post(sem);
        n := rest;
      }
    }

    method SignalN(sem: int, count: int) returns (r: int)
      requires Valid() && Inv(k)
      modifies this, proctab, semtab, queue`lists, queue.tab
      ensures Valid() && k == S.SignalN(old(k), sem, count)
      ensures r == if IsBadSem(old(k), sem) || count < 0 then SYSERR else OK
    {
      if BadSem(sem) || count < 0 {
        return SYSERR;
      }
      ghost var k0 := k;
      DeferStartInv(k);
      DeferStart();
      ghost var k1 := k;
      PostLoop(sem, count);
      ghost var k2 := k;
      var ok := DeferStop();
      SignalNIs(k0, k1, k2, k, sem, count);
      return OK;
    }

    /** ready(getfirst()): the first waiter, which there is, leaves the queue and becomes ready. */
    method PopOne(sem: int)
      requires Valid() && Placed(k, NPROC) && 0 <= sem < NSEM && k.sems[sem].queue != []
      modifies this, proctab, queue`lists, queue.tab
      ensures Valid() && k == S.PopOne(old(k), sem)
    {
      ghost var p := k.sems[sem].queue[0];
      PopQueue(k, sem, k.sems[sem].(queue := k.sems[sem].queue[1..]));
      var pid := PopFirst(sem, false);
      EnlistPlaced(k, p);
      var ok := MakeReady(pid);
    }

    method SemReset(sem: int, count: int) returns (r: int)
      requires Valid() && Inv(k)
      modifies this, proctab, semtab, queue`lists, queue.tab
      ensures Valid() && k == S.SemReset(old(k), sem, count)
      ensures r == if count < 0 || IsBadSem(old(k), sem) then SYSERR else OK
    {
      if count < 0 || BadSem(sem) {
        return SYSERR;
      }
      ghost var k0 := k;
      SemResetPlan(k, sem, count);
      DeferStart();
      ghost var k1 := k;
      DrainLoop(sem);
      ghost var k2 := k;
      SetCount(sem, count);
      ghost var k3 := k;
      var ok := DeferStop();
      SemResetIs(k0, k1, k2, k3, k, sem, count);
      return OK;
    }

    /** semreset's loop: every waiter leaves the queue and becomes ready. */
    method DrainLoop(sem: int)
      requires Valid() && Placed(k, NPROC) && Running(k) && 0 <= sem < NSEM
      modifies this, proctab, queue`lists, queue.tab
      ensures Valid() && k == Drain(old(k), sem)
    {
      ghost var goal := Drain(k, sem);
      var more := HasWaiter(sem);
      while more
        invariant Valid() && Placed(k, NPROC) && Running(k) && Drains(k, sem, goal)
        invariant more <==> k.sems[sem].queue != []
        decreases |k.sems[sem].queue|
      {
        PopReadyInv(k, sem, k.sems[sem].(queue := k.sems[sem].queue[1..]));
        DrainStep(k, sem, goal);
        PopOne(sem);
        more := HasWaiter(sem);
      }
    }

    /** nonempty(squeue). */
    method HasWaiter(sem: int) returns (b: bool)
      requires Valid() && 0 <= sem < NSEM
      ensures b <==> k.sems[sem].queue != []
    {
      assert IsQueue(SQueue(sem));
      queue.FirstIdIs(SQueue(sem));
      b := queue.FirstId(semtab[sem].squeue) < NPROC;
    }

    method SemDelete(sem: int) returns (r: int)
      requires Valid() && Inv(k)
      modifies this, proctab, semtab, queue`lists, queue.tab
      ensures Valid() && k == S.SemDelete(old(k), sem)
      ensures r == if IsBadSem(old(k), sem) then SYSERR else OK
    {
      if BadSem(sem) {
        return SYSERR;
      }
      ghost var k0 := k;
      SemDeletePlan(k, sem);
      MarkUsed(sem, false);
      DeferStart();
      ghost var k1 := k;
      ReleaseLoop(sem);
      ghost var k2 := k;
      var ok := DeferStop();
      SemDeleteIs(k0, k1, k2, k, sem);
      return OK;
    }

    /** semdelete's loop: count up to zero, readying one waiter each time, and once more on leaving. */
    method ReleaseLoop(sem: int)
      requires Valid() && Placed(k, NPROC) && Running(k) && 0 <= sem < NSEM
      requires |k.sems[sem].queue| == Max0(-k.sems[sem].count)
      modifies this, proctab, semtab, queue`lists, queue.tab
      ensures Valid() && k == ReleaseAll(old(k), sem)
    {
      ghost var goal := ReleaseAll(k, sem);
      while semtab[sem].scount < 0
        invariant Valid() && Placed(k, NPROC) && Running(k) && Releases(k, sem, goal)
        invariant |k.sems[sem].queue| == Max0(-k.sems[sem].count)
        decreases -semtab[sem].scount
      {
        ReleaseOne(sem, goal);
      }
      AddCount(sem, 1);
    }

    method ReleaseOne(sem: int, ghost goal: Kern)
      requires Valid() && Placed(k, NPROC) && Running(k) && Releases(k, sem, goal)
      requires 0 <= sem < NSEM && k.sems[sem].count < 0 && |k.sems[sem].queue| == -k.sems[sem].count
      modifies this, proctab, semtab, queue`lists, queue.tab
      ensures Valid() && Placed(k, NPROC) && Running(k) && Releases(k, sem, goal)
      ensures k.sems[sem].count == old(k).sems[sem].count + 1
      ensures |k.sems[sem].queue| == -k.sems[sem].count
    {
      ReleaseStep(k, sem);
      ReleasesStep(k, sem, goal);
      SetCountPlaced(k, sem, k.sems[sem].(count := k.sems[sem].count + 1), NPROC);
      AddCount(sem, 1);
      PopOne(sem);
    }

    /** newsem's search for a free entry. */
    method NewSem() returns (sem: int)
      requires Valid()
      modifies this`k, this`nextsem, semtab
      ensures Valid() && NewSemIs(old(k), k, sem)
    {
      ghost var k0, f := k, FindSem(k.sems, k.nextsem, |k.sems|);
      var i := 0;
      ghost var tries := |k.sems|;
      while i < NSEM
        invariant 0 <= i <= NSEM && tries == NSEM - i && Valid() && k == k0.(nextsem := k.nextsem)
        invariant FindsSem(k.sems, k.nextsem, tries, f)
      {
        sem := nextsem;
        var next := if nextsem + 1 >= NSEM then 0 else nextsem + 1;
        ghost var rest := tries - 1;
        FindsStep(k.sems, k.nextsem, tries, next, rest, f);
        nextsem := next;
        k := k.(nextsem := next);
        if !semtab[sem].used {
          MarkUsed(sem, true);
          return;
        }
        i := i + 1;
        tries := rest;
      }
      return SYSERR;
    }

    method MarkUsed(sem: int, used: bool)
      requires Valid() && 0 <= sem < NSEM
      modifies this`k, semtab
      ensures Valid() && k == SetSem(old(k), sem, old(k).sems[sem].(used := used))
    {
      ghost var v, semt := k.sems[sem].(used := used), semtab[..];
      CountTied(k, sem, v, semt, queue.lists, queue.tab[..]);
      semtab[sem] := semtab[sem].(used := used);
      assert semtab[..] == semt[sem := SEntry(v.used, v.count, SQueue(sem))];
      k := SetSem(k, sem, v);
    }

    method SemCreate(count: int) returns (sem: int)
      requires Valid()
      modifies this`k, this`nextsem, semtab
      ensures Valid() && k == S.SemCreate(old(k), count).0 && sem == S.SemCreate(old(k), count).1
    {
      if count < 0 {
        return SYSERR;
      }
      ghost var k0 := k;
      sem := NewSem();
      ghost var k1 := k;
      if sem != SYSERR {
        SetCount(sem, count);
      }
      SemCreateIs(k0, k1, k, sem, count);
    }

    // ---- sleep.c, insertd.c, unsleep.c, wakeup.c, clkhandler.c ----

    /** insertd(currpid, sleepq, delay), then prstate = st. */
    method FallAsleep(st: PrState, delay: int)
      requires Valid() && Loose(k, k.curr) && k.procs[k.curr].state != Free
      modifies this`k, proctab, queue`lists, queue.tab
      ensures Valid() && k == SetState(old(k), old(k).curr, st).(sleep := InsertDelta(old(k).sleep, old(k).curr, delay))
    {
      InsertSleeper(delay);
      SetProc(currpid, proctab[currpid].(state := st));
    }

    method InsertSleeper(delay: int)
      requires Valid() && Loose(k, k.curr) && k.procs[k.curr].state != Free
      modifies this`k, queue`lists, queue.tab
      ensures Valid() && k == old(k).(sleep := InsertDelta(old(k).sleep, old(k).curr, delay))
    {
      NotQueued(k.curr);
      ghost var lists, t := queue.lists, queue.tab[..];
      var ok := queue.InsertD(currpid, SLEEPQ, delay, BadPid(currpid));
      assert DeltaKeys(t, queue.tab[..], lists[SLEEPQ], currpid, DeltaPlace(t, lists[SLEEPQ], delay));
      InsertDeltaTied(k, k.curr, delay, semtab[..], lists, t, queue.tab[..]);
      k := k.(sleep := InsertDelta(k.sleep, k.curr, delay));
    }

    method Yield() returns (r: int)
      requires Valid() && Inv(k)
      modifies this`k, this`currpid, this`preempt, this`attempt, proctab, queue`lists, queue.tab
      ensures Valid() && k == S.Resched(old(k)) && r == OK
    {
      Resched();
      return OK;
    }

    method SleepMs(delay: int) returns (r: int)
      requires Valid() && Inv(k) && (delay > 0 ==> currpid != NULLPROC)
      modifies this, proctab, queue`lists, queue.tab
      ensures Valid() && k == S.SleepMs(old(k), delay)
      ensures r == if delay < 0 then SYSERR else OK
    {
      if delay < 0 {
        return SYSERR;
      }
      if delay == 0 {
        r := Yield();
        return;
      }
      CurrLoose(k);
      AsleepPlaced(k, Sleep, delay);
      FallAsleep(Sleep, delay);
      Resched();
      return OK;
    }

    /** Unlink the i-th sleeper, its key passed on to its successor. */
    method UnlinkSleeper(pid: int, ghost i: nat)
      requires Valid() && i < |k.sleep| && pid == k.sleep[i].pid
      requires ReadyX(k.procs, k.ready, NPROC) && SleepX(k.procs, k.sleep, NPROC)
      modifies this`k, queue`lists, queue.tab
      ensures Valid() && k == S.Unsleep(old(k), pid)
    {
      ghost var lists, t := queue.lists, queue.tab[..];
      assert i + 1 < |k.sleep| ==> SleepPids(k.sleep)[i + 1] == k.sleep[i + 1].pid;
      TakeOut(pid, SLEEPQ, i);
      RemoveDeltaTied(k, i, semtab[..], lists, t, queue.tab[..]);
      k := S.Unsleep(k, pid);
    }

    /** Add the key of the i-th member of queue q to its successor's, and unlink it. */
    method TakeOut(pid: int, ghost q: int, ghost i: nat)
      requires queue.Valid() && q in queue.lists && i < |queue.lists[q]| && pid == queue.lists[q][i]
      modifies queue`lists, queue.tab
      ensures queue.Valid() && queue.lists == old(queue.lists)[q := Without(old(queue.lists)[q], pid)]
      ensures var s, t := old(queue.lists)[q], old(queue.tab[..]);
        && |t| == NQENT && Pids(s)
        && (i + 1 < |s| ==>
             SameKeys(t, queue.tab[..], s[i + 1]) && queue.tab[s[i + 1]].key == t[s[i + 1]].key + t[pid].key)
        && (i + 1 == |s| ==> SameKeys(t, queue.tab[..], EMPTY))
    {
      queue.NextIs(q, i);
      if i + 1 < |queue.lists[q]| { queue.NextIs(q, i + 1); }
      queue.PassKeyOn(pid);
      UnlinkIs(queue.lists, q, pid);
      var p := queue.GetItem(pid);
    }

    /** Off the sleep list before its time; the successor takes over what is left of the delay. */
    method Unsleep(pid: int) returns (r: int)
      requires Valid()
      requires ReadyX(k.procs, k.ready, NPROC) && SleepX(k.procs, k.sleep, NPROC)
      modifies this`k, queue`lists, queue.tab
      ensures Valid()
      ensures IsBadPid(old(k), pid) || !Asleep(old(k).procs[pid].state) ==> r == SYSERR && k == old(k)
      ensures !IsBadPid(old(k), pid) && Asleep(old(k).procs[pid].state) ==> r == OK && k == S.Unsleep(old(k), pid)
    {
      if BadPid(pid) {
        return SYSERR;
      }
      if proctab[pid].state != Sleep && proctab[pid].state != Rectim {
        return SYSERR;
      }
      UnlinkSleeper(pid, Index(SleepPids(k.sleep), pid as Pid));
      return OK;
    }

    /** Every sleeper with nothing left to wait for becomes ready. */
    method Wakeup()
      requires Valid() && (Inv(k) || FirstExpired(k))
      modifies this, proctab, queue`lists, queue.tab
      ensures Valid() && k == S.Wakeup(old(k))
    {
      DeferStart();
      WakeAll();
      var ok := DeferStop();
    }

    /** Ready every sleeper whose delay is over. */
    method WakeAll()
      requires Valid() && (Inv(k) || FirstExpired(k)) && k.ndefers >= 1
      modifies this, proctab, queue`lists, queue.tab
      ensures Valid() && Inv(k) && k == WakeLoop(old(k))
    {
      ghost var goal := WakeLoop(k);
      var more := FirstIsDue();
      while more
        invariant Valid() && (Inv(k) || FirstExpired(k)) && k.ndefers >= 1 && Wakes(k, goal)
        invariant more <==> k.sleep != [] && k.sleep[0].delta <= 0
        decreases |k.sleep|
      {
        WakeFirstSleeper(goal);
        more := FirstIsDue();
      }
    }

    method WakeFirstSleeper(ghost goal: Kern)
      requires Valid() && (Inv(k) || FirstExpired(k)) && k.ndefers >= 1 && Wakes(k, goal)
      requires k.sleep != [] && k.sleep[0].delta <= 0
      modifies this, proctab, queue`lists, queue.tab
      ensures Valid() && Inv(k) && k.ndefers >= 1 && Wakes(k, goal) && |k.sleep| < |old(k).sleep|
    {
      PopExpired(k);
      WakesStep(k, goal);
      var pid := PopSleeper();
      var ok := MakeReady(pid);
    }

    /** nonempty(sleepq) && firstkey(sleepq) <= 0. */
    method FirstIsDue() returns (b: bool)
      requires Valid()
      ensures b <==> k.sleep != [] && k.sleep[0].delta <= 0
    {
      queue.FirstIdIs(SLEEPQ);
      var first := queue.FirstId(SLEEPQ);
      b := first < NPROC && queue.tab[first].key <= 0;
    }

    method PopSleeper() returns (pid: int)
      requires Valid() && k.sleep != []
      modifies this`k, queue`lists, queue.tab
      ensures Valid() && pid == old(k).sleep[0].pid && k == old(k).(sleep := old(k).sleep[1..])
    {
      ghost var lists, t := queue.lists, queue.tab[..];
      pid := queue.Dequeue(SLEEPQ);
      PopSleeperTied(k, semtab[..], lists, t, queue.tab[..]);
      k := k.(sleep := k.sleep[1..]);
    }

    /** One tick, up to where wakeup may have given the processor to another process; if it did not,
        the rest follows at once. */
    method ClkHandler() returns (finished: bool)
      requires Valid() && Inv(k)
      modifies this, proctab, queue`lists, queue.tab
      ensures Valid() && k == Tick(old(k)) && (finished <==> TickFront(old(k)).curr == old(k).curr)
    {
      var interrupted := currpid;
      ClkHandlerFront();
      TickIs(old(k), k);
      finished := currpid == interrupted;
      if finished {
        ClkHandlerRest();
      }
    }

    method ClkHandlerFront()
      requires Valid() && Inv(k)
      modifies this, proctab, queue`lists, queue.tab
      ensures Valid() && k == TickFront(old(k)) && Inv(k)
    {
      ghost var k0 := k;
      CountMs();
      ghost var k1 := k;
      queue.FirstIdIs(SLEEPQ);
      if queue.FirstId(SLEEPQ) < NPROC {
        CountDown();
      }
      TickFrontIs(k0, k1, k);
      TickFrontInv(k0);
    }

    method CountMs()
      requires Valid() && Inv(k)
      modifies this`k, this`count1000, this`clktime
      ensures Valid() && Inv(k) && k == CountTick(old(k)) && k.sleep == old(k).sleep
    {
      count1000 := count1000 + 1;
      if count1000 >= 1000 {
        clktime := (clktime + 1) % TWO32;
        count1000 := 0;
      }
      k := CountTick(k);
    }

    /** --queuetab[firstid(sleepq)].qkey. */
    method DecrementFirst()
      requires Valid() && k.sleep != [] && NoDup(SleepPids(k.sleep))
      requires ReadyX(k.procs, k.ready, NPROC) && SleepX(k.procs, k.sleep, NPROC)
      modifies this`k, queue.tab
      ensures Valid()
      ensures k == old(k).(sleep := old(k).sleep[0 := old(k).sleep[0].(delta := old(k).sleep[0].delta - 1)])
    {
      ghost var lists, t, d := queue.lists, queue.tab[..], k.sleep[0].delta - 1;
      queue.FirstIdIs(SLEEPQ);
      queue.AddKey(queue.FirstId(SLEEPQ), -1);
      CountDownTied(k, d, semtab[..], lists, t, queue.tab[..]);
      k := k.(sleep := k.sleep[0 := k.sleep[0].(delta := d)]);
    }

    /** Take one millisecond off the first delay, and wake up whoever is due. */
    method CountDown()
      requires Valid() && Inv(k) && k.sleep != []
      modifies this, proctab, queue`lists, queue.tab
      ensures Valid() && k == S.CountDown(old(k))
    {
      ghost var k0 := k;
      CountDownPlan(k, k.sleep[0].delta - 1);
      DecrementFirst();
      var due := FirstIsDue();
      CountDownIs(k0, k, due);
      if due {
        Wakeup();
      }
    }

    method ClkHandlerRest()
      requires Valid() && Inv(k)
      modifies this, proctab, queue`lists, queue.tab
      ensures Valid() && k == TickRest(old(k))
    {
      ghost var rest := if k.preempt == 1 then S.Resched(k.(preempt := QUANTUM)) else k.(preempt := k.preempt - 1);
      TickRestIs(k, rest);
      preempt := (preempt - 1) % TWO32;
      if preempt <= 0 {
        SetPreempt(QUANTUM);
        Resched();
      } else {
        SetPreempt(preempt);
      }
    }

    method SetPreempt(n: int)
      requires Shape() && proctab[..] == k.procs && Tied(k, semtab[..], queue.lists, queue.tab[..])
      requires currpid == k.curr && ndefers == k.ndefers && attempt == k.attempt
      requires count1000 == k.count1000 && clktime == k.clktime && nextsem == k.nextsem && nextpid == k.nextpid
      modifies this`k, this`preempt
      ensures Valid() && k == old(k).(preempt := n)
    {
      preempt := n;
      k := k.(preempt := n);
    }

    // ---- send.c, receive.c, recvtime.c, recvclr.c ----

    /** Overwrite the table entry of p, but for its priority. */
    method SetProc(p: int, v: Proc)
      requires Valid() && 0 <= p < NPROC && v.prio == k.procs[p].prio
      modifies this`k, proctab
      ensures Valid() && k == old(k).(procs := old(k).procs[p := v])
    {
      StateTied(k, p, v, semtab[..], queue.lists, queue.tab[..]);
      proctab[p] := v;
      k := k.(procs := k.procs[p := v]);
    }

    method Send(pid: int, msg: int) returns (r: int)
      requires Valid() && Inv(k)
      modifies this, proctab, queue`lists, queue.tab
      ensures Valid() && k == S.Send(old(k), pid, msg)
      ensures r == if IsBadPid(old(k), pid) || old(k).procs[pid].hasmsg then SYSERR else OK
    {
      if BadPid(pid) {
        return SYSERR;
      }
      if proctab[pid].hasmsg {
        return SYSERR;
      }
      var st := proctab[pid].state;
      if st == Recv {
        SendRecvPlan(k, pid, msg);
      } else if st == Rectim {
        SendRectimPlan(k, pid, msg);
      }
      SetProc(pid, proctab[pid].(msg := msg, hasmsg := true));
      if st == Recv {
        var ok := MakeReady(pid);
      } else if st == Rectim {
        var u := Unsleep(pid);
        var ok := MakeReady(pid);
      }
      return OK;
    }

    /** receive up to its resched: blocked, or done with a message. */
    method Receive() returns (blocked: bool, msg: int)
      requires Valid() && Inv(k) && (!k.procs[k.curr].hasmsg ==> currpid != NULLPROC)
      modifies this, proctab, queue`lists, queue.tab
      ensures Valid() && k == S.Receive(old(k)) && (blocked <==> !old(k).procs[old(k).curr].hasmsg)
      ensures !blocked ==> msg == old(k).procs[old(k).curr].msg
    {
      msg := 0;
      blocked := !proctab[currpid].hasmsg;
      if blocked {
        RecvPlan(k);
        SetProc(currpid, proctab[currpid].(state := Recv));
        Resched();
      } else {
        msg := TakeMessage();
      }
    }

    /** The rest of receive, when its process runs again: it has been sent a message. */
    method TakeMessage() returns (msg: int)
      requires Valid()
      modifies this`k, proctab
      ensures Valid() && k == Take(old(k)) && msg == old(k).procs[old(k).curr].msg && !k.procs[k.curr].hasmsg
    {
      msg := proctab[currpid].msg;
      SetProc(currpid, proctab[currpid].(hasmsg := false));
    }

    method RecvTime(maxwait: int) returns (blocked: bool, msg: int)
      requires Valid() && Inv(k)
      requires maxwait >= 0 && !k.procs[k.curr].hasmsg ==> currpid != NULLPROC
      modifies this, proctab, queue`lists, queue.tab
      ensures Valid() && k == S.RecvTime(old(k), maxwait)
      ensures blocked <==> maxwait >= 0 && !old(k).procs[old(k).curr].hasmsg
      ensures !blocked ==> msg == if maxwait < 0 then SYSERR else old(k).procs[old(k).curr].msg
    {
      msg := SYSERR;
      blocked := maxwait >= 0 && !proctab[currpid].hasmsg;
      if maxwait < 0 {
        return;
      }
      if blocked {
        CurrLoose(k);
        AsleepPlaced(k, Rectim, maxwait);
        FallAsleep(Rectim, maxwait);
        Resched();
      } else {
        msg := TakeMessage();
      }
    }

    /** The rest of recvtime: a message may have come, or the time may be up. */
    method RecvTimeRest() returns (msg: int)
      requires Valid()
      modifies this`k, proctab
      ensures Valid() && k == (if old(k).procs[old(k).curr].hasmsg then Take(old(k)) else old(k))
      ensures msg == if old(k).procs[old(k).curr].hasmsg then old(k).procs[old(k).curr].msg else TIMEOUT
    {
      if proctab[currpid].hasmsg {
        msg := TakeMessage();
      } else {
        msg := TIMEOUT;
      }
    }

    method RecvClr() returns (msg: int)
      requires Valid()
      modifies this`k, proctab
      ensures Valid() && k == Take(old(k)) && !k.procs[k.curr].hasmsg
      ensures msg == if old(k).procs[old(k).curr].hasmsg then old(k).procs[old(k).curr].msg else OK
    {
      if proctab[currpid].hasmsg {
        msg := TakeMessage();
      } else {
        assert k.procs[k.curr := k.procs[k.curr].(hasmsg := false)] == k.procs;
        msg := OK;
      }
    }

    // ---- suspend.c, resume.c, kill.c, create.c ----

    /** getitem of a process on the ready list. */
    method RemoveReady(pid: int)
      requires Valid() && 0 <= pid < NPROC && pid in k.ready
      modifies this`k, queue`lists, queue.tab
      ensures Valid() && k == old(k).(ready := Without(old(k).ready, pid as Pid))
    {
      ghost var lists, t := queue.lists, queue.tab[..];
      UnlinkIs(lists, READYLIST, pid);
      var p := queue.GetItem(pid);
      RemoveReadyTied(k, pid, semtab[..], lists, t, queue.tab[..]);
      k := k.(ready := Without(k.ready, pid as Pid));
    }

    /** getitem of a process on the queue of sem. */
    method RemoveWaiter(pid: int, ghost sem: int)
      requires Valid() && 0 <= pid < NPROC && 0 <= sem < NSEM && pid in k.sems[sem].queue
      modifies this`k, queue`lists, queue.tab
      ensures Valid()
      ensures k == SetSem(old(k), sem, old(k).sems[sem].(queue := Without(old(k).sems[sem].queue, pid as Pid)))
    {
      ghost var lists, t, semt := queue.lists, queue.tab[..], semtab[..];
      ghost var v := k.sems[sem].(queue := Without(k.sems[sem].queue, pid as Pid));
      SemTied(k, sem, v, EMPTY, semt, lists, t, t);
      UnlinkIs(lists, SQueue(sem), pid);
      WithoutPid(k.sems[sem].queue, lists[SQueue(sem)], pid);
      var p := queue.GetItem(pid);
      SemTied(k, sem, v, EMPTY, semt, lists, t, queue.tab[..]);
      assert semt[sem := SEntry(v.used, v.count, SQueue(sem))] == semt;
      k := SetSem(k, sem, v);
    }

    method Suspend(pid: int) returns (r: int)
      requires Valid() && Inv(k)
      modifies this, proctab, queue`lists, queue.tab
      ensures Valid() && k == S.Suspend(old(k), pid)
      ensures r == if IsBadPid(old(k), pid) || pid == NULLPROC || !CanRun(old(k).procs[pid].state)
                   then SYSERR else old(k).procs[pid].prio
    {
      if BadPid(pid) || pid == NULLPROC {
        return SYSERR;
      }
      if proctab[pid].state != Curr && proctab[pid].state != Ready {
        return SYSERR;
      }
      r := proctab[pid].prio;
      if proctab[pid].state == Ready {
        RemoveReady(pid);
        SetProc(pid, proctab[pid].(state := Susp));
      } else {
        SuspendPlan(k, pid, Susp);
        SetProc(pid, proctab[pid].(state := Susp));
        Resched();
      }
    }

    method Resume(pid: int) returns (r: int)
      requires Valid() && Inv(k)
      modifies this, proctab, queue`lists, queue.tab
      ensures Valid() && k == S.Resume(old(k), pid)
      ensures r == if IsBadPid(old(k), pid) || old(k).procs[pid].state != Susp
                   then SYSERR else old(k).procs[pid].prio
    {
      if BadPid(pid) {
        return SYSERR;
      }
      if proctab[pid].state != Susp {
        return SYSERR;
      }
      r := proctab[pid].prio;
      SuspLoose(k, pid);
      EnlistPlaced(k, pid);
      var ok := MakeReady(pid);
    }

    /** kill from its switch on the state of the victim. */
    method Kill(pid: int) returns (r: int)
      requires Valid() && Inv(k)
      modifies this, proctab, semtab, queue`lists, queue.tab
      ensures Valid() && k == S.Kill(old(k), pid)
      ensures r == if IsBadPid(old(k), pid) || pid == NULLPROC then SYSERR else OK
    {
      if BadPid(pid) || pid == NULLPROC {
        return SYSERR;
      }
      var st := proctab[pid].state;
      if st == Curr {
        KillCurrent(pid);
      } else if st == Wait {
        KillWaiter(pid);
      } else {
        KillOther(pid, st);
      }
      return OK;
    }

    method KillCurrent(pid: int)
      requires Valid() && Inv(k) && 0 <= pid < NPROC && k.procs[pid].state == Curr && pid != NULLPROC
      modifies this, proctab, semtab, queue`lists, queue.tab
      ensures Valid() && k == S.Kill(old(k), pid)
    {
      SuspendPlan(k, pid, Free);
      SetProc(pid, proctab[pid].(state := Free));
      Resched();
    }

    /** A process that sleeps, is ready, or is on no queue. */
    method KillOther(pid: int, st: PrState)
      requires Valid() && Inv(k) && 0 <= pid < NPROC && k.procs[pid].state == st && pid != NULLPROC
      requires st != Curr && st != Wait && st != Free
      modifies this, proctab, semtab, queue`lists, queue.tab
      ensures Valid() && k == S.Kill(old(k), pid)
    {
      if st == Sleep || st == Rectim {
        var u := Unsleep(pid);
      } else if st == Ready {
        RemoveReady(pid);
      }
      SetProc(pid, proctab[pid].(state := Free));
    }

    /** A killed waiter no longer counts against its semaphore. */
    method KillWaiter(pid: int)
      requires Valid() && Inv(k) && 0 <= pid < NPROC && k.procs[pid].state == Wait && pid != NULLPROC
      modifies this, proctab, semtab, queue`lists, queue.tab
      ensures Valid() && k == S.Kill(old(k), pid)
    {
      ghost var k0 := k;
      var sem := proctab[pid].sem;
      WaiterQueued(k, pid);
      LeaveSem(pid, sem);
      KillWaiterIs(k0, k, sem, pid);
      SetProc(pid, proctab[pid].(state := Free));
    }

    /** A waiter leaves its semaphore, whose count goes up by one. */
    method LeaveSem(pid: int, sem: int)
      requires Valid() && 0 <= pid < NPROC && 0 <= sem < NSEM && pid in k.sems[sem].queue
      modifies this`k, semtab, queue`lists, queue.tab
      ensures Valid() && k == LeftSem(old(k), sem, pid)
    {
      ghost var k0, v := k, k.sems[sem];
      AddCount(sem, 1);
      ghost var v1 := k.sems[sem];
      RemoveWaiter(pid, sem);
      assert k0.sems[sem := v1][sem := v1.(queue := Without(v.queue, pid as Pid))]
        == k0.sems[sem := v1.(queue := Without(v.queue, pid as Pid))];
    }

    /** newpid's search for a free slot. */
    method NewPid() returns (pid: int)
      requires Valid()
      modifies this`k, this`nextpid
      ensures Valid() && var f := FindPid(old(k).procs, old(k).nextpid, |old(k).procs|);
        pid == f.0 && k == old(k).(nextpid := f.1)
    {
      ghost var k0, f := k, FindPid(k.procs, k.nextpid, |k.procs|);
      var i := 0;
      ghost var tries := |k.procs|;
      while i < NPROC
        invariant 0 <= i <= NPROC && tries == NPROC - i && Valid() && k == k0.(nextpid := k.nextpid)
        invariant FindsPid(k.procs, k.nextpid, tries, f)
      {
        var n := nextpid % NPROC;
        var next := n + 1;
        ghost var rest := tries - 1;
        FindsPidStep(k.procs, k.nextpid, tries, next, rest, f);
        nextpid := next;
        k := k.(nextpid := next);
        if proctab[n].state == Free {
          return n;
        }
        i := i + 1;
        tries := rest;
      }
      return SYSERR;
    }

    /** The process table entry of a new process; stack is what getstk answered. */
    method Create(prio: int, stack: bool) returns (pid: int)
      requires Valid() && Inv(k)
      modifies this`k, this`nextpid, proctab
      ensures Valid() && k == S.Create(old(k), prio, stack).0 && pid == S.Create(old(k), prio, stack).1
    {
      if prio < 1 {
        return SYSERR;
      }
      ghost var k0 := k;
      pid := NewPid();
      if pid == SYSERR || !stack {
        CreateIs(k0, prio, stack, pid);
        return SYSERR;
      }
      CreateIs(k0, prio, stack, pid);
      NewProcTied(k, pid, prio, semtab[..], queue.lists, queue.tab[..]);
      proctab[pid] := Proc(Susp, prio, -1, proctab[pid].msg, false);
      k := k.(procs := k.procs[pid := Proc(Susp, prio, -1, k.procs[pid].msg, false)]);
    }
  }
}
