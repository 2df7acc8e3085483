/** What single calls do for their callers and for others, said without reference to how they do it. */
module KernelEffects {
  import opened Seqs
  import opened QueueTable
  import opened Semaphores
  import opened KernelSpec
  import opened KernelInvariants
  import opened KernelRuns

  // ---- semaphores ----

  ghost predicate WaitsOn(k: Kern, p: Pid, s: int)
    requires Sized(k)
  {
    k.procs[p].state == Wait && k.procs[p].sem == s
  }

  lemma WaitersQueue(k: Kern, s: int)
    requires Placed(k, NPROC) && 0 <= s < NSEM
    ensures NoDup(k.sems[s].queue) && forall p: Pid :: p in k.sems[s].queue <==> WaitsOn(k, p, s)
  {
    assert QueueHolds(k.procs, k.sems[s].queue, NPROC, s);
  }

  /** wait blocks its caller if and only if the count is not positive; it is then the last in the queue,
      and another process runs unless rescheduling is deferred. Otherwise the caller goes on, and no
      process notices. */
  lemma WaitBlocksIff(k: Kern, s: int)
    requires Inv(k) && !IsBadSem(k, s) && (Blocks(k.sems[s]) ==> k.curr != NULLPROC)
    ensures var k', v := WaitSem(k, s), k.sems[s];
      && k'.sems[s].count == v.count - 1
      && (WaitsOn(k', k.curr, s) <==> v.count <= 0)
      && (v.count <= 0 ==> k'.sems[s].queue == v.queue + [k.curr] && (k'.curr != k.curr <==> k.ndefers == 0))
      && (v.count > 0 ==> k'.curr == k.curr && k'.procs == k.procs && k'.ready == k.ready && k'.sems[s].queue == v.queue)
  {
    var k' := WaitSem(k, s);
    if Blocks(k.sems[s]) && k.ndefers == 0 {
      WaitSemInv(k, s);
      WaitersQueue(k', s);
      assert k.curr in k'.sems[s].queue;
    }
  }

  /** From k to k' the waiters of s named in ps were let through, and all other waiters still wait. */
  ghost predicate LetThrough(k: Kern, k': Kern, s: int, ps: seq<Pid>)
    requires Sized(k) && Sized(k')
  {
    && (forall p: Pid :: p in ps ==> CanRun(k'.procs[p].state))
    && (forall p: Pid, t :: WaitsOn(k, p, t) && p !in ps ==> WaitsOn(k', p, t))
  }

  /** When the invariant holds before and after, and processes were only readied, whoever left a
      semaphore's queue is eligible, and whoever is still in one waits. */
  lemma LeftIsEligible(k: Kern, k': Kern, s: int, ps: seq<Pid>)
    requires Inv(k) && Inv(k') && Readied(k.procs, k'.procs) && 0 <= s < NSEM
    requires k'.sems == k.sems[s := k'.sems[s]]
    requires k.sems[s].queue == ps + k'.sems[s].queue
    ensures LetThrough(k, k', s, ps)
  {
    WaitersQueue(k, s);
    WaitersQueue(k', s);
    Parts(k.sems[s].queue, ps, k'.sems[s].queue);
    forall p: Pid | p in ps ensures CanRun(k'.procs[p].state) {
      assert p in k.sems[s].queue && p !in k'.sems[s].queue;
    }
    forall p: Pid, t | WaitsOn(k, p, t) && p !in ps ensures WaitsOn(k', p, t) {
      assert 0 <= t < NSEM;
      WaitersQueue(k, t);
      WaitersQueue(k', t);
      assert p in k.sems[t].queue;
      assert p in k'.sems[t].queue;
    }
  }

  lemma AllLeft(k: Kern, k': Kern, s: int, v: Sem)
    requires Inv(k) && Inv(k') && Readied(k.procs, k'.procs) && 0 <= s < NSEM
    requires k'.sems == k.sems[s := v] && v.queue == []
    ensures LetThrough(k, k', s, k.sems[s].queue)
  {
    assert k.sems[s].queue + [] == k.sems[s].queue;
    LeftIsEligible(k, k', s, k.sems[s].queue);
  }

  lemma Parts(q: seq<Pid>, a: seq<Pid>, b: seq<Pid>)
    requires NoDup(q) && q == a + b
    ensures forall p: Pid :: p in q <==> p in a || p in b
    ensures forall p: Pid :: p in a ==> p !in b
  {
    forall i, j | 0 <= i < |a| && 0 <= j < |b| ensures a[i] != b[j] { assert q[i] == a[i] && q[|a| + j] == b[j]; }
  }

  /** signal lets the oldest waiter through, if any waits, and leaves every other one waiting. */
  lemma SignalLetsOldestThrough(k: Kern, s: int)
    requires Inv(k) && !IsBadSem(k, s)
    ensures var k', q := Signal(k, s), k.sems[s].queue;
      && k'.sems[s].count == k.sems[s].count + 1
      && k'.sems[s].queue == (if q == [] then [] else q[1..])
      && LetThrough(k, k', s, if q == [] then [] else [q[0]])
  {
    SignalInv(k, s);
    assert Balanced(k.sems[s]);
    var k' := Signal(k, s);
    assert k'.sems == k.sems[s := Up(k.sems[s])];
    LeftIsEligible(k, k', s, Released(k.sems[s]));
  }

  /** signaln lets the n oldest waiters through, or all of them. */
  lemma SignalNLetsNThrough(k: Kern, s: int, n: nat)
    requires Inv(k) && !IsBadSem(k, s)
    ensures var k', q := SignalN(k, s, n), k.sems[s].queue;
      && k'.sems[s].count == k.sems[s].count + n
      && k'.sems[s].queue == q[Min(n, |q|)..]
      && LetThrough(k, k', s, q[..Min(n, |q|)])
  {
    SignalNInv(k, s, n);
    assert Balanced(k.sems[s]);
    SignalledN(k, SignalN(k, s, n), s, n);
    LeftIsEligible(k, SignalN(k, s, n), s, k.sems[s].queue[..Min(n, |k.sems[s].queue|)]);
  }

  lemma SignalledN(k: Kern, k': Kern, s: int, n: nat)
    requires Sized(k) && !IsBadSem(k, s) && Balanced(k.sems[s]) && k' == SignalN(k, s, n)
    ensures var v := k.sems[s];
      && k'.sems == k.sems[s := Sem(true, v.count + n, v.queue[Min(n, |v.queue|)..])]
      && v.queue == v.queue[..Min(n, |v.queue|)] + v.queue[Min(n, |v.queue|)..]
  {
    UpNIs(k.sems[s], n);
  }

  /** semreset lets every waiter through and sets the count. */
  lemma SemResetLetsAllThrough(k: Kern, s: int, count: nat)
    requires Inv(k) && !IsBadSem(k, s)
    ensures var k' := SemReset(k, s, count);
      k'.sems[s].count == count && k'.sems[s].queue == [] && LetThrough(k, k', s, k.sems[s].queue)
  {
    SemResetInv(k, s, count);
    ResetSem(k, s, count);
    AllLeft(k, SemReset(k, s, count), s, Sem(true, count, []));
  }

  lemma ResetSem(k: Kern, s: int, count: nat)
    requires Sized(k) && !IsBadSem(k, s)
    ensures SemReset(k, s, count).sems == k.sems[s := Sem(true, count, [])]
  {}

  /** semdelete lets every waiter through and frees the entry. */
  lemma SemDeleteLetsAllThrough(k: Kern, s: int)
    requires Inv(k) && !IsBadSem(k, s)
    ensures var k' := SemDelete(k, s);
      IsBadSem(k', s) && k'.sems[s].queue == [] && LetThrough(k, k', s, k.sems[s].queue)
  {
    SemDeleteInv(k, s);
    assert Balanced(k.sems[s]);
    DeletedSem(k, s);
    AllLeft(k, SemDelete(k, s), s, Sem(false, Max0(k.sems[s].count) + 1, []));
  }

  lemma DeletedSem(k: Kern, s: int)
    requires Sized(k) && !IsBadSem(k, s) && Balanced(k.sems[s])
    ensures SemDelete(k, s).sems == k.sems[s := Sem(false, Max0(k.sems[s].count) + 1, [])]
  {
    var v, v' := k.sems[s].(used := false), Sem(false, Max0(k.sems[s].count) + 1, []);
    ReleaseAllSems(DeferStart(SetSem(k, s, v)), s);
    assert k.sems[s := v][s := v'] == k.sems[s := v'];
  }

  // ---- the searches for a free entry ----

  /** newpid finds a slot if and only if one is free. */
  lemma FindPidIff(procs: seq<Proc>, next: int)
    requires |procs| == NPROC && 0 <= next <= NPROC
    ensures FindPid(procs, next, NPROC).0 != SYSERR <==> exists i :: 0 <= i < NPROC && procs[i].state == Free
  {
    if FindPid(procs, next, NPROC).0 == SYSERR {
      var b := if next == NPROC then 0 else next;
      forall i | 0 <= i < NPROC ensures procs[i].state != Free {
        PidSearched(procs, next, NPROC, if i >= b then i - b else i - b + NPROC);
      }
    } else {
      assert procs[FindPid(procs, next, NPROC).0].state == Free;
    }
  }

  lemma {:induction false} PidSearched(procs: seq<Proc>, next: int, tries: nat, d: nat)
    requires |procs| == NPROC && 0 <= next <= NPROC && d < tries <= NPROC && FindPid(procs, next, tries).0 == SYSERR
    ensures var b := if next == NPROC then 0 else next;
      procs[if b + d < NPROC then b + d else b + d - NPROC].state != Free
    decreases tries
  {
    var b := if next == NPROC then 0 else next;
    assert next % NPROC == b;
    if d > 0 { PidSearched(procs, b + 1, tries - 1, d - 1); }
  }

  /** newsem finds an entry if and only if one is free. */
  lemma FindSemIff(sems: seq<Sem>, next: int)
    requires |sems| == NSEM && 0 <= next < NSEM
    ensures FindSem(sems, next, NSEM).0 != SYSERR <==> exists i :: 0 <= i < NSEM && !sems[i].used
  {
    if FindSem(sems, next, NSEM).0 == SYSERR {
      forall i | 0 <= i < NSEM ensures sems[i].used {
        SemSearched(sems, next, NSEM, if i >= next then i - next else i - next + NSEM);
      }
    } else {
      assert !sems[FindSem(sems, next, NSEM).0].used;
    }
  }

  lemma {:induction false} SemSearched(sems: seq<Sem>, next: int, tries: nat, d: nat)
    requires |sems| == NSEM && 0 <= next < NSEM && d < tries <= NSEM && FindSem(sems, next, tries).0 == SYSERR
    ensures sems[if next + d < NSEM then next + d else next + d - NSEM].used
    decreases tries
  {
    if d > 0 { SemSearched(sems, if next + 1 >= NSEM then 0 else next + 1, tries - 1, d - 1); }
  }

  /** create fails exactly for a priority below 1, with every slot taken, or without a stack; otherwise a
      slot that was free holds a suspended process of that priority with no message, and no other
      process changed. */
  lemma CreateMakes(k: Kern, prio: int, stack: bool)
    requires Inv(k)
    ensures var r := Create(k, prio, stack);
      && (r.1 == SYSERR <==> prio < 1 || !stack || forall p: Pid :: k.procs[p].state != Free)
      && (r.1 != SYSERR ==>
           && 0 <= r.1 < NPROC && k.procs[r.1].state == Free
           && r.0.procs[r.1].state == Susp && r.0.procs[r.1].prio == prio && !r.0.procs[r.1].hasmsg
           && forall p: Pid :: p != r.1 ==> r.0.procs[p] == k.procs[p])
      && (r.1 == SYSERR ==> r.0.procs == k.procs)
  {
    FindPidIff(k.procs, k.nextpid);
    if p: Pid :| k.procs[p].state == Free {
      assert 0 <= p < NPROC;
    }
  }

  // ---- suspend, resume, kill ----

  /** p is on no queue at all. */
  ghost predicate Unqueued(k: Kern, p: Pid)
    requires Sized(k)
  {
    p !in k.ready && p !in SleepPids(k.sleep) && forall s :: 0 <= s < NSEM ==> p !in k.sems[s].queue
  }

  lemma UnqueuedIs(k: Kern, p: Pid)
    requires Placed(k, NPROC)
    ensures Unqueued(k, p) <==> var st := k.procs[p].state; st != Ready && st != Wait && !Asleep(st)
  {
    forall s | 0 <= s < NSEM ensures p in k.sems[s].queue <==> WaitsOn(k, p, s) { WaitersQueue(k, s); }
    if k.procs[p].state == Wait { assert p in k.sems[k.procs[p].sem].queue; }
  }

  lemma SuspendPlaced(k: Kern, p: Pid)
    requires Inv(k) && p != NULLPROC && CanRun(k.procs[p].state)
    ensures Placed(Suspend(k, p), NPROC) && (Suspend(k, p).curr != p <==> p != k.curr || k.ndefers == 0)
  {
    if p == k.curr && k.ndefers > 0 { StateStalls(k, Susp); } else { SuspendInv(k, p); }
    Suspended(k, p);
  }

  /** suspend works on eligible processes only, and leaves its process suspended and on no queue; resume
      then makes it eligible again. */
  lemma ResumeUndoesSuspend(k: Kern, p: Pid)
    requires Inv(k) && p != NULLPROC && CanRun(k.procs[p].state)
    ensures var k1 := Suspend(k, p);
      && k1.procs[p].state == Susp && Unqueued(k1, p) && (k1.curr != p <==> p != k.curr || k.ndefers == 0)
      && CanRun(Resume(k1, p).procs[p].state) && Resume(k1, p).procs[p].prio == k.procs[p].prio
  {
    var k1 := Suspend(k, p);
    SuspendPlaced(k, p);
    Suspended(k, p);
    UnqueuedIs(k1, p);
    SuspLoose(k1, p);
    EnlistPlaced(k1, p);
    ReschedReadied(Enlist(k1, p));
  }

  lemma Suspended(k: Kern, p: Pid)
    requires Inv(k) && p != NULLPROC && CanRun(k.procs[p].state)
    ensures Suspend(k, p).procs[p] == k.procs[p].(state := Susp)
  {
    if k.procs[p].state == Curr {
      SetStateFrame(k.procs, SetState(k, p, Susp).procs, p, NPROC, NPROC);
      ReschedReadied(SetState(k, p, Susp));
    }
  }

  /** A killed process is free and on no queue. */
  lemma KillFrees(k: Kern, p: Pid)
    requires Inv(k) && p != NULLPROC && k.procs[p].state != Free
    ensures Kill(k, p).procs[p].state == Free && Unqueued(Kill(k, p), p)
  {
    if p == k.curr && k.ndefers > 0 {
      StateStalls(k, Free);
    } else {
      KillInv(k, p);
      KillMail(k, p);
    }
    UnqueuedIs(Kill(k, p), p);
  }

  // ---- messages ----

  /** send fails exactly for a bad process or one that has a message, and then changes nothing; otherwise
      the message is there, and a process that waited for one is eligible. */
  lemma SendDelivers(k: Kern, p: int, msg: int)
    requires Inv(k)
    ensures var k' := Send(k, p, msg);
      if IsBadPid(k, p) || k.procs[p].hasmsg then k' == k
      else
        && k'.procs[p].hasmsg && k'.procs[p].msg == msg
        && if k.procs[p].state == Recv || k.procs[p].state == Rectim then CanRun(k'.procs[p].state)
           else k'.procs[p].state == k.procs[p].state
  {
    if !IsBadPid(k, p) && !k.procs[p].hasmsg {
      if k.procs[p].state == Recv {
        SuspLoose(k, p);
        DeliverEffect(k, p, msg);
      } else if k.procs[p].state == Rectim {
        RemoveDeltaFacts(k.sleep, p);
        RemoveAsleep(k, p, RemoveDelta(k.sleep, p));
        DeliverEffect(Unsleep(k, p), p, msg);
      }
    }
  }

  lemma DeliverEffect(k: Kern, p: Pid, msg: int)
    requires Placed(k, p) && (k.procs[p].state == Recv || k.procs[p].state == Rectim)
    ensures var r := MakeReady(k.(procs := k.procs[p := k.procs[p].(msg := msg, hasmsg := true)]), p).procs[p];
      r.hasmsg && r.msg == msg && CanRun(r.state)
  {
    var k1 := k.(procs := k.procs[p := k.procs[p].(msg := msg, hasmsg := true)]);
    DeliverPlaced(k, p, msg);
    ReschedReadied(Enlist(k1, p));
  }

  /** The step may empty the mailbox of p: p takes its message, or ends, or its slot is used anew. */
  ghost predicate Empties(y: Sys, c: Call, p: Pid)
    requires Sized(y.k) && |y.pc| == NPROC
  {
    || (p == y.k.curr && (c.CReceive? || c.CRecvTime? || c.CRecvClr? || (c.CFinish? && y.pc[p] != InTick)))
    || c == CKill(p) || (c.CCreate? && y.k.procs[p].state == Free)
  }

  lemma MessageStep(y: Sys, c: Call, p: Pid)
    requires Good(y) && Enabled(y, c) && y.k.procs[p].hasmsg && !Empties(y, c, p)
    ensures Step(y, c).k.procs[p].hasmsg && Step(y, c).k.procs[p].msg == y.k.procs[p].msg
  {
    if c == CFinish {
      FinishKeepsMail(y, p);
    } else if Mailless(c) {
      ApplyMail(y.k, c);
    } else if c.CSend? {
      if c.p != p || !y.k.procs[p].hasmsg { SendMail(y.k, c.p, c.msg); }
    } else if c.CReceive? || c.CRecvTime? {
      ReceiveMail(y.k, c);
    } else if c.CKill? {
      KillMail(y.k, c.p);
    }
  }

  lemma FinishKeepsMail(y: Sys, p: Pid)
    requires Good(y) && y.pc[y.k.curr] != User && !Empties(y, CFinish, p)
    ensures var ps' := Step(y, CFinish).k.procs;
      ps'[p].hasmsg == y.k.procs[p].hasmsg && ps'[p].msg == y.k.procs[p].msg
  {
    if y.pc[y.k.curr] == InTick { TickRestInv(y.k); }
  }

  ghost predicate Unemptied(y: Sys, cs: seq<Call>, p: Pid)
    requires Sized(y.k) && |y.pc| == NPROC
    decreases |cs|
  {
    cs == [] || (!Empties(y, cs[0], p) && Unemptied(Step(y, cs[0]), cs[1..], p))
  }

  lemma {:induction false} MessageStays(y: Sys, cs: seq<Call>, p: Pid)
    requires Good(y) && Legal(y, cs) && y.k.procs[p].hasmsg && Unemptied(y, cs, p)
    ensures Run(y, cs).k.procs[p].hasmsg && Run(y, cs).k.procs[p].msg == y.k.procs[p].msg
    decreases |cs|
  {
    if cs != [] {
      StepGood(y, cs[0]);
      MessageStep(y, cs[0], p);
      MessageStays(Step(y, cs[0]), cs[1..], p);
    }
  }

  /** A message that was sent is what its receiver finds, however long it takes, and whoever else sends to
      it in the meantime. */
  lemma SentIsFound(y: Sys, p: Pid, msg: int, cs: seq<Call>)
    requires Good(y) && !IsBadPid(y.k, p) && !y.k.procs[p].hasmsg && Enabled(y, CSend(p, msg))
    requires var y1 := Step(y, CSend(p, msg)); Legal(y1, cs) && Unemptied(y1, cs, p)
    ensures var k := Run(Step(y, CSend(p, msg)), cs).k; k.procs[p].hasmsg && k.procs[p].msg == msg
  {
    SendDelivers(y.k, p, msg);
    StepGood(y, CSend(p, msg));
    MessageStays(Step(y, CSend(p, msg)), cs, p);
  }
}
