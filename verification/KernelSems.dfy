/** What the semaphore calls do over whole runs: counts are accounted for exactly, and waiters leave
    in the order they arrived. */
module KernelSems {
  import opened Seqs
  import opened QueueTable
  import opened Semaphores
  import opened KernelSpec
  import opened KernelInvariants
  import opened KernelRuns

  /** The call kills a process waiting on s. */
  predicate KillsWaiter(k: Kern, c: Call, s: int)
    requires Sized(k)
  {
    c.CKill? && !IsBadPid(k, c.p) && c.p != NULLPROC && k.procs[c.p].state == Wait && k.procs[c.p].sem == s
  }

  predicate Resets(c: Call, s: int) {
    (c.CSemReset? && c.s == s && c.count >= 0) || (c.CSemDelete? && c.s == s)
  }

  /** What a call adds to the count of s. */
  function Credit(k: Kern, c: Call, s: int): int
    requires Sized(k)
  {
    match c
    case CWait(t) => if t == s then -1 else 0
    case CSignal(t) => if t == s then 1 else 0
    case CSignalN(t, n) => if t == s && n >= 0 then n else 0
    case CKill(_) => if KillsWaiter(k, c, s) then 1 else 0
    case _ => 0
  }

  /** Who joins and who leaves the queue of s by the call (killed waiters aside), oldest first. */
  function Joins(k: Kern, c: Call, s: int): (r: seq<Pid>)
    requires Sized(k) && 0 <= s < NSEM
  {
    if c.CWait? && c.s == s && k.sems[s].used && Blocks(k.sems[s]) then [k.curr] else []
  }

  function Leaves(k: Kern, c: Call, s: int): (r: seq<Pid>)
    requires Sized(k) && 0 <= s < NSEM
  {
    var q := k.sems[s].queue;
    match c
    case CSignal(t) => if t == s then q[..Min(1, |q|)] else []
    case CSignalN(t, n) => if t == s && n >= 0 then q[..Min(n, |q|)] else []
    case CSemReset(t, n) => if t == s && n >= 0 then q else []
    case CSemDelete(t) => if t == s then q else []
    case _ => []
  }

  /** The semaphore s, in use, after the call. */
  function SemAfter(k: Kern, c: Call, s: int): (r: Sem)
    requires Sized(k) && 0 <= s < NSEM
  {
    var v := k.sems[s];
    match c
    case CWait(t) => if t == s then Down(v, k.curr) else v
    case CSignal(t) => if t == s then Up(v) else v
    case CSignalN(t, n) => if t == s && n >= 0 then UpN(v, n) else v
    case CSemReset(t, n) => if t == s && n >= 0 then Sem(true, n, []) else v
    case CSemDelete(t) => if t == s then Sem(false, Max0(v.count) + 1, []) else v
    case CKill(_) =>
      if KillsWaiter(k, c, s) then v.(count := v.count + 1, queue := Without(v.queue, c.p as Pid)) else v
    case _ => v
  }

  lemma SemEffect(y: Sys, c: Call, s: int)
    requires Good(y) && 0 <= s < NSEM && y.k.sems[s].used
    ensures Step(y, c).k.sems[s] == SemAfter(y.k, c, s)
  {
    match c
    case CSignalN(t, n) => SignalNStep(y.k, t, n, s);
    case CSemDelete(t) =>
      assert 0 <= t < NSEM ==> Balanced(y.k.sems[t]);
      DeleteStep(y.k, t, s);
    case CKill(p) => KillStep(y.k, p, s);
    case CSemReset(t, n) =>
    case CWait(t) =>
    case CSignal(t) =>
    case _ => OtherStep(y, c);
  }

  lemma SignalNStep(k: Kern, t: int, n: int, s: int)
    requires Sized(k) && 0 <= s < NSEM && k.sems[s].used
    ensures SignalN(k, t, n).sems[s] == if t == s && n >= 0 then UpN(k.sems[s], n) else k.sems[s]
  {}

  /** Every other call leaves every semaphore in use alone. */
  lemma OtherStep(y: Sys, c: Call)
    requires Sized(y.k) && |y.pc| == NPROC
    requires !c.CSignalN? && !c.CSemDelete? && !c.CKill? && !c.CSemReset? && !c.CWait? && !c.CSignal?
    ensures forall s :: 0 <= s < NSEM && y.k.sems[s].used ==> Step(y, c).k.sems[s] == y.k.sems[s]
  {}

  lemma DeleteStep(k: Kern, t: int, s: int)
    requires Sized(k) && 0 <= s < NSEM && (0 <= t < NSEM ==> Balanced(k.sems[t]))
    ensures SemDelete(k, t).sems[s] ==
      if t == s && k.sems[s].used then Sem(false, Max0(k.sems[s].count) + 1, []) else k.sems[s]
  {
    if !IsBadSem(k, t) {
      ReleaseAllSems(DeferStart(SetSem(k, t, k.sems[t].(used := false))), t);
    }
  }

  /** One call, seen from semaphore s in use: the count moves by the credit of the call. */
  lemma CountStep(k: Kern, c: Call, s: int)
    requires Sized(k) && 0 <= s < NSEM && k.sems[s].used && Balanced(k.sems[s]) && !Resets(c, s)
    ensures SemAfter(k, c, s).used && SemAfter(k, c, s).count == k.sems[s].count + Credit(k, c, s)
  {
    if c.CSignalN? && c.s == s && c.n >= 0 { UpNIs(k.sems[s], c.n); }
  }

  /** The waiter of s that the call kills, if any. */
  function Killed(k: Kern, c: Call, s: int): (r: seq<Pid>)
    requires Sized(k)
  {
    if KillsWaiter(k, c, s) then [c.p as Pid] else []
  }

  /** And its queue loses what leaves at the front and gains what joins at the back. */
  lemma JoinLeaveStep(k: Kern, c: Call, s: int)
    requires Sized(k) && 0 <= s < NSEM && k.sems[s].used && Balanced(k.sems[s]) && !KillsWaiter(k, c, s)
    ensures Leaves(k, c, s) + SemAfter(k, c, s).queue == k.sems[s].queue + Joins(k, c, s)
  {
    var q := k.sems[s].queue;
    if c.CSignalN? && c.s == s && c.n >= 0 {
      UpNIs(k.sems[s], c.n);
      assert q[..Min(c.n, |q|)] + q[Min(c.n, |q|)..] == q + [];
    } else if c.CSignal? && c.s == s {
      assert q[..Min(1, |q|)] + Up(k.sems[s]).queue == q + [];
    } else if c.CWait? && c.s == s {
    } else if Resets(c, s) {
    } else {
      assert SemAfter(k, c, s).queue == q;
    }
  }

  lemma KillStep(k: Kern, p: int, s: int)
    requires Inv(k) && 0 <= s < NSEM
    ensures var v := k.sems[s];
      Kill(k, p).sems[s] == if KillsWaiter(k, CKill(p), s)
                            then v.(count := v.count + 1, queue := Without(v.queue, p as Pid)) else v
  {}

  // ---- over runs ----

  /** Along the run s is never reset, deleted, and so stays the same semaphore. */
  ghost predicate Lasting(y: Sys, cs: seq<Call>, s: int)
    requires Sized(y.k) && |y.pc| == NPROC
    decreases |cs|
  {
    cs == [] || (!Resets(cs[0], s) && Lasting(Step(y, cs[0]), cs[1..], s))
  }

  function TotalCredit(y: Sys, cs: seq<Call>, s: int): int
    requires Sized(y.k) && |y.pc| == NPROC
    decreases |cs|
  {
    if cs == [] then 0 else Credit(y.k, cs[0], s) + TotalCredit(Step(y, cs[0]), cs[1..], s)
  }

  /** Between resets the count is what it was, plus signals, plus killed waiters, minus waits. */
  lemma {:induction false} CountIsAccounted(y: Sys, cs: seq<Call>, s: int)
    requires Good(y) && Legal(y, cs) && 0 <= s < NSEM && y.k.sems[s].used && Lasting(y, cs, s)
    ensures Run(y, cs).k.sems[s].used
    ensures Run(y, cs).k.sems[s].count == y.k.sems[s].count + TotalCredit(y, cs, s)
    decreases |cs|
  {
    if cs != [] {
      StepGood(y, cs[0]);
      SemEffect(y, cs[0], s);
      assert Balanced(y.k.sems[s]);
      CountStep(y.k, cs[0], s);
      CountIsAccounted(Step(y, cs[0]), cs[1..], s);
    }
  }

  function AllJoins(y: Sys, cs: seq<Call>, s: int): seq<Pid>
    requires Sized(y.k) && |y.pc| == NPROC && 0 <= s < NSEM
    decreases |cs|
  {
    if cs == [] then [] else Joins(y.k, cs[0], s) + AllJoins(Step(y, cs[0]), cs[1..], s)
  }

  function AllLeaves(y: Sys, cs: seq<Call>, s: int): seq<Pid>
    requires Sized(y.k) && |y.pc| == NPROC && 0 <= s < NSEM
    decreases |cs|
  {
    if cs == [] then [] else Leaves(y.k, cs[0], s) + AllLeaves(Step(y, cs[0]), cs[1..], s)
  }

  function AllKilled(y: Sys, cs: seq<Call>, s: int): seq<Pid>
    requires Sized(y.k) && |y.pc| == NPROC && 0 <= s < NSEM
    decreases |cs|
  {
    if cs == [] then [] else Killed(y.k, cs[0], s) + AllKilled(Step(y, cs[0]), cs[1..], s)
  }

  /** Waiters are released in the order they arrived, across signals, resets and deletion: those
      released, then those still waiting, are, in this order, those waiting at first and then those that
      arrived, less exactly the waiters that were killed. */
  lemma {:induction false} ReleasedInOrder(y: Sys, cs: seq<Call>, s: int)
    requires Good(y) && Legal(y, cs) && 0 <= s < NSEM
    ensures var out, come := AllLeaves(y, cs, s) + Run(y, cs).k.sems[s].queue, y.k.sems[s].queue + AllJoins(y, cs, s);
      && Subsequence(out, come)
      && multiset(come) == multiset(out) + multiset(AllKilled(y, cs, s))
      && (AllKilled(y, cs, s) == [] ==> out == come)
    decreases |cs|
  {
    var out, come := AllLeaves(y, cs, s) + Run(y, cs).k.sems[s].queue, y.k.sems[s].queue + AllJoins(y, cs, s);
    if cs == [] {
      assert out == come;
      SubRefl(out);
    } else {
      var y1 := Step(y, cs[0]);
      StepGood(y, cs[0]);
      QueueStep(y, cs[0], s);
      ReleasedInOrder(y1, cs[1..], s);
      var l, m, q, j := Leaves(y.k, cs[0], s), y1.k.sems[s].queue, y.k.sems[s].queue, Joins(y.k, cs[0], s);
      var ls, e, js := AllLeaves(y1, cs[1..], s), Run(y1, cs[1..]).k.sems[s].queue, AllJoins(y1, cs[1..], s);
      ChainSub(l, m, q, j, ls, e, js);
      ChainCount(l, m, q, j, ls, e, js, Killed(y.k, cs[0], s), AllKilled(y1, cs[1..], s));
      SubShorter(out, come);
      assert |multiset(come)| == |multiset(out)| + |AllKilled(y, cs, s)|;
    }
  }

  /** One step and the rest of the run, put together: who is where in order ... */
  lemma ChainSub<T>(l: seq<T>, m: seq<T>, q: seq<T>, j: seq<T>, ls: seq<T>, e: seq<T>, js: seq<T>)
    requires Subsequence(l + m, q + j) && Subsequence(ls + e, m + js)
    ensures Subsequence((l + ls) + e, q + (j + js))
  {
    Associates(l, ls, e);
    Associates(l, m, js);
    Associates(q, j, js);
    ChainOrder(l, ls + e, m + js, l + m, q + j, js, (l + ls) + e, (l + m) + js, q + (j + js));
  }

  lemma Associates<T>(a: seq<T>, b: seq<T>, c: seq<T>)
    ensures (a + b) + c == a + (b + c)
  {}

  /** ... and how many of each. */
  lemma ChainCount<T>(l: seq<T>, m: seq<T>, q: seq<T>, j: seq<T>, ls: seq<T>, e: seq<T>, js: seq<T>, x: seq<T>, xs: seq<T>)
    requires multiset(q + j) == multiset(l + m) + multiset(x)
    requires multiset(m + js) == multiset(ls + e) + multiset(xs)
    ensures multiset(q + (j + js)) == multiset((l + ls) + e) + multiset(x + xs)
  {
    calc {
      multiset(q + (j + js));
      multiset(q + j) + multiset(js);
      multiset(l) + multiset(m) + multiset(x) + multiset(js);
      multiset(l) + multiset(m + js) + multiset(x);
      multiset(l) + multiset(ls) + multiset(e) + multiset(xs) + multiset(x);
    }
  }

  lemma ChainOrder<T>(l: seq<T>, r: seq<T>, s: seq<T>, u: seq<T>, v: seq<T>, js: seq<T>,
                      a: seq<T>, b: seq<T>, c: seq<T>)
    requires Subsequence(r, s) && Subsequence(u, v) && a == l + r && b == l + s == u + js && c == v + js
    ensures Subsequence(a, c)
  {
    SubPrepend(l, r, s);
    SubAppend(u, v, js);
    SubTrans(a, b, c);
  }

  lemma QueueStep(y: Sys, c: Call, s: int)
    requires Good(y) && Enabled(y, c) && 0 <= s < NSEM
    ensures var out, come := Leaves(y.k, c, s) + Step(y, c).k.sems[s].queue, y.k.sems[s].queue + Joins(y.k, c, s);
      Subsequence(out, come) && multiset(come) == multiset(out) + multiset(Killed(y.k, c, s))
  {
    assert Balanced(y.k.sems[s]);
    if y.k.sems[s].used {
      SemEffect(y, c, s);
      if KillsWaiter(y.k, c, s) {
        KillLeaves(y.k, c.p, s);
      } else {
        JoinLeaveStep(y.k, c, s);
        SubRefl(y.k.sems[s].queue + Joins(y.k, c, s));
      }
    } else {
      UnusedStep(y, c, s);
    }
  }

  /** A killed waiter is taken out of the queue, from whichever place. */
  lemma KillLeaves(k: Kern, p: Pid, s: int)
    requires Inv(k) && 0 <= s < NSEM && k.procs[p].state == Wait && k.procs[p].sem == s
    ensures var q := k.sems[s].queue;
      && [] + Without(q, p) == Without(q, p) && q + [] == q
      && Subsequence(Without(q, p), q) && multiset(q) == multiset(Without(q, p)) + multiset([p])
  {
    var q := k.sems[s].queue;
    assert QueueHolds(k.procs, q, NPROC, s);
    SubWithout(q, p);
    WithoutMembers(q, p);
  }

  /** A free semaphore has no queue, and no call gives it one. */
  lemma UnusedStep(y: Sys, c: Call, s: int)
    requires Good(y) && 0 <= s < NSEM && !y.k.sems[s].used && y.k.sems[s].queue == []
    ensures Step(y, c).k.sems[s].queue == []
    ensures Joins(y.k, c, s) == [] && Leaves(y.k, c, s) == [] && Killed(y.k, c, s) == []
  {
    if c.CSemDelete? {
      assert 0 <= c.s < NSEM ==> Balanced(y.k.sems[c.s]);
      DeleteStep(y.k, c.s, s);
    } else if c.CKill? {
      assert QueueHolds(y.k.procs, y.k.sems[s].queue, NPROC, s);
      KillStep(y.k, c.p, s);
    } else {
      UnusedOther(y, c, s);
    }
  }

  lemma UnusedOther(y: Sys, c: Call, s: int)
    requires Sized(y.k) && |y.pc| == NPROC && 0 <= s < NSEM && !y.k.sems[s].used && y.k.sems[s].queue == []
    requires !c.CSemDelete? && !c.CKill?
    ensures Step(y, c).k.sems[s].queue == []
    ensures Joins(y.k, c, s) == [] && Leaves(y.k, c, s) == []
  {}
}
