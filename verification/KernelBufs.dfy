/** The buffer pools on the real kernel, as KernelPorts has the ports: the semaphore of a pool is an entry of
    the kernel's table. Every run of this system is a run of BufPoolSpec. */
module KernelBufs {
  import opened Seqs
  import opened QueueTable
  import opened Semaphores
  import opened BufPoolSpec
  import K = KernelRuns
  import KS = KernelSems
  import KSpec = KernelSpec
  import KP = KernelPorts

  /** An entry of buftab; sem is the id of its semaphore. */
  datatype Entry = Entry(lo: int, hi: int, size: int, bufs: seq<int>, free: seq<int>, sem: int)

  datatype Activity = Out | InGet(pool: int)

  datatype World = World(sys: K.Sys, pools: seq<Entry>, tags: map<int, int>, calls: seq<Activity>)

  ghost predicate Sound(w: World) { KSpec.Sized(w.sys.k) && |w.sys.pc| == NPROC && |w.calls| == NPROC }

  function Caller(w: World): (p: Pid) { w.sys.k.curr }

  // ---- the pools as BufPoolSpec sees them ----

  function SemAt(sems: KP.SemTable, id: int): (v: Sem) { if 0 <= id < NSEM then sems[id] else Sem(false, 0, []) }

  function PoolOf(sems: KP.SemTable, e: Entry): (v: Pool) { Pool(e.lo, e.hi, e.size, e.bufs, e.free, SemAt(sems, e.sem)) }

  /** A process inside getbuf has been let through when it is not queued on the semaphore. */
  function PhaseOf(sems: KP.SemTable, pools: seq<Entry>, a: Activity, p: Pid): (f: Phase) {
    match a
    case Out => Idle
    case InGet(i) => Getting(i, !(0 <= i < |pools| && p in SemAt(sems, pools[i].sem).queue))
  }

  ghost function Abs(w: World): (y: Sys)
    requires Sound(w)
    ensures |y.pools| == |w.pools| && y.tags == w.tags
    ensures forall i :: 0 <= i < |w.pools| ==> y.pools[i] == PoolOf(w.sys.k.sems, w.pools[i])
    ensures forall p: Pid :: y.phases[p] == PhaseOf(w.sys.k.sems, w.pools, w.calls[p], p)
  {
    var sems: KP.SemTable := w.sys.k.sems;
    Sys(seq(|w.pools|, i requires 0 <= i < |w.pools| => PoolOf(sems, w.pools[i])), w.tags,
        seq(NPROC, p requires 0 <= p < NPROC => PhaseOf(sems, w.pools, w.calls[p], p)))
  }

  lemma AbsIs(w: World, y: Sys)
    requires Sound(w) && |y.pools| == |w.pools| && y.tags == w.tags
    requires forall i :: 0 <= i < |w.pools| ==> y.pools[i] == PoolOf(w.sys.k.sems, w.pools[i])
    requires forall p: Pid :: y.phases[p] == PhaseOf(w.sys.k.sems, w.pools, w.calls[p], p)
    ensures Abs(w) == y
  {
    assert Abs(w).pools == y.pools;
    forall p | 0 <= p < NPROC ensures Abs(w).phases[p] == y.phases[p] { var q: Pid := p; }
    assert Abs(w).phases == y.phases;
  }

  /** Every pool has a semaphore in use, and no two the same. */
  ghost predicate IdsOk(sems: KP.SemTable, pools: seq<Entry>) {
    && (forall i :: 0 <= i < |pools| ==> 0 <= pools[i].sem < NSEM && sems[pools[i].sem].used)
    && (forall i, j :: 0 <= i < j < |pools| ==> pools[i].sem != pools[j].sem)
  }

  ghost predicate WInv(w: World) { Sound(w) && K.Good(w.sys) && IdsOk(w.sys.k.sems, w.pools) && Inv(Abs(w)) }

  // ---- the steps ----

  datatype Act =
    | AKern(c: K.Call)
    | AMake(bufsiz: int, numbufs: int, block: int)
    | AGetEnter(i: int) | AGetFinish | AFree(addr: int) | AKill(p: Pid)

  function Call(w: World, c: K.Call): (r: World)
    requires Sound(w)
    ensures Sound(r)
  {
    w.(sys := K.Step(w.sys, c))
  }

  function SetCall(w: World, p: Pid, a: Activity): (r: World)
    requires |w.calls| == NPROC
    ensures |r.calls| == NPROC
  {
    w.(calls := w.calls[p := a])
  }

  /** mkbufpool with the block that getmem answers; without a semaphore it gives up. */
  function Make(w: World, bufsiz: int, numbufs: int, block: int): (r: World)
    requires Sound(w)
    ensures Sound(r)
  {
    if BadSizes(bufsiz, numbufs) || |w.pools| >= NBPOOLS || block == SYSERR then w
    else
      var id := KSpec.SemCreate(w.sys.k, numbufs).1;
      var w1 := Call(w, K.CSemCreate(numbufs));
      if id == SYSERR then w1
      else
        var v := NewPool(bufsiz, numbufs, block);
        w1.(pools := w.pools + [Entry(v.lo, v.hi, v.size, v.bufs, v.free, id)])
  }

  function GetEnter(w: World, i: int): (r: World)
    requires Sound(w)
    ensures Sound(r)
  {
    if !(0 <= i < |w.pools|) then w else SetCall(Call(w, K.CWait(w.pools[i].sem)), Caller(w), InGet(i))
  }

  function GetFinish(w: World): (r: World)
    requires Sound(w) && w.calls[Caller(w)].InGet? && 0 <= w.calls[Caller(w)].pool < |w.pools|
    ensures Sound(r)
  {
    var i := w.calls[Caller(w)].pool;
    var e := w.pools[i];
    if e.free == [] then w  // never
    else SetCall(w.(pools := w.pools[i := e.(free := e.free[1..])], tags := w.tags[e.free[0] := i]), Caller(w), Out)
  }

  function FreeBuffer(w: World, addr: int): (r: World)
    requires Sound(w) && addr - TAGSIZE in w.tags && 0 <= w.tags[addr - TAGSIZE] < |w.pools|
    ensures Sound(r)
  {
    var b := addr - TAGSIZE;
    var i := w.tags[b];
    var e := w.pools[i];
    Call(w.(pools := w.pools[i := e.(free := [b] + e.free)], tags := w.tags - {b}), K.CSignal(e.sem))
  }

  function KillProc(w: World, p: Pid): (r: World)
    requires Sound(w)
    ensures Sound(r)
  {
    SetCall(Call(w, K.CKill(p)), p, Out)
  }

  /** No pool has the semaphore s. */
  ghost predicate Foreign(pools: seq<Entry>, s: int) { forall i :: 0 <= i < |pools| ==> pools[i].sem != s }

  ghost predicate Free(w: World)
    requires Sound(w)
  {
    w.calls[Caller(w)] == Out && w.sys.pc[Caller(w)] == K.User
  }

  /** Nobody but the pools uses their semaphores; only a tick interrupts getbuf; what BufPoolSpec asks of
      mkbufpool, freebuf and kill is asked here. Whether semcreate succeeds is not. */
  ghost predicate Enabled(w: World, a: Act)
    requires Sound(w)
  {
    var p := Caller(w);
    match a
    case AKern(c) =>
      && K.Enabled(w.sys, c) && (w.calls[p] == Out || c == K.CTick || c == K.CFinish)
      && (KP.NamesSem(c) ==> Foreign(w.pools, c.s)) && (c.CKill? && 0 <= c.p < NPROC ==> w.calls[c.p] == Out)
    case AMake(bufsiz, numbufs, block) => Free(w) && FreshBlock(Abs(w), block, BlockSize(bufsiz, numbufs))
    case AGetEnter(i) => Free(w) && (0 <= i < |w.pools| ==> K.Enabled(w.sys, K.CWait(w.pools[i].sem)))
    case AGetFinish => w.calls[p].InGet? && 0 <= w.calls[p].pool < |w.pools| && w.sys.pc[p] == K.User
    case AFree(addr) => Free(w) && addr - TAGSIZE in w.tags && 0 <= w.tags[addr - TAGSIZE] < |w.pools|
    case AKill(q) =>
      && Free(w) && w.calls[q] != Out && K.Enabled(w.sys, K.CKill(q)) && !KSpec.IsBadPid(w.sys.k, q)
      && q != KSpec.NULLPROC && (Abs(w).phases[q].Getting? ==> !Abs(w).phases[q].granted)
  }

  ghost function Do(w: World, a: Act): (r: World)
    requires Sound(w) && Enabled(w, a)
    ensures Sound(r)
  {
    match a
    case AKern(c) => Call(w, c)
    case AMake(bufsiz, numbufs, block) => Make(w, bufsiz, numbufs, block)
    case AGetEnter(i) => GetEnter(w, i)
    case AGetFinish => GetFinish(w)
    case AFree(addr) => FreeBuffer(w, addr)
    case AKill(q) => KillProc(w, q)
  }

  // ---- seeing a step as one of BufPoolSpec ----

  /** The part of WInv that a step at one pool is seen through. */
  ghost predicate Plain(w: World) { Sound(w) && IdsOk(w.sys.k.sems, w.pools) }

  predicate OnPool(a: Activity, i: int) { a.InGet? && a.pool == i }

  /** From w to w' only pool i, its semaphore id and the call of p change. */
  ghost predicate Stepped(w: World, w': World, i: int, id: int, p: Pid)
    requires Sound(w) && Sound(w')
  {
    && 0 <= i < |w.pools| && id == w.pools[i].sem && 0 <= id < NSEM && KP.SameBut(w.sys.k.sems, w'.sys.k.sems, id)
    && |w'.pools| == |w.pools| && w'.pools == w.pools[i := w'.pools[i]] && w'.pools[i].sem == id && w'.sys.k.sems[id].used
    && forall q: Pid :: q != p ==> w'.calls[q] == w.calls[q]
  }

  lemma PoolElsewhere(w: World, w': World, i: int, id: int, p: Pid, j: int)
    requires Plain(w) && Sound(w') && Stepped(w, w', i, id, p) && 0 <= j < |w.pools| && j != i
    ensures SemAt(w'.sys.k.sems, w'.pools[j].sem) == SemAt(w.sys.k.sems, w.pools[j].sem) && w'.pools[j] == w.pools[j]
  {}

  /** y' is what BufPoolSpec makes of pool i and of the processes at it; all else is as before. */
  lemma AbsStep(w: World, w': World, i: int, id: int, p: Pid, y: Sys, y': Sys)
    requires Plain(w) && y == Abs(w) && Sound(w') && Stepped(w, w', i, id, p) && y'.tags == w'.tags
    requires y'.pools == y.pools[i := PoolOf(w'.sys.k.sems, w'.pools[i])]
    requires forall q: Pid :: q == p || OnPool(w.calls[q], i) ==>
      y'.phases[q] == PhaseOf(w'.sys.k.sems, w'.pools, w'.calls[q], q)
    requires forall q: Pid :: q != p && !OnPool(w.calls[q], i) ==> y'.phases[q] == y.phases[q]
    ensures Abs(w') == y'
  {
    forall j | 0 <= j < |w.pools| ensures y'.pools[j] == PoolOf(w'.sys.k.sems, w'.pools[j]) {
      if j != i { PoolElsewhere(w, w', i, id, p, j); }
    }
    forall q: Pid | q != p && !OnPool(w.calls[q], i) ensures y'.phases[q] == PhaseOf(w'.sys.k.sems, w'.pools, w'.calls[q], q) {
      if w.calls[q].InGet? && 0 <= w.calls[q].pool < |w.pools| { PoolElsewhere(w, w', i, id, p, w.calls[q].pool); }
    }
    AbsIs(w', y');
  }

  lemma StepWorld(w: World, w': World, i: int, id: int, p: Pid)
    requires WInv(w) && Sound(w') && K.Good(w'.sys) && Inv(Abs(w')) && Stepped(w, w', i, id, p)
    ensures WInv(w')
  {
    forall j | 0 <= j < |w'.pools| ensures 0 <= w'.pools[j].sem < NSEM && w'.sys.k.sems[w'.pools[j].sem].used {
      if j != i { PoolElsewhere(w, w', i, id, p, j); }
    }
  }

  /** The queue of a pool repeats nobody, and holds processes inside getbuf at it; not the current one. */
  ghost predicate Lined(w: World, i: int)
    requires Sound(w) && 0 <= i < |w.pools|
  {
    var q := SemAt(w.sys.k.sems, w.pools[i].sem).queue;
    NoDup(q) && Caller(w) !in q && forall p: Pid :: p in q ==> OnPool(w.calls[p], i)
  }

  lemma LinedUp(w: World, i: int)
    requires WInv(w) && 0 <= i < |w.pools|
    ensures Plain(w) && Lined(w, i) && 0 <= w.pools[i].sem < NSEM && w.sys.k.sems[w.pools[i].sem].used
  {
    var y := Abs(w);
    assert SemOk(y.phases, i, y.pools[i]);
    KP.CurrNotQueued(w.sys.k, w.pools[i].sem);
  }

  // ---- getbuf ----

  lemma EnterStep(w: World, w': World, i: int, id: int, y: Sys, y': Sys)
    requires Plain(w) && K.Good(w.sys) && 0 <= i < |w.pools| && id == w.pools[i].sem && Lined(w, i) && w' == GetEnter(w, i)
    requires y == Abs(w) && y' == GetBufEnter(y, Caller(w), i).0
    ensures Stepped(w, w', i, id, Caller(w)) && Abs(w') == y'
  {
    KP.CallIs(w.sys, K.CWait(id), id);
    AbsStep(w, w', i, id, Caller(w), y, y');
  }

  lemma EnterSim(w: World, i: int, y: Sys)
    requires WInv(w) && Enabled(w, AGetEnter(i)) && y == Abs(w)
    ensures WInv(GetEnter(w, i)) && y.phases[Caller(w)] == Idle && Abs(GetEnter(w, i)) == GetBufEnter(y, Caller(w), i).0
  {
    if 0 <= i < |w.pools| {
      LinedUp(w, i);
      EnterStep(w, GetEnter(w, i), i, w.pools[i].sem, y, GetBufEnter(y, Caller(w), i).0);
      GetBufEnterInv(y, Caller(w), i);
      K.StepGood(w.sys, K.CWait(w.pools[i].sem));
      StepWorld(w, GetEnter(w, i), i, w.pools[i].sem, Caller(w));
    }
  }

  lemma FinishStep(w: World, w': World, i: int, y: Sys, y': Sys)
    requires Plain(w) && w.calls[Caller(w)] == InGet(i) && 0 <= i < |w.pools| && Lined(w, i) && w.pools[i].free != []
    requires w' == GetFinish(w) && y == Abs(w) && y.phases[Caller(w)].Getting? && y' == GetBufFinish(y, Caller(w)).0
    ensures Stepped(w, w', i, w.pools[i].sem, Caller(w)) && Abs(w') == y' && w'.sys == w.sys
  {
    AbsStep(w, w', i, w.pools[i].sem, Caller(w), y, y');
  }

  lemma FinishSim(w: World, i: int, y: Sys)
    requires WInv(w) && Enabled(w, AGetFinish) && y == Abs(w) && w.calls[Caller(w)] == InGet(i)
    ensures y.phases[Caller(w)].Getting? && y.phases[Caller(w)].granted && IsPool(y, i)
    ensures WInv(GetFinish(w)) && Abs(GetFinish(w)) == GetBufFinish(y, Caller(w)).0
  {
    LinedUp(w, i);
    if w.pools[i].free != [] {
      GetBufFinishInv(y, Caller(w));
      FinishStep(w, GetFinish(w), i, y, GetBufFinish(y, Caller(w)).0);
      StepWorld(w, GetFinish(w), i, w.pools[i].sem, Caller(w));
    }
  }

  // ---- freebuf ----

  /** Whoever signal releases is let through; the others stay as they are. */
  lemma PhaseSignalled(w: World, w': World, i: int, id: int, q: Pid)
    requires Plain(w) && Sound(w') && Stepped(w, w', i, id, Caller(w)) && Lined(w, i) && OnPool(w.calls[q], i)
    requires w'.sys.k.sems[id] == Up(w.sys.k.sems[id])
    ensures PhaseOf(w'.sys.k.sems, w'.pools, w.calls[q], q) ==
      Getting(i, q !in w.sys.k.sems[id].queue || q in Released(w.sys.k.sems[id]))
  {
    KP.UpQueue(w.sys.k.sems[id]);
  }

  /** The calls as Grant leaves them. */
  lemma GrantIs(y: Sys, s: Sem, q: Pid)
    requires forall p: Pid :: p in Released(s) ==> y.phases[p].Getting?
    ensures Grant(y.phases, Released(s))[q] == if q in Released(s) then y.phases[q].(granted := true) else y.phases[q]
  {}

  lemma FreeStep(w: World, w': World, addr: int, i: int, id: int, y: Sys, y': Sys)
    requires Plain(w) && K.Good(w.sys) && 0 <= i < |w.pools| && id == w.pools[i].sem && Lined(w, i)
    requires addr - TAGSIZE in w.tags && w.tags[addr - TAGSIZE] == i && w' == FreeBuffer(w, addr)
    requires y == Abs(w) && y' == FreeBuf(y, addr, i).0
    ensures Stepped(w, w', i, id, Caller(w)) && Abs(w') == y'
  {
    KP.CallIs(w.sys, K.CSignal(id), id);
    var s := w.sys.k.sems[id];
    forall q: Pid | OnPool(w.calls[q], i) ensures y'.phases[q] == PhaseOf(w'.sys.k.sems, w'.pools, w'.calls[q], q) {
      GrantIs(y, s, q);
      PhaseSignalled(w, w', i, id, q);
    }
    forall q: Pid | !OnPool(w.calls[q], i) ensures y'.phases[q] == y.phases[q] { GrantIs(y, s, q); }
    FreeElsewhere(w, w', i, id, y, y');
  }

  lemma FreeElsewhere(w: World, w': World, i: int, id: int, y: Sys, y': Sys)
    requires Plain(w) && y == Abs(w) && Sound(w') && Stepped(w, w', i, id, Caller(w)) && y'.tags == w'.tags
    requires w'.calls == w.calls && y'.pools == y.pools[i := PoolOf(w'.sys.k.sems, w'.pools[i])]
    requires forall q: Pid :: OnPool(w.calls[q], i) ==> y'.phases[q] == PhaseOf(w'.sys.k.sems, w'.pools, w'.calls[q], q)
    requires forall q: Pid :: !OnPool(w.calls[q], i) ==> y'.phases[q] == y.phases[q]
    ensures Abs(w') == y'
  {
    var c, p := Caller(w), Caller(w);
    if w.calls[c].InGet? && !OnPool(w.calls[c], i) && 0 <= w.calls[c].pool < |w.pools| {
      PoolElsewhere(w, w', i, id, p, w.calls[c].pool);
    }
    AbsStep(w, w', i, id, p, y, y');
  }

  lemma FreeSim(w: World, addr: int, y: Sys)
    requires WInv(w) && Enabled(w, AFree(addr)) && y == Abs(w)
    ensures WInv(FreeBuffer(w, addr)) && addr - TAGSIZE in y.tags
    ensures Abs(FreeBuffer(w, addr)) == FreeBuf(y, addr, y.tags[addr - TAGSIZE]).0
  {
    var i := w.tags[addr - TAGSIZE];
    LinedUp(w, i);
    FreeStep(w, FreeBuffer(w, addr), addr, i, w.pools[i].sem, y, FreeBuf(y, addr, i).0);
    FreeBufInv(y, addr);
    K.StepGood(w.sys, K.CSignal(w.pools[i].sem));
    StepWorld(w, FreeBuffer(w, addr), i, w.pools[i].sem, Caller(w));
  }

  // ---- kernel calls that do not concern the pools ----

  lemma UntouchedWorld(w: World, w': World, y: Sys)
    requires WInv(w) && Sound(w') && K.Good(w'.sys) && w' == w.(sys := w'.sys) && y == Abs(w)
    requires forall i :: 0 <= i < |w.pools| ==> SemAt(w'.sys.k.sems, w.pools[i].sem) == SemAt(w.sys.k.sems, w.pools[i].sem)
    ensures WInv(w') && Abs(w') == y
  {
    AbsIs(w', y);
    forall i | 0 <= i < |w.pools| ensures w'.sys.k.sems[w.pools[i].sem].used {
      assert SemAt(w'.sys.k.sems, w.pools[i].sem) == SemAt(w.sys.k.sems, w.pools[i].sem);
    }
  }

  lemma KernTouches(w: World, c: K.Call, i: int)
    requires WInv(w) && Enabled(w, AKern(c)) && 0 <= i < |w.pools|
    ensures SemAt(K.Step(w.sys, c).k.sems, w.pools[i].sem) == SemAt(w.sys.k.sems, w.pools[i].sem)
  {
    var id := w.pools[i].sem;
    LinedUp(w, i);
    KP.KilledQueued(w.sys.k, c, id);
    KS.SemEffect(w.sys, c, id);
    KP.AfterSame(w.sys.k, c, id);
  }

  lemma KernSim(w: World, c: K.Call)
    requires WInv(w) && Enabled(w, AKern(c))
    ensures WInv(Call(w, c)) && Abs(Call(w, c)) == Abs(w)
  {
    forall i | 0 <= i < |w.pools|
      ensures SemAt(Call(w, c).sys.k.sems, w.pools[i].sem) == SemAt(w.sys.k.sems, w.pools[i].sem)
    {
      KernTouches(w, c, i);
    }
    K.StepGood(w.sys, c);
    UntouchedWorld(w, Call(w, c), Abs(w));
  }

  // ---- kill of a process inside getbuf ----

  lemma KillWaits(w: World, q: Pid, i: int)
    requires WInv(w) && 0 <= i < |w.pools| && w.calls[q] == InGet(i) && !Abs(w).phases[q].granted
    ensures Lined(w, i) && q in w.sys.k.sems[w.pools[i].sem].queue
  {
    LinedUp(w, i);
  }

  lemma KilledStep(w: World, w': World, q: Pid, i: int, id: int, y: Sys, y': Sys)
    requires Plain(w) && K.Good(w.sys) && 0 <= i < |w.pools| && id == w.pools[i].sem && Lined(w, i) && w.calls[q] == InGet(i)
    requires q in w.sys.k.sems[id].queue && q != KSpec.NULLPROC && w' == KillProc(w, q)
    requires y == Abs(w) && y' == Kill(y, q)
    ensures Stepped(w, w', i, id, q) && Abs(w') == y'
  {
    KP.KillIs(w.sys, id, q);
    WithoutNoDup(w.sys.k.sems[id].queue, q);
    AbsStep(w, w', i, id, q, y, y');
  }

  lemma KillSim(w: World, q: Pid, i: int, y: Sys)
    requires WInv(w) && Enabled(w, AKill(q)) && y == Abs(w) && w.calls[q] == InGet(i)
    ensures WInv(KillProc(w, q)) && Abs(KillProc(w, q)) == Kill(y, q) && (y.phases[q].Getting? ==> !y.phases[q].granted)
  {
    assert IsPool(y, y.phases[q].pool);
    KillWaits(w, q, i);
    KilledStep(w, KillProc(w, q), q, i, w.pools[i].sem, y, Kill(y, q));
    KillInv(y, q);
    K.StepGood(w.sys, K.CKill(q));
    StepWorld(w, KillProc(w, q), i, w.pools[i].sem, q);
  }

  // ---- mkbufpool ----

  /** A new pool, whose semaphore was free. */
  ghost predicate Added(w: World, w': World, e: Entry, v: Pool)
    requires Sound(w) && Sound(w')
  {
    && w' == w.(sys := w'.sys, pools := w.pools + [e]) && 0 <= e.sem < NSEM && !w.sys.k.sems[e.sem].used
    && w'.sys.k.sems == w.sys.k.sems[e.sem := v.sem] && v.sem.used && PoolOf(w'.sys.k.sems, e) == v
  }

  lemma MakeAdds(w: World, w': World, bufsiz: int, numbufs: int, block: int, e: Entry, v: Pool)
    requires Sound(w) && K.Good(w.sys) && w.sys.pc[Caller(w)] == K.User && w' == Make(w, bufsiz, numbufs, block)
    requires !BadSizes(bufsiz, numbufs) && |w.pools| < NBPOOLS && block != SYSERR && v == NewPool(bufsiz, numbufs, block)
    requires e.sem == KSpec.SemCreate(w.sys.k, numbufs).1 != SYSERR
    requires e == Entry(v.lo, v.hi, v.size, v.bufs, v.free, e.sem)
    ensures Added(w, w', e, v) && K.Good(w'.sys)
  {
    KP.SemCreateIs(w.sys, numbufs, e.sem);
    K.StepGood(w.sys, K.CSemCreate(numbufs));
  }

  lemma AddedAbs(w: World, w': World, e: Entry, v: Pool, y: Sys)
    requires WInv(w) && Sound(w') && Added(w, w', e, v) && y == Abs(w)
    ensures Abs(w') == y.(pools := y.pools + [v]) && IdsOk(w'.sys.k.sems, w'.pools)
  {
    var y' := y.(pools := y.pools + [v]);
    forall q: Pid ensures y'.phases[q] == PhaseOf(w'.sys.k.sems, w'.pools, w'.calls[q], q) {
      if w.calls[q].InGet? { assert IsPool(y, y.phases[q].pool); }
    }
    AbsIs(w', y');
  }

  lemma MakeSim(w: World, bufsiz: int, numbufs: int, block: int, y: Sys) returns (semok: bool)
    requires WInv(w) && Enabled(w, AMake(bufsiz, numbufs, block)) && y == Abs(w)
    ensures WInv(Make(w, bufsiz, numbufs, block))
    ensures Abs(Make(w, bufsiz, numbufs, block)) == MkBufPool(y, bufsiz, numbufs, block, semok).0
  {
    var w' := Make(w, bufsiz, numbufs, block);
    var id := KSpec.SemCreate(w.sys.k, numbufs).1;
    semok := id != SYSERR;
    if !BadSizes(bufsiz, numbufs) && |w.pools| < NBPOOLS && block != SYSERR {
      if semok {
        var v := NewPool(bufsiz, numbufs, block);
        var e := Entry(v.lo, v.hi, v.size, v.bufs, v.free, id);
        MakeAdds(w, w', bufsiz, numbufs, block, e, v);
        AddedAbs(w, w', e, v, y);
        MkBufPoolInv(y, bufsiz, numbufs, block, semok);
      } else {
        K.StepGood(w.sys, K.CSemCreate(numbufs));
        UntouchedWorld(w, w', y);
      }
    }
  }

  // ---- runs ----

  /** From y the moves ms lead to y'. */
  ghost predicate Leads(y: Sys, ms: seq<Move>, y': Sys) { BufPoolSpec.Legal(y, ms) && BufPoolSpec.Run(y, ms) == y' }

  lemma OneMove(y: Sys, m: Move, y': Sys)
    requires BufPoolSpec.Enabled(y, m) && y' == BufPoolSpec.Do(y, m).0
    ensures Leads(y, [m], y')
  {
    assert [m][1..] == [];
    assert BufPoolSpec.Legal(y', []) && BufPoolSpec.Run(y', []) == y';
  }

  lemma NoMove(y: Sys)
    ensures Leads(y, [], y)
  {}

  /** The step is a move of BufPoolSpec, if it concerns the pools. */
  lemma ActSim(w: World, a: Act, y: Sys) returns (ms: seq<Move>)
    requires WInv(w) && Enabled(w, a) && y == Abs(w)
    ensures WInv(Do(w, a)) && Leads(y, ms, Abs(Do(w, a)))
  {
    match a
    case AKern(c) =>
      KernSim(w, c);
      NoMove(y);
      ms := [];
    case AMake(bufsiz, numbufs, block) =>
      var semok := MakeSim(w, bufsiz, numbufs, block, y);
      ms := [MMake(bufsiz, numbufs, block, semok)];
      OneMove(y, ms[0], Abs(Make(w, bufsiz, numbufs, block)));
    case AGetEnter(i) =>
      EnterSim(w, i, y);
      ms := [MGetEnter(Caller(w), i)];
      OneMove(y, ms[0], Abs(GetEnter(w, i)));
    case AGetFinish =>
      FinishSim(w, w.calls[Caller(w)].pool, y);
      ms := [MGetFinish(Caller(w))];
      OneMove(y, ms[0], Abs(GetFinish(w)));
    case AFree(addr) =>
      FreeSim(w, addr, y);
      ms := [MFree(addr)];
      OneMove(y, ms[0], Abs(FreeBuffer(w, addr)));
    case AKill(q) =>
      assert y.phases[q].Getting? && IsPool(y, y.phases[q].pool);
      KillSim(w, q, w.calls[q].pool, y);
      ms := [MKill(q)];
      OneMove(y, ms[0], Abs(KillProc(w, q)));
  }

  ghost predicate Legal(w: World, acts: seq<Act>)
    requires Sound(w)
    decreases |acts|
  {
    acts == [] || (Enabled(w, acts[0]) && Legal(Do(w, acts[0]), acts[1..]))
  }

  ghost function Run(w: World, acts: seq<Act>): (r: World)
    requires Sound(w) && Legal(w, acts)
    ensures Sound(r)
    decreases |acts|
  {
    if acts == [] then w else Run(Do(w, acts[0]), acts[1..])
  }

  lemma {:induction false} LeadsOn(y: Sys, ms: seq<Move>, y1: Sys, more: seq<Move>, y2: Sys)
    requires Leads(y, ms, y1) && Leads(y1, more, y2)
    ensures Leads(y, ms + more, y2)
    decreases |ms|
  {
    if ms == [] {
      assert [] + more == more;
    } else {
      assert (ms + more)[1..] == ms[1..] + more;
      LeadsOn(BufPoolSpec.Do(y, ms[0]).0, ms[1..], y1, more, y2);
    }
  }

  /** Every run of the kernel with buffer pools on it is, for the pools, a run of BufPoolSpec. */
  lemma {:induction false} RunSim(w: World, acts: seq<Act>) returns (ms: seq<Move>)
    requires WInv(w) && Legal(w, acts)
    ensures WInv(Run(w, acts)) && Leads(Abs(w), ms, Abs(Run(w, acts)))
    decreases |acts|
  {
    if acts == [] {
      NoMove(Abs(w));
      ms := [];
    } else {
      var w1 := Do(w, acts[0]);
      var first := ActSim(w, acts[0], Abs(w));
      var rest := RunSim(w1, acts[1..]);
      LeadsOn(Abs(w), first, Abs(w1), rest, Abs(Run(w1, acts[1..])));
      ms := first + rest;
    }
  }

  // ---- from start-up ----

  /** The kernel as sysinit leaves it, after bufinit. */
  function Start(): (w: World)
    ensures Sound(w)
  {
    World(K.Boot(), [], map[], seq(NPROC, _ => Out))
  }

  lemma StartInv()
    ensures WInv(Start()) && Abs(Start()) == Init()
  {
    K.BootGood();
    AbsIs(Start(), Init());
  }

  /** In every reachable state of the kernel a pool's free buffers are those the count of its semaphore in
      the kernel's table tells, and those promised to processes let through; and no getbuf that is let
      through finds the list empty. */
  lemma PoolAccountsInKernel(acts: seq<Act>, i: int)
    requires Legal(Start(), acts) && 0 <= i < |Run(Start(), acts).pools|
    ensures var w := Run(Start(), acts);
      var e, sems := w.pools[i], w.sys.k.sems;
      && 0 <= e.sem < NSEM && sems[e.sem].used
      && |e.free| == Max0(sems[e.sem].count) + Granted(Abs(w).phases, i)
      && (w.calls[Caller(w)] == InGet(i) ==> e.free != [])
  {
    StartInv();
    var ms := RunSim(Start(), acts);
    var w := Run(Start(), acts);
    FreeListLength(ms, i);
    LinedUp(w, i);
    GrantedSet(Abs(w).phases, Caller(w), Idle, i);
  }
}
