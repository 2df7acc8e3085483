/** Runs of the kernel: any sequence of calls by whichever process is current, with clock ticks in
    between. A call is one step up to a switch; what a blocked call still has to do when its process
    runs again is a later step of that process. */
module KernelRuns {
  import opened Seqs
  import opened QueueTable
  import opened Semaphores
  import opened KernelSpec
  import opened KernelInvariants

  /** Where a process continues when it next has the processor. */
  datatype Pc = User | InReceive | InRecvTime | InTick

  datatype Sys = Sys(k: Kern, pc: seq<Pc>)

  datatype Call =
    | CWait(s: int) | CSignal(s: int) | CSignalN(s: int, n: int)
    | CSemReset(s: int, count: int) | CSemDelete(s: int) | CSemCreate(count: int)
    | CSleepMs(delay: int) | CYield
    | CReceive | CRecvTime(maxwait: int) | CRecvClr | CSend(p: int, msg: int)
    | CSuspend(p: int) | CResume(p: int) | CKill(p: int) | CCreate(prio: int, stack: bool)
    | CDeferStart | CDeferStop | CTick | CFinish

  /** The call would take the processor from its caller without leaving it ready. */
  predicate Parks(k: Kern, c: Call)
    requires Sized(k)
  {
    match c
    case CWait(s) => !IsBadSem(k, s) && Blocks(k.sems[s])
    case CSleepMs(d) => d > 0
    case CReceive => !k.procs[k.curr].hasmsg
    case CRecvTime(w) => w >= 0 && !k.procs[k.curr].hasmsg
    case CSuspend(p) => p == k.curr && p != NULLPROC
    case CKill(p) => p == k.curr && p != NULLPROC
    case _ => false
  }

  /** The null process never parks itself, nobody does while rescheduling is deferred, and a process
      that was switched away inside a call first completes that call. */
  ghost predicate Enabled(y: Sys, c: Call)
    requires Sized(y.k) && |y.pc| == NPROC
  {
    && (y.pc[y.k.curr] != User <==> c == CFinish)
    && (Parks(y.k, c) ==> CanPark(y.k))
  }

  function Apply(k: Kern, c: Call): (r: Kern)
    requires Sized(k)
    ensures Sized(r)
  {
    match c
    case CWait(s) => WaitSem(k, s)
    case CSignal(s) => Signal(k, s)
    case CSignalN(s, n) => SignalN(k, s, n)
    case CSemReset(s, n) => SemReset(k, s, n)
    case CSemDelete(s) => SemDelete(k, s)
    case CSemCreate(n) => SemCreate(k, n).0
    case CSleepMs(d) => SleepMs(k, d)
    case CYield => Resched(k)
    case CReceive => Receive(k)
    case CRecvTime(w) => RecvTime(k, w)
    case CRecvClr => Take(k)
    case CSend(p, m) => Send(k, p, m)
    case CSuspend(p) => Suspend(k, p)
    case CResume(p) => Resume(k, p)
    case CKill(p) => Kill(k, p)
    case CCreate(prio, stack) => Create(k, prio, stack).0
    case CDeferStart => DeferStart(k)
    case CDeferStop => DeferStop(k)
    case CTick => Tick(k)
    case CFinish => k
  }

  function Step(y: Sys, c: Call): (r: Sys)
    requires Sized(y.k) && |y.pc| == NPROC
    ensures Sized(r.k) && |r.pc| == NPROC
  {
    var k, cur := y.k, y.k.curr;
    match c
    case CReceive => Sys(Apply(k, c), if Parks(k, c) then y.pc[cur := InReceive] else y.pc)
    case CRecvTime(_) => Sys(Apply(k, c), if Parks(k, c) then y.pc[cur := InRecvTime] else y.pc)
    case CTick => Sys(Apply(k, c), if TickFront(k).curr == cur then y.pc else y.pc[cur := InTick])
    case CCreate(prio, stack) =>
      var r := Create(k, prio, stack);
      Sys(r.0, if 0 <= r.1 < NPROC then y.pc[r.1 := User] else y.pc)
    case CFinish =>
      Sys(match y.pc[cur]
          case User => k
          case InReceive => Take(k)
          case InRecvTime => if k.procs[cur].hasmsg then Take(k) else k
          case InTick => TickRest(k),
          y.pc[cur := User])
    case _ => Sys(Apply(k, c), y.pc)
  }

  /** A process that was blocked in receive and is no longer waiting has a message to return. */
  ghost predicate Delivered(y: Sys)
    requires Sized(y.k) && |y.pc| == NPROC
  {
    forall p: Pid :: y.pc[p] == InReceive && y.k.procs[p].state != Recv && y.k.procs[p].state != Free
      ==> y.k.procs[p].hasmsg
  }

  ghost predicate Good(y: Sys) { Inv(y.k) && |y.pc| == NPROC && Delivered(y) }


  // ---- every step keeps the invariant ----

  /** A call keeps the invariant if and only if it does not park its caller, or the caller may be parked:
      it is not the null process and no deferral is outstanding. */
  lemma ApplyInvIff(k: Kern, c: Call)
    requires Inv(k)
    ensures Inv(Apply(k, c)) <==> (Parks(k, c) ==> CanPark(k))
  {
    match c
    case CSleepMs(d) => SleepMsInv(k, d);
    case CYield => ReschedInv(k);
    case CReceive => ReceiveInv(k);
    case CRecvTime(w) => RecvTimeInv(k, w);
    case CRecvClr => TakeInv(k);
    case CSend(p, m) => SendInv(k, p, m);
    case CSuspend(p) => SuspendInv(k, p);
    case CResume(p) => ResumeInv(k, p);
    case CKill(p) => KillInv(k, p);
    case CCreate(prio, stack) => CreateInv(k, prio, stack);
    case CDeferStart => DeferStartInv(k);
    case CDeferStop => DeferStopInv(k);
    case CTick => TickInv(k);
    case CFinish =>
    case _ => ApplySemInv(k, c);
  }

  predicate OnSem(c: Call) {
    c.CWait? || c.CSignal? || c.CSignalN? || c.CSemReset? || c.CSemDelete? || c.CSemCreate?
  }

  lemma ApplySemInv(k: Kern, c: Call)
    requires Inv(k) && OnSem(c)
    ensures Inv(Apply(k, c)) <==> (Parks(k, c) ==> CanPark(k))
  {
    match c
    case CWait(s) => WaitSemInv(k, s);
    case CSignal(s) => SignalInv(k, s);
    case CSignalN(s, n) => SignalNInv(k, s, n);
    case CSemReset(s, n) => SemResetInv(k, s, n);
    case CSemDelete(s) => SemDeleteInv(k, s);
    case CSemCreate(n) => SemCreateInv(k, n);
  }

  /** What parking under deferral leaves: the caller is queued as its state says but still current, and a
      reschedule is owed. StalledStops says that ending the deferral repairs it. */
  lemma ParkStalls(k: Kern, c: Call)
    requires Inv(k) && Parks(k, c) && k.curr != NULLPROC && k.ndefers > 0
    ensures Stalled(Apply(k, c)) && Apply(k, c).curr == k.curr && Apply(k, c).ndefers == k.ndefers
  {
    match c
    case CWait(s) => WaitStalls(k, s);
    case CSleepMs(d) => AsleepPlaced(k, Sleep, d);
    case CRecvTime(w) => AsleepPlaced(k, Rectim, w);
    case CReceive => StateStalls(k, Recv);
    case CSuspend(p) => StateStalls(k, Susp);
    case CKill(p) => StateStalls(k, Free);
  }

  lemma StateStalls(k: Kern, st: PrState)
    requires Inv(k) && k.curr != NULLPROC && k.ndefers > 0
    requires st == Susp || st == Free || (st == Recv && !k.procs[k.curr].hasmsg)
    ensures Stalled(Resched(SetState(k, k.curr, st)))
  {
    SetStateFrame(k.procs, SetState(k, k.curr, st).procs, k.curr, NPROC, NPROC);
  }

  lemma WaitStalls(k: Kern, s: int)
    requires Inv(k) && Parks(k, CWait(s)) && k.curr != NULLPROC && k.ndefers > 0
    ensures Stalled(WaitSem(k, s)) && WaitSem(k, s).curr == k.curr && WaitSem(k, s).ndefers == k.ndefers
  {
    WaitPlaced(k, s);
    SemsOkSet(k.sems, s, Down(k.sems[s], k.curr));
  }

  /** From ps to ps' no process but x gained or lost a message, or entered or left receive. */
  ghost predicate MailKept(ps: Procs, ps': Procs, x: int) {
    forall p: Pid | p != x ::
      && ps'[p].hasmsg == ps[p].hasmsg && ps'[p].msg == ps[p].msg
      && (ps'[p].state == Recv <==> ps[p].state == Recv) && (ps'[p].state == Free <==> ps[p].state == Free)
  }

  /** Blocking the current process elsewhere than in receive, then rescheduling. */
  lemma BlockMail(k: Kern, k1: Kern)
    requires Placed(k1, NPROC) && Sized(k) && k.procs[k.curr].state == Curr
    requires forall p: Pid :: p != k.curr ==> k1.procs[p] == k.procs[p]
    requires k1.procs[k.curr].hasmsg == k.procs[k.curr].hasmsg && k1.procs[k.curr].msg == k.procs[k.curr].msg
    requires var st := k1.procs[k.curr].state; st != Recv && st != Free
    ensures MailKept(k.procs, Resched(k1).procs, NPROC)
  {
    ReschedReadied(k1);
    BlockedMail(k.procs, k1.procs, Resched(k1).procs, k.curr);
  }

  lemma BlockedMail(ps: Procs, ps1: Procs, ps2: Procs, c: Pid)
    requires Readied(ps1, ps2) && forall p: Pid :: p != c ==> ps1[p] == ps[p]
    requires ps1[c].hasmsg == ps[c].hasmsg && ps1[c].msg == ps[c].msg && ps[c].state == Curr && ps1[c].state != Recv && ps1[c].state != Free
    ensures MailKept(ps, ps2, NPROC)
  {}

  ghost predicate Mailless(c: Call) {
    !c.CReceive? && !c.CRecvTime? && !c.CRecvClr? && !c.CSend? && !c.CKill? && !c.CCreate?
  }

  lemma WaitMail(k: Kern, s: int)
    requires Inv(k) && (Parks(k, CWait(s)) ==> CanPark(k))
    ensures MailKept(k.procs, WaitSem(k, s).procs, NPROC)
  {
    if Parks(k, CWait(s)) {
      var c := k.curr;
      var ps := k.procs[c := k.procs[c].(state := Wait, sem := s)];
      var k1 := SetSem(k, s, Down(k.sems[s], c)).(procs := ps);
      WaitPlaced(k, s);
      BlockMail(k, k1);
    }
  }

  lemma SleepMail(k: Kern, delay: int)
    requires Inv(k) && (delay > 0 ==> CanPark(k))
    ensures MailKept(k.procs, SleepMs(k, delay).procs, NPROC)
  {
    if delay == 0 { ReschedInv(k); }
    if delay > 0 {
      AsleepPlaced(k, Sleep, delay);
      BlockMail(k, SetState(k, k.curr, Sleep).(sleep := InsertDelta(k.sleep, k.curr, delay)));
    }
  }

  lemma SuspendMail(k: Kern, p: int)
    requires Inv(k) && (p == k.curr && p != NULLPROC ==> k.ndefers == 0)
    ensures MailKept(k.procs, Suspend(k, p).procs, NPROC)
  {
    if !IsBadPid(k, p) && p != NULLPROC && k.procs[p].state == Curr {
      SetStateFrame(k.procs, SetState(k, p, Susp).procs, p, NPROC, NPROC);
      BlockMail(k, SetState(k, p, Susp));
    }
  }

  /** Readying p, which waited for nothing that readying gives, then rescheduling. */
  lemma ReadyMail(ps: Procs, ps1: Procs, ps2: Procs, p: Pid)
    requires ps[p].state != Free && ps1[p].state == Ready && Readied(ps1, ps2)
    requires forall q: Pid :: q != p ==> ps1[q] == ps[q]
    ensures MailKept(ps, ps2, p)
    ensures ps2[p].state != Free && ps2[p].hasmsg == ps1[p].hasmsg && ps2[p].msg == ps1[p].msg
    ensures ps[p].state != Recv && ps1[p].hasmsg == ps[p].hasmsg && ps1[p].msg == ps[p].msg ==> MailKept(ps, ps2, NPROC)
  {}

  lemma ResumeMail(k: Kern, p: int)
    requires Inv(k)
    ensures MailKept(k.procs, Resume(k, p).procs, NPROC)
  {
    if !IsBadPid(k, p) && k.procs[p].state == Susp {
      SuspLoose(k, p);
      EnlistPlaced(k, p);
      ReschedReadied(Enlist(k, p));
      ReadyMail(k.procs, Enlist(k, p).procs, Resched(Enlist(k, p)).procs, p);
    }
  }

  lemma SuspLoose(k: Kern, p: Pid)
    requires Placed(k, NPROC) && (k.procs[p].state == Susp || k.procs[p].state == Recv)
    ensures Placed(k, p)
  {
    SetStateFrame(k.procs, k.procs, p, NPROC, p);
  }

  /** The calls whose caller stays eligible only ever ready processes. */
  ghost predicate OnlyReadies(c: Call) {
    c.CSignal? || c.CSignalN? || c.CSemReset? || c.CSemDelete? || c.CSemCreate? || c.CYield?
    || c.CDeferStart? || c.CDeferStop? || c.CTick?
  }

  lemma ApplyReadied(k: Kern, c: Call)
    requires Inv(k) && OnlyReadies(c)
    ensures Readied(k.procs, Apply(k, c).procs)
  {
    match c
    case CSignal(s) => SignalInv(k, s);
    case CSignalN(s, n) => SignalNInv(k, s, n);
    case CSemReset(s, n) => SemResetInv(k, s, n);
    case CSemDelete(s) => SemDeleteInv(k, s);
    case CYield => ReschedReadied(k);
    case CDeferStop => DeferStopInv(k);
    case CTick => TickInv(k);
    case _ =>
  }

  lemma ReadiedKeepsMail(ps: Procs, ps': Procs)
    requires Readied(ps, ps')
    ensures MailKept(ps, ps', NPROC)
  {}

  /** The calls that are not about messages or process slots leave all mail alone. */
  lemma ApplyMail(k: Kern, c: Call)
    requires Inv(k) && (Parks(k, c) ==> CanPark(k)) && Mailless(c)
    ensures MailKept(k.procs, Apply(k, c).procs, NPROC)
  {
    if OnlyReadies(c) {
      ApplyReadied(k, c);
      ReadiedKeepsMail(k.procs, Apply(k, c).procs);
    } else {
      match c
      case CWait(s) => WaitMail(k, s);
      case CSleepMs(d) => SleepMail(k, d);
      case CSuspend(p) => SuspendMail(k, p);
      case CResume(p) => ResumeMail(k, p);
      case _ =>
    }
  }

  lemma DeliverMail(k: Kern, p: Pid, msg: int)
    requires Placed(k, p) && (k.procs[p].state == Recv || k.procs[p].state == Rectim)
    ensures var r := MakeReady(k.(procs := k.procs[p := k.procs[p].(msg := msg, hasmsg := true)]), p);
      MailKept(k.procs, r.procs, p) && r.procs[p].hasmsg && r.procs[p].state != Free
  {
    DeliverPlaced(k, p, msg);
    var k1 := k.(procs := k.procs[p := k.procs[p].(msg := msg, hasmsg := true)]);
    ReschedReadied(Enlist(k1, p));
    ReadyMail(k.procs, Enlist(k1, p).procs, Resched(Enlist(k1, p)).procs, p);
  }

  lemma SendMail(k: Kern, p: int, msg: int)
    requires Inv(k)
    ensures MailKept(k.procs, Send(k, p, msg).procs, if IsBadPid(k, p) then NPROC else p)
    ensures !IsBadPid(k, p) ==> Send(k, p, msg).procs[p].hasmsg && Send(k, p, msg).procs[p].state != Free
  {
    if !IsBadPid(k, p) && !k.procs[p].hasmsg {
      if k.procs[p].state == Recv {
        SuspLoose(k, p);
        DeliverMail(k, p, msg);
      } else if k.procs[p].state == Rectim {
        RemoveDeltaFacts(k.sleep, p);
        RemoveAsleep(k, p, RemoveDelta(k.sleep, p));
        DeliverMail(Unsleep(k, p), p, msg);
      }
    }
  }

  /** Whatever happens to the current process, readying and rescheduling leave the others' mail alone. */
  lemma StoppedMail(ps: Procs, ps1: Procs, ps2: Procs, c: Pid)
    requires Readied(ps1, ps2) && forall p: Pid :: p != c ==> ps1[p] == ps[p]
    ensures MailKept(ps, ps2, c) && (ps1[c].state == Recv || ps1[c].state == Free ==> ps2[c].state == ps1[c].state)
  {}

  lemma ReceiveBlocks(k: Kern)
    requires Inv(k) && !k.procs[k.curr].hasmsg && k.curr != NULLPROC && k.ndefers == 0
    ensures MailKept(k.procs, Receive(k).procs, k.curr) && Receive(k).procs[k.curr].state == Recv
  {
    var k1 := SetState(k, k.curr, Recv);
    SetStateFrame(k.procs, k1.procs, k.curr, NPROC, NPROC);
    ReschedReadied(k1);
    StoppedMail(k.procs, k1.procs, Resched(k1).procs, k.curr);
  }

  lemma RecvTimeBlocks(k: Kern, maxwait: int)
    requires Inv(k) && !k.procs[k.curr].hasmsg && k.curr != NULLPROC && k.ndefers == 0 && maxwait >= 0
    ensures MailKept(k.procs, RecvTime(k, maxwait).procs, k.curr)
  {
    var k1 := SetState(k, k.curr, Rectim).(sleep := InsertDelta(k.sleep, k.curr, maxwait));
    AsleepPlaced(k, Rectim, maxwait);
    ReschedReadied(k1);
    StoppedMail(k.procs, k1.procs, Resched(k1).procs, k.curr);
  }

  lemma ReceiveMail(k: Kern, c: Call)
    requires Inv(k) && (c.CReceive? || c.CRecvTime?) && (Parks(k, c) ==> CanPark(k))
    ensures MailKept(k.procs, Apply(k, c).procs, k.curr)
    ensures c.CReceive? && Parks(k, c) ==> Apply(k, c).procs[k.curr].state == Recv
  {
    if Parks(k, c) {
      if c.CReceive? { ReceiveBlocks(k); } else { RecvTimeBlocks(k, c.maxwait); }
    }
  }

  lemma KillMail(k: Kern, p: int)
    requires Inv(k) && (p == k.curr && p != NULLPROC ==> k.ndefers == 0)
    ensures MailKept(k.procs, Kill(k, p).procs, if IsBadPid(k, p) || p == NULLPROC then NPROC else p)
    ensures !IsBadPid(k, p) && p != NULLPROC ==> Kill(k, p).procs[p].state == Free
  {
    if !IsBadPid(k, p) && p != NULLPROC && k.procs[p].state == Curr {
      var k1 := SetState(k, p, Free);
      SetStateFrame(k.procs, k1.procs, p, NPROC, NPROC);
      ReschedReadied(k1);
      StoppedMail(k.procs, k1.procs, Resched(k1).procs, p);
    }
  }

  lemma ApplyDelivers(y: Sys, c: Call)
    requires Good(y) && Enabled(y, c) && c != CFinish
    ensures Delivered(Sys(Apply(y.k, c), Step(y, c).pc))
  {
    if Mailless(c) {
      ApplyMail(y.k, c);
    } else {
      match c
      case CSend(p, m) => SendMail(y.k, p, m);
      case CReceive => ReceiveMail(y.k, c);
      case CRecvTime(_) => ReceiveMail(y.k, c);
      case CKill(p) => KillMail(y.k, p);
      case _ =>
    }
  }

  /** Whatever the current process does next, the system stays in a good state: in particular a
      process that comes back from receive finds a message. */
  lemma StepGood(y: Sys, c: Call)
    requires Good(y) && Enabled(y, c)
    ensures Good(Step(y, c))
  {
    if c == CFinish {
      FinishGood(y);
    } else {
      ApplyInvIff(y.k, c);
      ApplyDelivers(y, c);
      assert Step(y, c).k == Apply(y.k, c);
    }
  }

  lemma FinishGood(y: Sys)
    requires Good(y) && y.pc[y.k.curr] != User
    ensures Good(Step(y, CFinish))
  {
    if y.pc[y.k.curr] == InTick { FinishTick(y); } else { FinishReceive(y); }
  }

  lemma FinishTick(y: Sys)
    requires Good(y) && y.pc[y.k.curr] == InTick
    ensures Good(Step(y, CFinish))
  {
    TickRestInv(y.k);
    ReadiedKeepsMail(y.k.procs, TickRest(y.k).procs);
    FinishDelivers(y, TickRest(y.k));
  }

  lemma FinishReceive(y: Sys)
    requires Good(y) && (y.pc[y.k.curr] == InReceive || y.pc[y.k.curr] == InRecvTime)
    ensures Good(Step(y, CFinish))
  {
    TakeInv(y.k);
    FinishDelivers(y, Take(y.k));
    FinishDelivers(y, y.k);
  }

  lemma FinishDelivers(y: Sys, k1: Kern)
    requires Sized(y.k) && Sized(k1) && |y.pc| == NPROC && Delivered(y) && MailKept(y.k.procs, k1.procs, y.k.curr)
    ensures Delivered(Sys(k1, y.pc[y.k.curr := User]))
  {}

  // ---- runs ----

  ghost predicate Legal(y: Sys, cs: seq<Call>)
    requires Sized(y.k) && |y.pc| == NPROC
    decreases |cs|
  {
    cs == [] || (Enabled(y, cs[0]) && Legal(Step(y, cs[0]), cs[1..]))
  }

  function Run(y: Sys, cs: seq<Call>): (r: Sys)
    requires Sized(y.k) && |y.pc| == NPROC
    ensures Sized(r.k) && |r.pc| == NPROC
    decreases |cs|
  {
    if cs == [] then y else Run(Step(y, cs[0]), cs[1..])
  }

  /** The kernel as sysinit leaves it: only the null process, which is current. */
  function Boot(): (y: Sys)
    ensures Sized(y.k) && |y.pc| == NPROC
  {
    var free := Proc(Free, 0, -1, 0, false);
    var procs := seq(NPROC, p => if p == 0 then free.(state := Curr) else free);
    var sems := seq(NSEM, _ => Sem(false, 0, []));
    Sys(Kern(procs, sems, [], [], NULLPROC, 0, false, QUANTUM, 0, 0, 0, 1), seq(NPROC, _ => User))
  }

  lemma BootGood()
    ensures Good(Boot())
  {
    var k := Boot().k;
    assert ReadyX(k.procs, k.ready, NPROC);
    assert SleepPids([]) == [];
    assert SleepX(k.procs, k.sleep, NPROC);
    forall s | 0 <= s < NSEM ensures QueueHolds(k.procs, k.sems[s].queue, NPROC, s) {}
  }

  lemma {:induction false} RunGood(y: Sys, cs: seq<Call>)
    requires Good(y) && Legal(y, cs)
    ensures Good(Run(y, cs))
    decreases |cs|
  {
    if cs != [] {
      StepGood(y, cs[0]);
      RunGood(Step(y, cs[0]), cs[1..]);
    }
  }

  /** receive's second half always finds the message its process was readied for. */
  lemma ReceiveReturnsAMessage(cs: seq<Call>)
    requires Legal(Boot(), cs) && Run(Boot(), cs).pc[Run(Boot(), cs).k.curr] == InReceive
    ensures var k := Run(Boot(), cs).k; k.procs[k.curr].hasmsg
  {
    BootGood();
    RunGood(Boot(), cs);
  }

  /** In every reachable state each process is on exactly the queue its state names, and on no other. */
  lemma EveryProcessInItsPlace(cs: seq<Call>, p: Pid)
    requires Legal(Boot(), cs)
    ensures var k := Run(Boot(), cs).k;
      && (p in k.ready <==> k.procs[p].state == Ready)
      && (p in SleepPids(k.sleep) <==> Asleep(k.procs[p].state))
      && (forall s :: 0 <= s < NSEM ==> (p in k.sems[s].queue <==> k.procs[p].state == Wait && k.procs[p].sem == s))
      && NoDup(k.ready) && NoDup(SleepPids(k.sleep)) && forall s :: 0 <= s < NSEM ==> NoDup(k.sems[s].queue)
  {
    BootGood();
    RunGood(Boot(), cs);
    var k := Run(Boot(), cs).k;
    forall s | 0 <= s < NSEM
      ensures NoDup(k.sems[s].queue) && (p in k.sems[s].queue <==> k.procs[p].state == Wait && k.procs[p].sem == s)
    {
      assert QueueHolds(k.procs, k.sems[s].queue, NPROC, s);
    }
  }

  /** In every reachable state exactly one process is current; with no deferral outstanding, or none
      that asked for a reschedule, no ready process has a higher priority. */
  lemma BestProcessRuns(cs: seq<Call>, p: Pid)
    requires Legal(Boot(), cs)
    ensures var k := Run(Boot(), cs).k;
      && (k.procs[p].state == Curr <==> p == k.curr)
      && (k.procs[p].state == Ready && (k.ndefers == 0 || !k.attempt) ==> k.procs[p].prio <= k.procs[k.curr].prio)
      && (forall s :: 0 <= s < NSEM && k.sems[s].used ==> |k.sems[s].queue| == Max0(-k.sems[s].count))
      && (forall s :: 0 <= s < NSEM && !k.sems[s].used ==> k.sems[s].queue == [])
  {
    BootGood();
    RunGood(Boot(), cs);
    var k := Run(Boot(), cs).k;
    assert forall s :: 0 <= s < NSEM ==> Balanced(k.sems[s]);
  }

  /** insert keeps everyone already queued in order, and puts p behind exactly those whose priority
      is at least its own: equal priorities are served first come, first served. */
  lemma ReadyIsFifo(ps: Procs, ready: seq<Pid>, p: Pid, i: int)
    requires ReadyX(ps, ready, p) && 0 <= i < |ready|
    ensures var at := ReadyPlace(ps, ready, ps[p].prio);
      var r := InsertAt(ready, at, p);
      && r[at] == p
      && (i < at <==> ps[ready[i]].prio >= ps[p].prio)
      && r[if i < at then i else i + 1] == ready[i]
  {
    var at := ReadyPlace(ps, ready, ps[p].prio);
    if at < i {
      assert ps[ready[at]].prio >= ps[ready[i]].prio;
    }
  }
}
