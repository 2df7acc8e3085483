/** Messages over whole runs: what send accepted is what receive, recvtime and recvclr answer, in order and
    each message once. */
module KernelMail {
  import opened QueueTable
  import opened KernelSpec
  import opened KernelInvariants
  import opened KernelRuns
  import opened KernelEffects

  /** The message that waits for p, if any. */
  function Mail(k: Kern, p: Pid): (r: seq<int>)
    requires Sized(k)
  {
    if k.procs[p].hasmsg then [k.procs[p].msg] else []
  }

  /** The step answers its caller with a message, if one waits: receive, recvtime and recvclr that find one,
      and the completion of those that blocked. */
  predicate Collects(y: Sys, c: Call)
    requires Sized(y.k) && |y.pc| == NPROC
  {
    match c
    case CReceive => true
    case CRecvTime(w) => w >= 0
    case CRecvClr => true
    case CFinish => y.pc[y.k.curr] == InReceive || y.pc[y.k.curr] == InRecvTime
    case _ => false
  }

  /** A step that answers a message leaves none behind, and changes nothing else. */
  lemma CollectTakes(y: Sys, c: Call)
    requires Good(y) && Enabled(y, c) && Collects(y, c) && y.k.procs[y.k.curr].hasmsg
    ensures var k, k' := y.k, Step(y, c).k;
      && !k'.procs[k.curr].hasmsg && k' == k.(procs := k'.procs)
      && k'.procs == k.procs[k.curr := k.procs[k.curr].(hasmsg := false)]
  {}

  /** One that finds none does not answer one; receive then goes on waiting. */
  lemma CollectsNothing(y: Sys, c: Call)
    requires Good(y) && Enabled(y, c) && Collects(y, c) && !y.k.procs[y.k.curr].hasmsg
    ensures c == CFinish ==> y.pc[y.k.curr] == InRecvTime
    ensures c == CRecvClr || c == CFinish ==> Step(y, c).k == y.k
    ensures c == CReceive ==> Step(y, c).k.procs[y.k.curr].state == Recv && Step(y, c).pc[y.k.curr] == InReceive
    ensures c.CRecvTime? ==> Step(y, c).pc[y.k.curr] == InRecvTime
  {
    if c == CReceive { ReceiveBlocks(y.k); }
    if c == CRecvClr || c == CFinish {
      assert y.k.procs[y.k.curr := y.k.procs[y.k.curr].(hasmsg := false)] == y.k.procs;
    }
  }

  // ---- what comes and goes ----

  /** The message by which the step adds to the mailbox of p. */
  function Posted(y: Sys, c: Call, p: Pid): (r: seq<int>)
    requires Sized(y.k)
  {
    if c.CSend? && c.p == p && y.k.procs[p].state != Free && !y.k.procs[p].hasmsg then [c.msg] else []
  }

  /** The message the step answers to p. */
  function Taken(y: Sys, c: Call, p: Pid): (r: seq<int>)
    requires Sized(y.k) && |y.pc| == NPROC
  {
    if p == y.k.curr && Collects(y, c) then Mail(y.k, p) else []
  }

  /** The step gives the slot of a process that has ended to a new one, and a message is still there. */
  predicate DropsMail(y: Sys, c: Call, p: Pid)
    requires Sized(y.k) && |y.pc| == NPROC
  {
    y.k.procs[p].state == Free && Step(y, c).k.procs[p].state != Free && y.k.procs[p].hasmsg
  }

  /** The message that goes: answered to p, or lost with its slot. */
  function Gone(y: Sys, c: Call, p: Pid): (r: seq<int>)
    requires Sized(y.k) && |y.pc| == NPROC
  {
    if DropsMail(y, c, p) then Mail(y.k, p) else Taken(y, c, p)
  }

  /** Readying and rescheduling leave all mail alone, also that of the process that blocks or ends. */
  ghost predicate MailSame(ps: Procs, ps': Procs) {
    forall p: Pid :: ps'[p].hasmsg == ps[p].hasmsg && ps'[p].msg == ps[p].msg && (ps[p].state == Free ==> ps'[p].state == Free)
  }

  lemma StoppedSame(ps: Procs, ps1: Procs, ps2: Procs, c: Pid)
    requires Readied(ps1, ps2) && (forall p: Pid :: p != c ==> ps1[p] == ps[p]) && ps[c].state != Free
    requires ps1[c].hasmsg == ps[c].hasmsg && ps1[c].msg == ps[c].msg
    ensures MailSame(ps, ps2)
  {}

  lemma ParkedSame(k: Kern, c: Call)
    requires Inv(k) && (c.CReceive? || c.CRecvTime?) && Parks(k, c) && CanPark(k)
    ensures MailSame(k.procs, Apply(k, c).procs)
  {
    if c.CReceive? {
      var k1 := SetState(k, k.curr, Recv);
      SetStateFrame(k.procs, k1.procs, k.curr, NPROC, NPROC);
      ReschedReadied(k1);
      StoppedSame(k.procs, k1.procs, Resched(k1).procs, k.curr);
    } else {
      var k1 := SetState(k, k.curr, Rectim).(sleep := InsertDelta(k.sleep, k.curr, c.maxwait));
      AsleepPlaced(k, Rectim, c.maxwait);
      ReschedReadied(k1);
      StoppedSame(k.procs, k1.procs, Resched(k1).procs, k.curr);
    }
  }

  lemma KillSame(k: Kern, p: int)
    requires Inv(k) && (p == k.curr && p != NULLPROC ==> k.ndefers == 0)
    ensures MailSame(k.procs, Kill(k, p).procs)
  {
    if p == k.curr && p != NULLPROC {
      KillSelfSame(k);
    }
  }

  lemma KillSelfSame(k: Kern)
    requires Inv(k) && k.curr != NULLPROC
    ensures MailSame(k.procs, Resched(SetState(k, k.curr, Free)).procs)
  {
    var k1 := SetState(k, k.curr, Free);
    SetStateFrame(k.procs, k1.procs, k.curr, NPROC, NPROC);
    ReschedReadied(k1);
    StoppedSame(k.procs, k1.procs, Resched(k1).procs, k.curr);
  }

  lemma SendMails(y: Sys, c: Call, p: Pid)
    requires Good(y) && c.CSend?
    ensures Mail(y.k, p) + Posted(y, c, p) == Mail(Step(y, c).k, p)
    ensures y.k.procs[p].state == Free ==> Step(y, c).k.procs[p].state == Free
  {
    SendMail(y.k, c.p, c.msg);
    SendDelivers(y.k, c.p, c.msg);
    if IsBadPid(y.k, c.p) || c.p != p || y.k.procs[p].hasmsg {
      assert Mail(y.k, p) + [] == Mail(y.k, p);
    }
  }

  /** A step that answers a message. */
  lemma CollectMails(y: Sys, c: Call, p: Pid)
    requires Good(y) && Enabled(y, c) && Collects(y, c) && y.k.procs[y.k.curr].hasmsg
    ensures Mail(y.k, p) == Gone(y, c, p) + Mail(Step(y, c).k, p)
  {
    CollectTakes(y, c);
    assert [] + Mail(y.k, p) == Mail(y.k, p) == Mail(y.k, p) + [];
  }

  lemma CreateMails(y: Sys, c: Call, p: Pid)
    requires Good(y) && c.CCreate?
    ensures Mail(y.k, p) == Gone(y, c, p) + Mail(Step(y, c).k, p)
  {}

  /** Every other step: nothing is answered, and the mail is as it was. */
  lemma OtherMails(y: Sys, c: Call)
    requires Good(y) && Enabled(y, c) && !c.CSend? && !c.CCreate? && (Collects(y, c) ==> !y.k.procs[y.k.curr].hasmsg)
    ensures MailSame(y.k.procs, Step(y, c).k.procs)
  {
    if c == CFinish {
      FinishSame(y);
    } else {
      CallMails(y.k, c);
      assert Step(y, c).k == Apply(y.k, c);
    }
  }

  lemma ReadiedSame(ps: Procs, ps': Procs)
    requires Readied(ps, ps')
    ensures MailSame(ps, ps')
  {}

  lemma FinishSame(y: Sys)
    requires Good(y) && y.pc[y.k.curr] != User && (Collects(y, CFinish) ==> !y.k.procs[y.k.curr].hasmsg)
    ensures MailSame(y.k.procs, Step(y, CFinish).k.procs)
  {
    if y.pc[y.k.curr] == InTick {
      TickRestInv(y.k);
      ReadiedSame(y.k.procs, TickRest(y.k).procs);
    } else {
      CollectsNothing(y, CFinish);
    }
  }

  lemma CallMails(k: Kern, c: Call)
    requires Inv(k) && (Parks(k, c) ==> CanPark(k)) && !c.CSend? && !c.CCreate? && c != CFinish
    requires c.CReceive? || c.CRecvClr? || (c.CRecvTime? && c.maxwait >= 0) ==> !k.procs[k.curr].hasmsg
    ensures MailSame(k.procs, Apply(k, c).procs)
  {
    if c.CKill? {
      KillSame(k, c.p);
    } else if c.CReceive? || c.CRecvTime? {
      if Parks(k, c) { ParkedSame(k, c); }
    } else if !c.CRecvClr? {
      ApplyMail(k, c);
    }
  }

  lemma SameMails(y: Sys, c: Call, p: Pid)
    requires Sized(y.k) && |y.pc| == NPROC && !c.CSend? && (Collects(y, c) ==> !y.k.procs[y.k.curr].hasmsg)
    requires MailSame(y.k.procs, Step(y, c).k.procs)
    ensures Mail(y.k, p) == Mail(Step(y, c).k, p) && Posted(y, c, p) == Gone(y, c, p) == []
  {}

  /** One step: what was there and what came is what goes and what is there then. */
  lemma MailStep(y: Sys, c: Call, p: Pid)
    requires Good(y) && Enabled(y, c)
    ensures Mail(y.k, p) + Posted(y, c, p) == Gone(y, c, p) + Mail(Step(y, c).k, p)
  {
    if c.CSend? {
      SendMails(y, c, p);
    } else {
      assert Posted(y, c, p) == [] && Mail(y.k, p) + [] == Mail(y.k, p);
      if c.CCreate? {
        CreateMails(y, c, p);
      } else if Collects(y, c) && y.k.procs[y.k.curr].hasmsg {
        CollectMails(y, c, p);
      } else {
        OtherMails(y, c);
        SameMails(y, c, p);
      }
    }
  }

  // ---- over runs ----

  function AllPosted(y: Sys, cs: seq<Call>, p: Pid): (r: seq<int>)
    requires Sized(y.k) && |y.pc| == NPROC
    decreases |cs|
  {
    if cs == [] then [] else Posted(y, cs[0], p) + AllPosted(Step(y, cs[0]), cs[1..], p)
  }

  function AllTaken(y: Sys, cs: seq<Call>, p: Pid): (r: seq<int>)
    requires Sized(y.k) && |y.pc| == NPROC
    decreases |cs|
  {
    if cs == [] then [] else Taken(y, cs[0], p) + AllTaken(Step(y, cs[0]), cs[1..], p)
  }

  function AllGone(y: Sys, cs: seq<Call>, p: Pid): (r: seq<int>)
    requires Sized(y.k) && |y.pc| == NPROC
    decreases |cs|
  {
    if cs == [] then [] else Gone(y, cs[0], p) + AllGone(Step(y, cs[0]), cs[1..], p)
  }

  ghost predicate MailDropped(y: Sys, cs: seq<Call>, p: Pid)
    requires Sized(y.k) && |y.pc| == NPROC
    decreases |cs|
  {
    cs != [] && (DropsMail(y, cs[0], p) || MailDropped(Step(y, cs[0]), cs[1..], p))
  }

  lemma Chain(m: seq<int>, p: seq<int>, g: seq<int>, m1: seq<int>, ps: seq<int>, gs: seq<int>, m2: seq<int>)
    requires m + p == g + m1 && m1 + ps == gs + m2
    ensures m + (p + ps) == (g + gs) + m2
  {
    assert m + (p + ps) == (m + p) + ps;
    assert (g + m1) + ps == g + (m1 + ps);
  }

  /** Over any run the messages sent to p successfully, after the one that waited at first, are those that
      went and the one that waits in the end, in order and each once; and unless a new process takes over the
      slot with a message in it, those that went are those answered to p. */
  lemma {:induction false} EachMessageOnce(y: Sys, cs: seq<Call>, p: Pid)
    requires Good(y) && Legal(y, cs)
    ensures Mail(y.k, p) + AllPosted(y, cs, p) == AllGone(y, cs, p) + Mail(Run(y, cs).k, p)
    ensures !MailDropped(y, cs, p) ==> AllGone(y, cs, p) == AllTaken(y, cs, p)
    decreases |cs|
  {
    if cs == [] {
      assert Mail(y.k, p) + [] == [] + Mail(y.k, p);
    } else {
      var y1 := Step(y, cs[0]);
      StepGood(y, cs[0]);
      MailStep(y, cs[0], p);
      EachMessageOnce(y1, cs[1..], p);
      Chain(Mail(y.k, p), Posted(y, cs[0], p), Gone(y, cs[0], p), Mail(y1.k, p), AllPosted(y1, cs[1..], p),
        AllGone(y1, cs[1..], p), Mail(Run(y, cs).k, p));
    }
  }

  /** Between two messages answered to p a message was sent to it. */
  lemma SendBetweenReceipts(y: Sys, c: Call, cs: seq<Call>)
    requires Good(y) && Enabled(y, c) && Collects(y, c) && y.k.procs[y.k.curr].hasmsg
    requires Legal(Step(y, c), cs) && Run(Step(y, c), cs).k.procs[y.k.curr].hasmsg
    ensures AllPosted(Step(y, c), cs, y.k.curr) != []
  {
    StepGood(y, c);
    CollectTakes(y, c);
    EachMessageOnce(Step(y, c), cs, y.k.curr);
  }

  /** From start-up on, unless its slot was taken over with a message in it, what was answered to p are the
      first of the messages sent to it, in order. */
  lemma ReceivedAreSent(cs: seq<Call>, p: Pid)
    requires Legal(Boot(), cs) && !MailDropped(Boot(), cs, p)
    ensures AllPosted(Boot(), cs, p) == AllTaken(Boot(), cs, p) + Mail(Run(Boot(), cs).k, p)
  {
    BootGood();
    EachMessageOnce(Boot(), cs, p);
    assert [] + AllPosted(Boot(), cs, p) == AllPosted(Boot(), cs, p);
  }
}
