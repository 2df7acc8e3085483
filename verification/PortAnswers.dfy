/** What the port calls answer, when they wait, and what a reset and a deletion leave. */
module PortAnswers {
  import opened Seqs
  import opened QueueTable
  import opened Semaphores
  import opened PortSpec
  import opened PortInvariants
  import opened PortRuns

  /** The argument names no open port. */
  predicate NoSuchPort(y: Sys, i: int)
    requires Shaped(y)
  {
    i < 0 || i >= NPORTS || y.ports[i].state != PtAlloc
  }

  // ---- ptsend ----

  /** ptsend fails at once exactly without such a port, and then changes nothing. Otherwise it has room, and goes
      on, if and only if the messages queued and the slots promised leave some; else it waits behind all
      others, and nothing else changes. */
  lemma SendEnterAnswers(y: Sys, p: Pid, i: int, msg: int)
    requires Inv(y) && y.phases[p] == Idle
    ensures var y', r := SendEnter(y, p, i, msg).0, SendEnter(y, p, i, msg).1;
      if NoSuchPort(y, i) then y' == y && r == Failed
      else
        var v := y.ports[i];
        var room := |v.queue| + Count(y.phases, true, i, v.seqno) < v.maxcnt;
        && r == Blocked && y' == y.(ports := y.ports[i := v.(ssem := y'.ports[i].ssem)], phases := y'.phases)
        && y'.phases == y.phases[p := Sending(i, v.seqno, msg, room)]
        && y'.ports[i].ssem.queue == if room then v.ssem.queue else v.ssem.queue + [p]
  {
    if !NoSuchPort(y, i) { assert PortOk(y.phases, y.payload, i, y.ports[i]); }
  }

  /** The caller's port was cleared since it called: it is not open, or of a later generation. */
  predicate Overtaken(y: Sys, p: Pid)
    requires Shaped(y) && (y.phases[p].Sending? || y.phases[p].Receiving?)
  {
    var v := y.ports[y.phases[p].port];
    v.state != PtAlloc || v.seqno != y.phases[p].seqno
  }

  /** The messages queued on port i, in order. */
  function Contents(y: Sys, i: int): (r: seq<int>)
    requires Shaped(y) && 0 <= i < NPORTS
  {
    Loads(y.payload, y.ports[i].queue)
  }

  /** A sender let through fails exactly when its port was cleared meanwhile, and then leaves everything as it
      was; otherwise its message is the last one queued, or there is no node for it. */
  lemma SendFinishAnswers(y: Sys, p: Pid)
    requires Inv(y) && y.phases[p].Sending? && y.phases[p].granted
    ensures var i, y', r := y.phases[p].port, SendFinish(y, p).0, SendFinish(y, p).1;
      if Overtaken(y, p) then r == Failed && y' == y.(phases := y.phases[p := Idle])
      else if y.free == [] then r == Panicked
      else r == Sent && y'.phases[p] == Idle && Contents(y', i) == Contents(y, i) + [y.phases[p].msg]
  {
    var i := y.phases[p].port;
    if !Overtaken(y, p) && y.free != [] {
      assert PortOk(y.phases, y.payload, i, y.ports[i]);
      FreeNodeElsewhere(y, y.free[0]);
      LoadsMore(y.payload, SendFinish(y, p).0.payload, y.ports[i].queue, y.free[0], y.phases[p].msg);
    }
  }

  // ---- ptrecv ----

  /** ptrecv likewise; it goes on if and only if some message queued is not promised to another receiver. */
  lemma RecvEnterAnswers(y: Sys, p: Pid, i: int)
    requires Inv(y) && y.phases[p] == Idle
    ensures var y', r := RecvEnter(y, p, i).0, RecvEnter(y, p, i).1;
      if NoSuchPort(y, i) then y' == y && r == Failed
      else
        var v := y.ports[i];
        var some := |v.queue| > Count(y.phases, false, i, v.seqno);
        && r == Blocked && y' == y.(ports := y.ports[i := v.(rsem := y'.ports[i].rsem)], phases := y'.phases)
        && y'.phases == y.phases[p := Receiving(i, v.seqno, some)]
        && y'.ports[i].rsem.queue == if some then v.rsem.queue else v.rsem.queue + [p]
  {
    if !NoSuchPort(y, i) { assert PortOk(y.phases, y.payload, i, y.ports[i]); }
  }

  /** A receiver let through fails exactly when its port was cleared meanwhile; otherwise it is handed the first
      message queued, and the others stay. */
  lemma RecvFinishAnswers(y: Sys, p: Pid)
    requires Inv(y) && y.phases[p].Receiving? && y.phases[p].granted
    ensures var i, y', r := y.phases[p].port, RecvFinish(y, p).0, RecvFinish(y, p).1;
      if Overtaken(y, p) then r == Failed && y' == y.(phases := y.phases[p := Idle])
      else r.Got? && y'.phases[p] == Idle && Contents(y, i) == [r.msg] + Contents(y', i)
  {
    var i := y.phases[p].port;
    if !Overtaken(y, p) {
      MessageThere(y, p);
      FirstLoad(y.payload, y.ports[i].queue);
    }
  }

  lemma MessageThere(y: Sys, p: Pid)
    requires Inv(y) && y.phases[p].Receiving? && y.phases[p].granted && !Overtaken(y, p)
    ensures y.ports[y.phases[p].port].queue != []
  {
    RecvFinishPort(y.phases, y.payload, y.phases[p].port, y.ports[y.phases[p].port], p);
  }

  lemma FirstLoad(payload: seq<int>, queue: seq<int>)
    requires queue != []
    ensures Loads(payload, queue) == [Load(payload, queue[0])] + Loads(payload, queue[1..])
  {}

  /** Nothing is ever received but in the completion of ptrecv, and nothing reported sent but in that of
      ptsend. */
  lemma OnlyFinishesAnswer(y: Sys, m: Move)
    requires Shaped(y) && Enabled(y, m)
    ensures Do(y, m).1.Got? ==> m.MRecvFinish?
    ensures Do(y, m).1 == Sent ==> m.MSendFinish?
  {}

  // ---- ptreset and ptdelete ----

  /** ptreset and ptdelete fail exactly without such a port, and then change nothing. Otherwise the port is in
      limbo, of a new generation and empty, its nodes are free, and whoever waited to send goes on. */
  lemma ClearEnterAnswers(y: Sys, p: Pid, i: int, newstate: PortState)
    requires Inv(y) && y.phases[p] == Idle && (newstate == PtAlloc || newstate == PtFree)
    ensures var y', r := ClearEnter(y, p, i, newstate).0, ClearEnter(y, p, i, newstate).1;
      if NoSuchPort(y, i) then y' == y && r == Failed
      else
        && r == Paused && y'.phases[p] == Clearing(i, newstate, false)
        && y'.ports[i].state == PtLimbo && y'.ports[i].seqno > y.ports[i].seqno && y'.ports[i].queue == []
        && multiset(y'.free) == multiset(y.free) + multiset(y.ports[i].queue)
        && (forall j :: 0 <= j < NPORTS && j != i ==> y'.ports[j] == y.ports[j])
        && (forall q: Pid :: q != p ==> y'.phases[q] == if q in y.ports[i].ssem.queue then Granted(y.phases[q]) else y.phases[q])
  {
    if !NoSuchPort(y, i) {
      assert PortOk(y.phases, y.payload, i, y.ports[i]);
      assert p !in y.ports[i].ssem.queue;
      assert multiset(y.ports[i].queue + y.free) == multiset(y.ports[i].queue) + multiset(y.free);
    }
  }

  /** In the second half those who wait to receive go on, and nobody else does. */
  lemma ClearHalfAnswers(y: Sys, p: Pid)
    requires Inv(y) && y.phases[p].Clearing? && !y.phases[p].half
    ensures var i, y', r := y.phases[p].port, ClearHalf(y, p).0, ClearHalf(y, p).1;
      && r == Paused && y'.phases[p] == y.phases[p].(half := true) && y'.ports[i].state == PtLimbo
      && (forall q: Pid :: q != p ==> y'.phases[q] == if q in y.ports[i].rsem.queue then Granted(y.phases[q]) else y.phases[q])
  {
    var i := y.phases[p].port;
    assert PortOk(y.phases, y.payload, i, y.ports[i]);
    assert p !in y.ports[i].rsem.queue;
  }

  /** A port that was reset is open and empty again, with all its room; one that was deleted is free, and is the
      first that ptcreate opens next. */
  lemma ClearFinishAnswers(y: Sys, p: Pid)
    requires Inv(y) && y.phases[p].Clearing? && y.phases[p].half
    ensures var i, y', r := y.phases[p].port, ClearFinish(y, p).0, ClearFinish(y, p).1;
      && r == Cleared && y'.phases == y.phases[p := Idle] && y'.free == y.free && y'.payload == y.payload
      && (forall j :: 0 <= j < NPORTS && j != i ==> y'.ports[j] == y.ports[j])
      && if y.phases[p].newstate == PtAlloc then
           y'.ports[i] == Port(PtAlloc, y.ports[i].maxcnt, y.ports[i].seqno, Sem(true, y.ports[i].maxcnt, []), Sem(true, 0, []), [], [], [])
         else y'.ports[i].state == PtFree && forall count: nat :: Create(y', count).1 == Created(i)
  {
    var i, y' := y.phases[p].port, ClearFinish(y, p).0;
    assert PortOk(y.phases, y.payload, i, y.ports[i]);
    assert ClearsPort(y.phases[p], i) && ClearerOk(y.phases[p], y.ports[i]);
    if y.phases[p].newstate == PtFree { FirstFreePort(y'.ports, i, NPORTS, 0); }
  }

  // ---- ptcreate ----

  /** ptcreate takes the first free entry from where the last search ended, and the next search begins behind
      it. */
  lemma {:induction false} FirstFreePort(ports: seq<Port>, next: int, tries: nat, d: nat)
    requires |ports| == NPORTS && 0 <= next < NPORTS && d < tries <= NPORTS
    requires forall e :: 0 <= e < d ==> ports[Around(next, e, NPORTS)].state != PtFree
    requires ports[Around(next, d, NPORTS)].state == PtFree
    ensures FindPort(ports, next, tries) == (Around(next, d, NPORTS), Around(next, d + 1, NPORTS))
    decreases tries
  {
    assert Around(next, 0, NPORTS) == next;
    if d > 0 {
      var next1 := Around(next, 1, NPORTS);
      forall e | 0 <= e < d - 1 ensures ports[Around(next1, e, NPORTS)].state != PtFree {
        AroundNext(next, e, NPORTS);
      }
      AroundNext(next, d - 1, NPORTS);
      assert ports[Around(next, 0, NPORTS)].state != PtFree;
      FirstFreePort(ports, next1, tries - 1, d - 1);
    }
  }

  lemma CreateTakesNext(y: Sys, count: nat, d: nat)
    requires Shaped(y) && d < NPORTS && y.ports[Around(y.nextid, d, NPORTS)].state == PtFree
    requires forall e :: 0 <= e < d ==> y.ports[Around(y.nextid, e, NPORTS)].state != PtFree
    ensures var r := Create(y, count); r.1 == Created(Around(y.nextid, d, NPORTS)) && r.0.nextid == Around(y.nextid, d + 1, NPORTS)
  {
    FirstFreePort(y.ports, y.nextid, NPORTS, d);
  }

  // ---- ptinit ----

  /** ptinit makes as many nodes as it was asked for, all free and each once, and leaves every port free. */
  lemma InitMakes(maxmsgs: nat)
    ensures var y := Init(maxmsgs);
      && |y.payload| == |y.free| == maxmsgs && (forall n :: 0 <= n < maxmsgs <==> n in y.free) && NoDup(y.free) && y.nextid == 0
      && forall i :: 0 <= i < NPORTS ==> y.ports[i].state == PtFree
  {
    forall n | 0 <= n < maxmsgs ensures n in Init(maxmsgs).free { assert Init(maxmsgs).free[n] == n; }
  }
}
