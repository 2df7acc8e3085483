/** Runs of port calls in any interleaving: safety of the bound, order of the messages, isolation of
    generations, and no loss of message nodes. */
module PortRuns {
  import opened Seqs
  import opened QueueTable
  import opened Semaphores
  import opened PortSpec
  import opened PortInvariants

  datatype Move =
    | MSendEnter(p: Pid, i: int, msg: int) | MSendFinish(p: Pid)
    | MRecvEnter(p: Pid, i: int) | MRecvFinish(p: Pid)
    | MClearEnter(p: Pid, i: int, newstate: PortState) | MClearHalf(p: Pid) | MClearFinish(p: Pid)
    | MCreate(p: Pid, count: int) | MKill(p: Pid)

  /** A call starts in a process that is in none; a blocked call goes on once its wait is over; nobody
      is killed who holds a promise, which KillAccountsIff says is exactly when the accounts would break;
      port sizes fit in 16 bits. */
  ghost predicate Enabled(y: Sys, m: Move)
    requires Shaped(y)
  {
    var f := y.phases[m.p];
    match m
    case MSendEnter(_, _, _) => f == Idle
    case MSendFinish(_) => f.Sending? && f.granted
    case MRecvEnter(_, _) => f == Idle
    case MRecvFinish(_) => f.Receiving? && f.granted
    case MClearEnter(_, _, newstate) => f == Idle && (newstate == PtAlloc || newstate == PtFree)
    case MClearHalf(_) => f.Clearing? && !f.half
    case MClearFinish(_) => f.Clearing? && f.half
    case MCreate(_, count) => f == Idle && count < 0x1_0000
    case MKill(p) => !Promised(y, p)
  }

  ghost function Do(y: Sys, m: Move): (r: (Sys, Outcome))
    requires Shaped(y) && Enabled(y, m)
    ensures Shaped(r.0)
  {
    match m
    case MSendEnter(p, i, msg) => SendEnter(y, p, i, msg)
    case MSendFinish(p) => SendFinish(y, p)
    case MRecvEnter(p, i) => RecvEnter(y, p, i)
    case MRecvFinish(p) => RecvFinish(y, p)
    case MClearEnter(p, i, newstate) => ClearEnter(y, p, i, newstate)
    case MClearHalf(p) => ClearHalf(y, p)
    case MClearFinish(p) => ClearFinish(y, p)
    case MCreate(p, count) => Create(y, count)
    case MKill(p) => (Kill(y, p), Paused)
  }

  lemma DoInv(y: Sys, m: Move)
    requires Inv(y) && Enabled(y, m)
    ensures Inv(Do(y, m).0)
  {
    match m
    case MSendEnter(p, i, msg) => SendEnterInv(y, p, i, msg);
    case MSendFinish(p) => SendFinishInv(y, p);
    case MRecvEnter(p, i) => RecvEnterInv(y, p, i);
    case MRecvFinish(p) => RecvFinishInv(y, p);
    case MClearEnter(p, i, newstate) => ClearEnterInv(y, p, i, newstate);
    case MClearHalf(p) => ClearHalfInv(y, p);
    case MClearFinish(p) => ClearFinishInv(y, p);
    case MCreate(p, count) => CreateInv(y, count);
    case MKill(p) => KillAccountsIff(y, p);
  }

  ghost predicate Legal(y: Sys, ms: seq<Move>)
    requires Shaped(y)
    decreases |ms|
  {
    ms == [] || (Enabled(y, ms[0]) && Legal(Do(y, ms[0]).0, ms[1..]))
  }

  ghost function Run(y: Sys, ms: seq<Move>): (r: Sys)
    requires Shaped(y) && Legal(y, ms)
    ensures Shaped(r)
    decreases |ms|
  {
    if ms == [] then y else Run(Do(y, ms[0]).0, ms[1..])
  }

  lemma {:induction false} RunInv(y: Sys, ms: seq<Move>)
    requires Inv(y) && Legal(y, ms)
    ensures Inv(Run(y, ms))
    decreases |ms|
  {
    if ms != [] {
      DoInv(y, ms[0]);
      RunInv(Do(y, ms[0]).0, ms[1..]);
    }
  }

  // ---- ptinit ----

  function Init(maxmsgs: nat): (y: Sys)
    ensures Shaped(y)
  {
    var closed := Sem(false, 0, []);
    Sys(seq(NPORTS, _ => Port(PtFree, 0, 0, closed, closed, [], [], [])),
        seq(maxmsgs, n => n), seq(maxmsgs, _ => 0), seq(NPROC, _ => Idle), 0)
  }

  lemma {:induction false} FirstNodes(n: nat)
    ensures multiset(seq(n, j => j)) == Universe(n)
  {
    if n > 0 {
      FirstNodes(n - 1);
      assert seq(n, j => j) == seq(n - 1, j => j) + [n - 1];
    }
  }

  lemma {:induction false} NothingQueued(ports: seq<Port>)
    requires forall i :: 0 <= i < |ports| ==> ports[i].queue == []
    ensures QueuedNodes(ports) == multiset{}
  {
    if ports != [] { NothingQueued(ports[1..]); }
  }

  lemma InitInv(maxmsgs: nat)
    ensures Inv(Init(maxmsgs))
  {
    var y := Init(maxmsgs);
    FirstNodes(maxmsgs);
    NothingQueued(y.ports);
    forall i | 0 <= i < NPORTS ensures PortOk(y.phases, y.payload, i, y.ports[i]) {
      assert Loads(y.payload, []) == [];
    }
  }

  // ---- what holds after every run ----

  /** While a port is allocated it never holds more messages than its limit, and slots and messages
      are accounted for exactly, processes between grant and return included. */
  lemma BoundHolds(maxmsgs: nat, ms: seq<Move>, i: int)
    requires Legal(Init(maxmsgs), ms) && 0 <= i < NPORTS
    ensures var y := Run(Init(maxmsgs), ms);
      y.ports[i].state == PtAlloc ==>
        && Accounted(y.phases, i, y.ports[i]) && |y.ports[i].queue| <= y.ports[i].maxcnt
        && (y.ports[i].ssem.queue != [] ==>
             Count(y.phases, true, i, y.ports[i].seqno) + |y.ports[i].queue| == y.ports[i].maxcnt)
  {
    InitInv(maxmsgs);
    RunInv(Init(maxmsgs), ms);
    var y := Run(Init(maxmsgs), ms);
    assert PortOk(y.phases, y.payload, i, y.ports[i]);
  }

  ghost predicate InSomeQueue(ports: seq<Port>, n: int) { exists q :: 0 <= q < |ports| && n in ports[q].queue }

  lemma NodeCounts(y: Sys, i: int, j: int, n: int)
    requires NodesOk(y) && 0 <= i < |y.ports| && 0 <= j < |y.ports| && i != j
    ensures multiset(y.free)[n] + multiset(y.ports[i].queue)[n] + multiset(y.ports[j].queue)[n] <= 1
    ensures multiset(y.free)[n] + QueuedNodes(y.ports)[n] == if 0 <= n < |y.payload| then 1 else 0
  {
    var ports := y.ports[i := y.ports[i].(queue := [])];
    QueuedNodesSet(y.ports, i, ports[i]);
    QueuedNodesSet(ports, j, ports[j]);
    UniverseHas(|y.payload|, n);
    assert (multiset(y.free) + QueuedNodes(y.ports))[n] == multiset(y.free)[n] + QueuedNodes(y.ports)[n];
  }

  /** The free list and all message lists share no node, repeat none, and hold all that ptinit made. */
  lemma NodesPartitioned(y: Sys, i: int, j: int)
    requires Inv(y) && 0 <= i < NPORTS && 0 <= j < NPORTS && i != j
    ensures NoDup(y.free) && NoDup(y.ports[i].queue)
    ensures forall n :: n in y.free ==> n !in y.ports[i].queue
    ensures forall n :: n in y.ports[i].queue ==> n !in y.ports[j].queue
    ensures forall n :: n in y.free || InSomeQueue(y.ports, n) <==> 0 <= n < |y.payload|
  {
    forall n ensures multiset(y.free)[n] <= 1 && multiset(y.ports[i].queue)[n] <= 1 {
      NodeCounts(y, i, j, n);
    }
    OnceEach(y.free);
    OnceEach(y.ports[i].queue);
    forall n | n in y.ports[i].queue ensures n !in y.free && n !in y.ports[j].queue {
      NodeCounts(y, i, j, n);
      assert multiset(y.ports[i].queue)[n] > 0;
    }
    forall n ensures n in y.free || InSomeQueue(y.ports, n) <==> 0 <= n < |y.payload| {
      NodeCounts(y, i, j, n);
      SomeQueue(y.ports, n);
      assert n in y.free <==> multiset(y.free)[n] > 0;
    }
  }

  lemma {:induction false} OnceEach(s: seq<int>)
    requires forall n :: n in s ==> multiset(s)[n] <= 1
    ensures NoDup(s)
  {
    if s != [] {
      assert s == [s[0]] + s[1..] && multiset(s) == multiset{s[0]} + multiset(s[1..]);
      assert s[0] in s;
      forall n | n in s[1..] ensures multiset(s[1..])[n] <= 1 {
        assert n in s && multiset(s)[n] <= 1;
      }
      OnceEach(s[1..]);
      assert multiset(s[1..])[s[0]] == 0;
    }
  }

  lemma {:induction false} SomeQueue(ports: seq<Port>, n: int)
    ensures QueuedNodes(ports)[n] > 0 <==> InSomeQueue(ports, n)
  {
    if ports != [] {
      SomeQueue(ports[1..], n);
      if n in ports[0].queue {
        assert multiset(ports[0].queue)[n] > 0;
      } else if q :| 0 <= q < |ports| && n in ports[q].queue {
        assert ports[1..][q - 1] == ports[q];
      }
    }
  }

  // ---- order of messages ----

  /** Port i keeps its generation: no call of the run clears it. */
  ghost predicate Uncleared(y: Sys, ms: seq<Move>, i: int)
    requires Shaped(y) && Legal(y, ms)
    decreases |ms|
  {
    ms == [] || (!ClearsNow(y, ms[0], i) && Uncleared(Do(y, ms[0]).0, ms[1..], i))
  }

  ghost predicate ClearsNow(y: Sys, m: Move, i: int)
    requires Shaped(y)
  {
    m.MClearEnter? && m.i == i && !IsBadPort(y, i)
  }

  /** The port a move is about, if any. */
  function Subject(y: Sys, m: Move): (i: int)
    requires Shaped(y)
  {
    match m
    case MSendEnter(_, i, _) => i
    case MRecvEnter(_, i) => i
    case MClearEnter(_, i, _) => i
    case MCreate(_, _) => SYSERR
    case _ => if y.phases[m.p] == Idle then SYSERR else y.phases[m.p].port
  }

  /** The message a process sends, by what it called or by what it recorded when it did. */
  function Message(y: Sys, m: Move): (msg: int)
    requires Shaped(y)
  {
    if m.MSendEnter? then m.msg else if y.phases[m.p].Sending? then y.phases[m.p].msg else 0
  }

  /** The messages whose sending to port i the run reports done, and those it hands out as received from it,
      whatever the moves. */
  ghost function LinkedBy(y: Sys, m: Move, i: int): (r: seq<int>)
    requires Shaped(y) && Enabled(y, m)
  {
    if Do(y, m).1 == Sent && Subject(y, m) == i then [Message(y, m)] else []
  }

  ghost function ReceivedBy(y: Sys, m: Move, i: int): (r: seq<int>)
    requires Shaped(y) && Enabled(y, m)
  {
    if Do(y, m).1.Got? && Subject(y, m) == i then [Do(y, m).1.msg] else []
  }

  ghost function AllLinked(y: Sys, ms: seq<Move>, i: int): (r: seq<int>)
    requires Shaped(y) && Legal(y, ms)
    decreases |ms|
  {
    if ms == [] then [] else LinkedBy(y, ms[0], i) + AllLinked(Do(y, ms[0]).0, ms[1..], i)
  }

  ghost function AllReceived(y: Sys, ms: seq<Move>, i: int): (r: seq<int>)
    requires Shaped(y) && Legal(y, ms)
    decreases |ms|
  {
    if ms == [] then [] else ReceivedBy(y, ms[0], i) + AllReceived(Do(y, ms[0]).0, ms[1..], i)
  }

  ghost predicate HistoryGrows(v: Port, v': Port, linked: seq<int>, received: seq<int>) {
    v'.state == PtAlloc && v'.sent == v.sent + linked && v'.got == v.got + received
  }

  /** One step, seen from an allocated port that it does not clear. */
  lemma HistoryStep(y: Sys, m: Move, i: int)
    requires Shaped(y) && Enabled(y, m) && 0 <= i < NPORTS && y.ports[i].state == PtAlloc && !ClearsNow(y, m, i)
    requires !ClearsPort(y.phases[m.p], i)
    ensures HistoryGrows(y.ports[i], Do(y, m).0.ports[i], LinkedBy(y, m, i), ReceivedBy(y, m, i))
  {}

  lemma NoClearer(y: Sys, i: int, p: Pid)
    requires Inv(y) && 0 <= i < NPORTS && y.ports[i].state == PtAlloc
    ensures !ClearsPort(y.phases[p], i)
  {
    assert PortOk(y.phases, y.payload, i, y.ports[i]);
  }

  lemma HistoryTrans(v: Port, v1: Port, v2: Port, l1: seq<int>, r1: seq<int>, l2: seq<int>, r2: seq<int>)
    requires HistoryGrows(v, v1, l1, r1) && HistoryGrows(v1, v2, l2, r2)
    ensures HistoryGrows(v, v2, l1 + l2, r1 + r2)
  {}

  lemma {:induction false} History(y: Sys, ms: seq<Move>, i: int)
    requires Inv(y) && Legal(y, ms) && 0 <= i < NPORTS && y.ports[i].state == PtAlloc && Uncleared(y, ms, i)
    ensures HistoryGrows(y.ports[i], Run(y, ms).ports[i], AllLinked(y, ms, i), AllReceived(y, ms, i))
    decreases |ms|
  {
    if ms != [] {
      var y1 := Do(y, ms[0]).0;
      NoClearer(y, i, ms[0].p);
      HistoryStep(y, ms[0], i);
      DoInv(y, ms[0]);
      History(y1, ms[1..], i);
      HistoryTrans(y.ports[i], y1.ports[i], Run(y1, ms[1..]).ports[i], LinkedBy(y, ms[0], i), ReceivedBy(y, ms[0], i),
        AllLinked(y1, ms[1..], i), AllReceived(y1, ms[1..], i));
    }
  }

  lemma HistoryIs(y: Sys, i: int)
    requires Inv(y) && 0 <= i < NPORTS
    ensures y.ports[i].sent == y.ports[i].got + Loads(y.payload, y.ports[i].queue)
  {
    assert PortOk(y.phases, y.payload, i, y.ports[i]);
  }

  /** A port is a first-in first-out queue: what receivers were handed since it was opened, then what
      is still queued, is exactly what was linked, in order, each message once. */
  lemma PortIsFifo(y: Sys, ms: seq<Move>, i: int)
    requires Inv(y) && Legal(y, ms) && 0 <= i < NPORTS && Uncleared(y, ms, i)
    requires y.ports[i].state == PtAlloc && y.ports[i].sent == []
    ensures var y' := Run(y, ms);
      && AllLinked(y, ms, i) == AllReceived(y, ms, i) + Loads(y'.payload, y'.ports[i].queue)
      && AllReceived(y, ms, i) <= AllLinked(y, ms, i)
  {
    HistoryIs(y, i);
    History(y, ms, i);
    RunInv(y, ms);
    HistoryIs(Run(y, ms), i);
    FromEmpty(y.ports[i], Run(y, ms).ports[i], AllLinked(y, ms, i), AllReceived(y, ms, i));
  }

  lemma FromEmpty(v: Port, v': Port, linked: seq<int>, received: seq<int>)
    requires HistoryGrows(v, v', linked, received) && v.sent == [] && v.got == []
    ensures v'.sent == linked && v'.got == received
  {}

  // ---- generations ----

  lemma SeqnoStep(y: Sys, m: Move, i: int)
    requires Inv(y) && Enabled(y, m) && 0 <= i < NPORTS
    ensures Do(y, m).0.ports[i].seqno >= y.ports[i].seqno + (if ClearsNow(y, m, i) then 1 else 0)
  {
    if !m.MClearEnter? && !m.MCreate? { SeqnoKept(y, m, i); }
  }

  lemma SeqnoKept(y: Sys, m: Move, i: int)
    requires Shaped(y) && Enabled(y, m) && 0 <= i < NPORTS && !m.MClearEnter? && !m.MCreate?
    ensures Do(y, m).0.ports[i].seqno == y.ports[i].seqno
  {}

  lemma {:induction false} SeqnoGrows(y: Sys, ms: seq<Move>, i: int)
    requires Inv(y) && Legal(y, ms) && 0 <= i < NPORTS
    ensures Run(y, ms).ports[i].seqno >= y.ports[i].seqno + (if Uncleared(y, ms, i) then 0 else 1)
    decreases |ms|
  {
    if ms != [] {
      DoInv(y, ms[0]);
      SeqnoStep(y, ms[0], i);
      SeqnoGrows(Do(y, ms[0]).0, ms[1..], i);
    }
  }

  /** A sender or receiver inside its call while the port is reset, or deleted and created again,
      comes out with an error and leaves the port, and every other, as it found it. */
  lemma StaleCallFails(y: Sys, ms: seq<Move>, p: Pid)
    requires Inv(y) && Legal(y, ms) && (y.phases[p].Sending? || y.phases[p].Receiving?)
    requires !Uncleared(y, ms, y.phases[p].port)
    requires SameCall(y.phases[p], Run(y, ms).phases[p])
    ensures var y' := Run(y, ms);
      var r := if y'.phases[p].Sending? then SendFinish(y', p) else RecvFinish(y', p);
      r == (SetPhase(y', p, Idle), Failed)
  {
    var i := y.phases[p].port;
    OldOrCurrent(y, p);
    SeqnoGrows(y, ms, i);
  }

  /** The same call of the same process, not yet over. */
  ghost predicate SameCall(f: Phase, f': Phase) {
    || (f.Sending? && f'.Sending? && f'.port == f.port && f'.seqno == f.seqno)
    || (f.Receiving? && f'.Receiving? && f'.port == f.port && f'.seqno == f.seqno)
  }

  lemma OldOrCurrent(y: Sys, p: Pid)
    requires Inv(y) && (y.phases[p].Sending? || y.phases[p].Receiving?)
    ensures y.phases[p].seqno <= y.ports[y.phases[p].port].seqno
  {
    var i := y.phases[p].port;
    assert PortOk(y.phases, y.payload, i, y.ports[i]);
  }

  // ---- enough nodes ----

  function TotalLimit(ports: seq<Port>): (n: int) {
    if ports == [] then 0
    else (if ports[0].state == PtAlloc then ports[0].maxcnt else 0) + TotalLimit(ports[1..])
  }

  /** When ptinit made as many nodes as the limits of the open ports add up to, ptsend never runs out
      of message nodes. */
  lemma NeverOutOfNodes(y: Sys, p: Pid)
    requires Inv(y) && y.phases[p].Sending? && y.phases[p].granted && TotalLimit(y.ports) <= |y.payload|
    ensures SendFinish(y, p).1 != Panicked
  {
    var i := y.phases[p].port;
    if !Stale(y.ports[i], y.phases[p].seqno) {
      assert PortOk(y.phases, y.payload, i, y.ports[i]);
      CountSet(y.phases, p, Idle, true, i, y.phases[p].seqno);
      forall j | 0 <= j < NPORTS ensures QueueFits(y.ports[j]) {
        assert PortOk(y.phases, y.payload, j, y.ports[j]);
      }
      QueuedBelowLimit(y.ports, i);
      UniverseSize(|y.payload|);
      assert |multiset(y.free) + QueuedNodes(y.ports)| == |y.free| + |QueuedNodes(y.ports)|;
    }
  }

  ghost predicate QueueFits(v: Port) { |v.queue| <= if v.state == PtAlloc then v.maxcnt else 0 }

  lemma {:induction false} UniverseSize(n: nat)
    ensures |Universe(n)| == n
  {
    if n > 0 { UniverseSize(n - 1); }
  }

  lemma {:induction false} QueuedBelowLimit(ports: seq<Port>, i: int)
    requires forall j :: 0 <= j < |ports| ==> QueueFits(ports[j])
    ensures |QueuedNodes(ports)| <= TotalLimit(ports)
    ensures 0 <= i < |ports| && ports[i].state == PtAlloc && |ports[i].queue| < ports[i].maxcnt
      ==> |QueuedNodes(ports)| < TotalLimit(ports)
  {
    if ports != [] {
      QueuedBelowLimit(ports[1..], i - 1);
      assert QueueFits(ports[0]);
      assert |QueuedNodes(ports)| == |ports[0].queue| + |QueuedNodes(ports[1..])|;
    }
  }

  /** Nobody is inside a port call. */
  ghost predicate Quiet(y: Sys)
    requires Shaped(y)
  {
    forall p: Pid :: y.phases[p] == Idle
  }

  /** An open port that has room. */
  predicate HasRoom(v: Port) { v.state == PtAlloc && |v.queue| < v.maxcnt }

  lemma {:induction false} RoomSomewhere(ports: seq<Port>) returns (i: int)
    requires |QueuedNodes(ports)| < TotalLimit(ports)
    ensures 0 <= i < |ports| && HasRoom(ports[i])
  {
    assert |QueuedNodes(ports)| == |ports[0].queue| + |QueuedNodes(ports[1..])|;
    if HasRoom(ports[0]) {
      i := 0;
    } else {
      i := RoomSomewhere(ports[1..]);
      i := i + 1;
    }
  }

  /** A port with room lets a sender in at once when nobody is inside a call, and no receiver waits. */
  lemma RoomMeansSlot(y: Sys, i: int)
    requires Inv(y) && Quiet(y) && 0 <= i < NPORTS && HasRoom(y.ports[i])
    ensures !Blocks(y.ports[i].ssem) && Released(y.ports[i].rsem) == []
  {
    var v := y.ports[i];
    assert PortOk(y.phases, y.payload, i, v);
    CountNone(y.phases, true, i, v.seqno);
    HasFirst(v.rsem.queue);
  }

  lemma HasFirst(q: seq<Pid>)
    ensures q == [] || exists p: Pid :: p in q
  {
    if q != [] { assert q[0] in q; }
  }

  lemma LimitKept(ports: seq<Port>, i: int, v: Port)
    requires 0 <= i < |ports| && v.state == ports[i].state && v.maxcnt == ports[i].maxcnt
    ensures TotalLimit(ports[i := v]) == TotalLimit(ports)
  {
    if i == 0 {
      assert ports[i := v][1..] == ports[1..];
    } else {
      assert ports[i := v][1..] == ports[1..][i - 1 := v];
      LimitKept(ports[1..], i - 1, v);
    }
  }

  lemma FreeSize(y: Sys)
    requires NodesOk(y)
    ensures |y.free| + |QueuedNodes(y.ports)| == |y.payload|
  {
    UniverseSize(|y.payload|);
    assert |multiset(y.free) + QueuedNodes(y.ports)| == |y.free| + |QueuedNodes(y.ports)|;
  }

  /** A sender that is let in at once: nothing else changes. */
  lemma EnterOne(y: Sys, p: Pid, i: int) returns (y1: Sys)
    requires Inv(y) && Quiet(y) && 0 <= i < NPORTS && HasRoom(y.ports[i])
    ensures Enabled(y, MSendEnter(p, i, 0)) && y1 == Do(y, MSendEnter(p, i, 0)).0 && Inv(y1)
    ensures y1.phases[p] == Sending(i, y.ports[i].seqno, 0, true) && forall q: Pid :: q != p ==> y1.phases[q] == Idle
    ensures y1.ports == y.ports[i := y1.ports[i]] && y1.ports[i] == y.ports[i].(ssem := y1.ports[i].ssem)
    ensures y1.free == y.free && y1.payload == y.payload
  {
    RoomMeansSlot(y, i);
    SendEnterInv(y, p, i, 0);
    y1 := SendEnter(y, p, i, 0).0;
  }

  /** And that links its message: one node fewer is free, and again nobody is inside a call. */
  lemma FinishOne(y: Sys, p: Pid, i: int) returns (y': Sys)
    requires Inv(y) && 0 <= i < NPORTS && y.ports[i].state == PtAlloc
    requires y.phases[p] == Sending(i, y.ports[i].seqno, 0, true) && forall q: Pid :: q != p ==> y.phases[q] == Idle
    requires Released(y.ports[i].rsem) == [] && y.free != []
    ensures y' == Do(y, MSendFinish(p)).0 && Inv(y') && Quiet(y')
    ensures |y'.free| == |y.free| - 1 && |y'.payload| == |y.payload| && TotalLimit(y'.ports) == TotalLimit(y.ports)
  {
    SendFinishInv(y, p);
    y' := SendFinish(y, p).0;
    LimitKept(y.ports, i, y'.ports[i]);
    assert y'.ports == y.ports[i := y'.ports[i]];
  }

  /** One message sent, without waiting, to a port with room. */
  lemma SendOne(y: Sys, p: Pid, i: int) returns (y1: Sys, y2: Sys)
    requires Inv(y) && Quiet(y) && 0 <= i < NPORTS && HasRoom(y.ports[i]) && y.free != []
    ensures Enabled(y, MSendEnter(p, i, 0)) && y1 == Do(y, MSendEnter(p, i, 0)).0
    ensures Enabled(y1, MSendFinish(p)) && y2 == Do(y1, MSendFinish(p)).0 && Inv(y2) && Quiet(y2)
    ensures |y2.free| == |y.free| - 1 && |y2.payload| == |y.payload| && TotalLimit(y2.ports) == TotalLimit(y.ports)
  {
    RoomMeansSlot(y, i);
    y1 := EnterOne(y, p, i);
    LimitKept(y.ports, i, y1.ports[i]);
    y2 := FinishOne(y1, p, i);
  }

  lemma RunCons(y: Sys, m: Move, y1: Sys, rest: seq<Move>, ms: seq<Move>)
    requires Shaped(y) && Enabled(y, m) && y1 == Do(y, m).0 && Legal(y1, rest) && ms == [m] + rest
    ensures Legal(y, ms) && Run(y, ms) == Run(y1, rest)
  {
    assert ms[1..] == rest;
  }

  /** The limit on NeverOutOfNodes is exact: when nobody is inside a call and the limits of the open ports
      add up to more than ptinit made, senders alone can bring ptsend to its panic. */
  lemma {:induction false} SomeRunPanics(y: Sys, p: Pid) returns (ms: seq<Move>)
    requires Inv(y) && Quiet(y) && TotalLimit(y.ports) > |y.payload|
    ensures Legal(y, ms)
    ensures var y' := Run(y, ms); y'.phases[p].Sending? && y'.phases[p].granted && SendFinish(y', p).1 == Panicked
    decreases |y.free|
  {
    FreeSize(y);
    var i := RoomSomewhere(y.ports);
    if y.free == [] {
      var y1 := EnterOne(y, p, i);
      ms := [MSendEnter(p, i, 0)];
      RunCons(y, MSendEnter(p, i, 0), y1, [], ms);
    } else {
      var y1, y2 := SendOne(y, p, i);
      var rest := SomeRunPanics(y2, p);
      var tail := [MSendFinish(p)] + rest;
      RunCons(y1, MSendFinish(p), y2, rest, tail);
      ms := [MSendEnter(p, i, 0)] + tail;
      RunCons(y, MSendEnter(p, i, 0), y1, tail, ms);
    }
  }

  // ---- ptcreate's search ----

  /** A port as it opens: empty, with room for count messages, and of a new generation. */
  ghost predicate OpenedFrom(v: Port, v': Port, count: nat) {
    && v'.state == PtAlloc && v'.seqno > v.seqno && v'.queue == v'.sent == v'.got == []
    && v'.ssem == Sem(true, count, []) && v'.rsem == Sem(true, 0, []) && (count < 0x1_0000 ==> v'.maxcnt == count)
  }

  /** ptcreate fails exactly for a negative size or with every port taken; otherwise the port it opens was
      free and is empty, with room for as many messages as asked for, and nothing else has changed. */
  lemma CreateOpensIff(y: Sys, count: int)
    requires Shaped(y)
    ensures var r := Create(y, count);
      && (r.1 == Failed <==> count < 0 || forall i :: 0 <= i < NPORTS ==> y.ports[i].state != PtFree)
      && (r.1 == Failed ==> r.0 == y.(nextid := r.0.nextid))
      && (r.1 != Failed ==>
           && r.1.Created? && 0 <= r.1.id < NPORTS && y.ports[r.1.id].state == PtFree
           && OpenedFrom(y.ports[r.1.id], r.0.ports[r.1.id], count)
           && r.0 == y.(nextid := r.0.nextid, ports := y.ports[r.1.id := r.0.ports[r.1.id]]))
  {
    FindPortIff(y.ports, y.nextid);
  }

  lemma FindPortIff(ports: seq<Port>, next: int)
    requires |ports| == NPORTS && 0 <= next < NPORTS
    ensures FindPort(ports, next, NPORTS).0 == SYSERR <==> forall i :: 0 <= i < NPORTS ==> ports[i].state != PtFree
  {
    if FindPort(ports, next, NPORTS).0 == SYSERR {
      forall i | 0 <= i < NPORTS ensures ports[i].state != PtFree {
        PortSearched(ports, next, NPORTS, if i >= next then i - next else i - next + NPORTS);
      }
    }
  }

  lemma {:induction false} PortSearched(ports: seq<Port>, next: int, tries: nat, d: nat)
    requires |ports| == NPORTS && 0 <= next < NPORTS && d < tries <= NPORTS && FindPort(ports, next, tries).0 == SYSERR
    ensures ports[if next + d < NPORTS then next + d else next + d - NPORTS].state != PtFree
    decreases tries
  {
    if d > 0 { PortSearched(ports, if next + 1 >= NPORTS then 0 else next + 1, tries - 1, d - 1); }
  }
}
