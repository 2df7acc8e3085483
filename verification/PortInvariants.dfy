/** What every interleaving of port calls keeps: each port accounts for every slot and every message,
    no message node is lost or shared, and messages come out in the order they went in. */
module PortInvariants {
  import opened Seqs
  import opened QueueTable
  import opened Semaphores
  import opened PortSpec

  type Phases = ps: seq<Phase> | |ps| == NPROC witness seq(NPROC, _ => Idle)

  predicate OnPort(f: Phase, i: int) { f != Idle && f.port == i }

  predicate InCall(f: Phase, i: int) { (f.Sending? || f.Receiving?) && f.port == i }

  /** A sender (or receiver) of generation s of port i whose wait is over but which has not run on. */
  predicate Holds(f: Phase, sender: bool, i: int, s: int) {
    if sender then f.Sending? && f.port == i && f.seqno == s && f.granted
    else f.Receiving? && f.port == i && f.seqno == s && f.granted
  }

  function Count(phases: seq<Phase>, sender: bool, i: int, s: int): (n: nat) {
    if phases == [] then 0
    else (if Holds(phases[0], sender, i, s) then 1 else 0) + Count(phases[1..], sender, i, s)
  }

  lemma {:induction false} CountSet(phases: seq<Phase>, p: int, f: Phase, sender: bool, i: int, s: int)
    requires 0 <= p < |phases|
    ensures Count(phases[p := f], sender, i, s) ==
      Count(phases, sender, i, s) - (if Holds(phases[p], sender, i, s) then 1 else 0)
        + (if Holds(f, sender, i, s) then 1 else 0)
    ensures Holds(phases[p], sender, i, s) ==> Count(phases, sender, i, s) >= 1
  {
    if p == 0 {
      assert phases[p := f][1..] == phases[1..];
    } else {
      assert phases[p := f][1..] == phases[1..][p - 1 := f];
      CountSet(phases[1..], p - 1, f, sender, i, s);
    }
  }

  lemma {:induction false} CountSame(a: seq<Phase>, b: seq<Phase>, sender: bool, i: int, s: int)
    requires |a| == |b| && forall p :: 0 <= p < |a| ==> Holds(a[p], sender, i, s) == Holds(b[p], sender, i, s)
    ensures Count(a, sender, i, s) == Count(b, sender, i, s)
  {
    if a != [] {
      assert Holds(a[0], sender, i, s) == Holds(b[0], sender, i, s);
      CountSame(a[1..], b[1..], sender, i, s);
    }
  }

  lemma {:induction false} CountNone(a: seq<Phase>, sender: bool, i: int, s: int)
    requires forall p :: 0 <= p < |a| ==> !Holds(a[p], sender, i, s)
    ensures Count(a, sender, i, s) == 0
  {
    if a != [] { CountNone(a[1..], sender, i, s); }
  }

  // ---- one port ----

  /** The queues of the two semaphores hold exactly the processes waiting inside a call on port i. */
  ghost predicate Waiters(phases: Phases, i: int, ssem: Sem, rsem: Sem) {
    && NoDup(ssem.queue) && NoDup(rsem.queue)
    && (forall p: Pid :: p in ssem.queue <==> phases[p].Sending? && phases[p].port == i && !phases[p].granted)
    && (forall p: Pid :: p in rsem.queue <==> phases[p].Receiving? && phases[p].port == i && !phases[p].granted)
  }

  /** Free slots, granted senders and queued messages make up the limit; queued messages are those
      the receiver semaphore counts and those already promised to granted receivers. */
  ghost predicate Accounted(phases: Phases, i: int, v: Port) {
    && Max0(v.ssem.count) + Count(phases, true, i, v.seqno) + |v.queue| == v.maxcnt
    && |v.queue| == Max0(v.rsem.count) + Count(phases, false, i, v.seqno)
  }

  ghost predicate AllocOk(phases: Phases, i: int, v: Port) {
    && v.ssem.used && v.rsem.used && Balanced(v.ssem) && Balanced(v.rsem) && Accounted(phases, i, v)
    && (forall p: Pid :: InCall(phases[p], i) ==>
         phases[p].seqno <= v.seqno && (!phases[p].granted ==> phases[p].seqno == v.seqno))
    && (forall p: Pid :: OnPort(phases[p], i) ==> !phases[p].Clearing?)
  }

  /** While a port is in limbo one process clears it; whoever is inside another call on it, and
      whoever comes out of one after it was freed, recorded an older sequence number. */
  ghost predicate ClosedOk(phases: Phases, i: int, v: Port) {
    && v.queue == [] && v.ssem.queue == [] && v.sent == [] && v.got == []
    && (forall p: Pid :: InCall(phases[p], i) ==> phases[p].seqno < v.seqno)
    && (v.state == PtFree ==> v.rsem.queue == [] && forall p: Pid :: OnPort(phases[p], i) ==> !phases[p].Clearing?)
    && (v.state == PtLimbo ==> LimboOk(phases, i, v))
  }

  ghost predicate LimboOk(phases: Phases, i: int, v: Port) {
    && (forall p: Pid, q: Pid :: ClearsPort(phases[p], i) && ClearsPort(phases[q], i) ==> p == q)
    && (forall p: Pid :: ClearsPort(phases[p], i) ==> ClearerOk(phases[p], v))
  }

  predicate ClearsPort(f: Phase, i: int) { f.Clearing? && f.port == i }

  ghost predicate ClearerOk(f: Phase, v: Port)
    requires f.Clearing?
  {
    && (f.newstate == PtAlloc || f.newstate == PtFree)
    && (f.newstate == PtAlloc ==> v.ssem == Sem(true, v.maxcnt, []))
    && (!f.half ==> v.rsem.used && Balanced(v.rsem))
    && (f.half ==> v.rsem.queue == [] && (f.newstate == PtAlloc ==> v.rsem == Sem(true, 0, [])))
  }

  function Loads(payload: seq<int>, queue: seq<int>): (r: seq<int>)
    ensures |r| == |queue|
  {
    seq(|queue|, j requires 0 <= j < |queue| => Load(payload, queue[j]))
  }

  ghost predicate PortOk(phases: Phases, payload: seq<int>, i: int, v: Port) {
    && Waiters(phases, i, v.ssem, v.rsem)
    && v.sent == v.got + Loads(payload, v.queue)
    && if v.state == PtAlloc then AllocOk(phases, i, v) else ClosedOk(phases, i, v)
  }

  // ---- the message nodes ----

  function QueuedNodes(ports: seq<Port>): (m: multiset<int>) {
    if ports == [] then multiset{} else multiset(ports[0].queue) + QueuedNodes(ports[1..])
  }

  lemma {:induction false} QueuedNodesSet(ports: seq<Port>, i: int, v: Port)
    requires 0 <= i < |ports|
    ensures multiset(ports[i].queue) <= QueuedNodes(ports)
    ensures QueuedNodes(ports[i := v]) == QueuedNodes(ports) - multiset(ports[i].queue) + multiset(v.queue)
  {
    if i == 0 {
      assert ports[i := v][1..] == ports[1..];
    } else {
      assert ports[i := v][1..] == ports[1..][i - 1 := v];
      QueuedNodesSet(ports[1..], i - 1, v);
    }
  }

  /** The nodes ptinit allocates, each once. */
  function Universe(n: nat): (m: multiset<int>) {
    if n == 0 then multiset{} else Universe(n - 1) + multiset{n - 1}
  }

  /** The free list and the message lists are made of exactly the nodes ptinit allocated. */
  ghost predicate NodesOk(y: Sys) {
    multiset(y.free) + QueuedNodes(y.ports) == Universe(|y.payload|)
  }

  ghost predicate Inv(y: Sys) {
    && Shaped(y) && NodesOk(y)
    && forall i :: 0 <= i < NPORTS ==> PortOk(y.phases, y.payload, i, y.ports[i])
  }

  // ---- frames ----

  /** Phases that concern other ports, and payloads of nodes not queued here, do not matter to port i. */
  lemma PortFrame(phases: Phases, phases': Phases, payload: seq<int>, payload': seq<int>, i: int, v: Port)
    requires PortOk(phases, payload, i, v)
    requires forall p: Pid :: phases'[p] == phases[p] || (!OnPort(phases[p], i) && !OnPort(phases'[p], i))
    requires forall n :: n in v.queue ==> Load(payload', n) == Load(payload, n)
    ensures PortOk(phases', payload', i, v)
  {
    CountSame(phases, phases', true, i, v.seqno);
    CountSame(phases, phases', false, i, v.seqno);
    assert Loads(payload', v.queue) == Loads(payload, v.queue);
  }

  lemma {:induction false} UniverseHas(n: nat, x: int)
    ensures Universe(n)[x] == if 0 <= x < n then 1 else 0
  {
    if n > 0 { UniverseHas(n - 1, x); }
  }

  /** A free node is in no message list, and once in the free list. */
  lemma FreeNodeElsewhere(y: Sys, n: int)
    requires NodesOk(y) && n in y.free
    ensures 0 <= n < |y.payload| && multiset(y.free)[n] == 1
    ensures forall i :: 0 <= i < |y.ports| ==> n !in y.ports[i].queue
  {
    UniverseHas(|y.payload|, n);
    assert multiset(y.free)[n] >= 1;
    forall i | 0 <= i < |y.ports| ensures n !in y.ports[i].queue {
      QueuedNodesSet(y.ports, i, y.ports[i]);
      assert multiset(y.ports[i].queue)[n] == 0;
    }
  }

  // ---- signalling one of the semaphores of a port ----

  lemma GrantOne(phases: Phases, s: Sem)
    ensures Grant(phases, Released(s)) ==
      if Released(s) == [] then phases else phases[Released(s)[0] := Granted(phases[Released(s)[0]])]
  {
    var r := if Released(s) == [] then phases else phases[Released(s)[0] := Granted(phases[Released(s)[0]])];
    forall p | 0 <= p < NPROC ensures Grant(phases, Released(s))[p] == r[p] {
      var q: Pid := p;
      assert Grant(phases, Released(s))[q] == if q in Released(s) then Granted(phases[q]) else phases[q];
    }
  }

  /** signal(ptrsem): one more message is counted or promised. */
  lemma SignalReceivers(phases: Phases, i: int, v: Port)
    requires Waiters(phases, i, v.ssem, v.rsem) && Balanced(v.rsem) && v.rsem.used
    requires forall p: Pid :: p in v.rsem.queue ==> phases[p].seqno == v.seqno
    ensures var phases' := Grant(phases, Released(v.rsem));
      && Waiters(phases', i, v.ssem, Up(v.rsem))
      && Max0(Up(v.rsem).count) + Count(phases', false, i, v.seqno)
           == Max0(v.rsem.count) + Count(phases, false, i, v.seqno) + 1
      && Count(phases', true, i, v.seqno) == Count(phases, true, i, v.seqno)
  {
    GrantOne(phases, v.rsem);
    if Released(v.rsem) != [] {
      var r := v.rsem.queue[0];
      assert r in v.rsem.queue && forall p: Pid :: p in v.rsem.queue <==> p == r || p in Up(v.rsem).queue;
      CountSet(phases, r, Granted(phases[r]), false, i, v.seqno);
      CountSet(phases, r, Granted(phases[r]), true, i, v.seqno);
    }
  }

  /** signal(ptssem): one more slot is counted or promised. */
  lemma SignalSenders(phases: Phases, i: int, v: Port)
    requires Waiters(phases, i, v.ssem, v.rsem) && Balanced(v.ssem) && v.ssem.used
    requires forall p: Pid :: p in v.ssem.queue ==> phases[p].seqno == v.seqno
    ensures var phases' := Grant(phases, Released(v.ssem));
      && Waiters(phases', i, Up(v.ssem), v.rsem)
      && Max0(Up(v.ssem).count) + Count(phases', true, i, v.seqno)
           == Max0(v.ssem.count) + Count(phases, true, i, v.seqno) + 1
      && Count(phases', false, i, v.seqno) == Count(phases, false, i, v.seqno)
  {
    GrantOne(phases, v.ssem);
    if Released(v.ssem) != [] {
      var r := v.ssem.queue[0];
      assert r in v.ssem.queue && forall p: Pid :: p in v.ssem.queue <==> p == r || p in Up(v.ssem).queue;
      CountSet(phases, r, Granted(phases[r]), false, i, v.seqno);
      CountSet(phases, r, Granted(phases[r]), true, i, v.seqno);
    }
  }

  // ---- the steps ----

  ghost predicate OthersOk(y: Sys, i: int)
    requires Shaped(y)
  {
    forall j :: 0 <= j < NPORTS && j != i ==> PortOk(y.phases, y.payload, j, y.ports[j])
  }

  /** Only processes idle or on port i changed their phase, to idle or on port i. */
  ghost predicate Touches(phases: Phases, phases': Phases, i: int) {
    forall p: Pid :: phases'[p] != phases[p] ==> !OffPort(phases[p], i) && !OffPort(phases'[p], i)
  }

  predicate OffPort(f: Phase, i: int) { f != Idle && f.port != i }

  lemma GrantTouches(phases: Phases, i: int, v: Port, p: Pid, f: Phase, ps: seq<Pid>)
    requires Waiters(phases, i, v.ssem, v.rsem) && !OffPort(phases[p], i) && !OffPort(f, i)
    requires forall q: Pid :: q in ps ==> q in v.ssem.queue || q in v.rsem.queue
    ensures Touches(phases, Grant(phases[p := f], ps), i)
  {}

  /** A step that touches only port i, phases of processes on i, and the payload of a free node. */
  lemma OthersFrame(y: Sys, y': Sys, i: int, n: int)
    requires Inv(y) && Shaped(y') && Touches(y.phases, y'.phases, i)
    requires forall j :: 0 <= j < NPORTS && j != i ==> y'.ports[j] == y.ports[j]
    requires y'.payload == y.payload || (n in y.free && forall m :: m != n ==> Load(y'.payload, m) == Load(y.payload, m))
    ensures OthersOk(y', i)
  {
    if n in y.free { FreeNodeElsewhere(y, n); }
    forall j | 0 <= j < NPORTS && j != i ensures PortOk(y'.phases, y'.payload, j, y'.ports[j]) {
      assert PortOk(y.phases, y.payload, j, y.ports[j]);
      PortFrame(y.phases, y'.phases, y.payload, y'.payload, j, y.ports[j]);
    }
  }

  lemma Assemble(y: Sys, i: int)
    requires Shaped(y) && NodesOk(y) && 0 <= i < NPORTS && OthersOk(y, i) && PortOk(y.phases, y.payload, i, y.ports[i])
    ensures Inv(y)
  {}

  lemma SendEnterPort(phases: Phases, payload: seq<int>, i: int, v: Port, p: Pid, msg: int)
    requires PortOk(phases, payload, i, v) && v.state == PtAlloc && phases[p] == Idle
    ensures PortOk(phases[p := Sending(i, v.seqno, msg, !Blocks(v.ssem))], payload, i, v.(ssem := Down(v.ssem, p)))
  {
    var f := Sending(i, v.seqno, msg, !Blocks(v.ssem));
    CountSet(phases, p, f, true, i, v.seqno);
    CountSet(phases, p, f, false, i, v.seqno);
  }

  lemma SendEnterInv(y: Sys, p: Pid, i: int, msg: int)
    requires Inv(y) && y.phases[p] == Idle
    ensures Inv(SendEnter(y, p, i, msg).0)
  {
    if !IsBadPort(y, i) {
      var y' := SendEnter(y, p, i, msg).0;
      SendEnterPort(y.phases, y.payload, i, y.ports[i], p, msg);
      OthersFrame(y, y', i, -1);
      QueuedNodesSet(y.ports, i, y'.ports[i]);
      Assemble(y', i);
    }
  }

  lemma RecvEnterPort(phases: Phases, payload: seq<int>, i: int, v: Port, p: Pid)
    requires PortOk(phases, payload, i, v) && v.state == PtAlloc && phases[p] == Idle
    ensures PortOk(phases[p := Receiving(i, v.seqno, !Blocks(v.rsem))], payload, i, v.(rsem := Down(v.rsem, p)))
  {
    var f := Receiving(i, v.seqno, !Blocks(v.rsem));
    CountSet(phases, p, f, true, i, v.seqno);
    CountSet(phases, p, f, false, i, v.seqno);
  }

  lemma RecvEnterInv(y: Sys, p: Pid, i: int)
    requires Inv(y) && y.phases[p] == Idle
    ensures Inv(RecvEnter(y, p, i).0)
  {
    if !IsBadPort(y, i) {
      var y' := RecvEnter(y, p, i).0;
      RecvEnterPort(y.phases, y.payload, i, y.ports[i], p);
      OthersFrame(y, y', i, -1);
      QueuedNodesSet(y.ports, i, y'.ports[i]);
      Assemble(y', i);
    }
  }

  /** A process leaves a call on port i that it had been granted: its promise is used up or void. */
  lemma LeavePort(phases: Phases, i: int, v: Port, p: Pid)
    requires Waiters(phases, i, v.ssem, v.rsem) && InCall(phases[p], i) && phases[p].granted
    ensures var phases' := phases[p := Idle];
      && Waiters(phases', i, v.ssem, v.rsem)
      && forall snd: bool :: Count(phases', snd, i, v.seqno) ==
           Count(phases, snd, i, v.seqno) - (if Holds(phases[p], snd, i, v.seqno) then 1 else 0)
  {
    CountSet(phases, p, Idle, true, i, v.seqno);
    CountSet(phases, p, Idle, false, i, v.seqno);
  }

  lemma GiveUpPort(phases: Phases, payload: seq<int>, i: int, v: Port, p: Pid)
    requires PortOk(phases, payload, i, v) && InCall(phases[p], i) && phases[p].granted && Stale(v, phases[p].seqno)
    ensures PortOk(phases[p := Idle], payload, i, v)
  {
    LeavePort(phases, i, v, p);
  }

  /** A stale sender or receiver gives up without a trace. */
  lemma GiveUpInv(y: Sys, p: Pid)
    requires Inv(y) && (y.phases[p].Sending? || y.phases[p].Receiving?) && y.phases[p].granted
    requires Stale(y.ports[y.phases[p].port], y.phases[p].seqno)
    ensures Inv(SetPhase(y, p, Idle))
  {
    var i := y.phases[p].port;
    var y' := SetPhase(y, p, Idle);
    GiveUpPort(y.phases, y.payload, i, y.ports[i], p);
    OthersFrame(y, y', i, -1);
    Assemble(y', i);
  }

  lemma SendFinishPort(phases: Phases, payload: seq<int>, payload': seq<int>, i: int, v: Port, p: Pid, n: int)
    requires PortOk(phases, payload, i, v) && phases[p].Sending? && phases[p].port == i && phases[p].granted
    requires !Stale(v, phases[p].seqno) && n !in v.queue && 0 <= n < |payload|
    requires payload' == payload[n := phases[p].msg]
    ensures PortOk(Grant(phases[p := Idle], Released(v.rsem)), payload', i,
      v.(queue := v.queue + [n], sent := v.sent + [phases[p].msg], rsem := Up(v.rsem)))
  {
    LeavePort(phases, i, v, p);
    SignalReceivers(phases[p := Idle], i, v);
    LoadsMore(payload, payload', v.queue, n, phases[p].msg);
  }

  lemma LoadsMore(payload: seq<int>, payload': seq<int>, queue: seq<int>, n: int, m: int)
    requires 0 <= n < |payload| && n !in queue && payload' == payload[n := m]
    ensures Loads(payload', queue + [n]) == Loads(payload, queue) + [m]
  {
    assert forall j :: 0 <= j < |queue| ==> queue[j] in queue;
  }

  lemma MoveNode(free: seq<int>, ports: seq<Port>, i: int, v: Port)
    requires free != [] && 0 <= i < |ports| && v.queue == ports[i].queue + [free[0]]
    ensures multiset(free[1..]) + QueuedNodes(ports[i := v]) == multiset(free) + QueuedNodes(ports)
  {
    QueuedNodesSet(ports, i, v);
    assert free == [free[0]] + free[1..];
  }

  lemma SendFinishNodes(y: Sys, p: Pid)
    requires Inv(y) && y.phases[p].Sending? && y.free != [] && !Stale(y.ports[y.phases[p].port], y.phases[p].seqno)
    ensures NodesOk(SendFinish(y, p).0)
  {
    MoveNode(y.free, y.ports, y.phases[p].port, SendFinish(y, p).0.ports[y.phases[p].port]);
  }

  lemma SendFinishOthers(y: Sys, p: Pid)
    requires Inv(y) && y.phases[p].Sending? && y.phases[p].granted && y.free != []
    requires !Stale(y.ports[y.phases[p].port], y.phases[p].seqno)
    ensures OthersOk(SendFinish(y, p).0, y.phases[p].port) && Shaped(SendFinish(y, p).0)
  {
    var i, y' := y.phases[p].port, SendFinish(y, p).0;
    assert Waiters(y.phases, i, y.ports[i].ssem, y.ports[i].rsem) by {
      assert PortOk(y.phases, y.payload, i, y.ports[i]);
    }
    GrantTouches(y.phases, i, y.ports[i], p, Idle, Released(y.ports[i].rsem));
    assert y.free[0] in y.free && forall m :: m != y.free[0] ==> Load(y'.payload, m) == Load(y.payload, m);
    OthersFrame(y, y', i, y.free[0]);
  }

  lemma SendFinishInv(y: Sys, p: Pid)
    requires Inv(y) && y.phases[p].Sending? && y.phases[p].granted
    ensures Inv(SendFinish(y, p).0)
  {
    var i := y.phases[p].port;
    if Stale(y.ports[i], y.phases[p].seqno) {
      GiveUpInv(y, p);
    } else if y.free != [] {
      FreeNodeElsewhere(y, y.free[0]);
      SendFinishPort(y.phases, y.payload, SendFinish(y, p).0.payload, i, y.ports[i], p, y.free[0]);
      SendFinishOthers(y, p);
      SendFinishNodes(y, p);
      Assemble(SendFinish(y, p).0, i);
    }
  }

  lemma RecvFinishPort(phases: Phases, payload: seq<int>, i: int, v: Port, p: Pid)
    requires PortOk(phases, payload, i, v) && phases[p].Receiving? && phases[p].port == i && phases[p].granted
    requires !Stale(v, phases[p].seqno)
    ensures v.queue != []
    ensures PortOk(Grant(phases[p := Idle], Released(v.ssem)), payload, i,
      v.(queue := v.queue[1..], got := v.got + [Load(payload, v.queue[0])], ssem := Up(v.ssem)))
  {
    CountSet(phases, p, Idle, false, i, v.seqno);
    LeavePort(phases, i, v, p);
    SignalSenders(phases[p := Idle], i, v);
    assert Loads(payload, v.queue) == [Load(payload, v.queue[0])] + Loads(payload, v.queue[1..]);
  }

  lemma RecvFinishNodes(y: Sys, p: Pid)
    requires Inv(y) && y.phases[p].Receiving? && !Stale(y.ports[y.phases[p].port], y.phases[p].seqno)
    ensures NodesOk(RecvFinish(y, p).0)
  {
    var i, y' := y.phases[p].port, RecvFinish(y, p).0;
    if y.ports[i].queue != [] { ReturnNode(y.free, y.ports, i, y'.ports[i]); }
  }

  lemma ReturnNode(free: seq<int>, ports: seq<Port>, i: int, v: Port)
    requires 0 <= i < |ports| && ports[i].queue != [] && v.queue == ports[i].queue[1..]
    ensures multiset([ports[i].queue[0]] + free) + QueuedNodes(ports[i := v]) == multiset(free) + QueuedNodes(ports)
  {
    QueuedNodesSet(ports, i, v);
    assert ports[i].queue == [ports[i].queue[0]] + v.queue;
  }

  lemma RecvFinishOthers(y: Sys, p: Pid)
    requires Inv(y) && y.phases[p].Receiving? && y.phases[p].granted
    requires !Stale(y.ports[y.phases[p].port], y.phases[p].seqno)
    ensures OthersOk(RecvFinish(y, p).0, y.phases[p].port) && Shaped(RecvFinish(y, p).0)
  {
    var i := y.phases[p].port;
    assert PortOk(y.phases, y.payload, i, y.ports[i]);
    GrantTouches(y.phases, i, y.ports[i], p, Idle, Released(y.ports[i].ssem));
    OthersFrame(y, RecvFinish(y, p).0, i, -1);
  }

  /** No receiver that has been granted a message ever finds its port's queue empty. */
  lemma RecvFinishInv(y: Sys, p: Pid)
    requires Inv(y) && y.phases[p].Receiving? && y.phases[p].granted
    ensures Inv(RecvFinish(y, p).0) && RecvFinish(y, p).1 != Panicked
  {
    var i := y.phases[p].port;
    if Stale(y.ports[i], y.phases[p].seqno) {
      GiveUpInv(y, p);
    } else {
      RecvFinishPort(y.phases, y.payload, i, y.ports[i], p);
      RecvFinishOthers(y, p);
      RecvFinishNodes(y, p);
      Assemble(RecvFinish(y, p).0, i);
    }
  }

  /** _ptclear's first half: everyone inside a call on the port now belongs to an older generation. */
  lemma ClearEnterPort(phases: Phases, payload: seq<int>, i: int, v: Port, p: Pid, newstate: PortState)
    requires PortOk(phases, payload, i, v) && v.state == PtAlloc && phases[p] == Idle
    requires newstate == PtAlloc || newstate == PtFree
    ensures PortOk(Grant(phases[p := Clearing(i, newstate, false)], v.ssem.queue), payload, i,
      v.(state := PtLimbo, seqno := v.seqno + 1, queue := [], sent := [], got := [],
         ssem := Emptied(v.ssem, newstate, v.maxcnt)))
  {}

  lemma ClearEnterNodes(y: Sys, p: Pid, i: int, newstate: PortState)
    requires Inv(y)
    ensures NodesOk(ClearEnter(y, p, i, newstate).0)
  {
    if !IsBadPort(y, i) {
      var v, y' := y.ports[i], ClearEnter(y, p, i, newstate).0;
      QueuedNodesSet(y.ports, i, y'.ports[i]);
      assert multiset(v.queue + y.free) == multiset(v.queue) + multiset(y.free);
    }
  }

  lemma ClearEnterInv(y: Sys, p: Pid, i: int, newstate: PortState)
    requires Inv(y) && y.phases[p] == Idle && (newstate == PtAlloc || newstate == PtFree)
    ensures Inv(ClearEnter(y, p, i, newstate).0)
  {
    if !IsBadPort(y, i) {
      var v, y' := y.ports[i], ClearEnter(y, p, i, newstate).0;
      ClearEnterPort(y.phases, y.payload, i, v, p, newstate);
      assert PortOk(y.phases, y.payload, i, v);
      GrantTouches(y.phases, i, v, p, Clearing(i, newstate, false), v.ssem.queue);
      OthersFrame(y, y', i, -1);
      ClearEnterNodes(y, p, i, newstate);
      Assemble(y', i);
    }
  }

  lemma ClearHalfPort(phases: Phases, payload: seq<int>, i: int, v: Port, p: Pid)
    requires PortOk(phases, payload, i, v) && ClearsPort(phases[p], i) && !phases[p].half
    ensures v.state == PtLimbo
    ensures PortOk(Grant(phases[p := phases[p].(half := true)], v.rsem.queue), payload, i,
      v.(rsem := Emptied(v.rsem, phases[p].newstate, 0)))
  {}

  lemma NodesSame(ports: seq<Port>, i: int, v: Port)
    requires 0 <= i < |ports| && v.queue == ports[i].queue
    ensures QueuedNodes(ports[i := v]) == QueuedNodes(ports)
  {
    QueuedNodesSet(ports, i, v);
  }

  lemma ClearHalfOthers(y: Sys, p: Pid)
    requires Inv(y) && y.phases[p].Clearing?
    ensures OthersOk(ClearHalf(y, p).0, y.phases[p].port) && NodesOk(ClearHalf(y, p).0) && Shaped(ClearHalf(y, p).0)
  {
    var i, y' := y.phases[p].port, ClearHalf(y, p).0;
    assert PortOk(y.phases, y.payload, i, y.ports[i]);
    GrantTouches(y.phases, i, y.ports[i], p, y.phases[p].(half := true), y.ports[i].rsem.queue);
    OthersFrame(y, y', i, -1);
    NodesSame(y.ports, i, y'.ports[i]);
  }

  lemma ClearHalfInv(y: Sys, p: Pid)
    requires Inv(y) && y.phases[p].Clearing? && !y.phases[p].half
    ensures Inv(ClearHalf(y, p).0)
  {
    var i := y.phases[p].port;
    ClearHalfPort(y.phases, y.payload, i, y.ports[i], p);
    ClearHalfOthers(y, p);
    Assemble(ClearHalf(y, p).0, i);
  }

  /** The port opens again only when nobody of the new generation can be inside a call. */
  lemma ClearFinishPort(phases: Phases, payload: seq<int>, i: int, v: Port, p: Pid)
    requires PortOk(phases, payload, i, v) && ClearsPort(phases[p], i) && phases[p].half
    ensures PortOk(phases[p := Idle], payload, i, v.(state := phases[p].newstate))
  {
    CountNone(phases[p := Idle], true, i, v.seqno);
    CountNone(phases[p := Idle], false, i, v.seqno);
  }

  lemma ClearFinishOthers(y: Sys, p: Pid)
    requires Inv(y) && y.phases[p].Clearing?
    ensures OthersOk(ClearFinish(y, p).0, y.phases[p].port) && NodesOk(ClearFinish(y, p).0) && Shaped(ClearFinish(y, p).0)
  {
    var i, y' := y.phases[p].port, ClearFinish(y, p).0;
    OthersFrame(y, y', i, -1);
    NodesSame(y.ports, i, y'.ports[i]);
  }

  lemma ClearFinishInv(y: Sys, p: Pid)
    requires Inv(y) && y.phases[p].Clearing? && y.phases[p].half
    ensures Inv(ClearFinish(y, p).0)
  {
    var i := y.phases[p].port;
    ClearFinishPort(y.phases, y.payload, i, y.ports[i], p);
    ClearFinishOthers(y, p);
    Assemble(ClearFinish(y, p).0, i);
  }

  lemma NewPortOk(phases: Phases, payload: seq<int>, i: int, v: Port, count: nat)
    requires PortOk(phases, payload, i, v) && v.state == PtFree && count < 0x1_0000
    ensures PortOk(phases, payload, i, NewPort(v, count))
  {
    CountNone(phases, true, i, v.seqno + 1);
    CountNone(phases, false, i, v.seqno + 1);
  }

  lemma CreateInv(y: Sys, count: int)
    requires Inv(y) && count < 0x1_0000
    ensures Inv(Create(y, count).0)
  {
    if count >= 0 {
      var f := FindPort(y.ports, y.nextid, |y.ports|);
      if f.0 != SYSERR {
        var y' := Create(y, count).0;
        NewPortOk(y.phases, y.payload, f.0, y.ports[f.0], count);
        assert PortOk(y.phases, y.payload, f.0, y.ports[f.0]);
        OthersFrame(y, y', f.0, -1);
        QueuedNodesSet(y.ports, f.0, y'.ports[f.0]);
        Assemble(y', f.0);
      }
    }
  }

  // ---- kill of a process inside a port call ----

  lemma KillWaitingPort(phases: Phases, payload: seq<int>, i: int, v: Port, p: Pid)
    requires PortOk(phases, payload, i, v) && InCall(phases[p], i) && !phases[p].granted
    ensures phases[p].Sending? ==> PortOk(phases[p := Idle], payload, i,
      v.(ssem := v.ssem.(count := v.ssem.count + 1, queue := Without(v.ssem.queue, p))))
    ensures phases[p].Receiving? ==> PortOk(phases[p := Idle], payload, i,
      v.(rsem := v.rsem.(count := v.rsem.count + 1, queue := Without(v.rsem.queue, p))))
  {
    if phases[p].Sending? { KillWaitingSender(phases, payload, i, v, p); } else { KillWaitingReceiver(phases, payload, i, v, p); }
  }

  lemma KillWaitingSender(phases: Phases, payload: seq<int>, i: int, v: Port, p: Pid)
    requires PortOk(phases, payload, i, v) && phases[p].Sending? && phases[p].port == i && !phases[p].granted
    ensures PortOk(phases[p := Idle], payload, i,
      v.(ssem := v.ssem.(count := v.ssem.count + 1, queue := Without(v.ssem.queue, p))))
  {
    CountSet(phases, p, Idle, true, i, v.seqno);
    CountSet(phases, p, Idle, false, i, v.seqno);
    assert p in v.ssem.queue;
    WithoutNoDup(v.ssem.queue, p);
  }

  lemma KillWaitingReceiver(phases: Phases, payload: seq<int>, i: int, v: Port, p: Pid)
    requires PortOk(phases, payload, i, v) && phases[p].Receiving? && phases[p].port == i && !phases[p].granted
    ensures PortOk(phases[p := Idle], payload, i,
      v.(rsem := v.rsem.(count := v.rsem.count + 1, queue := Without(v.rsem.queue, p))))
  {
    CountSet(phases, p, Idle, true, i, v.seqno);
    CountSet(phases, p, Idle, false, i, v.seqno);
    assert p in v.rsem.queue;
    WithoutNoDup(v.rsem.queue, p);
  }

  lemma KillOthers(y: Sys, p: Pid)
    requires Inv(y) && y.phases[p] != Idle
    ensures OthersOk(Kill(y, p), y.phases[p].port) && NodesOk(Kill(y, p)) && Shaped(Kill(y, p))
  {
    var i, y' := y.phases[p].port, Kill(y, p);
    OthersFrame(y, y', i, -1);
    NodesSame(y.ports, i, y'.ports[i]);
    assert y'.ports == y.ports[i := y'.ports[i]];
  }

  /** A process has been promised a slot or a message of its port that it has not used yet. */
  predicate Promised(y: Sys, p: Pid)
    requires Shaped(y)
  {
    var f := y.phases[p];
    (f.Sending? || f.Receiving?) && f.granted && !Stale(y.ports[f.port], f.seqno)
  }

  lemma KillWaitingInv(y: Sys, p: Pid)
    requires Inv(y) && (y.phases[p].Sending? || y.phases[p].Receiving?) && !y.phases[p].granted
    ensures Inv(Kill(y, p))
  {
    var i := y.phases[p].port;
    KillWaitingPort(y.phases, y.payload, i, y.ports[i], p);
    KillOthers(y, p);
    Assemble(Kill(y, p), i);
  }

  /** A port whose clearer was killed stays in limbo, and stays in order. */
  lemma KillClearingPort(phases: Phases, payload: seq<int>, i: int, v: Port, p: Pid)
    requires PortOk(phases, payload, i, v) && ClearsPort(phases[p], i)
    ensures PortOk(phases[p := Idle], payload, i, v)
  {}

  lemma KillClearingInv(y: Sys, p: Pid)
    requires Inv(y) && y.phases[p].Clearing?
    ensures Inv(Kill(y, p))
  {
    var i := y.phases[p].port;
    KillClearingPort(y.phases, y.payload, i, y.ports[i], p);
    OthersFrame(y, Kill(y, p), i, -1);
    Assemble(Kill(y, p), i);
  }

  /** With a process that was promised a slot or a message, that slot or message is lost. */
  lemma KillPromised(y: Sys, p: Pid)
    requires Inv(y) && Promised(y, p)
    ensures !Accounted(Kill(y, p).phases, y.phases[p].port, Kill(y, p).ports[y.phases[p].port])
    ensures !Inv(Kill(y, p))
  {
    var i := y.phases[p].port;
    assert PortOk(y.phases, y.payload, i, y.ports[i]);
    CountSet(y.phases, p, Idle, true, i, y.ports[i].seqno);
    CountSet(y.phases, p, Idle, false, i, y.ports[i].seqno);
  }

  /** Killing any process keeps everything in order if and only if it had not been promised a slot or a
      message of the port as it is now. */
  lemma KillAccountsIff(y: Sys, p: Pid)
    requires Inv(y)
    ensures Inv(Kill(y, p)) <==> !Promised(y, p)
  {
    var f := y.phases[p];
    if f == Idle {
      assert y.phases[p := Idle] == y.phases;
    } else if f.Clearing? {
      KillClearingInv(y, p);
    } else if !f.granted {
      KillWaitingInv(y, p);
    } else if Promised(y, p) {
      KillPromised(y, p);
    } else {
      GiveUpInv(y, p);
    }
  }

  /** A new port starts with its accounts in order exactly when its size fits in 16 bits. */
  lemma CreateAccountsIff(phases: Phases, payload: seq<int>, i: int, v: Port, count: nat)
    requires PortOk(phases, payload, i, v) && v.state == PtFree
    ensures Accounted(phases, i, NewPort(v, count)) <==> count < 0x1_0000
  {
    CountNone(phases, true, i, v.seqno + 1);
    CountNone(phases, false, i, v.seqno + 1);
  }
}
