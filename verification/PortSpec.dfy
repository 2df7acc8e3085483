/** Ports as a state machine over the steps of ptsend, ptrecv, ptreset, ptdelete and ptcreate. A call
    is cut where a semaphore operation can switch context: in wait, and after each of the two
    semreset or semdelete calls of _ptclear. */
module PortSpec {
  import opened Seqs
  import opened QueueTable
  import opened Semaphores

  const NPORTS := 30

  datatype PortState = PtFree | PtLimbo | PtAlloc

  /** One entry of porttab. queue holds the message nodes in order; sent and got are histories: the
      messages linked and the messages received since the port was last cleared. */
  datatype Port = Port(
    state: PortState, maxcnt: nat, seqno: int, ssem: Sem, rsem: Sem, queue: seq<int>,
    sent: seq<int>, got: seq<int>)

  /** Where a process is inside a port call, with the sequence number it recorded on entry; granted
      says that its wait is over, so that it runs on when it next has the processor. */
  datatype Phase =
    | Idle
    | Sending(port: int, seqno: int, msg: int, granted: bool)
    | Receiving(port: int, seqno: int, granted: bool)
    | Clearing(port: int, newstate: PortState, half: bool)

  /** free is the list of free message nodes, payload the message stored in each node. */
  datatype Sys = Sys(ports: seq<Port>, free: seq<int>, payload: seq<int>, phases: seq<Phase>, nextid: int)

  datatype Outcome = Blocked | Failed | Panicked | Sent | Got(msg: int) | Created(id: int) | Paused | Cleared

  ghost predicate Shaped(y: Sys) {
    && |y.ports| == NPORTS && |y.phases| == NPROC && 0 <= y.nextid < NPORTS
    && (forall p: Pid :: y.phases[p] != Idle ==> 0 <= y.phases[p].port < NPORTS)
  }

  /** The message stored in node n. */
  function Load(payload: seq<int>, n: int): (m: int) {
    if 0 <= n < |payload| then payload[n] else 0
  }

  function Store(payload: seq<int>, n: int, m: int): (r: seq<int>)
    ensures |r| == |payload|
  {
    if 0 <= n < |payload| then payload[n := m] else payload
  }

  /** isbadport, or a port that is not allocated. */
  predicate IsBadPort(y: Sys, i: int)
    requires |y.ports| == NPORTS
  {
    i < 0 || i >= NPORTS || y.ports[i].state != PtAlloc
  }

  function SetPort(y: Sys, i: int, v: Port): (r: Sys)
    requires |y.ports| == NPORTS && 0 <= i < NPORTS
    ensures |r.ports| == NPORTS
  {
    y.(ports := y.ports[i := v])
  }

  function SetPhase(y: Sys, p: Pid, v: Phase): (r: Sys)
    requires |y.phases| == NPROC
    ensures |r.phases| == NPROC
  {
    y.(phases := y.phases[p := v])
  }

  /** The waits of the processes ps are over. */
  function Grant(phases: seq<Phase>, ps: seq<Pid>): (r: seq<Phase>)
    requires |phases| == NPROC
    ensures |r| == NPROC
    ensures forall p: Pid :: r[p] == if p in ps then Granted(phases[p]) else phases[p]
  {
    seq(NPROC, p requires 0 <= p < NPROC => if p in ps then Granted(phases[p]) else phases[p])
  }

  function Granted(f: Phase): (r: Phase) {
    match f
    case Sending(i, s, m, _) => Sending(i, s, m, true)
    case Receiving(i, s, _) => Receiving(i, s, true)
    case _ => f
  }

  // ---- ptsend ----

  function SendEnter(y: Sys, p: Pid, i: int, msg: int): (r: (Sys, Outcome))
    requires Shaped(y)
    ensures Shaped(r.0)
  {
    if IsBadPort(y, i) then (y, Failed)
    else
      var v := y.ports[i];
      (SetPhase(SetPort(y, i, v.(ssem := Down(v.ssem, p))), p, Sending(i, v.seqno, msg, !Blocks(v.ssem))), Blocked)
  }

  /** The port a process recorded on entry was cleared, or is being cleared, in the meantime. */
  predicate Stale(v: Port, seqno: int) { v.state != PtAlloc || v.seqno != seqno }

  function SendFinish(y: Sys, p: Pid): (r: (Sys, Outcome))
    requires Shaped(y) && y.phases[p].Sending?
    ensures Shaped(r.0)
  {
    var f := y.phases[p];
    var v := y.ports[f.port];
    if Stale(v, f.seqno) then (SetPhase(y, p, Idle), Failed)
    else if y.free == [] then (y, Panicked)
    else
      var n := y.free[0];
      var v1 := v.(queue := v.queue + [n], sent := v.sent + [f.msg], rsem := Up(v.rsem));
      var y1 := SetPort(SetPhase(y, p, Idle), f.port, v1);
      (y1.(free := y.free[1..], payload := Store(y.payload, n, f.msg), phases := Grant(y1.phases, Released(v.rsem))), Sent)
  }

  // ---- ptrecv ----

  function RecvEnter(y: Sys, p: Pid, i: int): (r: (Sys, Outcome))
    requires Shaped(y)
    ensures Shaped(r.0)
  {
    if IsBadPort(y, i) then (y, Failed)
    else
      var v := y.ports[i];
      (SetPhase(SetPort(y, i, v.(rsem := Down(v.rsem, p))), p, Receiving(i, v.seqno, !Blocks(v.rsem))), Blocked)
  }

  function RecvFinish(y: Sys, p: Pid): (r: (Sys, Outcome))
    requires Shaped(y) && y.phases[p].Receiving?
    ensures Shaped(r.0)
  {
    var f := y.phases[p];
    var v := y.ports[f.port];
    if Stale(v, f.seqno) then (SetPhase(y, p, Idle), Failed)
    else if v.queue == [] then (y, Panicked)  // never: the head pointer would be NULL
    else
      var n := v.queue[0];
      var v1 := v.(queue := v.queue[1..], got := v.got + [Load(y.payload, n)], ssem := Up(v.ssem));
      var y1 := SetPort(SetPhase(y, p, Idle), f.port, v1);
      (y1.(free := [n] + y.free, phases := Grant(y1.phases, Released(v.ssem))), Got(Load(y.payload, n)))
  }

  // ---- _ptclear, for ptreset (newstate PtAlloc) and ptdelete (newstate PtFree) ----

  /** semreset or semdelete: every waiter is released. */
  function Emptied(s: Sem, newstate: PortState, count: int): (r: Sem) {
    if newstate == PtAlloc then Sem(true, count, []) else Sem(false, Max0(s.count) + 1, [])
  }

  function ClearEnter(y: Sys, p: Pid, i: int, newstate: PortState): (r: (Sys, Outcome))
    requires Shaped(y)
    ensures Shaped(r.0)
  {
    if IsBadPort(y, i) then (y, Failed)
    else
      var v := y.ports[i];
      var v1 := v.(state := PtLimbo, seqno := v.seqno + 1, queue := [], sent := [], got := [],
                   ssem := Emptied(v.ssem, newstate, v.maxcnt));
      var y1 := SetPort(SetPhase(y, p, Clearing(i, newstate, false)), i, v1);
      (y1.(free := v.queue + y.free, phases := Grant(y1.phases, v.ssem.queue)), Paused)
  }

  function ClearHalf(y: Sys, p: Pid): (r: (Sys, Outcome))
    requires Shaped(y) && y.phases[p].Clearing?
    ensures Shaped(r.0)
  {
    var f := y.phases[p];
    var v := y.ports[f.port];
    var y1 := SetPort(SetPhase(y, p, f.(half := true)), f.port, v.(rsem := Emptied(v.rsem, f.newstate, 0)));
    (y1.(phases := Grant(y1.phases, v.rsem.queue)), Paused)
  }

  function ClearFinish(y: Sys, p: Pid): (r: (Sys, Outcome))
    requires Shaped(y) && y.phases[p].Clearing?
    ensures Shaped(r.0)
  {
    var f := y.phases[p];
    var y1 := SetPort(SetPhase(y, p, Idle), f.port, y.ports[f.port].(state := f.newstate));
    (if f.newstate == PtFree then y1.(nextid := f.port) else y1, Cleared)
  }

  // ---- ptcreate, and kill of a process inside a port call ----

  /** ptcreate's circular search for a free entry. */
  function FindPort(ports: seq<Port>, next: int, tries: nat): (r: (int, int))
    requires |ports| == NPORTS && 0 <= next < NPORTS
    ensures 0 <= r.1 < NPORTS
    ensures r.0 == SYSERR || (0 <= r.0 < NPORTS && ports[r.0].state == PtFree)
    decreases tries
  {
    if tries == 0 then (SYSERR, next)
    else
      var next1 := if next + 1 >= NPORTS then 0 else next + 1;
      if ports[next].state == PtFree then (next, next1) else FindPort(ports, next1, tries - 1)
  }

  /** The limit is stored in 16 bits; the sender semaphore starts with the count as given. */
  function NewPort(v: Port, count: nat): (r: Port) {
    Port(PtAlloc, count % 0x1_0000, v.seqno + 1, Sem(true, count, []), Sem(true, 0, []), [], [], [])
  }

  function Create(y: Sys, count: int): (r: (Sys, Outcome))
    requires Shaped(y)
    ensures Shaped(r.0)
  {
    if count < 0 then (y, Failed)
    else
      var f := FindPort(y.ports, y.nextid, |y.ports|);
      if f.0 == SYSERR then (y.(nextid := f.1), Failed)
      else (SetPort(y, f.0, NewPort(y.ports[f.0], count)).(nextid := f.1), Created(f.0))
  }

  /** kill: a waiting process leaves its semaphore, whose count goes up by one. */
  function Kill(y: Sys, p: Pid): (r: Sys)
    requires Shaped(y)
    ensures Shaped(r)
  {
    var y1 := SetPhase(y, p, Idle);
    match y.phases[p]
    case Sending(i, _, _, false) =>
      var s := y.ports[i].ssem;
      SetPort(y1, i, y.ports[i].(ssem := s.(count := s.count + 1, queue := Without(s.queue, p))))
    case Receiving(i, _, false) =>
      var s := y.ports[i].rsem;
      SetPort(y1, i, y.ports[i].(rsem := s.(count := s.count + 1, queue := Without(s.queue, p))))
    case _ => y1
  }
}
