/** The ports on the real kernel: their semaphores are entries of the kernel's table, named by ids, next to
    all other semaphores, and whoever is current runs. Every run of this system is a run of PortRuns, so that
    what is proved there of ports on semaphores of their own holds of ports in the kernel. */
module KernelPorts {
  import opened Seqs
  import opened QueueTable
  import opened Semaphores
  import opened PortSpec
  import opened PortInvariants
  import K = KernelRuns
  import KS = KernelSems
  import KI = KernelInvariants
  import KSpec = KernelSpec
  import PR = PortRuns

  /** A semaphore of a port: the id of one in use, or, once deleted, how it was left. */
  datatype Handle = Open(id: int) | Closed(last: Sem)

  /** An entry of porttab with its histories. */
  datatype Entry = Entry(
    state: PortState, maxcnt: nat, seqno: int, ssem: Handle, rsem: Handle, queue: seq<int>,
    sent: seq<int>, got: seq<int>)

  /** Where a process is inside a port call; whether its wait is over is for the kernel to say. */
  datatype Activity =
    | Out
    | InSend(port: int, seqno: int, msg: int)
    | InRecv(port: int, seqno: int)
    | InClear(port: int, newstate: PortState, half: bool)

  datatype World = World(
    sys: K.Sys, ports: seq<Entry>, free: seq<int>, payload: seq<int>, calls: seq<Activity>, nextid: int)

  type SemTable = s: seq<Sem> | |s| == NSEM witness seq(NSEM, _ => Sem(false, 0, []))

  ghost predicate Sound(w: World) {
    KSpec.Sized(w.sys.k) && |w.sys.pc| == NPROC && |w.ports| == NPORTS && |w.calls| == NPROC && 0 <= w.nextid < NPORTS
  }

  // ---- the ports as PortSpec sees them ----

  function SemOf(sems: SemTable, h: Handle): (v: Sem) {
    match h
    case Open(id) => if 0 <= id < NSEM then sems[id] else Sem(false, 0, [])
    case Closed(last) => last
  }

  function PortOf(sems: SemTable, e: Entry): (v: Port) {
    Port(e.state, e.maxcnt, e.seqno, SemOf(sems, e.ssem), SemOf(sems, e.rsem), e.queue, e.sent, e.got)
  }

  /** A process inside ptsend or ptrecv has been let through when it is not queued on the semaphore. */
  function PhaseOf(sems: SemTable, ports: seq<Entry>, a: Activity, p: Pid): (f: Phase)
    requires |ports| == NPORTS
  {
    match a
    case Out => Idle
    case InSend(i, s, m) => Sending(i, s, m, !(0 <= i < NPORTS && p in SemOf(sems, ports[i].ssem).queue))
    case InRecv(i, s) => Receiving(i, s, !(0 <= i < NPORTS && p in SemOf(sems, ports[i].rsem).queue))
    case InClear(i, st, half) => Clearing(i, st, half)
  }

  ghost function Abs(w: World): (y: Sys)
    requires Sound(w)
    ensures |y.ports| == NPORTS && |y.phases| == NPROC
    ensures forall i :: 0 <= i < NPORTS ==> y.ports[i] == PortOf(w.sys.k.sems, w.ports[i])
    ensures forall p: Pid :: y.phases[p] == PhaseOf(w.sys.k.sems, w.ports, w.calls[p], p)
  {
    var sems: SemTable := w.sys.k.sems;
    Sys(seq(NPORTS, i requires 0 <= i < NPORTS => PortOf(sems, w.ports[i])), w.free, w.payload,
        seq(NPROC, p requires 0 <= p < NPROC => PhaseOf(sems, w.ports, w.calls[p], p)), w.nextid)
  }

  lemma AbsIs(w: World, y: Sys)
    requires Sound(w) && |y.ports| == NPORTS && |y.phases| == NPROC
    requires y.free == w.free && y.payload == w.payload && y.nextid == w.nextid
    requires forall i :: 0 <= i < NPORTS ==> y.ports[i] == PortOf(w.sys.k.sems, w.ports[i])
    requires forall p: Pid :: y.phases[p] == PhaseOf(w.sys.k.sems, w.ports, w.calls[p], p)
    ensures Abs(w) == y
  {
    assert Abs(w).ports == y.ports;
    forall p | 0 <= p < NPROC ensures Abs(w).phases[p] == y.phases[p] { var q: Pid := p; }
    assert Abs(w).phases == y.phases;
  }

  // ---- what the ports hold of the semaphore table ----

  ghost predicate Held(sems: SemTable, h: Handle) {
    if h.Open? then 0 <= h.id < NSEM && sems[h.id].used else h.last.queue == []
  }

  predicate Differ(h: Handle, g: Handle) { h.Open? && g.Open? ==> h.id != g.id }

  predicate NoneShared(e: Entry, f: Entry) {
    Differ(e.ssem, f.ssem) && Differ(e.ssem, f.rsem) && Differ(e.rsem, f.ssem) && Differ(e.rsem, f.rsem)
  }

  /** Every open handle is a semaphore in use, and no two of them are the same. */
  ghost predicate HandlesOk(sems: SemTable, ports: seq<Entry>) {
    && (forall i :: 0 <= i < |ports| ==>
         Held(sems, ports[i].ssem) && Held(sems, ports[i].rsem) && Differ(ports[i].ssem, ports[i].rsem))
    && (forall i, j :: 0 <= i < j < |ports| ==> NoneShared(ports[i], ports[j]))
  }

  predicate EntryOk(e: Entry) { e.state == PtAlloc ==> e.ssem.Open? && e.rsem.Open? }

  /** Whoever clears a port still holds the semaphores it has not deleted. */
  ghost predicate ClearOk(ports: seq<Entry>, a: Activity) {
    a.InClear? ==>
      && 0 <= a.port < |ports| && (!a.half ==> ports[a.port].rsem.Open?)
      && (a.newstate == PtAlloc ==> ports[a.port].ssem.Open? && ports[a.port].rsem.Open?)
  }

  ghost predicate WInv(w: World) {
    && Sound(w) && K.Good(w.sys) && HandlesOk(w.sys.k.sems, w.ports)
    && (forall i :: 0 <= i < NPORTS ==> EntryOk(w.ports[i]))
    && (forall p: Pid :: ClearOk(w.ports, w.calls[p]))
    && Inv(Abs(w))
  }

  /** No port has the semaphore s. */
  ghost predicate Foreign(ports: seq<Entry>, s: int) {
    forall i :: 0 <= i < |ports| ==> ports[i].ssem != Open(s) && ports[i].rsem != Open(s)
  }

  // ---- the steps ----

  datatype Act =
    | AKern(c: K.Call)  // any kernel call on other semaphores, a tick, or the completion of a call
    | ASendEnter(i: int, msg: int) | ASendFinish
    | ARecvEnter(i: int) | ARecvFinish
    | AClearEnter(i: int, newstate: PortState) | AClearHalf | AClearFinish
    | ACreate(count: int) | AKill(p: Pid)

  predicate BadPort(w: World, i: int)
    requires |w.ports| == NPORTS
  {
    i < 0 || i >= NPORTS || w.ports[i].state != PtAlloc
  }

  /** What the code hands to wait, signal, semreset and semdelete. */
  function IdOf(h: Handle): (id: int) { if h.Open? then h.id else SYSERR }

  function SetEntry(w: World, i: int, e: Entry): (r: World)
    requires |w.ports| == NPORTS && 0 <= i < NPORTS
    ensures |r.ports| == NPORTS
  {
    w.(ports := w.ports[i := e])
  }

  function SetCall(w: World, p: Pid, a: Activity): (r: World)
    requires |w.calls| == NPROC
    ensures |r.calls| == NPROC
  {
    w.(calls := w.calls[p := a])
  }

  function Call(w: World, c: K.Call): (r: World)
    requires Sound(w)
    ensures Sound(r)
  {
    w.(sys := K.Step(w.sys, c))
  }

  function Caller(w: World): (p: Pid) { w.sys.k.curr }

  /** The calls of the semaphore s of a port: wait, signal, and release of all waiters. */
  function ReleaseCall(id: int, newstate: PortState, count: int): (c: K.Call) {
    if newstate == PtAlloc then K.CSemReset(id, count) else K.CSemDelete(id)
  }

  /** The handle after that: deleted semaphores are gone, with the count semdelete left. */
  function ReleasedHandle(sems: SemTable, h: Handle, newstate: PortState): (r: Handle) {
    if newstate == PtAlloc then h else Closed(Emptied(SemOf(sems, h), newstate, 0))
  }

  function SendEnter(w: World, i: int, msg: int): (r: World)
    requires Sound(w)
    ensures Sound(r)
  {
    if BadPort(w, i) then w
    else SetCall(Call(w, K.CWait(IdOf(w.ports[i].ssem))), Caller(w), InSend(i, w.ports[i].seqno, msg))
  }

  /** The port was cleared, or is being cleared, since the call began. */
  predicate Cleared(e: Entry, seqno: int) { e.state != PtAlloc || e.seqno != seqno }

  function SendFinish(w: World): (r: World)
    requires Sound(w) && w.calls[Caller(w)].InSend? && 0 <= w.calls[Caller(w)].port < NPORTS
    ensures Sound(r)
  {
    var a, p := w.calls[Caller(w)], Caller(w);
    var e := w.ports[a.port];
    if Cleared(e, a.seqno) then SetCall(w, p, Out)
    else if w.free == [] then w  // panic
    else
      var n := w.free[0];
      var w1 := SetEntry(w, a.port, e.(queue := e.queue + [n], sent := e.sent + [a.msg]));
      var w2 := w1.(free := w.free[1..], payload := Store(w.payload, n, a.msg));
      SetCall(Call(w2, K.CSignal(IdOf(e.rsem))), p, Out)
  }

  function RecvEnter(w: World, i: int): (r: World)
    requires Sound(w)
    ensures Sound(r)
  {
    if BadPort(w, i) then w
    else SetCall(Call(w, K.CWait(IdOf(w.ports[i].rsem))), Caller(w), InRecv(i, w.ports[i].seqno))
  }

  function RecvFinish(w: World): (r: World)
    requires Sound(w) && w.calls[Caller(w)].InRecv? && 0 <= w.calls[Caller(w)].port < NPORTS
    ensures Sound(r)
  {
    var a, p := w.calls[Caller(w)], Caller(w);
    var e := w.ports[a.port];
    if Cleared(e, a.seqno) then SetCall(w, p, Out)
    else if e.queue == [] then w  // never
    else
      var n := e.queue[0];
      var w1 := SetEntry(w, a.port, e.(queue := e.queue[1..], got := e.got + [Load(w.payload, n)]));
      SetCall(Call(w1.(free := [n] + w.free), K.CSignal(IdOf(e.ssem))), p, Out)
  }

  function ClearEnter(w: World, i: int, newstate: PortState): (r: World)
    requires Sound(w)
    ensures Sound(r)
  {
    if BadPort(w, i) then w
    else
      var e := w.ports[i];
      var e1 := e.(state := PtLimbo, seqno := e.seqno + 1, queue := [], sent := [], got := [],
                   ssem := ReleasedHandle(w.sys.k.sems, e.ssem, newstate));
      var w1 := SetEntry(w, i, e1).(free := e.queue + w.free);
      SetCall(Call(w1, ReleaseCall(IdOf(e.ssem), newstate, e.maxcnt)), Caller(w), InClear(i, newstate, false))
  }

  function ClearHalf(w: World): (r: World)
    requires Sound(w) && w.calls[Caller(w)].InClear? && 0 <= w.calls[Caller(w)].port < NPORTS
    ensures Sound(r)
  {
    var a := w.calls[Caller(w)];
    var e := w.ports[a.port];
    var w1 := SetEntry(w, a.port, e.(rsem := ReleasedHandle(w.sys.k.sems, e.rsem, a.newstate)));
    SetCall(Call(w1, ReleaseCall(IdOf(e.rsem), a.newstate, 0)), Caller(w), a.(half := true))
  }

  function ClearFinish(w: World): (r: World)
    requires Sound(w) && w.calls[Caller(w)].InClear? && 0 <= w.calls[Caller(w)].port < NPORTS
    ensures Sound(r)
  {
    var a := w.calls[Caller(w)];
    var w1 := SetCall(SetEntry(w, a.port, w.ports[a.port].(state := a.newstate)), Caller(w), Out);
    if a.newstate == PtFree then w1.(nextid := a.port) else w1
  }

  /** The ids semcreate answers for the two semaphores of a new port. */
  function NewIds(w: World, count: int): (r: (int, int))
    requires Sound(w)
  {
    var w1 := Call(w, K.CSemCreate(count));
    (KSpec.SemCreate(w.sys.k, count).1, KSpec.SemCreate(w1.sys.k, 0).1)
  }

  ghost function Create(w: World, count: int): (r: World)
    requires Sound(w)
    ensures Sound(r)
  {
    if count < 0 then w
    else
      var f := FindPort(Abs(w).ports, w.nextid, |Abs(w).ports|);
      if f.0 == SYSERR then w.(nextid := f.1) else CreateAt(w, f.0, count).(nextid := f.1)
  }

  function NewEntry(e: Entry, count: nat, s: int, r: int): (f: Entry) {
    Entry(PtAlloc, count % 0x1_0000, e.seqno + 1, Open(s), Open(r), [], [], [])
  }

  /** ptcreate from where it has found the free entry i. */
  function CreateAt(w: World, i: int, count: nat): (r: World)
    requires Sound(w) && 0 <= i < NPORTS
    ensures Sound(r)
  {
    SetEntry(Call(Call(w, K.CSemCreate(count)), K.CSemCreate(0)), i,
             NewEntry(w.ports[i], count, NewIds(w, count).0, NewIds(w, count).1))
  }

  function Kill(w: World, p: Pid): (r: World)
    requires Sound(w)
    ensures Sound(r)
  {
    SetCall(Call(w, K.CKill(p)), p, Out)
  }

  /** The current process can make a port call, or go on with one. */
  ghost predicate Free(w: World)
    requires Sound(w)
  {
    w.calls[Caller(w)] == Out && w.sys.pc[Caller(w)] == K.User
  }

  ghost predicate Goes(w: World)
    requires Sound(w)
  {
    w.sys.pc[Caller(w)] == K.User && w.calls[Caller(w)] != Out && 0 <= w.calls[Caller(w)].port < NPORTS
  }

  /** Nobody but the ports uses their semaphores; only a tick interrupts a port call; what PortRuns asks of
      port calls is asked here, and semcreate finds entries for a new port. */
  ghost predicate Enabled(w: World, a: Act)
    requires Sound(w)
  {
    var p := Caller(w);
    match a
    case AKern(c) =>
      && K.Enabled(w.sys, c) && (w.calls[p] == Out || c == K.CTick || c == K.CFinish)
      && (NamesSem(c) ==> Foreign(w.ports, c.s)) && (c.CKill? && 0 <= c.p < NPROC ==> w.calls[c.p] == Out)
    case ASendEnter(i, _) => Free(w) && (!BadPort(w, i) ==> K.Enabled(w.sys, K.CWait(IdOf(w.ports[i].ssem))))
    case ARecvEnter(i) => Free(w) && (!BadPort(w, i) ==> K.Enabled(w.sys, K.CWait(IdOf(w.ports[i].rsem))))
    case ASendFinish => Goes(w) && w.calls[p].InSend?
    case ARecvFinish => Goes(w) && w.calls[p].InRecv?
    case AClearEnter(_, newstate) => Free(w) && (newstate == PtAlloc || newstate == PtFree)
    case AClearHalf => Goes(w) && w.calls[p].InClear? && !w.calls[p].half
    case AClearFinish => Goes(w) && w.calls[p].InClear? && w.calls[p].half
    case ACreate(count) =>
      && Free(w) && count < 0x1_0000
      && (count >= 0 && FindPort(Abs(w).ports, w.nextid, |Abs(w).ports|).0 != SYSERR ==>
           NewIds(w, count).0 != SYSERR && NewIds(w, count).1 != SYSERR)
    case AKill(q) =>
      && Free(w) && w.calls[q] != Out && K.Enabled(w.sys, K.CKill(q))
      && !KSpec.IsBadPid(w.sys.k, q) && q != KSpec.NULLPROC && Shaped(Abs(w)) && !Promised(Abs(w), q)
  }

  /** The calls that name a semaphore. */
  predicate NamesSem(c: K.Call) { c.CWait? || c.CSignal? || c.CSignalN? || c.CSemReset? || c.CSemDelete? }

  // ---- what the kernel calls do to the semaphores of ports ----

  /** Of the semaphores in use only id changed. */
  ghost predicate SameBut(sems: SemTable, sems': SemTable, id: int) {
    forall s :: 0 <= s < NSEM && s != id && sems[s].used ==> sems'[s] == sems[s]
  }

  lemma CallIs(y: K.Sys, c: K.Call, id: int)
    requires K.Good(y) && (c == K.CWait(id) || c == K.CSignal(id) || c == K.CSemDelete(id) || (c.CSemReset? && c.s == id))
    ensures SameBut(y.k.sems, K.Step(y, c).k.sems, id)
    ensures 0 <= id < NSEM && y.k.sems[id].used ==> K.Step(y, c).k.sems[id] == KS.SemAfter(y.k, c, id)
  {
    forall s | 0 <= s < NSEM && y.k.sems[s].used ensures K.Step(y, c).k.sems[s] == KS.SemAfter(y.k, c, s) {
      KS.SemEffect(y, c, s);
    }
  }

  lemma SemOfSame(sems: SemTable, sems': SemTable, id: int, h: Handle)
    requires SameBut(sems, sems', id) && Held(sems, h) && h != Open(id)
    ensures SemOf(sems', h) == SemOf(sems, h) && Held(sems', h)
  {}

  /** The entry has the semaphore id. */
  predicate Owns(e: Entry, id: int) { e.ssem == Open(id) || e.rsem == Open(id) }

  lemma OthersSame(sems: SemTable, sems': SemTable, ports: seq<Entry>, i: int, id: int, j: int)
    requires HandlesOk(sems, ports) && SameBut(sems, sems', id) && 0 <= i < |ports| && Owns(ports[i], id)
    requires 0 <= j < |ports| && j != i
    ensures PortOf(sems', ports[j]) == PortOf(sems, ports[j]) && Held(sems', ports[j].ssem) && Held(sems', ports[j].rsem)
  {
    assert NoneShared(ports[i], ports[j]) || NoneShared(ports[j], ports[i]);
    SemOfSame(sems, sems', id, ports[j].ssem);
    SemOfSame(sems, sems', id, ports[j].rsem);
  }

  lemma CurrNotQueued(k: KSpec.Kern, s: int)
    requires KI.Inv(k) && 0 <= s < NSEM
    ensures k.curr !in k.sems[s].queue
  {
    assert KI.QueueHolds(k.procs, k.sems[s].queue, NPROC, s);
  }

  predicate OnEntry(a: Activity, i: int) { a != Out && a.port == i }

  /** A process on another port, or on none, is where it was. */
  lemma PhaseElsewhere(sems: SemTable, sems': SemTable, ports: seq<Entry>, ports': seq<Entry>, i: int, id: int,
                       a: Activity, q: Pid)
    requires |ports| == |ports'| == NPORTS && HandlesOk(sems, ports) && SameBut(sems, sems', id)
    requires 0 <= i < NPORTS && Owns(ports[i], id) && ports' == ports[i := ports'[i]]
    requires !OnEntry(a, i)
    ensures PhaseOf(sems', ports', a, q) == PhaseOf(sems, ports, a, q)
  {
    if a != Out && 0 <= a.port < NPORTS { OthersSame(sems, sems', ports, i, id, a.port); }
  }

  /** On the port itself, whoever is let through is no longer on the queue. */
  lemma PhaseHere(sems: SemTable, sems': SemTable, ports: seq<Entry>, ports': seq<Entry>, i: int, a: Activity, q: Pid)
    requires |ports| == |ports'| == NPORTS && 0 <= i < NPORTS && OnEntry(a, i)
    requires q in SemOf(sems', ports'[i].ssem).queue <==> q in SemOf(sems, ports[i].ssem).queue
    requires q in SemOf(sems', ports'[i].rsem).queue <==> q in SemOf(sems, ports[i].rsem).queue
    ensures PhaseOf(sems', ports', a, q) == PhaseOf(sems, ports, a, q)
  {}

  /** The part of WInv that a step at one port is seen through. */
  ghost predicate Plain(w: World) {
    Sound(w) && HandlesOk(w.sys.k.sems, w.ports) && Shaped(Abs(w))
  }

  /** What a call at port i leaves of the other ports and of the processes on them. */
  lemma Elsewhere(w: World, w': World, i: int, id: int, p: Pid)
    requires Plain(w) && Sound(w') && 0 <= i < NPORTS && Owns(w.ports[i], id)
    requires SameBut(w.sys.k.sems, w'.sys.k.sems, id) && w'.ports == w.ports[i := w'.ports[i]]
    requires forall q: Pid :: q != p ==> w'.calls[q] == w.calls[q]
    ensures forall j :: 0 <= j < NPORTS && j != i ==> Abs(w').ports[j] == Abs(w).ports[j]
    ensures forall q: Pid :: q != p && !OnEntry(w.calls[q], i) ==> Abs(w').phases[q] == Abs(w).phases[q]
  {
    var sems: SemTable, sems': SemTable := w.sys.k.sems, w'.sys.k.sems;
    forall j | 0 <= j < NPORTS && j != i ensures Abs(w').ports[j] == Abs(w).ports[j] {
      OthersSame(sems, sems', w.ports, i, id, j);
    }
    forall q: Pid | q != p && !OnEntry(w.calls[q], i) ensures Abs(w').phases[q] == Abs(w).phases[q] {
      PhaseElsewhere(sems, sems', w.ports, w'.ports, i, id, w.calls[q], q);
    }
  }

  /** The handle of a port that is not the one operated on keeps its semaphore. */
  lemma OtherRole(sems: SemTable, sems': SemTable, ports: seq<Entry>, i: int, id: int)
    requires HandlesOk(sems, ports) && SameBut(sems, sems', id) && 0 <= i < |ports|
    ensures ports[i].ssem == Open(id) ==> SemOf(sems', ports[i].rsem) == SemOf(sems, ports[i].rsem)
    ensures ports[i].rsem == Open(id) ==> SemOf(sems', ports[i].ssem) == SemOf(sems, ports[i].ssem)
  {}

  /** y' is what PortSpec makes of port i and of the processes on it; all else is as before. */
  lemma AbsStep(w: World, w': World, i: int, id: int, p: Pid, y: Sys, y': Sys)
    requires Plain(w) && y == Abs(w) && Sound(w') && 0 <= i < NPORTS && Owns(w.ports[i], id)
    requires SameBut(w.sys.k.sems, w'.sys.k.sems, id) && w'.ports == w.ports[i := w'.ports[i]]
    requires forall q: Pid :: q != p ==> w'.calls[q] == w.calls[q]
    requires |y'.ports| == NPORTS && |y'.phases| == NPROC
    requires y'.free == w'.free && y'.payload == w'.payload && y'.nextid == w'.nextid
    requires y'.ports[i] == PortOf(w'.sys.k.sems, w'.ports[i])
    requires forall j :: 0 <= j < NPORTS && j != i ==> y'.ports[j] == y.ports[j]
    requires forall q: Pid :: q == p || OnEntry(w.calls[q], i) ==>
      y'.phases[q] == PhaseOf(w'.sys.k.sems, w'.ports, w'.calls[q], q)
    requires forall q: Pid :: q != p && !OnEntry(w.calls[q], i) ==> y'.phases[q] == y.phases[q]
    ensures Abs(w') == y'
  {
    Elsewhere(w, w', i, id, p);
    AbsIs(w', y');
  }

  /** q is inside ptsend, or ptrecv, on port i. */
  predicate OnRole(a: Activity, sender: bool, i: int) {
    if sender then a.InSend? && a.port == i else a.InRecv? && a.port == i
  }

  // ---- wait ----

  /** The caller has waited on the semaphore id of port i. */
  ghost predicate Waited(w: World, w': World, i: int, id: int, a: Activity)
    requires Sound(w) && Sound(w')
  {
    && SameBut(w.sys.k.sems, w'.sys.k.sems, id) && 0 <= id < NSEM
    && w'.sys.k.sems[id] == Down(w.sys.k.sems[id], Caller(w)) && Caller(w) !in w.sys.k.sems[id].queue
    && w' == w.(sys := w'.sys, calls := w.calls[Caller(w) := a])
  }

  lemma WaitedIs(w: World, i: int, id: int, a: Activity)
    requires Sound(w) && K.Good(w.sys) && 0 <= i < NPORTS && 0 <= id < NSEM && w.sys.k.sems[id].used
    ensures Waited(w, SetCall(Call(w, K.CWait(id)), Caller(w), a), i, id, a)
  {
    CallIs(w.sys, K.CWait(id), id);
    CurrNotQueued(w.sys.k, id);
  }

  lemma SendWaitedAbs(w: World, w': World, i: int, id: int, msg: int, y: Sys, y': Sys)
    requires Plain(w) && !BadPort(w, i) && w.ports[i].ssem == Open(id) && Sound(w') && y == Abs(w)
    requires Waited(w, w', i, id, InSend(i, w.ports[i].seqno, msg))
    requires y' == PortSpec.SendEnter(y, Caller(w), i, msg).0
    ensures Abs(w') == y'
  {
    OtherRole(w.sys.k.sems, w'.sys.k.sems, w.ports, i, id);
    AbsStep(w, w', i, id, Caller(w), y, y');
  }

  lemma RecvWaitedAbs(w: World, w': World, i: int, id: int, y: Sys, y': Sys)
    requires Plain(w) && !BadPort(w, i) && w.ports[i].rsem == Open(id) && Sound(w') && y == Abs(w)
    requires Waited(w, w', i, id, InRecv(i, w.ports[i].seqno))
    requires y' == PortSpec.RecvEnter(y, Caller(w), i).0
    ensures Abs(w') == y'
  {
    OtherRole(w.sys.k.sems, w'.sys.k.sems, w.ports, i, id);
    AbsStep(w, w', i, id, Caller(w), y, y');
  }

  // ---- signal ----

  /** The caller has left its call and signalled the semaphore id of port i, whose entry is now e. */
  ghost predicate Signalled(w: World, w': World, i: int, id: int, e: Entry)
    requires Sound(w) && Sound(w')
  {
    && SameBut(w.sys.k.sems, w'.sys.k.sems, id) && 0 <= id < NSEM && 0 <= i < NPORTS
    && w'.sys.k.sems[id] == Up(w.sys.k.sems[id]) && w'.calls == w.calls[Caller(w) := Out]
    && w'.ports == w.ports[i := e] && w'.nextid == w.nextid
  }

  lemma SignalledIs(w: World, w1: World, i: int, id: int, e: Entry)
    requires Sound(w) && K.Good(w.sys) && 0 <= i < NPORTS && 0 <= id < NSEM && w.sys.k.sems[id].used && Sound(w1)
    requires w1.sys == w.sys && w1.ports == w.ports[i := e] && w1.calls == w.calls && w1.nextid == w.nextid
    ensures Signalled(w, SetCall(Call(w1, K.CSignal(id)), Caller(w), Out), i, id, e)
  {
    CallIs(w.sys, K.CSignal(id), id);
  }

  /** Whom signal releases leaves the queue, and nobody else. */
  lemma UpQueue(v: Sem)
    requires NoDup(v.queue)
    ensures forall q: Pid :: q in Up(v).queue <==> q in v.queue && q !in Released(v)
  {
    if Released(v) != [] {
      assert v.queue == [v.queue[0]] + v.queue[1..];
      forall q: Pid | q in v.queue[1..] ensures q != v.queue[0] {
        var j :| 0 <= j < |v.queue[1..]| && v.queue[1..][j] == q;
        assert v.queue[j + 1] == q;
      }
    }
  }

  /** The queues of port i repeat nobody, and hold senders and receivers of that port. */
  ghost predicate Lined(w: World, i: int)
    requires Sound(w) && 0 <= i < NPORTS
  {
    var v := PortOf(w.sys.k.sems, w.ports[i]);
    && NoDup(v.ssem.queue) && NoDup(v.rsem.queue)
    && (forall q: Pid :: q in v.ssem.queue ==> OnRole(w.calls[q], true, i))
    && (forall q: Pid :: q in v.rsem.queue ==> OnRole(w.calls[q], false, i))
  }

  lemma LinedUp(w: World, i: int)
    requires WInv(w) && 0 <= i < NPORTS
    ensures Lined(w, i)
  {
    var y := Abs(w);
    assert PortOk(y.phases, y.payload, i, y.ports[i]);
  }

  function RoleSem(sems: SemTable, e: Entry, sender: bool): (v: Sem) { SemOf(sems, if sender then e.ssem else e.rsem) }

  /** Whoever signal releases is let through; the others on the port stay as they are. */
  lemma PhaseSignalled(sems: SemTable, sems': SemTable, ports: seq<Entry>, ports': seq<Entry>, i: int, sender: bool,
                       a: Activity, q: Pid)
    requires |ports| == |ports'| == NPORTS && 0 <= i < NPORTS && OnEntry(a, i)
    requires var v := RoleSem(sems, ports[i], sender);
      && RoleSem(sems', ports'[i], sender) == Up(v) && NoDup(v.queue) && (q in v.queue ==> OnRole(a, sender, i))
    requires RoleSem(sems', ports'[i], !sender) == RoleSem(sems, ports[i], !sender)
    ensures PhaseOf(sems', ports', a, q) ==
      if q in Released(RoleSem(sems, ports[i], sender)) then Granted(PhaseOf(sems, ports, a, q)) else PhaseOf(sems, ports, a, q)
  {
    UpQueue(RoleSem(sems, ports[i], sender));
  }

  /** A port call that ends with a signal of one semaphore of port i. */
  lemma SignalledAbs(w: World, w': World, i: int, id: int, e: Entry, sender: bool, y: Sys, y': Sys)
    requires Plain(w) && Sound(w') && y == Abs(w) && Signalled(w, w', i, id, e) && Lined(w, i)
    requires Caller(w) !in w.sys.k.sems[id].queue && (if sender then w.ports[i].ssem else w.ports[i].rsem) == Open(id)
    requires e.ssem == w.ports[i].ssem && e.rsem == w.ports[i].rsem
    requires |y'.ports| == NPORTS && |y'.phases| == NPROC && y'.nextid == y.nextid && y'.payload == w'.payload
    requires y'.free == w'.free && y'.ports == y.ports[i := PortOf(w'.sys.k.sems, e)]
    requires y'.phases == Grant(y.phases[Caller(w) := Idle], Released(w.sys.k.sems[id]))
    ensures Abs(w') == y'
  {
    var p, sems: SemTable, sems': SemTable := Caller(w), w.sys.k.sems, w'.sys.k.sems;
    OtherRole(sems, sems', w.ports, i, id);
    forall q: Pid | q != p && OnEntry(w.calls[q], i) ensures y'.phases[q] == PhaseOf(sems', w'.ports, w'.calls[q], q) {
      PhaseSignalled(sems, sems', w.ports, w'.ports, i, sender, w.calls[q], q);
    }
    AbsStep(w, w', i, id, p, y, y');
  }

  lemma SendSignalledAbs(w: World, w': World, i: int, id: int, a: Activity, e: Entry, y: Sys, y': Sys)
    requires Plain(w) && 0 <= i < NPORTS && Lined(w, i) && Sound(w') && y == Abs(w) && a == w.calls[Caller(w)]
    requires a.InSend? && a.port == i && w.ports[i].rsem == Open(id) && 0 <= id < NSEM
    requires Caller(w) !in w.sys.k.sems[id].queue && !Cleared(w.ports[i], a.seqno) && w.free != []
    requires e == w.ports[i].(queue := w.ports[i].queue + [w.free[0]], sent := w.ports[i].sent + [a.msg])
    requires Signalled(w, w', i, id, e) && w'.free == w.free[1..] && w'.payload == Store(w.payload, w.free[0], a.msg)
    requires y.phases[Caller(w)].Sending? && y' == PortSpec.SendFinish(y, Caller(w)).0
    ensures Abs(w') == y'
  {
    OtherRole(w.sys.k.sems, w'.sys.k.sems, w.ports, i, id);
    assert y'.ports[i] == PortOf(w'.sys.k.sems, e);
    SignalledAbs(w, w', i, id, e, false, y, y');
  }

  lemma RecvSignalledAbs(w: World, w': World, i: int, id: int, a: Activity, e: Entry, y: Sys, y': Sys)
    requires Plain(w) && 0 <= i < NPORTS && Lined(w, i) && Sound(w') && y == Abs(w) && a == w.calls[Caller(w)]
    requires a.InRecv? && a.port == i && w.ports[i].ssem == Open(id) && 0 <= id < NSEM
    requires Caller(w) !in w.sys.k.sems[id].queue && !Cleared(w.ports[i], a.seqno) && w.ports[i].queue != []
    requires var f := w.ports[i]; e == f.(queue := f.queue[1..], got := f.got + [Load(w.payload, f.queue[0])])
    requires Signalled(w, w', i, id, e) && w'.free == [w.ports[i].queue[0]] + w.free && w'.payload == w.payload
    requires y.phases[Caller(w)].Receiving? && y' == PortSpec.RecvFinish(y, Caller(w)).0
    ensures Abs(w') == y'
  {
    OtherRole(w.sys.k.sems, w'.sys.k.sems, w.ports, i, id);
    assert y'.ports[i] == PortOf(w'.sys.k.sems, e);
    SignalledAbs(w, w', i, id, e, true, y, y');
  }

  // ---- release of all waiters ----

  /** All waiters of the semaphore id of port i were released; its entry is now e, and the caller's call a. */
  ghost predicate Flushed(w: World, w': World, i: int, id: int, newstate: PortState, count: int, e: Entry, a: Activity)
    requires Sound(w) && Sound(w')
  {
    && SameBut(w.sys.k.sems, w'.sys.k.sems, id) && 0 <= id < NSEM && 0 <= i < NPORTS
    && w'.sys.k.sems[id] == Emptied(w.sys.k.sems[id], newstate, count)
    && w'.calls == w.calls[Caller(w) := a] && w'.ports == w.ports[i := e] && w'.nextid == w.nextid && w'.payload == w.payload
  }

  lemma FlushedIs(w: World, w1: World, i: int, id: int, newstate: PortState, count: nat, e: Entry, a: Activity)
    requires Sound(w) && K.Good(w.sys) && 0 <= i < NPORTS && 0 <= id < NSEM && w.sys.k.sems[id].used && Sound(w1)
    requires newstate == PtAlloc || newstate == PtFree
    requires w1.sys == w.sys && w1.ports == w.ports[i := e] && w1.calls == w.calls
    requires w1.nextid == w.nextid && w1.payload == w.payload
    ensures Flushed(w, SetCall(Call(w1, ReleaseCall(id, newstate, count)), Caller(w), a), i, id, newstate, count, e, a)
  {
    CallIs(w.sys, ReleaseCall(id, newstate, count), id);
  }

  /** Everybody who waited on that semaphore of the port is let through; the others on the port stay as they are. */
  lemma PhaseFlushed(sems: SemTable, sems': SemTable, ports: seq<Entry>, ports': seq<Entry>, i: int, sender: bool,
                     a: Activity, q: Pid)
    requires |ports| == |ports'| == NPORTS && 0 <= i < NPORTS && OnEntry(a, i)
    requires RoleSem(sems', ports'[i], sender).queue == []
    requires RoleSem(sems', ports'[i], !sender) == RoleSem(sems, ports[i], !sender)
    requires q in RoleSem(sems, ports[i], sender).queue ==> OnRole(a, sender, i)
    ensures PhaseOf(sems', ports', a, q) ==
      if q in RoleSem(sems, ports[i], sender).queue then Granted(PhaseOf(sems, ports, a, q)) else PhaseOf(sems, ports, a, q)
  {}

  /** A port call that releases all waiters of one semaphore of port i. */
  lemma FlushedAbs(w: World, w': World, i: int, id: int, newstate: PortState, count: int, e: Entry, a: Activity, sender: bool,
                   y: Sys, y': Sys)
    requires Plain(w) && Sound(w') && y == Abs(w) && Flushed(w, w', i, id, newstate, count, e, a)
    requires Lined(w, i) && Caller(w) !in w.sys.k.sems[id].queue
    requires (if sender then w.ports[i].ssem else w.ports[i].rsem) == Open(id)
    requires RoleSem(w'.sys.k.sems, e, sender).queue == []
    requires RoleSem(w'.sys.k.sems, e, !sender) == RoleSem(w.sys.k.sems, w.ports[i], !sender)
    requires |y'.ports| == NPORTS && |y'.phases| == NPROC && y'.nextid == y.nextid && y'.payload == y.payload
    requires y'.free == w'.free && y'.ports == y.ports[i := PortOf(w'.sys.k.sems, e)]
    requires y'.phases == Grant(y.phases[Caller(w) := PhaseOf(w'.sys.k.sems, w'.ports, a, Caller(w))],
                                RoleSem(w.sys.k.sems, w.ports[i], sender).queue)
    requires a.InClear?
    ensures Abs(w') == y'
  {
    var p, sems: SemTable, sems': SemTable := Caller(w), w.sys.k.sems, w'.sys.k.sems;
    forall q: Pid | q != p && OnEntry(w.calls[q], i) ensures y'.phases[q] == PhaseOf(sems', w'.ports, w'.calls[q], q) {
      PhaseFlushed(sems, sems', w.ports, w'.ports, i, sender, w.calls[q], q);
    }
    AbsStep(w, w', i, id, p, y, y');
  }

  lemma ReleasedSem(sems: SemTable, sems': SemTable, id: int, newstate: PortState, count: int)
    requires 0 <= id < NSEM && sems'[id] == Emptied(sems[id], newstate, count)
    requires newstate == PtAlloc || newstate == PtFree
    ensures SemOf(sems', ReleasedHandle(sems, Open(id), newstate)) == Emptied(sems[id], newstate, count)
    ensures Emptied(sems[id], newstate, count).queue == []
  {}

  lemma ClearEnterAbs(w: World, w': World, i: int, id: int, newstate: PortState, e: Entry, y: Sys, y': Sys)
    requires Plain(w) && 0 <= id < NSEM && !BadPort(w, i) && Lined(w, i) && Caller(w) !in w.sys.k.sems[id].queue
    requires w.ports[i].ssem == Open(id) && Sound(w') && y == Abs(w)
    requires newstate == PtAlloc || newstate == PtFree
    requires var f := w.ports[i];
      e == f.(state := PtLimbo, seqno := f.seqno + 1, queue := [], sent := [], got := [],
              ssem := ReleasedHandle(w.sys.k.sems, f.ssem, newstate))
    requires Flushed(w, w', i, id, newstate, e.maxcnt, e, InClear(i, newstate, false))
    requires w'.free == w.ports[i].queue + w.free
    requires y' == PortSpec.ClearEnter(y, Caller(w), i, newstate).0
    ensures Abs(w') == y'
  {
    OtherRole(w.sys.k.sems, w'.sys.k.sems, w.ports, i, id);
    ReleasedSem(w.sys.k.sems, w'.sys.k.sems, id, newstate, e.maxcnt);
    assert y'.ports[i] == PortOf(w'.sys.k.sems, e);
    FlushedAbs(w, w', i, id, newstate, e.maxcnt, e, InClear(i, newstate, false), true, y, y');
  }

  lemma ClearHalfAbs(w: World, w': World, i: int, id: int, newstate: PortState, e: Entry, y: Sys, y': Sys)
    requires Plain(w) && 0 <= i < NPORTS && 0 <= id < NSEM && Lined(w, i) && Caller(w) !in w.sys.k.sems[id].queue
    requires w.calls[Caller(w)] == InClear(i, newstate, false) && w.ports[i].rsem == Open(id)
    requires newstate == PtAlloc || newstate == PtFree
    requires Sound(w') && y == Abs(w) && y.phases[Caller(w)].Clearing?
    requires e == w.ports[i].(rsem := ReleasedHandle(w.sys.k.sems, w.ports[i].rsem, newstate))
    requires Flushed(w, w', i, id, newstate, 0, e, InClear(i, newstate, true)) && w'.free == w.free
    requires y' == PortSpec.ClearHalf(y, Caller(w)).0
    ensures Abs(w') == y'
  {
    OtherRole(w.sys.k.sems, w'.sys.k.sems, w.ports, i, id);
    ReleasedSem(w.sys.k.sems, w'.sys.k.sems, id, newstate, 0);
    assert y'.ports[i] == PortOf(w'.sys.k.sems, e);
    FlushedAbs(w, w', i, id, newstate, 0, e, InClear(i, newstate, true), false, y, y');
  }

  // ---- what a step leaves in order ----

  /** Handles after a step at port i: those it had, unless its semaphore was deleted and its handle closed. */
  lemma HandlesAfter(sems: SemTable, sems': SemTable, ports: seq<Entry>, ports': seq<Entry>, i: int, id: int)
    requires HandlesOk(sems, ports) && |ports'| == |ports| && SameBut(sems, sems', id) && 0 <= i < |ports|
    requires Owns(ports[i], id) && ports' == ports[i := ports'[i]]
    requires ports'[i].ssem == ports[i].ssem || (ports'[i].ssem.Closed? && ports'[i].ssem.last.queue == [])
    requires ports'[i].rsem == ports[i].rsem || (ports'[i].rsem.Closed? && ports'[i].rsem.last.queue == [])
    requires 0 <= id < NSEM && (sems'[id].used || !Owns(ports'[i], id))
    ensures HandlesOk(sems', ports')
  {
    forall j | 0 <= j < |ports'| && j != i ensures Held(sems', ports'[j].ssem) && Held(sems', ports'[j].rsem) {
      OthersSame(sems, sems', ports, i, id, j);
    }
  }

  /** Only handles matter to whoever clears a port. */
  lemma ClearersKept(w: World, w': World, i: int, p: Pid)
    requires Sound(w) && Sound(w') && 0 <= i < NPORTS && w'.ports == w.ports[i := w'.ports[i]]
    requires forall q: Pid :: ClearOk(w.ports, w.calls[q])
    requires forall q: Pid :: q != p ==> w'.calls[q] == w.calls[q]
    requires ClearOk(w'.ports, w'.calls[p])
    requires (w'.ports[i].ssem == w.ports[i].ssem && w'.ports[i].rsem == w.ports[i].rsem)
      || forall q: Pid :: q != p ==> !(w.calls[q].InClear? && w.calls[q].port == i)
    ensures forall q: Pid :: ClearOk(w'.ports, w'.calls[q])
  {
    forall q: Pid | q != p ensures ClearOk(w'.ports, w'.calls[q]) {
      assert ClearOk(w.ports, w.calls[q]);
    }
  }

  /** A step of process p at port i with its semaphore id: the port keeps its semaphores. */
  ghost predicate Stepped(w: World, w': World, i: int, id: int, p: Pid)
    requires Sound(w) && Sound(w')
  {
    && 0 <= i < NPORTS && 0 <= id < NSEM && Owns(w.ports[i], id) && SameBut(w.sys.k.sems, w'.sys.k.sems, id)
    && w'.ports == w.ports[i := w'.ports[i]] && EntryOk(w'.ports[i]) && w'.sys.k.sems[id].used
    && w'.ports[i].ssem == w.ports[i].ssem && w'.ports[i].rsem == w.ports[i].rsem
    && (forall q: Pid :: q != p ==> w'.calls[q] == w.calls[q]) && !w'.calls[p].InClear?
  }

  /** Such a step leaves the system in order when it does so to the ports. */
  lemma StepWorld(w: World, w': World, i: int, id: int, p: Pid)
    requires WInv(w) && Sound(w') && K.Good(w'.sys) && Inv(Abs(w')) && Stepped(w, w', i, id, p)
    ensures WInv(w')
  {
    HandlesAfter(w.sys.k.sems, w'.sys.k.sems, w.ports, w'.ports, i, id);
    ClearersKept(w, w', i, p);
  }

  /** A step of the process p that clears port i, or begins to: its semaphore id may be gone. */
  ghost predicate Closing(w: World, w': World, i: int, id: int, p: Pid)
    requires Sound(w) && Sound(w')
  {
    && 0 <= i < NPORTS && 0 <= id < NSEM && Owns(w.ports[i], id) && SameBut(w.sys.k.sems, w'.sys.k.sems, id)
    && w'.ports == w.ports[i := w'.ports[i]] && w'.ports[i].state != PtAlloc
    && (w'.ports[i].ssem == w.ports[i].ssem || (w'.ports[i].ssem.Closed? && w'.ports[i].ssem.last.queue == []))
    && (w'.ports[i].rsem == w.ports[i].rsem || (w'.ports[i].rsem.Closed? && w'.ports[i].rsem.last.queue == []))
    && (w'.sys.k.sems[id].used || !Owns(w'.ports[i], id))
    && (forall q: Pid :: q != p ==> w'.calls[q] == w.calls[q]) && ClearOk(w'.ports, w'.calls[p])
    && (w.ports[i].state == PtAlloc || (w.calls[p].InClear? && w.calls[p].port == i))
  }

  lemma StepClearing(w: World, w': World, i: int, id: int, p: Pid)
    requires WInv(w) && Sound(w') && K.Good(w'.sys) && Inv(Abs(w')) && Closing(w, w', i, id, p)
    ensures WInv(w')
  {
    HandlesAfter(w.sys.k.sems, w'.sys.k.sems, w.ports, w'.ports, i, id);
    OnlyClearer(w, i, p);
    ClearersKept(w, w', i, p);
  }

  lemma OnlyClearer(w: World, i: int, p: Pid)
    requires WInv(w) && 0 <= i < NPORTS && (w.ports[i].state == PtAlloc || (w.calls[p].InClear? && w.calls[p].port == i))
    ensures forall q: Pid :: q != p ==> !(w.calls[q].InClear? && w.calls[q].port == i)
  {
    forall q: Pid | q != p && w.calls[q].InClear? ensures w.calls[q].port != i {
      if w.calls[q].port == i { OneClearer(w, i, p, q); }
    }
  }

  /** An allocated port has no clearer, a port being cleared has no other. */
  lemma OneClearer(w: World, i: int, p: Pid, q: Pid)
    requires WInv(w) && 0 <= i < NPORTS && q != p && w.calls[q].InClear? && w.calls[q].port == i
    ensures w.ports[i].state != PtAlloc && !(w.calls[p].InClear? && w.calls[p].port == i)
  {
    var y := Abs(w);
    assert PortOk(y.phases, y.payload, i, y.ports[i]);
    assert ClearsPort(y.phases[q], i);
    assert w.calls[p].InClear? && w.calls[p].port == i <==> ClearsPort(y.phases[p], i);
  }

  /** The current process is on no queue of any port. */
  lemma CallerThrough(w: World, i: int)
    requires WInv(w) && 0 <= i < NPORTS
    ensures Caller(w) !in SemOf(w.sys.k.sems, w.ports[i].ssem).queue
    ensures Caller(w) !in SemOf(w.sys.k.sems, w.ports[i].rsem).queue
  {
    var sems: SemTable, e := w.sys.k.sems, w.ports[i];
    assert Held(sems, e.ssem) && Held(sems, e.rsem);
    if e.ssem.Open? { CurrNotQueued(w.sys.k, e.ssem.id); }
    if e.rsem.Open? { CurrNotQueued(w.sys.k, e.rsem.id); }
  }

  // ---- each step of the system is one of PortSpec, or none ----

  lemma PlainIs(w: World)
    requires WInv(w)
    ensures Plain(w)
  {}

  /** The semaphore of a port, on which its caller is not queued. */
  lemma RoleId(w: World, i: int, sender: bool) returns (id: int)
    requires WInv(w) && 0 <= i < NPORTS && (if sender then w.ports[i].ssem else w.ports[i].rsem).Open?
    ensures (if sender then w.ports[i].ssem else w.ports[i].rsem) == Open(id) && Owns(w.ports[i], id)
    ensures 0 <= id < NSEM && w.sys.k.sems[id].used && Caller(w) !in w.sys.k.sems[id].queue
  {
    id := IdOf(if sender then w.ports[i].ssem else w.ports[i].rsem);
    assert Held(w.sys.k.sems, w.ports[i].ssem) && Held(w.sys.k.sems, w.ports[i].rsem);
    CurrNotQueued(w.sys.k, id);
  }

  lemma SendEnterStep(w: World, w': World, i: int, id: int, msg: int)
    requires Plain(w) && K.Good(w.sys) && !BadPort(w, i) && EntryOk(w.ports[i]) && w.ports[i].ssem == Open(id)
    requires 0 <= id < NSEM && w.sys.k.sems[id].used && w' == SendEnter(w, i, msg)
    ensures Stepped(w, w', i, id, Caller(w)) && Abs(w') == PortSpec.SendEnter(Abs(w), Caller(w), i, msg).0
  {
    WaitedIs(w, i, id, InSend(i, w.ports[i].seqno, msg));
    SendWaitedAbs(w, w', i, id, msg, Abs(w), PortSpec.SendEnter(Abs(w), Caller(w), i, msg).0);
  }

  lemma SendEnterSim(w: World, i: int, msg: int)
    requires WInv(w) && Enabled(w, ASendEnter(i, msg))
    ensures WInv(SendEnter(w, i, msg))
    ensures Abs(SendEnter(w, i, msg)) == PortSpec.SendEnter(Abs(w), Caller(w), i, msg).0
  {
    if !BadPort(w, i) {
      assert EntryOk(w.ports[i]);
      var id := RoleId(w, i, true);
      PlainIs(w);
      SendEnterStep(w, SendEnter(w, i, msg), i, id, msg);
      SendEnterInv(Abs(w), Caller(w), i, msg);
      K.StepGood(w.sys, K.CWait(id));
      StepWorld(w, SendEnter(w, i, msg), i, id, Caller(w));
    }
  }

  lemma RecvEnterStep(w: World, w': World, i: int, id: int)
    requires Plain(w) && K.Good(w.sys) && !BadPort(w, i) && EntryOk(w.ports[i]) && w.ports[i].rsem == Open(id)
    requires 0 <= id < NSEM && w.sys.k.sems[id].used && w' == RecvEnter(w, i)
    ensures Stepped(w, w', i, id, Caller(w)) && Abs(w') == PortSpec.RecvEnter(Abs(w), Caller(w), i).0
  {
    WaitedIs(w, i, id, InRecv(i, w.ports[i].seqno));
    RecvWaitedAbs(w, w', i, id, Abs(w), PortSpec.RecvEnter(Abs(w), Caller(w), i).0);
  }

  lemma RecvEnterSim(w: World, i: int)
    requires WInv(w) && Enabled(w, ARecvEnter(i))
    ensures WInv(RecvEnter(w, i))
    ensures Abs(RecvEnter(w, i)) == PortSpec.RecvEnter(Abs(w), Caller(w), i).0
  {
    if !BadPort(w, i) {
      assert EntryOk(w.ports[i]);
      var id := RoleId(w, i, false);
      PlainIs(w);
      RecvEnterStep(w, RecvEnter(w, i), i, id);
      RecvEnterInv(Abs(w), Caller(w), i);
      K.StepGood(w.sys, K.CWait(id));
      StepWorld(w, RecvEnter(w, i), i, id, Caller(w));
    }
  }

  /** A call that ends without having touched anything. */
  lemma LeaveSim(w: World, p: Pid)
    requires WInv(w) && Inv(SetPhase(Abs(w), p, Idle))
    ensures WInv(SetCall(w, p, Out)) && Abs(SetCall(w, p, Out)) == SetPhase(Abs(w), p, Idle)
  {
    var w' := SetCall(w, p, Out);
    AbsIs(w', SetPhase(Abs(w), p, Idle));
    ClearersKept(w, w', 0, p);
  }

  lemma SendFinishSim(w: World)
    requires WInv(w) && Enabled(w, ASendFinish)
    ensures WInv(SendFinish(w)) && Abs(w).phases[Caller(w)].Sending? && Abs(w).phases[Caller(w)].granted
    ensures Abs(SendFinish(w)) == PortSpec.SendFinish(Abs(w), Caller(w)).0
  {
    var p, a, y := Caller(w), w.calls[Caller(w)], Abs(w);
    CallerThrough(w, a.port);
    SendFinishInv(y, p);
    if Cleared(w.ports[a.port], a.seqno) {
      LeaveSim(w, p);
    } else if w.free != [] {
      SendFinishGo(w, SendFinish(w), a, a.port, PortSpec.SendFinish(y, p).0);
    }
  }

  lemma SendFinishStep(w: World, w': World, i: int, id: int, a: Activity)
    requires Plain(w) && K.Good(w.sys) && a == w.calls[Caller(w)] && a.InSend? && i == a.port && 0 <= i < NPORTS && Lined(w, i)
    requires EntryOk(w.ports[i]) && w.ports[i].rsem == Open(id) && 0 <= id < NSEM && w.sys.k.sems[id].used
    requires Caller(w) !in w.sys.k.sems[id].queue && !Cleared(w.ports[i], a.seqno) && w.free != [] && w' == SendFinish(w)
    ensures Stepped(w, w', i, id, Caller(w)) && Abs(w') == PortSpec.SendFinish(Abs(w), Caller(w)).0
  {
    var e := w.ports[i].(queue := w.ports[i].queue + [w.free[0]], sent := w.ports[i].sent + [a.msg]);
    var w1 := SetEntry(w, i, e).(free := w.free[1..], payload := Store(w.payload, w.free[0], a.msg));
    SignalledIs(w, w1, i, id, e);
    SendSignalledAbs(w, w', i, id, a, e, Abs(w), PortSpec.SendFinish(Abs(w), Caller(w)).0);
  }

  lemma SendFinishGo(w: World, w': World, a: Activity, i: int, y': Sys)
    requires WInv(w) && Enabled(w, ASendFinish) && a == w.calls[Caller(w)] && i == a.port && w' == SendFinish(w)
    requires !Cleared(w.ports[i], a.seqno) && w.free != []
    requires Abs(w).phases[Caller(w)].Sending? && y' == PortSpec.SendFinish(Abs(w), Caller(w)).0 && Inv(y')
    ensures WInv(w') && Abs(w') == y'
  {
    assert EntryOk(w.ports[i]);
    var id := RoleId(w, i, false);
    LinedUp(w, i);
    PlainIs(w);
    SendFinishStep(w, w', i, id, a);
    K.StepGood(w.sys, K.CSignal(id));
    StepWorld(w, w', i, id, Caller(w));
  }

  lemma RecvFinishSim(w: World)
    requires WInv(w) && Enabled(w, ARecvFinish)
    ensures WInv(RecvFinish(w)) && Abs(w).phases[Caller(w)].Receiving? && Abs(w).phases[Caller(w)].granted
    ensures Abs(RecvFinish(w)) == PortSpec.RecvFinish(Abs(w), Caller(w)).0
  {
    var p, a, y := Caller(w), w.calls[Caller(w)], Abs(w);
    CallerThrough(w, a.port);
    RecvFinishInv(y, p);
    if Cleared(w.ports[a.port], a.seqno) {
      LeaveSim(w, p);
    } else if w.ports[a.port].queue != [] {
      RecvFinishGo(w, RecvFinish(w), a, a.port, PortSpec.RecvFinish(y, p).0);
    }
  }

  lemma RecvFinishStep(w: World, w': World, i: int, id: int, a: Activity)
    requires Plain(w) && K.Good(w.sys) && a == w.calls[Caller(w)] && a.InRecv? && i == a.port && 0 <= i < NPORTS && Lined(w, i)
    requires EntryOk(w.ports[i]) && w.ports[i].ssem == Open(id) && 0 <= id < NSEM && w.sys.k.sems[id].used
    requires Caller(w) !in w.sys.k.sems[id].queue && !Cleared(w.ports[i], a.seqno) && w.ports[i].queue != []
    requires w' == RecvFinish(w)
    ensures Stepped(w, w', i, id, Caller(w)) && Abs(w') == PortSpec.RecvFinish(Abs(w), Caller(w)).0
  {
    var n := w.ports[i].queue[0];
    var e := w.ports[i].(queue := w.ports[i].queue[1..], got := w.ports[i].got + [Load(w.payload, n)]);
    SignalledIs(w, SetEntry(w, i, e).(free := [n] + w.free), i, id, e);
    RecvSignalledAbs(w, w', i, id, a, e, Abs(w), PortSpec.RecvFinish(Abs(w), Caller(w)).0);
  }

  lemma RecvFinishGo(w: World, w': World, a: Activity, i: int, y': Sys)
    requires WInv(w) && Enabled(w, ARecvFinish) && a == w.calls[Caller(w)] && i == a.port && w' == RecvFinish(w)
    requires !Cleared(w.ports[i], a.seqno) && w.ports[i].queue != []
    requires Abs(w).phases[Caller(w)].Receiving? && y' == PortSpec.RecvFinish(Abs(w), Caller(w)).0 && Inv(y')
    ensures WInv(w') && Abs(w') == y'
  {
    assert EntryOk(w.ports[i]);
    var id := RoleId(w, i, true);
    LinedUp(w, i);
    PlainIs(w);
    RecvFinishStep(w, w', i, id, a);
    K.StepGood(w.sys, K.CSignal(id));
    StepWorld(w, w', i, id, Caller(w));
  }

  lemma ClearEnterSim(w: World, i: int, newstate: PortState)
    requires WInv(w) && Enabled(w, AClearEnter(i, newstate))
    ensures WInv(ClearEnter(w, i, newstate))
    ensures Abs(ClearEnter(w, i, newstate)) == PortSpec.ClearEnter(Abs(w), Caller(w), i, newstate).0
  {
    if !BadPort(w, i) {
      ClearEnterGo(w, ClearEnter(w, i, newstate), i, newstate, PortSpec.ClearEnter(Abs(w), Caller(w), i, newstate).0);
    }
  }

  /** The entry and the table when a port enters limbo. */
  ghost predicate Entering(w: World, w': World, i: int, id: int, newstate: PortState, e: Entry)
    requires Sound(w) && Sound(w')
  {
    && 0 <= i < NPORTS && (newstate == PtAlloc || newstate == PtFree)
    && (var f := w.ports[i];
        e == f.(state := PtLimbo, seqno := f.seqno + 1, queue := [], sent := [], got := [],
                ssem := ReleasedHandle(w.sys.k.sems, f.ssem, newstate)))
    && Flushed(w, w', i, id, newstate, e.maxcnt, e, InClear(i, newstate, false)) && w'.free == w.ports[i].queue + w.free
  }

  /** ptclear's first half, in its parts. */
  lemma ClearEnterIs(w: World, i: int, id: int, newstate: PortState) returns (e: Entry, w1: World)
    requires Sound(w) && !BadPort(w, i) && w.ports[i].ssem == Open(id)
    ensures var f := w.ports[i];
      e == f.(state := PtLimbo, seqno := f.seqno + 1, queue := [], sent := [], got := [],
              ssem := ReleasedHandle(w.sys.k.sems, f.ssem, newstate))
    ensures Sound(w1) && w1 == w.(ports := w.ports[i := e], free := w.ports[i].queue + w.free)
    ensures ClearEnter(w, i, newstate)
      == SetCall(Call(w1, ReleaseCall(id, newstate, e.maxcnt)), Caller(w), InClear(i, newstate, false))
  {
    var f := w.ports[i];
    e := f.(state := PtLimbo, seqno := f.seqno + 1, queue := [], sent := [], got := [],
            ssem := ReleasedHandle(w.sys.k.sems, f.ssem, newstate));
    w1 := SetEntry(w, i, e).(free := f.queue + w.free);
  }

  lemma EnteringIs(w: World, w': World, i: int, id: int, newstate: PortState) returns (e: Entry)
    requires Sound(w) && K.Good(w.sys) && !BadPort(w, i) && w.ports[i].ssem == Open(id)
    requires 0 <= id < NSEM && w.sys.k.sems[id].used
    requires (newstate == PtAlloc || newstate == PtFree) && w' == ClearEnter(w, i, newstate)
    ensures Entering(w, w', i, id, newstate, e)
  {
    var w1;
    e, w1 := ClearEnterIs(w, i, id, newstate);
    FlushedIs(w, w1, i, id, newstate, e.maxcnt, e, InClear(i, newstate, false));
    FlushKeeps(w1, ReleaseCall(id, newstate, e.maxcnt), Caller(w), InClear(i, newstate, false));
  }

  lemma FlushKeeps(w: World, c: K.Call, p: Pid, a: Activity)
    requires Sound(w)
    ensures SetCall(Call(w, c), p, a).free == w.free
  {}

  lemma EnteringCloses(w: World, w': World, i: int, id: int, newstate: PortState, e: Entry)
    requires Plain(w) && Sound(w') && !BadPort(w, i) && EntryOk(w.ports[i]) && w.ports[i].ssem == Open(id)
    requires Entering(w, w', i, id, newstate, e) && w.sys.k.sems[id].used
    ensures Closing(w, w', i, id, Caller(w))
  {
    ReleasedSem(w.sys.k.sems, w'.sys.k.sems, id, newstate, e.maxcnt);
    OwnsOne(w.sys.k.sems, w.ports, i, id);
  }

  lemma ClearEnterGo(w: World, w': World, i: int, newstate: PortState, y': Sys)
    requires WInv(w) && Enabled(w, AClearEnter(i, newstate)) && !BadPort(w, i) && w' == ClearEnter(w, i, newstate)
    requires y' == PortSpec.ClearEnter(Abs(w), Caller(w), i, newstate).0
    ensures WInv(w') && Abs(w') == y'
  {
    assert EntryOk(w.ports[i]);
    var id := RoleId(w, i, true);
    ClearEnterInv(Abs(w), Caller(w), i, newstate);
    LinedUp(w, i);
    PlainIs(w);
    ClearEnterStep(w, w', i, id, newstate, Abs(w), y');
    K.StepGood(w.sys, ReleaseCall(id, newstate, w.ports[i].maxcnt));
    StepClearing(w, w', i, id, Caller(w));
  }

  lemma ClearEnterStep(w: World, w': World, i: int, id: int, newstate: PortState, y: Sys, y': Sys)
    requires Plain(w) && K.Good(w.sys) && !BadPort(w, i) && Lined(w, i) && EntryOk(w.ports[i]) && w.ports[i].ssem == Open(id)
    requires 0 <= id < NSEM && w.sys.k.sems[id].used && Caller(w) !in w.sys.k.sems[id].queue
    requires (newstate == PtAlloc || newstate == PtFree) && w' == ClearEnter(w, i, newstate)
    requires y == Abs(w) && y' == PortSpec.ClearEnter(y, Caller(w), i, newstate).0
    ensures Closing(w, w', i, id, Caller(w)) && Abs(w') == y'
  {
    var e := EnteringIs(w, w', i, id, newstate);
    ClearEnterAbs(w, w', i, id, newstate, e, y, y');
    EnteringCloses(w, w', i, id, newstate, e);
  }

  lemma OwnsOne(sems: SemTable, ports: seq<Entry>, i: int, id: int)
    requires HandlesOk(sems, ports) && 0 <= i < |ports|
    ensures ports[i].ssem == Open(id) ==> ports[i].rsem != Open(id)
  {}

  ghost predicate Halving(w: World, w': World, i: int, id: int, newstate: PortState, e: Entry)
    requires Sound(w) && Sound(w')
  {
    && 0 <= i < NPORTS && (newstate == PtAlloc || newstate == PtFree)
    && e == w.ports[i].(rsem := ReleasedHandle(w.sys.k.sems, w.ports[i].rsem, newstate))
    && Flushed(w, w', i, id, newstate, 0, e, InClear(i, newstate, true)) && w'.free == w.free
  }

  lemma HalvingIs(w: World, w': World, i: int, id: int, newstate: PortState) returns (e: Entry)
    requires Sound(w) && K.Good(w.sys) && 0 <= i < NPORTS && w.calls[Caller(w)] == InClear(i, newstate, false)
    requires w.ports[i].rsem == Open(id) && 0 <= id < NSEM && w.sys.k.sems[id].used
    requires (newstate == PtAlloc || newstate == PtFree) && w' == ClearHalf(w)
    ensures Halving(w, w', i, id, newstate, e)
  {
    e := w.ports[i].(rsem := ReleasedHandle(w.sys.k.sems, w.ports[i].rsem, newstate));
    FlushedIs(w, SetEntry(w, i, e), i, id, newstate, 0, e, InClear(i, newstate, true));
  }

  lemma HalvingCloses(w: World, w': World, i: int, id: int, newstate: PortState, e: Entry)
    requires Plain(w) && Sound(w') && Halving(w, w', i, id, newstate, e) && w.sys.k.sems[id].used
    requires w.calls[Caller(w)] == InClear(i, newstate, false) && w.ports[i].state == PtLimbo
    requires w.ports[i].rsem == Open(id) && (newstate == PtAlloc ==> w.ports[i].ssem.Open?)
    ensures Closing(w, w', i, id, Caller(w))
  {
    ReleasedSem(w.sys.k.sems, w'.sys.k.sems, id, newstate, 0);
    OwnsOne(w.sys.k.sems, w.ports, i, id);
  }

  lemma ClearHalfSim(w: World, y: Sys)
    requires WInv(w) && Enabled(w, AClearHalf) && y == Abs(w)
    ensures WInv(ClearHalf(w)) && y.phases[Caller(w)].Clearing? && !y.phases[Caller(w)].half
    ensures Abs(ClearHalf(w)) == PortSpec.ClearHalf(y, Caller(w)).0
  {
    ClearHalfGo(w, ClearHalf(w), w.calls[Caller(w)].port, w.calls[Caller(w)].newstate, y, PortSpec.ClearHalf(y, Caller(w)).0);
  }

  lemma ClearHalfGo(w: World, w': World, i: int, newstate: PortState, y: Sys, y': Sys)
    requires WInv(w) && Enabled(w, AClearHalf) && w.calls[Caller(w)] == InClear(i, newstate, false) && w' == ClearHalf(w)
    requires y == Abs(w) && y.phases[Caller(w)].Clearing? && y' == PortSpec.ClearHalf(y, Caller(w)).0
    ensures WInv(w') && Abs(w') == y'
  {
    assert ClearOk(w.ports, w.calls[Caller(w)]);
    ClearerIs(w, i);
    ClearHalfInv(y, Caller(w));
    var id := RoleId(w, i, false);
    LinedUp(w, i);
    PlainIs(w);
    ClearHalfStep(w, w', i, id, newstate, y, y');
    K.StepGood(w.sys, ReleaseCall(id, newstate, 0));
    StepClearing(w, w', i, id, Caller(w));
  }

  lemma ClearHalfStep(w: World, w': World, i: int, id: int, newstate: PortState, y: Sys, y': Sys)
    requires Plain(w) && K.Good(w.sys) && w.calls[Caller(w)] == InClear(i, newstate, false) && 0 <= i < NPORTS && Lined(w, i)
    requires w.ports[i].rsem == Open(id) && (newstate == PtAlloc ==> w.ports[i].ssem.Open?) && w.ports[i].state == PtLimbo
    requires 0 <= id < NSEM && w.sys.k.sems[id].used && Caller(w) !in w.sys.k.sems[id].queue
    requires (newstate == PtAlloc || newstate == PtFree) && w' == ClearHalf(w)
    requires y == Abs(w) && y.phases[Caller(w)].Clearing? && y' == PortSpec.ClearHalf(y, Caller(w)).0
    ensures Closing(w, w', i, id, Caller(w)) && Abs(w') == y'
  {
    var e := HalvingIs(w, w', i, id, newstate);
    ClearHalfAbs(w, w', i, id, newstate, e, y, y');
    HalvingCloses(w, w', i, id, newstate, e);
  }

  /** A port is cleared to be allocated again or to be free, and is in limbo meanwhile. */
  lemma ClearerIs(w: World, i: int)
    requires WInv(w) && 0 <= i < NPORTS && w.calls[Caller(w)].InClear? && w.calls[Caller(w)].port == i
    ensures w.calls[Caller(w)].newstate == PtAlloc || w.calls[Caller(w)].newstate == PtFree
    ensures w.ports[i].state == PtLimbo
  {
    var y := Abs(w);
    assert PortOk(y.phases, y.payload, i, y.ports[i]);
    assert ClearsPort(y.phases[Caller(w)], i);
  }

  lemma ClearFinishSim(w: World, y: Sys)
    requires WInv(w) && Enabled(w, AClearFinish) && y == Abs(w)
    ensures WInv(ClearFinish(w)) && y.phases[Caller(w)].Clearing? && y.phases[Caller(w)].half
    ensures Abs(ClearFinish(w)) == PortSpec.ClearFinish(y, Caller(w)).0
  {
    var p := Caller(w);
    PlainIs(w);
    ClearFinishAbs(w, ClearFinish(w), w.calls[p].port, p, y, PortSpec.ClearFinish(y, p).0);
    ClearFinishInv(y, p);
    ClearFinishWorld(w, ClearFinish(w), w.calls[p].port, p);
  }

  lemma ClearFinishAbs(w: World, w': World, i: int, p: Pid, y: Sys, y': Sys)
    requires Plain(w) && p == Caller(w) && w.calls[p].InClear? && i == w.calls[p].port && 0 <= i < NPORTS
    requires w' == ClearFinish(w) && y == Abs(w) && y.phases[p].Clearing? && y' == PortSpec.ClearFinish(y, p).0
    ensures Abs(w') == y'
  {
    AbsIs(w', y');
  }

  lemma ClearFinishWorld(w: World, w': World, i: int, p: Pid)
    requires WInv(w) && p == Caller(w) && w.calls[p].InClear? && w.calls[p].half && i == w.calls[p].port && 0 <= i < NPORTS
    requires w' == ClearFinish(w) && Inv(Abs(w'))
    ensures WInv(w')
  {
    assert ClearOk(w.ports, w.calls[p]);
    ClearFinishShape(w, w', i, p);
    SameHandles(w.sys.k.sems, w.ports, w'.ports, i);
    ClearersKept(w, w', i, p);
  }

  lemma ClearFinishShape(w: World, w': World, i: int, p: Pid)
    requires Sound(w) && p == Caller(w) && w.calls[p].InClear? && i == w.calls[p].port && 0 <= i < NPORTS
    requires w' == ClearFinish(w) && (w.calls[p].newstate == PtAlloc ==> w.ports[i].ssem.Open? && w.ports[i].rsem.Open?)
    ensures Sound(w') && w'.sys == w.sys && w'.ports == w.ports[i := w'.ports[i]] && EntryOk(w'.ports[i])
    ensures w'.ports[i].ssem == w.ports[i].ssem && w'.ports[i].rsem == w.ports[i].rsem && w'.calls == w.calls[p := Out]
  {}

  lemma SameHandles(sems: SemTable, ports: seq<Entry>, ports': seq<Entry>, i: int)
    requires HandlesOk(sems, ports) && 0 <= i < |ports| == |ports'| && ports' == ports[i := ports'[i]]
    requires ports'[i].ssem == ports[i].ssem && ports'[i].rsem == ports[i].rsem
    ensures HandlesOk(sems, ports')
  {}

  // ---- kernel calls that do not concern the ports ----

  /** No semaphore of a port changes. */
  ghost predicate Untouched(sems: SemTable, sems': SemTable, ports: seq<Entry>) {
    forall i :: 0 <= i < |ports| ==> SameSem(sems, sems', ports[i].ssem) && SameSem(sems, sems', ports[i].rsem)
  }

  predicate SameSem(sems: SemTable, sems': SemTable, h: Handle) { h.Open? && 0 <= h.id < NSEM ==> sems'[h.id] == sems[h.id] }

  lemma UntouchedWorld(w: World, w': World, y: Sys)
    requires WInv(w) && Sound(w') && K.Good(w'.sys) && Untouched(w.sys.k.sems, w'.sys.k.sems, w.ports)
    requires w' == w.(sys := w'.sys) && y == Abs(w)
    ensures WInv(w') && Abs(w') == y
  {
    AbsIs(w', y);
    UntouchedHandles(w.sys.k.sems, w'.sys.k.sems, w.ports);
  }

  lemma UntouchedHandles(sems: SemTable, sems': SemTable, ports: seq<Entry>)
    requires HandlesOk(sems, ports) && Untouched(sems, sems', ports)
    ensures HandlesOk(sems', ports)
  {
    forall i | 0 <= i < |ports| ensures Held(sems', ports[i].ssem) && Held(sems', ports[i].rsem) {
      assert Held(sems, ports[i].ssem) && Held(sems, ports[i].rsem);
      assert SameSem(sems, sems', ports[i].ssem) && SameSem(sems, sems', ports[i].rsem);
    }
  }

  /** Who waits on a semaphore of a port is inside a call of it. */
  lemma WaitersInside(w: World, i: int, id: int)
    requires WInv(w) && 0 <= i < NPORTS && Owns(w.ports[i], id) && 0 <= id < NSEM
    ensures forall p: Pid :: p in w.sys.k.sems[id].queue ==> w.calls[p] != Out
  {
    LinedUp(w, i);
  }

  /** A kernel call that is not about the semaphore s leaves it alone. */
  lemma AfterSame(k: KSpec.Kern, c: K.Call, s: int)
    requires KSpec.Sized(k) && 0 <= s < NSEM && (NamesSem(c) ==> c.s != s) && !KS.KillsWaiter(k, c, s)
    ensures KS.SemAfter(k, c, s) == k.sems[s]
  {}

  lemma KernTouches(w: World, c: K.Call, i: int, id: int)
    requires WInv(w) && Enabled(w, AKern(c)) && 0 <= i < NPORTS && Owns(w.ports[i], id)
    ensures 0 <= id < NSEM && K.Step(w.sys, c).k.sems[id] == w.sys.k.sems[id]
  {
    assert Held(w.sys.k.sems, w.ports[i].ssem) && Held(w.sys.k.sems, w.ports[i].rsem);
    WaitersInside(w, i, id);
    KilledQueued(w.sys.k, c, id);
    KS.SemEffect(w.sys, c, id);
    AfterSame(w.sys.k, c, id);
  }

  lemma KilledQueued(k: KSpec.Kern, c: K.Call, s: int)
    requires KI.Inv(k) && 0 <= s < NSEM
    ensures KS.KillsWaiter(k, c, s) ==> 0 <= c.p < NPROC && c.p in k.sems[s].queue
  {
    assert KI.QueueHolds(k.procs, k.sems[s].queue, NPROC, s);
  }

  lemma KernSim(w: World, c: K.Call)
    requires WInv(w) && Enabled(w, AKern(c))
    ensures WInv(Call(w, c)) && Abs(Call(w, c)) == Abs(w)
  {
    var w' := Call(w, c);
    forall i | 0 <= i < NPORTS
      ensures SameSem(w.sys.k.sems, w'.sys.k.sems, w.ports[i].ssem) && SameSem(w.sys.k.sems, w'.sys.k.sems, w.ports[i].rsem)
    {
      if w.ports[i].ssem.Open? { KernTouches(w, c, i, w.ports[i].ssem.id); }
      if w.ports[i].rsem.Open? { KernTouches(w, c, i, w.ports[i].rsem.id); }
    }
    K.StepGood(w.sys, c);
    UntouchedWorld(w, w', Abs(w));
  }

  // ---- kill of a process inside a port call ----

  /** A semaphore of a port on which q is not queued is not touched by the kill of q. */
  lemma KillTouches(w: World, q: Pid, i: int, id: int)
    requires WInv(w) && 0 <= i < NPORTS && Owns(w.ports[i], id)
    ensures 0 <= id < NSEM && w.sys.k.sems[id].used
    ensures q !in w.sys.k.sems[id].queue ==> K.Step(w.sys, K.CKill(q)).k.sems[id] == w.sys.k.sems[id]
  {
    assert Held(w.sys.k.sems, w.ports[i].ssem) && Held(w.sys.k.sems, w.ports[i].rsem);
    KilledQueued(w.sys.k, K.CKill(q), id);
    KS.SemEffect(w.sys, K.CKill(q), id);
  }

  /** Of a process that is inside no wait of a port the kernel's kill is all there is to it. */
  lemma KillThroughSim(w: World, q: Pid, y: Sys)
    requires WInv(w) && y == Abs(w) && K.Enabled(w.sys, K.CKill(q)) && Inv(SetPhase(y, q, Idle))
    requires !((y.phases[q].Sending? || y.phases[q].Receiving?) && !y.phases[q].granted)
    ensures WInv(Kill(w, q)) && Abs(Kill(w, q)) == SetPhase(y, q, Idle)
  {
    var w1 := Call(w, K.CKill(q));
    forall i | 0 <= i < NPORTS
      ensures SameSem(w.sys.k.sems, w1.sys.k.sems, w.ports[i].ssem) && SameSem(w.sys.k.sems, w1.sys.k.sems, w.ports[i].rsem)
    {
      KillUntouched(w, w1, q, i);
    }
    K.StepGood(w.sys, K.CKill(q));
    UntouchedWorld(w, w1, y);
    LeaveSim(w1, q);
  }

  lemma KillUntouched(w: World, w1: World, q: Pid, i: int)
    requires WInv(w) && 0 <= i < NPORTS && w1 == Call(w, K.CKill(q))
    requires !((Abs(w).phases[q].Sending? || Abs(w).phases[q].Receiving?) && !Abs(w).phases[q].granted)
    ensures SameSem(w.sys.k.sems, w1.sys.k.sems, w.ports[i].ssem) && SameSem(w.sys.k.sems, w1.sys.k.sems, w.ports[i].rsem)
  {
    LinedUp(w, i);
    if w.ports[i].ssem.Open? { KillTouches(w, q, i, w.ports[i].ssem.id); }
    if w.ports[i].rsem.Open? { KillTouches(w, q, i, w.ports[i].rsem.id); }
  }

  /** A waiter leaves the queue it is on, and its semaphore gets a count back. */
  ghost predicate KilledOff(w: World, w': World, i: int, id: int, q: Pid)
    requires Sound(w) && Sound(w')
  {
    && SameBut(w.sys.k.sems, w'.sys.k.sems, id) && 0 <= id < NSEM && 0 <= i < NPORTS
    && (var v := w.sys.k.sems[id]; w'.sys.k.sems[id] == v.(count := v.count + 1, queue := Without(v.queue, q)))
    && w' == w.(sys := w'.sys, calls := w.calls[q := Out])
  }

  /** Killing a process that waits on a semaphore changes no other one. */
  lemma KillIs(y: K.Sys, id: int, q: Pid)
    requires K.Good(y) && 0 <= id < NSEM && y.k.sems[id].used && q in y.k.sems[id].queue && q != KSpec.NULLPROC
    ensures SameBut(y.k.sems, K.Step(y, K.CKill(q)).k.sems, id)
    ensures var v := y.k.sems[id];
      K.Step(y, K.CKill(q)).k.sems[id] == v.(count := v.count + 1, queue := Without(v.queue, q))
  {
    assert KI.QueueHolds(y.k.procs, y.k.sems[id].queue, NPROC, id);
    forall s | 0 <= s < NSEM && y.k.sems[s].used ensures K.Step(y, K.CKill(q)).k.sems[s] == KS.SemAfter(y.k, K.CKill(q), s) {
      KS.SemEffect(y, K.CKill(q), s);
    }
  }

  lemma KilledOffIs(w: World, w': World, i: int, id: int, q: Pid)
    requires Sound(w) && K.Good(w.sys) && 0 <= i < NPORTS && 0 <= id < NSEM && w.sys.k.sems[id].used
    requires q in w.sys.k.sems[id].queue && w' == Kill(w, q) && q != KSpec.NULLPROC
    ensures KilledOff(w, w', i, id, q)
  {
    KillIs(w.sys, id, q);
  }

  lemma KilledOffAbs(w: World, w': World, i: int, id: int, q: Pid, sender: bool, y: Sys, y': Sys)
    requires Plain(w) && Sound(w') && y == Abs(w) && KilledOff(w, w', i, id, q) && Lined(w, i)
    requires (if sender then w.ports[i].ssem else w.ports[i].rsem) == Open(id) && OnRole(w.calls[q], sender, i)
    requires q in w.sys.k.sems[id].queue && y' == PortSpec.Kill(y, q)
    ensures Abs(w') == y'
  {
    var sems: SemTable, sems': SemTable := w.sys.k.sems, w'.sys.k.sems;
    OtherRole(sems, sems', w.ports, i, id);
    WithoutNoDup(sems[id].queue, q);
    forall r: Pid | r != q && OnEntry(w.calls[r], i) ensures y'.phases[r] == PhaseOf(sems', w'.ports, w'.calls[r], r) {
      PhaseHere(sems, sems', w.ports, w'.ports, i, w.calls[r], r);
    }
    AbsStep(w, w', i, id, q, y, y');
  }

  /** Who is not let through is queued on a semaphore in use. */
  lemma WaitingOpen(w: World, q: Pid, i: int, sender: bool) returns (id: int)
    requires WInv(w) && 0 <= i < NPORTS && OnRole(w.calls[q], sender, i) && !PhaseOf(w.sys.k.sems, w.ports, w.calls[q], q).granted
    ensures (if sender then w.ports[i].ssem else w.ports[i].rsem) == Open(id) && Owns(w.ports[i], id)
    ensures 0 <= id < NSEM && w.sys.k.sems[id].used && q in w.sys.k.sems[id].queue
  {
    assert Held(w.sys.k.sems, w.ports[i].ssem) && Held(w.sys.k.sems, w.ports[i].rsem);
    id := IdOf(if sender then w.ports[i].ssem else w.ports[i].rsem);
  }

  lemma KilledOffStep(w: World, w': World, i: int, id: int, q: Pid, sender: bool, y: Sys, y': Sys)
    requires Plain(w) && K.Good(w.sys) && y == Abs(w) && 0 <= i < NPORTS && Lined(w, i) && EntryOk(w.ports[i])
    requires (if sender then w.ports[i].ssem else w.ports[i].rsem) == Open(id) && OnRole(w.calls[q], sender, i)
    requires 0 <= id < NSEM && w.sys.k.sems[id].used && q in w.sys.k.sems[id].queue && q != KSpec.NULLPROC
    requires w' == Kill(w, q) && y' == PortSpec.Kill(y, q)
    ensures Stepped(w, w', i, id, q) && Abs(w') == y'
  {
    KilledOffIs(w, w', i, id, q);
    KilledOffAbs(w, w', i, id, q, sender, y, y');
  }

  lemma KillWaitingSim(w: World, q: Pid, i: int, sender: bool, y: Sys, y': Sys)
    requires WInv(w) && y == Abs(w) && K.Enabled(w.sys, K.CKill(q)) && q != KSpec.NULLPROC && 0 <= i < NPORTS
    requires OnRole(w.calls[q], sender, i) && !y.phases[q].granted && y' == PortSpec.Kill(y, q) && Inv(y')
    ensures WInv(Kill(w, q)) && Abs(Kill(w, q)) == y'
  {
    var id := WaitingOpen(w, q, i, sender);
    LinedUp(w, i);
    PlainIs(w);
    assert EntryOk(w.ports[i]);
    KilledOffStep(w, Kill(w, q), i, id, q, sender, y, y');
    K.StepGood(w.sys, K.CKill(q));
    StepWorld(w, Kill(w, q), i, id, q);
  }

  lemma KillSim(w: World, q: Pid, y: Sys)
    requires WInv(w) && Enabled(w, AKill(q)) && y == Abs(w)
    ensures WInv(Kill(w, q)) && Abs(Kill(w, q)) == PortSpec.Kill(y, q)
  {
    KillAccountsIff(y, q);
    if y.phases[q].Sending? && !y.phases[q].granted {
      KillWaitingSim(w, q, y.phases[q].port, true, y, PortSpec.Kill(y, q));
    } else if y.phases[q].Receiving? && !y.phases[q].granted {
      KillWaitingSim(w, q, y.phases[q].port, false, y, PortSpec.Kill(y, q));
    } else {
      KillThroughSim(w, q, y);
    }
  }

  // ---- ptcreate ----

  /** semcreate takes an entry that was free, and has no waiters. */
  lemma SemCreateIs(y: K.Sys, count: int, id: int)
    requires K.Good(y) && count >= 0 && id == KSpec.SemCreate(y.k, count).1 && id != SYSERR
    ensures 0 <= id < NSEM && !y.k.sems[id].used
    ensures K.Step(y, K.CSemCreate(count)).k.sems == y.k.sems[id := Sem(true, count, [])]
    ensures K.Step(y, K.CSemCreate(count)).k.curr == y.k.curr && K.Step(y, K.CSemCreate(count)).pc == y.pc
  {
    assert Balanced(y.k.sems[id]);
  }

  /** Two semaphores that were free are now the new port's. */
  ghost predicate Granted2(sems: SemTable, sems': SemTable, s: int, r: int, count: int) {
    && 0 <= s < NSEM && 0 <= r < NSEM && s != r && !sems[s].used && !sems[r].used
    && sems' == sems[s := Sem(true, count, [])][r := Sem(true, 0, [])]
  }

  lemma NewIdsAre(w: World, w2: World, count: int, s: int, r: int)
    requires Sound(w) && K.Good(w.sys) && w.sys.pc[Caller(w)] == K.User && count >= 0 && (s, r) == NewIds(w, count)
    requires s != SYSERR && r != SYSERR && w2 == Call(Call(w, K.CSemCreate(count)), K.CSemCreate(0))
    ensures Granted2(w.sys.k.sems, w2.sys.k.sems, s, r, count) && K.Good(w2.sys) && w2 == w.(sys := w2.sys)
  {
    var y1 := K.Step(w.sys, K.CSemCreate(count));
    SemCreateIs(w.sys, count, s);
    K.StepGood(w.sys, K.CSemCreate(count));
    SemCreateIs(y1, 0, r);
    K.StepGood(y1, K.CSemCreate(0));
  }

  /** A semaphore somebody holds is neither of the new ones. */
  lemma HeldApart(sems: SemTable, sems': SemTable, s: int, r: int, count: int, h: Handle)
    requires Granted2(sems, sems', s, r, count) && Held(sems, h)
    ensures SemOf(sems', h) == SemOf(sems, h) && Held(sems', h) && h != Open(s) && h != Open(r)
  {}

  /** The port that was free is open with the two new semaphores. */
  ghost predicate Opened(w: World, w': World, i: int, s: int, r: int, count: nat)
    requires Sound(w) && Sound(w')
  {
    && Granted2(w.sys.k.sems, w'.sys.k.sems, s, r, count) && 0 <= i < NPORTS && w.ports[i].state == PtFree
    && w' == w.(sys := w'.sys, ports := w'.ports, nextid := w'.nextid)
    && w'.ports == w.ports[i := NewEntry(w.ports[i], count, s, r)]
  }

  lemma OpenedHandles(w: World, w': World, i: int, s: int, r: int, count: nat)
    requires Sound(w) && Sound(w') && HandlesOk(w.sys.k.sems, w.ports) && Opened(w, w', i, s, r, count)
    ensures HandlesOk(w'.sys.k.sems, w'.ports)
  {
    var sems: SemTable, sems': SemTable := w.sys.k.sems, w'.sys.k.sems;
    forall j | 0 <= j < NPORTS && j != i
      ensures Held(sems', w'.ports[j].ssem) && Held(sems', w'.ports[j].rsem) && NoneShared(w'.ports[i], w'.ports[j])
    {
      HeldApart(sems, sems', s, r, count, w.ports[j].ssem);
      HeldApart(sems, sems', s, r, count, w.ports[j].rsem);
    }
  }

  /** Nobody waits at a port that is free. */
  ghost predicate Deserted(sems: SemTable, e: Entry) { SemOf(sems, e.ssem).queue == [] && SemOf(sems, e.rsem).queue == [] }

  lemma OpenedAbs(w: World, w': World, i: int, s: int, r: int, count: nat, y: Sys, y': Sys)
    requires Plain(w) && Sound(w') && Opened(w, w', i, s, r, count) && Deserted(w.sys.k.sems, w.ports[i]) && y == Abs(w)
    requires y' == SetPort(y, i, NewPort(y.ports[i], count)).(nextid := w'.nextid)
    ensures Abs(w') == y'
  {
    var sems: SemTable, sems': SemTable := w.sys.k.sems, w'.sys.k.sems;
    forall j | 0 <= j < NPORTS && j != i ensures y'.ports[j] == PortOf(sems', w'.ports[j]) {
      HeldApart(sems, sems', s, r, count, w.ports[j].ssem);
      HeldApart(sems, sems', s, r, count, w.ports[j].rsem);
    }
    forall q: Pid ensures y'.phases[q] == PhaseOf(sems', w'.ports, w'.calls[q], q) {
      OpenedPhase(w, w', i, s, r, count, w.calls[q], q);
    }
    AbsIs(w', y');
  }

  lemma OpenedPhase(w: World, w': World, i: int, s: int, r: int, count: nat, a: Activity, q: Pid)
    requires Sound(w) && Sound(w') && HandlesOk(w.sys.k.sems, w.ports) && Opened(w, w', i, s, r, count)
    requires Deserted(w.sys.k.sems, w.ports[i])
    ensures PhaseOf(w'.sys.k.sems, w'.ports, a, q) == PhaseOf(w.sys.k.sems, w.ports, a, q)
  {
    if a != Out && 0 <= a.port < NPORTS && a.port != i {
      HeldApart(w.sys.k.sems, w'.sys.k.sems, s, r, count, w.ports[a.port].ssem);
      HeldApart(w.sys.k.sems, w'.sys.k.sems, s, r, count, w.ports[a.port].rsem);
    }
  }

  lemma FreeIsDeserted(w: World, i: int)
    requires WInv(w) && 0 <= i < NPORTS && w.ports[i].state == PtFree
    ensures Deserted(w.sys.k.sems, w.ports[i]) && forall q: Pid :: !(w.calls[q].InClear? && w.calls[q].port == i)
  {
    var y := Abs(w);
    assert PortOk(y.phases, y.payload, i, y.ports[i]);
    forall q: Pid ensures !(w.calls[q].InClear? && w.calls[q].port == i) {
      assert !(OnPort(y.phases[q], i) && y.phases[q].Clearing?);
    }
  }

  lemma OpenedWorld(w: World, w': World, i: int, s: int, r: int, count: nat)
    requires WInv(w) && Sound(w') && K.Good(w'.sys) && Opened(w, w', i, s, r, count) && Inv(Abs(w'))
    ensures WInv(w')
  {
    FreeIsDeserted(w, i);
    OpenedHandles(w, w', i, s, r, count);
    ClearersKept(w, w', i, Caller(w));
  }

  lemma CreateAtIs(w: World, w1: World, i: int, s: int, r: int, count: nat)
    requires Sound(w) && K.Good(w.sys) && w.sys.pc[Caller(w)] == K.User && 0 <= i < NPORTS && w.ports[i].state == PtFree
    requires (s, r) == NewIds(w, count) && s != SYSERR && r != SYSERR && w1 == CreateAt(w, i, count)
    ensures Opened(w, w1, i, s, r, count) && K.Good(w1.sys) && w1.nextid == w.nextid
  {
    NewIdsAre(w, Call(Call(w, K.CSemCreate(count)), K.CSemCreate(0)), count, s, r);
  }

  /** ptcreate finds a free port, and its two calls of semcreate succeed. */
  lemma CreateOpens(w: World, w': World, i: int, s: int, r: int, count: nat)
    requires Sound(w) && K.Good(w.sys) && w.sys.pc[Caller(w)] == K.User && w' == Create(w, count)
    requires i == FindPort(Abs(w).ports, w.nextid, |Abs(w).ports|).0 && i != SYSERR
    requires (s, r) == NewIds(w, count) && s != SYSERR && r != SYSERR
    ensures Opened(w, w', i, s, r, count) && K.Good(w'.sys)
  {
    CreateAtIs(w, CreateAt(w, i, count), i, s, r, count);
  }

  lemma CreateGo(w: World, w': World, i: int, count: nat, y: Sys, y': Sys)
    requires WInv(w) && Enabled(w, ACreate(count)) && y == Abs(w) && w' == Create(w, count)
    requires i == FindPort(y.ports, y.nextid, |y.ports|).0 && i != SYSERR && y' == PortSpec.Create(y, count).0 && Inv(y')
    ensures WInv(w') && Abs(w') == y'
  {
    var s, r := NewIds(w, count).0, NewIds(w, count).1;
    CreateOpens(w, w', i, s, r, count);
    FreeIsDeserted(w, i);
    PlainIs(w);
    CreateAbs(w, w', i, s, r, count, y, y');
    OpenedWorld(w, w', i, s, r, count);
  }

  lemma CreateAbs(w: World, w': World, i: int, s: int, r: int, count: nat, y: Sys, y': Sys)
    requires Plain(w) && y == Abs(w) && w' == Create(w, count) && Opened(w, w', i, s, r, count)
    requires Deserted(w.sys.k.sems, w.ports[i])
    requires i == FindPort(y.ports, y.nextid, |y.ports|).0 && i != SYSERR && y' == PortSpec.Create(y, count).0
    ensures Abs(w') == y'
  {
    OpenedAbs(w, w', i, s, r, count, y, y');
  }

  lemma CreateSim(w: World, count: int, y: Sys)
    requires WInv(w) && Enabled(w, ACreate(count)) && y == Abs(w)
    ensures WInv(Create(w, count)) && Abs(Create(w, count)) == PortSpec.Create(y, count).0
  {
    if count >= 0 {
      var f := FindPort(y.ports, y.nextid, |y.ports|);
      CreateInv(y, count);
      if f.0 == SYSERR {
        AbsIs(Create(w, count), PortSpec.Create(y, count).0);
      } else {
        CreateGo(w, Create(w, count), f.0, count, y, PortSpec.Create(y, count).0);
      }
    }
  }

  // ---- runs ----

  ghost function Do(w: World, a: Act): (r: World)
    requires Sound(w) && Enabled(w, a)
    ensures Sound(r)
  {
    match a
    case AKern(c) => Call(w, c)
    case ASendEnter(i, msg) => SendEnter(w, i, msg)
    case ASendFinish => SendFinish(w)
    case ARecvEnter(i) => RecvEnter(w, i)
    case ARecvFinish => RecvFinish(w)
    case AClearEnter(i, newstate) => ClearEnter(w, i, newstate)
    case AClearHalf => ClearHalf(w)
    case AClearFinish => ClearFinish(w)
    case ACreate(count) => Create(w, count)
    case AKill(q) => Kill(w, q)
  }

  /** The move of PortRuns that the step is, if it concerns the ports. */
  function MoveOf(w: World, a: Act): (ms: seq<PR.Move>) {
    var p := Caller(w);
    match a
    case AKern(_) => []
    case ASendEnter(i, msg) => [PR.MSendEnter(p, i, msg)]
    case ASendFinish => [PR.MSendFinish(p)]
    case ARecvEnter(i) => [PR.MRecvEnter(p, i)]
    case ARecvFinish => [PR.MRecvFinish(p)]
    case AClearEnter(i, newstate) => [PR.MClearEnter(p, i, newstate)]
    case AClearHalf => [PR.MClearHalf(p)]
    case AClearFinish => [PR.MClearFinish(p)]
    case ACreate(count) => [PR.MCreate(p, count)]
    case AKill(q) => [PR.MKill(q)]
  }

  /** From y the moves ms lead to y'. */
  ghost predicate Leads(y: Sys, ms: seq<PR.Move>, y': Sys)
    requires Shaped(y)
  {
    PR.Legal(y, ms) && PR.Run(y, ms) == y'
  }

  lemma OneMove(y: Sys, m: PR.Move, y': Sys)
    requires Shaped(y) && PR.Enabled(y, m) && y' == PR.Do(y, m).0
    ensures Leads(y, [m], y')
  {
    assert [m][1..] == [];
    assert PR.Legal(y', []) && PR.Run(y', []) == y';
  }

  /** What the processes are doing, in both views. */
  lemma IdleIs(w: World, p: Pid)
    requires Sound(w) && w.calls[p] == Out
    ensures Abs(w).phases[p] == Idle
  {}

  // ---- each step as a run of one move ----

  lemma SendEnterMove(w: World, i: int, msg: int, y: Sys)
    requires WInv(w) && Enabled(w, ASendEnter(i, msg)) && y == Abs(w)
    ensures WInv(SendEnter(w, i, msg)) && Shaped(y) && Leads(y, [PR.MSendEnter(Caller(w), i, msg)], Abs(SendEnter(w, i, msg)))
  {
    IdleIs(w, Caller(w));
    PlainIs(w);
    SendEnterSim(w, i, msg);
    OneMove(y, PR.MSendEnter(Caller(w), i, msg), Abs(SendEnter(w, i, msg)));
  }

  lemma RecvEnterMove(w: World, i: int, y: Sys)
    requires WInv(w) && Enabled(w, ARecvEnter(i)) && y == Abs(w)
    ensures WInv(RecvEnter(w, i)) && Shaped(y) && Leads(y, [PR.MRecvEnter(Caller(w), i)], Abs(RecvEnter(w, i)))
  {
    IdleIs(w, Caller(w));
    PlainIs(w);
    RecvEnterSim(w, i);
    OneMove(y, PR.MRecvEnter(Caller(w), i), Abs(RecvEnter(w, i)));
  }

  lemma ClearEnterMove(w: World, i: int, newstate: PortState, y: Sys)
    requires WInv(w) && Enabled(w, AClearEnter(i, newstate)) && y == Abs(w)
    ensures WInv(ClearEnter(w, i, newstate)) && Shaped(y)
    ensures Leads(y, [PR.MClearEnter(Caller(w), i, newstate)], Abs(ClearEnter(w, i, newstate)))
  {
    IdleIs(w, Caller(w));
    PlainIs(w);
    ClearEnterSim(w, i, newstate);
    OneMove(y, PR.MClearEnter(Caller(w), i, newstate), Abs(ClearEnter(w, i, newstate)));
  }

  lemma CreateMove(w: World, count: int, y: Sys)
    requires WInv(w) && Enabled(w, ACreate(count)) && y == Abs(w)
    ensures WInv(Create(w, count)) && Shaped(y) && Leads(y, [PR.MCreate(Caller(w), count)], Abs(Create(w, count)))
  {
    IdleIs(w, Caller(w));
    PlainIs(w);
    CreateSim(w, count, y);
    OneMove(y, PR.MCreate(Caller(w), count), Abs(Create(w, count)));
  }

  lemma SendFinishMove(w: World, y: Sys)
    requires WInv(w) && Enabled(w, ASendFinish) && y == Abs(w)
    ensures WInv(SendFinish(w)) && Shaped(y) && Leads(y, [PR.MSendFinish(Caller(w))], Abs(SendFinish(w)))
  {
    PlainIs(w);
    SendFinishSim(w);
    OneMove(y, PR.MSendFinish(Caller(w)), Abs(SendFinish(w)));
  }

  lemma RecvFinishMove(w: World, y: Sys)
    requires WInv(w) && Enabled(w, ARecvFinish) && y == Abs(w)
    ensures WInv(RecvFinish(w)) && Shaped(y) && Leads(y, [PR.MRecvFinish(Caller(w))], Abs(RecvFinish(w)))
  {
    PlainIs(w);
    RecvFinishSim(w);
    OneMove(y, PR.MRecvFinish(Caller(w)), Abs(RecvFinish(w)));
  }

  lemma ClearHalfMove(w: World, y: Sys)
    requires WInv(w) && Enabled(w, AClearHalf) && y == Abs(w)
    ensures WInv(ClearHalf(w)) && Shaped(y) && Leads(y, [PR.MClearHalf(Caller(w))], Abs(ClearHalf(w)))
  {
    PlainIs(w);
    ClearHalfSim(w, y);
    OneMove(y, PR.MClearHalf(Caller(w)), Abs(ClearHalf(w)));
  }

  lemma ClearFinishMove(w: World, y: Sys)
    requires WInv(w) && Enabled(w, AClearFinish) && y == Abs(w)
    ensures WInv(ClearFinish(w)) && Shaped(y) && Leads(y, [PR.MClearFinish(Caller(w))], Abs(ClearFinish(w)))
  {
    PlainIs(w);
    ClearFinishSim(w, y);
    OneMove(y, PR.MClearFinish(Caller(w)), Abs(ClearFinish(w)));
  }

  lemma KillMove(w: World, q: Pid, y: Sys)
    requires WInv(w) && Enabled(w, AKill(q)) && y == Abs(w)
    ensures WInv(Kill(w, q)) && Shaped(y) && Leads(y, [PR.MKill(q)], Abs(Kill(w, q)))
  {
    PlainIs(w);
    KillSim(w, q, y);
    OneMove(y, PR.MKill(q), Abs(Kill(w, q)));
  }

  lemma ActSim(w: World, a: Act, y: Sys)
    requires WInv(w) && Enabled(w, a) && y == Abs(w)
    ensures WInv(Do(w, a)) && Shaped(y) && Leads(y, MoveOf(w, a), Abs(Do(w, a)))
  {
    match a
    case AKern(c) =>
      PlainIs(w);
      KernSim(w, c);
    case ASendEnter(i, msg) => SendEnterMove(w, i, msg, y);
    case ASendFinish => SendFinishMove(w, y);
    case ARecvEnter(i) => RecvEnterMove(w, i, y);
    case ARecvFinish => RecvFinishMove(w, y);
    case AClearEnter(i, newstate) => ClearEnterMove(w, i, newstate, y);
    case AClearHalf => ClearHalfMove(w, y);
    case AClearFinish => ClearFinishMove(w, y);
    case ACreate(count) => CreateMove(w, count, y);
    case AKill(q) => KillMove(w, q, y);
  }

  ghost predicate Legal(w: World, acts: seq<Act>)
    requires Sound(w)
    decreases |acts|
  {
    acts == [] || (Enabled(w, acts[0]) && Legal(Do(w, acts[0]), acts[1..]))
  }

  ghost function Run(w: World, acts: seq<Act>): (r: World)
    requires Sound(w) && Legal(w, acts)
    ensures Sound(r)
    decreases |acts|
  {
    if acts == [] then w else Run(Do(w, acts[0]), acts[1..])
  }

  lemma {:induction false} LeadsOn(y: Sys, ms: seq<PR.Move>, y1: Sys, more: seq<PR.Move>, y2: Sys)
    requires Shaped(y) && Leads(y, ms, y1) && Shaped(y1) && Leads(y1, more, y2)
    ensures Leads(y, ms + more, y2)
    decreases |ms|
  {
    if ms == [] {
      assert [] + more == more;
    } else {
      assert (ms + more)[1..] == ms[1..] + more;
      LeadsOn(PR.Do(y, ms[0]).0, ms[1..], y1, more, y2);
    }
  }

  /** Every run of the kernel with ports on it is, for the ports, a run of PortRuns. */
  lemma {:induction false} RunSim(w: World, acts: seq<Act>) returns (ms: seq<PR.Move>)
    requires WInv(w) && Legal(w, acts)
    ensures WInv(Run(w, acts)) && Shaped(Abs(w)) && Leads(Abs(w), ms, Abs(Run(w, acts)))
    decreases |acts|
  {
    PlainIs(w);
    if acts == [] {
      ms := [];
    } else {
      var w1 := Do(w, acts[0]);
      ActSim(w, acts[0], Abs(w));
      var rest := RunSim(w1, acts[1..]);
      LeadsOn(Abs(w), MoveOf(w, acts[0]), Abs(w1), rest, Abs(Run(w1, acts[1..])));
      ms := MoveOf(w, acts[0]) + rest;
    }
  }

  // ---- from start-up ----

  /** The kernel as sysinit leaves it, after ptinit. */
  function Start(maxmsgs: nat): (w: World)
    ensures Sound(w)
  {
    var closed := Closed(Sem(false, 0, []));
    World(K.Boot(), seq(NPORTS, _ => Entry(PtFree, 0, 0, closed, closed, [], [], [])),
          seq(maxmsgs, n => n), seq(maxmsgs, _ => 0), seq(NPROC, _ => Out), 0)
  }

  lemma StartInv(maxmsgs: nat)
    ensures WInv(Start(maxmsgs)) && Abs(Start(maxmsgs)) == PR.Init(maxmsgs)
  {
    K.BootGood();
    PR.InitInv(maxmsgs);
    AbsIs(Start(maxmsgs), PR.Init(maxmsgs));
  }

  /** In every reachable state of the kernel an allocated port has two semaphores of the kernel's table in
      use; free slots by the count of the one, slots promised and messages queued make up its limit, and
      the messages are those the other one counts or has promised. */
  lemma PortBoundInKernel(maxmsgs: nat, acts: seq<Act>, i: int)
    requires Legal(Start(maxmsgs), acts) && 0 <= i < NPORTS && Run(Start(maxmsgs), acts).ports[i].state == PtAlloc
    ensures var w := Run(Start(maxmsgs), acts);
      var e, sems := w.ports[i], w.sys.k.sems;
      && e.ssem.Open? && e.rsem.Open? && 0 <= e.ssem.id < NSEM && 0 <= e.rsem.id < NSEM
      && sems[e.ssem.id].used && sems[e.rsem.id].used && |e.queue| <= e.maxcnt
      && Max0(sems[e.ssem.id].count) + Count(Abs(w).phases, true, i, e.seqno) + |e.queue| == e.maxcnt
      && |e.queue| == Max0(sems[e.rsem.id].count) + Count(Abs(w).phases, false, i, e.seqno)
  {
    StartInv(maxmsgs);
    var ms := RunSim(Start(maxmsgs), acts);
    PR.BoundHolds(maxmsgs, ms, i);
    AllocatedHandles(Run(Start(maxmsgs), acts), i);
  }

  lemma AllocatedHandles(w: World, i: int)
    requires WInv(w) && 0 <= i < NPORTS && w.ports[i].state == PtAlloc
    ensures w.ports[i].ssem.Open? && Held(w.sys.k.sems, w.ports[i].ssem)
    ensures w.ports[i].rsem.Open? && Held(w.sys.k.sems, w.ports[i].rsem)
  {
    assert EntryOk(w.ports[i]);
  }
}
