/** The port calls over the port table and the linked message nodes, proved to take the abstract
    state y where PortSpec says. The semaphores of a port are held as values; their implementation on
    the queue table is class Kernel's. */
module Ports {
  import opened Seqs
  import opened QueueTable
  import opened Semaphores
  import opened PortInvariants
  import opened P = PortSpec
  import R = PortRuns

  const NULL := -1

  datatype PtEntry = PtEntry(
    ptssem: Sem, ptrsem: Sem, ptstate: PortState, ptmaxcnt: nat, ptseq: int, pthead: int, pttail: int)

  // ---- linked lists of message nodes ----

  function Head(s: seq<int>): (h: int) { if s == [] then NULL else s[0] }

  function Last(s: seq<int>): (h: int) { if s == [] then NULL else s[|s| - 1] }

  /** Following next from s[0] visits s in order and ends at NULL. */
  ghost predicate Follows(next: seq<int>, s: seq<int>) {
    && (forall j :: 0 <= j < |s| ==> 0 <= s[j] < |next|)
    && (forall j :: 0 <= j < |s| - 1 ==> next[s[j]] == s[j + 1])
    && (s != [] ==> next[s[|s| - 1]] == NULL)
  }

  lemma FollowsFrame(next: seq<int>, next': seq<int>, s: seq<int>)
    requires Follows(next, s) && |next'| == |next| && forall x :: x in s ==> next'[x] == next[x]
    ensures Follows(next', s)
  {}

  lemma FollowsRest(next: seq<int>, s: seq<int>)
    requires Follows(next, s) && s != []
    ensures Follows(next, s[1..]) && next[s[0]] == Head(s[1..])
  {}

  /** Two lists of distinct nodes become one when the last node of the first points to the second. */
  lemma FollowsSplice(next: seq<int>, s: seq<int>, t: seq<int>)
    requires Follows(next, s) && Follows(next, t) && NoDup(s) && forall x :: x in s ==> x !in t
    ensures s != [] ==> Follows(next[Last(s) := Head(t)], s + t)
  {
    if s != [] {
      var next' := next[Last(s) := Head(t)];
      forall j | 0 <= j < |s + t| - 1 ensures next'[(s + t)[j]] == (s + t)[j + 1] {
        if j < |s| - 1 { assert s[j] != s[|s| - 1]; }
        if j >= |s| { assert t[j - |s|] in t && Last(s) in s; }
      }
      if t != [] { assert t[|t| - 1] in t && Last(s) in s; }
    }
  }

  // ---- the tables hold the abstract state ----

  /** Head and tail pointers mean something while the port is open, and while it is being reset; those
      of a deleted port are left dangling. */
  predicate EntryIs(e: PtEntry, v: Port) {
    && e.ptssem == v.ssem && e.ptrsem == v.rsem && e.ptstate == v.state && e.ptmaxcnt == v.maxcnt && e.ptseq == v.seqno
    && (v.state == PtAlloc || (v.state == PtLimbo && v.ssem.used) ==> e.pthead == Head(v.queue) && e.pttail == Last(v.queue))
  }

  ghost predicate EntriesTied(tab: seq<PtEntry>, ports: seq<Port>, next: seq<int>) {
    && |tab| == |ports| == NPORTS
    && forall i :: 0 <= i < NPORTS ==> EntryIs(tab[i], ports[i]) && Follows(next, ports[i].queue)
  }

  /** Links of nodes that are in no message list but that of port i do not matter to the others. */
  lemma EntriesFrame(tab: seq<PtEntry>, ports: seq<Port>, next: seq<int>, next': seq<int>, i: int, e: PtEntry, v: Port)
    requires EntriesTied(tab, ports, next) && |next'| == |next| && 0 <= i < NPORTS
    requires EntryIs(e, v) && Follows(next', v.queue)
    requires forall j, x :: 0 <= j < NPORTS && j != i && x in ports[j].queue ==> next'[x] == next[x]
    ensures EntriesTied(tab[i := e], ports[i := v], next')
  {
    var tab', ports' := tab[i := e], ports[i := v];
    forall j | 0 <= j < NPORTS ensures EntryIs(tab'[j], ports'[j]) && Follows(next', ports'[j].queue) {
      if j != i { FollowsFrame(next, next', ports[j].queue); }
    }
  }

  /** The nodes of port i are no other port's, and no free node is in a message list. */
  lemma Separate(y: Sys, i: int)
    requires Inv(y) && 0 <= i < NPORTS
    ensures NoDup(y.free) && NoDup(y.ports[i].queue)
    ensures forall x :: x in y.free ==> x !in y.ports[i].queue
    ensures forall j, x :: 0 <= j < NPORTS && j != i && x in y.ports[j].queue ==> x !in y.ports[i].queue && x !in y.free
  {
    R.NodesPartitioned(y, i, (i + 1) % NPORTS);
    forall j, x | 0 <= j < NPORTS && j != i && x in y.ports[j].queue
      ensures x !in y.ports[i].queue && x !in y.free
    {
      R.NodesPartitioned(y, j, i);
    }
  }

  /** ptsend's links: n leaves the front of the free list and is hung behind the last message. */
  function HangTail(next: seq<int>, queue: seq<int>, n: int): (r: seq<int>)
    requires 0 <= n < |next| && (queue != [] ==> 0 <= Last(queue) < |next|)
    ensures |r| == |next|
  {
    var next1 := next[n := NULL];
    if queue == [] then next1 else next1[Last(queue) := n]
  }

  lemma HangTailFollows(next: seq<int>, free: seq<int>, queue: seq<int>)
    requires Follows(next, free) && Follows(next, queue) && free != [] && NoDup(free) && NoDup(queue)
    requires forall x :: x in free ==> x !in queue
    ensures var r := HangTail(next, queue, free[0]);
      && Follows(r, free[1..]) && Follows(r, queue + [free[0]])
      && forall x :: 0 <= x < |next| && x !in free && x !in queue ==> r[x] == next[x]
  {
    var n, next1 := free[0], next[free[0] := NULL];
    var r := HangTail(next, queue, n);
    FollowsRest(next, free);
    assert n in free && (queue != [] ==> Last(queue) in queue);
    FollowsFrame(next, next1, queue);
    assert Follows(next1, [n]);
    FollowsSplice(next1, queue, [n]);
    assert [] + [n] == [n];
    FollowsFrame(next, r, free[1..]);
  }

  /** ptrecv's links: n leaves the front of the message list and becomes the first free node. */
  lemma FreeHeadFollows(next: seq<int>, free: seq<int>, queue: seq<int>)
    requires Follows(next, free) && Follows(next, queue) && queue != [] && NoDup(queue)
    requires forall x :: x in free ==> x !in queue
    ensures var r := next[queue[0] := Head(free)];
      && Follows(r, queue[1..]) && Follows(r, [queue[0]] + free)
      && forall x :: 0 <= x < |next| && x !in queue ==> r[x] == next[x]
  {
    var n := queue[0];
    assert n in queue;
    FollowsRest(next, queue);
    FollowsFrame(next, next[n := NULL], free);
    FollowsSplice(next[n := NULL], [n], free);
    assert next[n := NULL][n := Head(free)] == next[n := Head(free)];
    FollowsFrame(next, next[n := Head(free)], queue[1..]);
  }

  /** The state after a message was linked, before the processes concerned move on. */
  function WithMessage(y: Sys, i: int, msg: int): (r: Sys)
    requires Shaped(y) && 0 <= i < NPORTS && y.free != []
    ensures Shaped(r)
  {
    var v := y.ports[i];
    var n := y.free[0];
    SetPort(y, i, v.(queue := v.queue + [n], sent := v.sent + [msg], rsem := Up(v.rsem))).(
      free := y.free[1..], payload := Store(y.payload, n, msg))
  }

  /** The state after _ptclear closed the port, before the processes concerned move on. */
  function Closed(y: Sys, i: int, newstate: PortState): (r: Sys)
    requires Shaped(y) && 0 <= i < NPORTS
    ensures Shaped(r)
  {
    var v := y.ports[i];
    SetPort(y, i, v.(state := PtLimbo, seqno := v.seqno + 1, queue := [], sent := [], got := [],
                     ssem := Emptied(v.ssem, newstate, v.maxcnt))).(free := v.queue + y.free)
  }

  /** The state after the first message was unlinked. */
  function WithoutMessage(y: Sys, i: int): (r: Sys)
    requires Shaped(y) && 0 <= i < NPORTS && y.ports[i].queue != []
    ensures Shaped(r)
  {
    var v := y.ports[i];
    var n := v.queue[0];
    SetPort(y, i, v.(queue := v.queue[1..], got := v.got + [Load(y.payload, n)], ssem := Up(v.ssem))).(
      free := [n] + y.free)
  }

  /** Where the rest of ptcreate's search leads. */
  ghost predicate FindsPort(ports: seq<Port>, next: int, tries: int, f: (int, int)) {
    |ports| == NPORTS && 0 <= next < NPORTS && tries >= 0 && FindPort(ports, next, tries) == f
  }

  lemma FindsStep(ports: seq<Port>, next: int, tries: int, next1: int, rest: int, f: (int, int))
    requires FindsPort(ports, next, tries, f) && tries > 0 && rest == tries - 1
    requires next1 == if next + 1 >= NPORTS then 0 else next + 1
    ensures if ports[next].state != PtFree then FindsPort(ports, next1, rest, f) else f == (next, next1)
  {}

  class PortTable {
    const ptmsg: array<int>
    const ptnext: array<int>
    const porttab: array<PtEntry>
    const calls: array<Phase>  // what each process inside a port call keeps on its stack
    var ptfree: int
    var ptnextid: int
    ghost var y: Sys

    ghost predicate Valid()
      reads this, ptmsg, ptnext, porttab, calls
    {
      && ptmsg != ptnext && Shaped(y)
      && ptmsg[..] == y.payload && ptnext.Length == ptmsg.Length && calls[..] == y.phases
      && ptfree == Head(y.free) && Follows(ptnext[..], y.free) && ptnextid == y.nextid
      && EntriesTied(porttab[..], y.ports, ptnext[..])
    }

    /** ptinit: all entries free, all nodes linked into the free list. */
    constructor (maxmsgs: nat)
      requires maxmsgs >= 1
      ensures Valid() && y == R.Init(maxmsgs)
      ensures fresh(ptmsg) && fresh(ptnext) && fresh(porttab) && fresh(calls)
    {
      ptmsg := new int[maxmsgs](_ => 0);
      ptnext := new int[maxmsgs](_ => 0);
      porttab := new PtEntry[NPORTS](_ => PtEntry(Sem(false, 0, []), Sem(false, 0, []), PtFree, 0, 0, NULL, NULL));
      calls := new Phase[NPROC](_ => Idle);
      ptfree, ptnextid := 0, 0;
      y := R.Init(maxmsgs);
      new;
      var n := 0;
      while n + 1 < maxmsgs
        invariant 0 <= n < maxmsgs && forall j :: 0 <= j < n ==> ptnext[j] == j + 1
        modifies ptnext
      {
        ptnext[n] := n + 1;
        n := n + 1;
      }
      ptnext[n] := NULL;
    }

    /** ptsend up to its wait. */
    method PtSend(p: Pid, portid: int, msg: int) returns (r: Outcome)
      requires Valid() && y.phases[p] == Idle
      modifies this`y, porttab, calls
      ensures Valid() && y == SendEnter(old(y), p, portid, msg).0 && r == SendEnter(old(y), p, portid, msg).1
      ensures r == if 0 <= portid < NPORTS && old(y).ports[portid].state == PtAlloc then Blocked else Failed
    {
      if portid < 0 || portid >= NPORTS {
        return Failed;
      }
      var e := porttab[portid];
      if e.ptstate != PtAlloc {
        return Failed;
      }
      ghost var v := y.ports[portid];
      var e' := e.(ptssem := Down(e.ptssem, p));
      EntriesFrame(porttab[..], y.ports, ptnext[..], ptnext[..], portid, e', v.(ssem := Down(v.ssem, p)));
      porttab[portid] := e';
      calls[p] := Sending(portid, e.ptseq, msg, !Blocks(e.ptssem));
      y := SendEnter(y, p, portid, msg).0;
      return Blocked;
    }

    /** The waits of ps are over. */
    method GrantAll(ps: seq<Pid>)
      modifies calls
      requires calls.Length == NPROC
      ensures calls[..] == Grant(old(calls[..]), ps)
    {
      var j := 0;
      while j < |ps|
        invariant 0 <= j <= |ps|
        invariant forall p: Pid :: calls[p] == if p in ps[..j] then Granted(old(calls[..])[p]) else old(calls[..])[p]
      {
        calls[ps[j]] := Granted(calls[ps[j]]);
        assert ps[..j + 1] == ps[..j] + [ps[j]];
        j := j + 1;
      }
      assert ps[..j] == ps;
      forall p | 0 <= p < NPROC ensures calls[..][p] == Grant(old(calls[..]), ps)[p] {
        var q: Pid := p;
        assert calls[q] == if q in ps then Granted(old(calls[..])[q]) else old(calls[..])[q];
      }
    }

    /** Take the first free node, store the message, hang the node behind the last one, and increment
        the receiver semaphore. */
    method LinkMessage(i: int, msg: int)
      requires Valid() && Inv(y) && 0 <= i < NPORTS && y.ports[i].state == PtAlloc && y.free != []
      modifies this`y, this`ptfree, ptmsg, ptnext, porttab
      ensures Valid() && y == WithMessage(old(y), i, msg)
    {
      ghost var next, v, v' := ptnext[..], y.ports[i], WithMessage(y, i, msg).ports[i];
      Separate(y, i);
      FreeNodeElsewhere(y, y.free[0]);
      FollowsRest(next, y.free);
      HangTailFollows(next, y.free, v.queue);
      var e := porttab[i];
      var n := ptfree;
      ptfree := ptnext[n];
      ptnext[n] := NULL;
      ptmsg[n] := msg;
      if e.pttail == NULL {
        e := e.(pthead := n, pttail := n);
      } else {
        ptnext[e.pttail] := n;
        e := e.(pttail := n);
      }
      e := e.(ptrsem := Up(e.ptrsem));
      assert ptnext[..] == HangTail(next, v.queue, n);
      EntriesFrame(porttab[..], y.ports, next, ptnext[..], i, e, v');
      porttab[i] := e;
      y := WithMessage(y, i, msg);
    }

    /** The rest of ptsend, once the wait for a slot is over. */
    method PtSendRest(p: Pid) returns (r: Outcome)
      requires Valid() && Inv(y) && y.phases[p].Sending? && y.phases[p].granted
      modifies this`y, this`ptfree, ptmsg, ptnext, porttab, calls
      ensures Valid() && y == SendFinish(old(y), p).0 && r == SendFinish(old(y), p).1
    {
      var f := calls[p];
      var e := porttab[f.port];
      if e.ptstate != PtAlloc || e.ptseq != f.seqno {
        calls[p] := Idle;
        y := SetPhase(y, p, Idle);
        return Failed;
      }
      if ptfree == NULL {
        return Panicked;
      }
      ghost var y0 := y;
      LinkMessage(f.port, f.msg);
      calls[p] := Idle;
      GrantAll(Released(e.ptrsem));
      y := SendFinish(y0, p).0;
      return Sent;
    }

    /** ptrecv up to its wait. */
    method PtRecv(p: Pid, portid: int) returns (r: Outcome)
      requires Valid() && y.phases[p] == Idle
      modifies this`y, porttab, calls
      ensures Valid() && y == RecvEnter(old(y), p, portid).0 && r == RecvEnter(old(y), p, portid).1
      ensures r == if 0 <= portid < NPORTS && old(y).ports[portid].state == PtAlloc then Blocked else Failed
    {
      if portid < 0 || portid >= NPORTS {
        return Failed;
      }
      var e := porttab[portid];
      if e.ptstate != PtAlloc {
        return Failed;
      }
      ghost var v := y.ports[portid];
      var e' := e.(ptrsem := Down(e.ptrsem, p));
      EntriesFrame(porttab[..], y.ports, ptnext[..], ptnext[..], portid, e', v.(rsem := Down(v.rsem, p)));
      porttab[portid] := e';
      calls[p] := Receiving(portid, e.ptseq, !Blocks(e.ptrsem));
      y := RecvEnter(y, p, portid).0;
      return Blocked;
    }

    /** Unlink the first message, return its node to the front of the free list, and increment the
        sender semaphore. */
    method UnlinkMessage(i: int) returns (msg: int)
      requires Valid() && Inv(y) && 0 <= i < NPORTS && y.ports[i].state == PtAlloc && y.ports[i].queue != []
      modifies this`y, this`ptfree, ptnext, porttab
      ensures Valid() && y == WithoutMessage(old(y), i) && msg == Load(old(y).payload, old(y).ports[i].queue[0])
    {
      ghost var next, v, v' := ptnext[..], y.ports[i], WithoutMessage(y, i).ports[i];
      Separate(y, i);
      FollowsRest(next, v.queue);
      FreeHeadFollows(next, y.free, v.queue);
      assert v.queue[0] in v.queue;
      var e := porttab[i];
      var n := e.pthead;
      msg := ptmsg[n];
      if e.pthead == e.pttail {
        e := e.(pthead := NULL, pttail := NULL);
      } else {
        e := e.(pthead := ptnext[n]);
      }
      ptnext[n] := ptfree;
      ptfree := n;
      e := e.(ptssem := Up(e.ptssem));
      assert ptnext[..] == next[n := Head(y.free)];
      EntriesFrame(porttab[..], y.ports, next, ptnext[..], i, e, v');
      porttab[i] := e;
      y := WithoutMessage(y, i);
    }

    /** The rest of ptrecv, once the wait for a message is over. */
    method PtRecvRest(p: Pid) returns (r: Outcome)
      requires Valid() && Inv(y) && y.phases[p].Receiving? && y.phases[p].granted
      modifies this`y, this`ptfree, ptnext, porttab, calls
      ensures Valid() && y == RecvFinish(old(y), p).0 && r == RecvFinish(old(y), p).1
    {
      var f := calls[p];
      var e := porttab[f.port];
      if e.ptstate != PtAlloc || e.ptseq != f.seqno {
        calls[p] := Idle;
        y := SetPhase(y, p, Idle);
        return Failed;
      }
      RecvFinishPort(y.phases, y.payload, f.port, y.ports[f.port], p);
      ghost var y0 := y;
      var msg := UnlinkMessage(f.port);
      calls[p] := Idle;
      GrantAll(Released(e.ptssem));
      y := RecvFinish(y0, p).0;
      return Got(msg);
    }

    /** Hand every queued message to dispose, in order. */
    method Dispose(i: int) returns (disposed: seq<int>)
      requires Valid() && Inv(y) && 0 <= i < NPORTS && y.ports[i].state == PtAlloc
      ensures disposed == Loads(y.payload, y.ports[i].queue)
    {
      ghost var queue := y.ports[i].queue;
      assert Follows(ptnext[..], queue);
      disposed := [];
      var walk := porttab[i].pthead;
      ghost var j := 0;
      while walk != NULL
        invariant 0 <= j <= |queue| && walk == (if j == |queue| then NULL else queue[j])
        invariant disposed == Loads(y.payload, queue)[..j]
        decreases |queue| - j
      {
        disposed := disposed + [ptmsg[walk]];
        walk := ptnext[walk];
        j := j + 1;
      }
    }

    /** The whole message list, if there is one, goes in front of the free list. */
    method SpliceAll(i: int)
      requires Valid() && Inv(y) && 0 <= i < NPORTS && y.ports[i].state == PtAlloc
      modifies this`ptfree, ptnext
      ensures ptfree == Head(y.ports[i].queue + y.free) && Follows(ptnext[..], y.ports[i].queue + y.free)
      ensures forall j, x :: 0 <= j < NPORTS && j != i && x in y.ports[j].queue ==> ptnext[x] == old(ptnext[..])[x]
    {
      ghost var next, queue := ptnext[..], y.ports[i].queue;
      Separate(y, i);
      FollowsSplice(next, queue, y.free);
      if porttab[i].pthead != NULL {
        ptnext[porttab[i].pttail] := ptfree;
        ptfree := porttab[i].pthead;
        assert ptnext[..] == next[Last(queue) := Head(y.free)] && Last(queue) in queue;
      } else {
        assert queue + y.free == y.free;
      }
    }

    /** The port goes into limbo with a new sequence number, its messages are disposed of and their
        nodes freed, and its sender semaphore is reset or deleted. */
    method CloseEntry(i: int, newstate: PortState) returns (disposed: seq<int>)
      requires Valid() && Inv(y) && 0 <= i < NPORTS && y.ports[i].state == PtAlloc
      modifies this`y, this`ptfree, ptnext, porttab
      ensures Valid() && y == Closed(old(y), i, newstate)
      ensures disposed == Loads(old(y).payload, old(y).ports[i].queue)
    {
      ghost var next := ptnext[..];
      var e := porttab[i];
      disposed := Dispose(i);
      SpliceAll(i);
      var e' := e.(ptstate := PtLimbo, ptseq := e.ptseq + 1, ptssem := Emptied(e.ptssem, newstate, e.ptmaxcnt));
      if newstate == PtAlloc {
        e' := e'.(pthead := NULL, pttail := NULL);
      }
      EntriesFrame(porttab[..], y.ports, next, ptnext[..], i, e', Closed(y, i, newstate).ports[i]);
      porttab[i] := e';
      y := Closed(y, i, newstate);
    }

    /** _ptclear up to the end of its first semreset or semdelete. */
    method PtClear(p: Pid, i: int, newstate: PortState) returns (r: Outcome, disposed: seq<int>)
      requires Valid() && Inv(y) && y.phases[p] == Idle
      modifies this`y, this`ptfree, ptnext, porttab, calls
      ensures Valid() && y == ClearEnter(old(y), p, i, newstate).0 && r == ClearEnter(old(y), p, i, newstate).1
      ensures r == if 0 <= i < NPORTS && old(y).ports[i].state == PtAlloc then Paused else Failed
      ensures disposed == if IsBadPort(old(y), i) then [] else Loads(old(y).payload, old(y).ports[i].queue)
    {
      if i < 0 || i >= NPORTS {
        return Failed, [];
      }
      var waiters := porttab[i].ptssem.queue;
      if porttab[i].ptstate != PtAlloc {
        return Failed, [];
      }
      ghost var y0 := y;
      disposed := CloseEntry(i, newstate);
      calls[p] := Clearing(i, newstate, false);
      GrantAll(waiters);
      y := ClearEnter(y0, p, i, newstate).0;
      r := Paused;
    }

    /** _ptclear's second semreset or semdelete. */
    method PtClearHalf(p: Pid)
      requires Valid() && y.phases[p].Clearing?
      modifies this`y, porttab, calls
      ensures Valid() && y == ClearHalf(old(y), p).0
    {
      var f := calls[p];
      var e := porttab[f.port];
      var e' := e.(ptrsem := Emptied(e.ptrsem, f.newstate, 0));
      ghost var y0 := y;
      EntriesFrame(porttab[..], y.ports, ptnext[..], ptnext[..], f.port, e', ClearHalf(y, p).0.ports[f.port]);
      porttab[f.port] := e';
      calls[p] := f.(half := true);
      GrantAll(e.ptrsem.queue);
      y := ClearHalf(y0, p).0;
    }

    /** The end of _ptclear, and of ptreset or ptdelete. */
    method PtClearRest(p: Pid) returns (r: Outcome)
      requires Valid() && Inv(y) && y.phases[p].Clearing? && y.phases[p].half
      modifies this`y, this`ptnextid, porttab, calls
      ensures Valid() && y == ClearFinish(old(y), p).0 && r == Cleared
    {
      var f := calls[p];
      var e' := porttab[f.port].(ptstate := f.newstate);
      assert PortOk(y.phases, y.payload, f.port, y.ports[f.port]);
      assert y.ports[f.port].queue == [];
      EntriesFrame(porttab[..], y.ports, ptnext[..], ptnext[..], f.port, e', ClearFinish(y, p).0.ports[f.port]);
      porttab[f.port] := e';
      calls[p] := Idle;
      if f.newstate == PtFree {
        ptnextid := f.port;
      }
      y := ClearFinish(y, p).0;
      r := Cleared;
    }

    /** ptcreate: a circular search from ptnextid for a free entry, which is then set up. */
    method PtCreate(count: int) returns (r: Outcome)
      requires Valid()
      modifies this`y, this`ptnextid, porttab
      ensures Valid() && y == Create(old(y), count).0 && r == Create(old(y), count).1
    {
      if count < 0 {
        return Failed;
      }
      ghost var y0, f := y, FindPort(y.ports, y.nextid, |y.ports|);
      var i := 0;
      ghost var tries := |y.ports|;
      while i < NPORTS
        invariant 0 <= i <= NPORTS && tries == NPORTS - i && Valid() && y == y0.(nextid := y.nextid)
        invariant FindsPort(y.ports, y.nextid, tries, f)
      {
        var ptnum := ptnextid;
        var next := if ptnextid + 1 >= NPORTS then 0 else ptnextid + 1;
        ghost var rest := tries - 1;
        FindsStep(y.ports, y.nextid, tries, next, rest, f);
        ptnextid := next;
        y := y.(nextid := next);
        if porttab[ptnum].ptstate == PtFree {
          ghost var v := NewPort(y.ports[ptnum], count);
          var e := PtEntry(Sem(true, count, []), Sem(true, 0, []), PtAlloc, count % 0x1_0000, porttab[ptnum].ptseq + 1, NULL, NULL);
          EntriesFrame(porttab[..], y.ports, ptnext[..], ptnext[..], ptnum, e, v);
          porttab[ptnum] := e;
          y := SetPort(y, ptnum, v);
          return Created(ptnum);
        }
        i := i + 1;
        tries := rest;
      }
      return Failed;
    }
  }
}
