/** The kernel calls as functions on the kernel's abstract state: queues are sequences, the ready
    list is a sequence of process ids, the sleep list a sequence of delays relative to each other.
    Class Kernel (Kernel.dfy) proves that the code over `queuetab` computes these functions. */
module KernelSpec {
  import opened Seqs
  import opened QueueTable
  import opened Semaphores

  const QUANTUM := 2
  const NULLPROC: Pid := 0
  const TIMEOUT := -3
  const TWO32 := 0x1_0000_0000

  datatype PrState = Free | Curr | Ready | Recv | Sleep | Susp | Wait | Rectim

  datatype Proc = Proc(state: PrState, prio: int, sem: int, msg: int, hasmsg: bool)

  datatype Sleeper = Sleeper(pid: Pid, delta: int)

  datatype Kern = Kern(
    procs: seq<Proc>, sems: seq<Sem>, ready: seq<Pid>, sleep: seq<Sleeper>, curr: Pid,
    ndefers: int, attempt: bool, preempt: int, count1000: int, clktime: int,
    nextsem: int, nextpid: int)

  ghost predicate Sized(k: Kern) {
    |k.procs| == NPROC && |k.sems| == NSEM && 0 <= k.nextsem < NSEM && 0 <= k.nextpid <= NPROC
  }

  predicate IsBadPid(k: Kern, p: int)
    requires |k.procs| == NPROC
  {
    p < 0 || p >= NPROC || k.procs[p].state == Free
  }

  /** isbadsem, or a free entry. */
  predicate IsBadSem(k: Kern, s: int)
    requires |k.sems| == NSEM
  {
    s < 0 || s >= NSEM || !k.sems[s].used
  }

  function SetState(k: Kern, p: Pid, st: PrState): (r: Kern)
    requires Sized(k)
    ensures Sized(r)
  {
    k.(procs := k.procs[p := k.procs[p].(state := st)])
  }

  // ---- scheduling (resched.c, ready.c, insert.c) ----

  /** How many processes insert lets go first: those of no smaller priority. */
  function ReadyPlace(procs: seq<Proc>, s: seq<Pid>, key: int): (i: int)
    requires |procs| == NPROC
    ensures 0 <= i <= |s|
    ensures forall j :: 0 <= j < i ==> procs[s[j]].prio >= key
    ensures i < |s| ==> procs[s[i]].prio < key
  {
    if s == [] || procs[s[0]].prio < key then 0 else 1 + ReadyPlace(procs, s[1..], key)
  }

  function Enlist(k: Kern, p: Pid): (r: Kern)
    requires Sized(k)
    ensures Sized(r) && r.sems == k.sems && r.sleep == k.sleep
  {
    var k1 := SetState(k, p, Ready);
    k1.(ready := InsertAt(k.ready, ReadyPlace(k.procs, k.ready, k.procs[p].prio), p))
  }

  function Switch(k: Kern): (r: Kern)
    requires Sized(k)
    ensures Sized(r) && r.sems == k.sems && r.sleep == k.sleep
  {
    if k.ready == [] then k  // never: see ReadyNeverEmpty
    else SetState(k, k.ready[0], Curr).(ready := k.ready[1..], curr := k.ready[0], preempt := QUANTUM)
  }

  function Resched(k: Kern): (r: Kern)
    requires Sized(k)
    ensures Sized(r) && r.sems == k.sems && r.sleep == k.sleep
  {
    if k.ndefers > 0 then k.(attempt := true)
    else if k.procs[k.curr].state == Curr then
      if k.ready == [] || k.procs[k.curr].prio > k.procs[k.ready[0]].prio then k
      else Switch(Enlist(k, k.curr))
    else Switch(k)
  }

  function DeferStart(k: Kern): (r: Kern)
    requires Sized(k)
    ensures Sized(r) && r.sems == k.sems && r.sleep == k.sleep
  {
    k.(ndefers := k.ndefers + 1, attempt := if k.ndefers == 0 then false else k.attempt)
  }

  function DeferStop(k: Kern): (r: Kern)
    requires Sized(k)
    ensures Sized(r) && r.sems == k.sems && r.sleep == k.sleep
  {
    if k.ndefers <= 0 then k
    else
      var k1 := k.(ndefers := k.ndefers - 1);
      if k1.ndefers == 0 && k1.attempt then Resched(k1) else k1
  }

  function MakeReady(k: Kern, p: int): (r: Kern)
    requires Sized(k)
    ensures Sized(r) && r.sems == k.sems && r.sleep == k.sleep
  {
    if IsBadPid(k, p) then k else Resched(Enlist(k, p))
  }

  // ---- semaphores (wait.c, signal.c, signaln.c, semreset.c, semdelete.c, semcreate.c) ----

  function SetSem(k: Kern, s: int, v: Sem): (r: Kern)
    requires Sized(k) && 0 <= s < NSEM
    ensures Sized(r)
  {
    k.(sems := k.sems[s := v])
  }

  function WaitSem(k: Kern, s: int): (r: Kern)
    requires Sized(k)
    ensures Sized(r)
  {
    if IsBadSem(k, s) then k
    else
      var k1 := SetSem(k, s, Down(k.sems[s], k.curr));
      if Blocks(k.sems[s]) then
        Resched(k1.(procs := k.procs[k.curr := k.procs[k.curr].(state := Wait, sem := s)]))
      else k1
  }

  /** Increment the count of s and ready the process this releases. */
  function Post(k: Kern, s: int): (r: Kern)
    requires Sized(k) && 0 <= s < NSEM
    ensures Sized(r) && r.sleep == k.sleep && r.sems == k.sems[s := Up(k.sems[s])]
  {
    var k1 := SetSem(k, s, Up(k.sems[s]));
    if Released(k.sems[s]) == [] then k1 else MakeReady(k1, Released(k.sems[s])[0])
  }

  function Signal(k: Kern, s: int): (r: Kern)
    requires Sized(k)
    ensures Sized(r)
  {
    if IsBadSem(k, s) then k else Post(k, s)
  }

  function PostN(k: Kern, s: int, n: nat): (r: Kern)
    requires Sized(k) && 0 <= s < NSEM
    ensures Sized(r) && r.sleep == k.sleep && r.sems == k.sems[s := UpN(k.sems[s], n)]
    decreases n
  {
    if n == 0 then k else PostN(Post(k, s), s, n - 1)
  }

  function SignalN(k: Kern, s: int, n: int): (r: Kern)
    requires Sized(k)
    ensures Sized(r)
  {
    if IsBadSem(k, s) || n < 0 then k else DeferStop(PostN(DeferStart(k), s, n))
  }

  /** Unlink and ready the first waiter of s. */
  function PopOne(k: Kern, s: int): (r: Kern)
    requires Sized(k) && 0 <= s < NSEM && k.sems[s].queue != []
    ensures Sized(r) && r.sleep == k.sleep && r.sems == k.sems[s := k.sems[s].(queue := k.sems[s].queue[1..])]
  {
    MakeReady(SetSem(k, s, k.sems[s].(queue := k.sems[s].queue[1..])), k.sems[s].queue[0])
  }

  function Drain(k: Kern, s: int): (r: Kern)
    requires Sized(k) && 0 <= s < NSEM
    ensures Sized(r) && r.sleep == k.sleep && r.sems == k.sems[s := k.sems[s].(queue := [])]
    decreases |k.sems[s].queue|
  {
    if k.sems[s].queue == [] then k else Drain(PopOne(k, s), s)
  }

  function SemReset(k: Kern, s: int, count: int): (r: Kern)
    requires Sized(k)
    ensures Sized(r)
  {
    if count < 0 || IsBadSem(k, s) then k
    else
      var k1 := Drain(DeferStart(k), s);
      DeferStop(SetSem(k1, s, k1.sems[s].(count := count)))
  }

  /** semdelete's loop: it counts the (negative) count up, and once more on leaving. */
  function ReleaseAll(k: Kern, s: int): (r: Kern)
    requires Sized(k) && 0 <= s < NSEM
    ensures Sized(r) && r.sleep == k.sleep && forall t :: 0 <= t < NSEM && t != s ==> r.sems[t] == k.sems[t]
    decreases -k.sems[s].count
  {
    var k1 := SetSem(k, s, k.sems[s].(count := k.sems[s].count + 1));
    if k.sems[s].count >= 0 then k1
    else ReleaseAll(if k.sems[s].queue == [] then k1 else PopOne(k1, s), s)
  }

  function SemDelete(k: Kern, s: int): (r: Kern)
    requires Sized(k)
    ensures Sized(r)
  {
    if IsBadSem(k, s) then k
    else DeferStop(ReleaseAll(DeferStart(SetSem(k, s, k.sems[s].(used := false))), s))
  }

  /** newsem's circular search: the entry found, or SYSERR, and where the next search starts. */
  function FindSem(sems: seq<Sem>, next: int, tries: nat): (r: (int, int))
    requires |sems| == NSEM && 0 <= next < NSEM
    ensures 0 <= r.1 < NSEM
    ensures r.0 == SYSERR || (0 <= r.0 < NSEM && !sems[r.0].used)
    decreases tries
  {
    if tries == 0 then (SYSERR, next)
    else
      var next1 := if next + 1 >= NSEM then 0 else next + 1;
      if !sems[next].used then (next, next1) else FindSem(sems, next1, tries - 1)
  }

  function SemCreate(k: Kern, count: int): (r: (Kern, int))
    requires Sized(k)
    ensures Sized(r.0)
  {
    if count < 0 then (k, SYSERR)
    else
      var f := FindSem(k.sems, k.nextsem, |k.sems|);
      if f.0 == SYSERR then (k.(nextsem := f.1), SYSERR)
      else (SetSem(k, f.0, k.sems[f.0].(used := true, count := count)).(nextsem := f.1), f.0)
  }

  // ---- sleeping (insertd.c, unsleep.c, sleep.c, clkhandler.c, wakeup.c) ----

  function SleepPids(s: seq<Sleeper>): (r: seq<Pid>)
    ensures |r| == |s|
    ensures forall i :: 0 <= i < |s| ==> r[i] == s[i].pid
  {
    seq(|s|, i requires 0 <= i < |s| => s[i].pid)
  }

  function InsertDelta(s: seq<Sleeper>, p: Pid, key: int): (r: seq<Sleeper>)
    ensures |r| == |s| + 1
  {
    if s == [] then [Sleeper(p, key)]
    else if s[0].delta > key then [Sleeper(p, key), s[0].(delta := s[0].delta - key)] + s[1..]
    else [s[0]] + InsertDelta(s[1..], p, key - s[0].delta)
  }

  function RemoveDelta(s: seq<Sleeper>, p: Pid): (r: seq<Sleeper>)
  {
    if s == [] then []
    else if s[0].pid == p then
      if |s| == 1 then [] else [s[1].(delta := s[1].delta + s[0].delta)] + s[2..]
    else [s[0]] + RemoveDelta(s[1..], p)
  }

  function SleepMs(k: Kern, delay: int): (r: Kern)
    requires Sized(k)
    ensures Sized(r)
  {
    if delay < 0 then k
    else if delay == 0 then Resched(k)
    else Resched(SetState(k, k.curr, Sleep).(sleep := InsertDelta(k.sleep, k.curr, delay)))
  }

  /** unsleep followed by ready, as send uses them. */
  function Unsleep(k: Kern, p: Pid): (r: Kern)
    requires Sized(k)
    ensures Sized(r)
  {
    k.(sleep := RemoveDelta(k.sleep, p))
  }

  /** What wakeup's loop leaves of the sleep list. */
  function Expire(s: seq<Sleeper>): (r: seq<Sleeper>)
    ensures r != [] ==> r[0].delta > 0
  {
    if s == [] || s[0].delta > 0 then s else Expire(s[1..])
  }

  function WakeLoop(k: Kern): (r: Kern)
    requires Sized(k)
    ensures Sized(r) && r.sems == k.sems && r.sleep == Expire(k.sleep)
    decreases |k.sleep|
  {
    if k.sleep == [] || k.sleep[0].delta > 0 then k
    else
      WakeLoop(MakeReady(k.(sleep := k.sleep[1..]), k.sleep[0].pid))
  }

  function Wakeup(k: Kern): (r: Kern)
    requires Sized(k)
    ensures Sized(r) && r.sems == k.sems && r.sleep == Expire(k.sleep)
  {
    DeferStop(WakeLoop(DeferStart(k)))
  }

  /** clkhandler's millisecond and second counters. */
  function CountTick(k: Kern): (r: Kern)
    requires Sized(k)
    ensures Sized(r) && r.sems == k.sems && r.sleep == k.sleep && r.procs == k.procs
  {
    if k.count1000 + 1 >= 1000 then k.(count1000 := 0, clktime := (k.clktime + 1) % TWO32)
    else k.(count1000 := k.count1000 + 1)
  }

  /** clkhandler's decrement of the first delay. */
  function CountDown(k: Kern): (r: Kern)
    requires Sized(k) && k.sleep != []
    ensures Sized(r) && r.sems == k.sems
    ensures r.sleep == Expire(k.sleep[0 := k.sleep[0].(delta := k.sleep[0].delta - 1)])
  {
    var k1 := k.(sleep := k.sleep[0 := k.sleep[0].(delta := k.sleep[0].delta - 1)]);
    if k1.sleep[0].delta <= 0 then Wakeup(k1) else k1
  }

  /** clkhandler up to and including wakeup, whose end may already switch context. */
  function TickFront(k: Kern): (r: Kern)
    requires Sized(k)
    ensures Sized(r) && r.sems == k.sems
    ensures r.sleep == if k.sleep == [] then [] else Expire(k.sleep[0 := k.sleep[0].(delta := k.sleep[0].delta - 1)])
  {
    if k.sleep == [] then CountTick(k) else CountDown(CountTick(k))
  }

  /** The rest of clkhandler, run by the interrupted process when it has the processor again. */
  function TickRest(k: Kern): (r: Kern)
    requires Sized(k)
    ensures Sized(r) && r.sems == k.sems && r.sleep == k.sleep
  {
    var k1 := k.(preempt := (k.preempt - 1) % TWO32);
    if k1.preempt <= 0 then Resched(k1.(preempt := QUANTUM)) else k1
  }

  /** clkhandler: when wakeup switches away, the rest is left for when the process runs again. */
  function Tick(k: Kern): (r: Kern)
    requires Sized(k)
    ensures Sized(r) && r.sems == k.sems
    ensures r.sleep == if k.sleep == [] then [] else Expire(k.sleep[0 := k.sleep[0].(delta := k.sleep[0].delta - 1)])
  {
    AfterFront(k.curr, TickFront(k))
  }

  function AfterFront(curr: Pid, k: Kern): (r: Kern)
    requires Sized(k)
    ensures Sized(r) && r.sems == k.sems && r.sleep == k.sleep
  {
    if k.curr == curr then TickRest(k) else k
  }

  // ---- messages (send.c, receive.c, recvtime.c, recvclr.c) ----

  function Send(k: Kern, p: int, msg: int): (r: Kern)
    requires Sized(k)
    ensures Sized(r)
  {
    if IsBadPid(k, p) || k.procs[p].hasmsg then k
    else
      var k1 := k.(procs := k.procs[p := k.procs[p].(msg := msg, hasmsg := true)]);
      if k.procs[p].state == Recv then MakeReady(k1, p)
      else if k.procs[p].state == Rectim then MakeReady(Unsleep(k1, p), p)
      else k1
  }

  /** The current process takes its message, if it has one. */
  function Take(k: Kern): (r: Kern)
    requires Sized(k)
    ensures Sized(r)
  {
    k.(procs := k.procs[k.curr := k.procs[k.curr].(hasmsg := false)])
  }

  /** receive up to resched; without a message waiting the caller blocks. */
  function Receive(k: Kern): (r: Kern)
    requires Sized(k)
    ensures Sized(r)
  {
    if !k.procs[k.curr].hasmsg then Resched(SetState(k, k.curr, Recv)) else Take(k)
  }

  function RecvTime(k: Kern, maxwait: int): (r: Kern)
    requires Sized(k)
    ensures Sized(r)
  {
    if maxwait < 0 then k
    else if !k.procs[k.curr].hasmsg then
      Resched(SetState(k, k.curr, Rectim).(sleep := InsertDelta(k.sleep, k.curr, maxwait)))
    else Take(k)
  }

  // ---- processes (suspend.c, resume.c, kill.c, create.c) ----

  function Suspend(k: Kern, p: int): (r: Kern)
    requires Sized(k)
    ensures Sized(r)
  {
    if IsBadPid(k, p) || p == NULLPROC then k
    else if k.procs[p].state == Ready then SetState(k, p, Susp).(ready := Without(k.ready, p as Pid))
    else if k.procs[p].state == Curr then Resched(SetState(k, p, Susp))
    else k
  }

  function Resume(k: Kern, p: int): (r: Kern)
    requires Sized(k)
    ensures Sized(r)
  {
    if IsBadPid(k, p) || k.procs[p].state != Susp then k else MakeReady(k, p)
  }

  /** kill from its switch on the state onwards. */
  function Kill(k: Kern, p: int): (r: Kern)
    requires Sized(k)
    ensures Sized(r)
  {
    if IsBadPid(k, p) || p == NULLPROC then k
    else
      var k1 := SetState(k, p, Free);
      match k.procs[p].state
      case Curr => Resched(k1)
      case Sleep => Unsleep(k1, p)
      case Rectim => Unsleep(k1, p)
      case Wait =>
        var s := k.procs[p].sem;
        if 0 <= s < NSEM then
          SetSem(k1, s, k.sems[s].(count := k.sems[s].count + 1, queue := Without(k.sems[s].queue, p as Pid)))
        else k1
      case Ready => k1.(ready := Without(k.ready, p as Pid))
      case _ => k1
  }

  /** newpid's circular search. */
  function FindPid(procs: seq<Proc>, next: int, tries: nat): (r: (int, int))
    requires |procs| == NPROC && 0 <= next <= NPROC
    ensures 0 <= r.1 <= NPROC
    ensures r.0 == SYSERR || (0 <= r.0 < NPROC && procs[r.0].state == Free)
    decreases tries
  {
    if tries == 0 then (SYSERR, next)
    else
      var n := next % NPROC;
      if procs[n].state == Free then (n, n + 1) else FindPid(procs, n + 1, tries - 1)
  }

  /** create: only the process table entry; stack says whether getstk found memory. */
  function Create(k: Kern, prio: int, stack: bool): (r: (Kern, int))
    requires Sized(k)
    ensures Sized(r.0)
  {
    if prio < 1 then (k, SYSERR)
    else
      var f := FindPid(k.procs, k.nextpid, |k.procs|);
      var k1 := k.(nextpid := f.1);
      if f.0 == SYSERR || !stack then (k1, SYSERR)
      else (k1.(procs := k.procs[f.0 := Proc(Susp, prio, -1, k.procs[f.0].msg, false)]), f.0)
  }
}
