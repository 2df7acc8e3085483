/** Buffer pools as a state machine over the steps of mkbufpool, getbuf and freebuf, and what every
    interleaving of them keeps. getbuf is cut where its wait can switch context. */
module BufPoolSpec {
  import opened Seqs
  import opened QueueTable
  import opened Semaphores

  const NBPOOLS := 20
  const BP_MINB := 8
  const BP_MAXB := 8192
  const BP_MAXN := 2048
  const TAGSIZE := 4  // sizeof(bpid32)

  /** bufs are the buffers carved from the block [lo, hi), each of size bytes after its tag; free is
      the pool's list, first buffer first. */
  datatype Pool = Pool(lo: int, hi: int, size: int, bufs: seq<int>, free: seq<int>, sem: Sem)

  /** A process inside getbuf; granted says that its wait is over. */
  datatype Phase = Idle | Getting(pool: int, granted: bool)

  type Phases = ps: seq<Phase> | |ps| == NPROC witness seq(NPROC, _ => Idle)

  /** tags gives, for each buffer in use, the pool id stored in front of it. */
  datatype Sys = Sys(pools: seq<Pool>, tags: map<int, int>, phases: Phases)

  datatype Outcome = Failed | Blocked | Crashed | Got(addr: int) | Freed | Made(id: int) | Killed

  predicate IsPool(y: Sys, i: int) { 0 <= i < |y.pools| }

  function SetPool(y: Sys, i: int, v: Pool): (r: Sys)
    requires IsPool(y, i)
  {
    y.(pools := y.pools[i := v])
  }

  // ---- mkbufpool ----

  /** Multiples of 4 bytes. */
  function RoundWord(x: int): (r: int)
    ensures x <= r < x + 4 && r % 4 == 0
  {
    (x + 3) / 4 * 4
  }

  /** The addresses of n buffers, stride bytes apart. */
  function Carve(buf: int, stride: int, n: nat): (r: seq<int>)
    ensures |r| == n
    decreases n
  {
    if n == 0 then [] else [buf] + Carve(buf + stride, stride, n - 1)
  }

  predicate BadSizes(bufsiz: int, numbufs: int) {
    bufsiz < BP_MINB || bufsiz > BP_MAXB || numbufs < 1 || numbufs > BP_MAXN
  }

  function BlockSize(bufsiz: int, numbufs: int): (n: int) { numbufs * (RoundWord(bufsiz) + TAGSIZE) }

  function NewPool(bufsiz: int, numbufs: nat, block: int): (v: Pool) {
    var bufs := Carve(block, RoundWord(bufsiz) + TAGSIZE, numbufs);
    Pool(block, block + BlockSize(bufsiz, numbufs), RoundWord(bufsiz), bufs, bufs, Sem(true, numbufs, []))
  }

  /** block is what getmem answers, semok whether semcreate succeeds. */
  function MkBufPool(y: Sys, bufsiz: int, numbufs: int, block: int, semok: bool): (r: (Sys, Outcome)) {
    if BadSizes(bufsiz, numbufs) || |y.pools| >= NBPOOLS || block == SYSERR || !semok then (y, Failed)
    else (y.(pools := y.pools + [NewPool(bufsiz, numbufs, block)]), Made(|y.pools|))
  }

  // ---- getbuf ----

  function GetBufEnter(y: Sys, p: Pid, i: int): (r: (Sys, Outcome)) {
    if !IsPool(y, i) then (y, Failed)
    else
      var v := y.pools[i];
      (SetPool(y, i, v.(sem := Down(v.sem, p))).(phases := y.phases[p := Getting(i, !Blocks(v.sem))]), Blocked)
  }

  function GetBufFinish(y: Sys, p: Pid): (r: (Sys, Outcome))
    requires y.phases[p].Getting? && IsPool(y, y.phases[p].pool)
  {
    var i := y.phases[p].pool;
    var v := y.pools[i];
    if v.free == [] then (y, Crashed)  // never: bpnext would be NULL
    else
      var b := v.free[0];
      (SetPool(y, i, v.(free := v.free[1..])).(tags := y.tags[b := i], phases := y.phases[p := Idle]), Got(b + TAGSIZE))
  }

  // ---- freebuf ----

  function Grant(phases: Phases, ps: seq<Pid>): (r: Phases)
    requires |ps| <= 1
  {
    if ps == [] || phases[ps[0]] == Idle then phases else phases[ps[0] := phases[ps[0]].(granted := true)]
  }

  /** freebuf of an address with the word i in front of it. */
  function FreeBuf(y: Sys, addr: int, i: int): (r: (Sys, Outcome)) {
    var b := addr - TAGSIZE;
    if !IsPool(y, i) then (y, Failed)
    else
      var v := y.pools[i];
      var y1 := SetPool(y, i, v.(free := [b] + v.free, sem := Up(v.sem)));
      (y1.(tags := y.tags - {b}, phases := Grant(y.phases, Released(v.sem))), Freed)
  }

  /** kill of a process that waits inside getbuf. */
  function Kill(y: Sys, p: Pid): (r: Sys) {
    var y1 := y.(phases := y.phases[p := Idle]);
    if y.phases[p].Getting? && !y.phases[p].granted && IsPool(y, y.phases[p].pool) then
      var i := y.phases[p].pool;
      var s := y.pools[i].sem;
      SetPool(y1, i, y.pools[i].(sem := s.(count := s.count + 1, queue := Without(s.queue, p))))
    else y1
  }

  // ---- the invariant ----

  /** How many getters of pool i have a buffer promised to them. */
  function Granted(phases: seq<Phase>, i: int): (n: nat) {
    if phases == [] then 0 else (if phases[0] == Getting(i, true) then 1 else 0) + Granted(phases[1..], i)
  }

  lemma {:induction false} GrantedSet(phases: seq<Phase>, p: int, f: Phase, i: int)
    requires 0 <= p < |phases|
    ensures Granted(phases[p := f], i)
      == Granted(phases, i) - (if phases[p] == Getting(i, true) then 1 else 0) + (if f == Getting(i, true) then 1 else 0)
    ensures phases[p] == Getting(i, true) ==> Granted(phases, i) >= 1
  {
    if p == 0 {
      assert phases[p := f][1..] == phases[1..];
    } else {
      assert phases[p := f][1..] == phases[1..][p - 1 := f];
      GrantedSet(phases[1..], p - 1, f, i);
    }
  }

  lemma {:induction false} GrantedNone(phases: seq<Phase>, i: int)
    requires forall p :: 0 <= p < |phases| ==> phases[p] != Getting(i, true)
    ensures Granted(phases, i) == 0
  {
    if phases != [] { GrantedNone(phases[1..], i); }
  }

  ghost predicate Waiters(phases: Phases, i: int, s: Sem) {
    NoDup(s.queue) && forall p: Pid :: p in s.queue <==> phases[p] == Getting(i, false)
  }

  /** The free buffers are those the semaphore counts and those promised to getters. */
  predicate Accounted(phases: Phases, i: int, v: Pool) { |v.free| == Max0(v.sem.count) + Granted(phases, i) }

  ghost predicate SemOk(phases: Phases, i: int, v: Pool) {
    v.sem.used && Balanced(v.sem) && Waiters(phases, i, v.sem) && Accounted(phases, i, v)
  }

  /** Buffers lie in order inside the block, each with room for its tag and its bytes. */
  predicate Spaced(v: Pool) {
    && (forall j :: 0 <= j < |v.bufs| ==> v.lo <= v.bufs[j] && v.bufs[j] + TAGSIZE + v.size <= v.hi)
    && (forall j, k :: 0 <= j < k < |v.bufs| ==> v.bufs[j] + TAGSIZE + v.size <= v.bufs[k])
  }

  /** Each buffer of the pool is on its list or in use, never both, and nothing else is on the list. */
  ghost predicate BufsOk(tags: map<int, int>, v: Pool) {
    && Spaced(v) && v.size >= BP_MINB && NoDup(v.free)
    && (forall b :: b in v.free ==> b in v.bufs && b !in tags)
    && (forall b :: b in v.bufs ==> b in v.free || b in tags)
  }

  predicate Apart(v: Pool, w: Pool) { v.hi <= w.lo || w.hi <= v.lo }

  ghost predicate TagsOk(pools: seq<Pool>, tags: map<int, int>) {
    forall b :: b in tags ==> 0 <= tags[b] < |pools| && b in pools[tags[b]].bufs
  }

  ghost predicate PoolsApart(pools: seq<Pool>) {
    forall i, j :: 0 <= i < j < |pools| ==> Apart(pools[i], pools[j])
  }

  ghost predicate Inv(y: Sys) {
    && (forall i :: 0 <= i < |y.pools| ==> SemOk(y.phases, i, y.pools[i]))
    && (forall i :: 0 <= i < |y.pools| ==> BufsOk(y.tags, y.pools[i]))
    && PoolsApart(y.pools) && TagsOk(y.pools, y.tags)
    && (forall p: Pid :: y.phases[p].Getting? ==> IsPool(y, y.phases[p].pool))
  }

  // ---- carving ----

  lemma {:induction false} CarveAt(buf: int, stride: int, n: nat, j: nat)
    requires j < n
    ensures Carve(buf, stride, n)[j] == buf + j * stride
    decreases n
  {
    if j > 0 { CarveAt(buf + stride, stride, n - 1, j - 1); }
  }

  lemma Multiples(j: int, k: int, stride: int)
    requires 0 <= j <= k && stride > 0
    ensures 0 <= j * stride <= k * stride
    ensures j < k ==> (j + 1) * stride == j * stride + stride <= k * stride
  {}

  /** mkbufpool makes exactly numbufs buffers of at least the size asked for, disjoint, and inside the
      block it got for them. */
  lemma NewPoolOk(bufsiz: int, numbufs: int, block: int)
    requires !BadSizes(bufsiz, numbufs)
    ensures var v := NewPool(bufsiz, numbufs, block);
      && Spaced(v) && |v.bufs| == numbufs && NoDup(v.bufs) && v.size >= bufsiz
      && v.free == v.bufs && v.lo == block && v.hi == block + BlockSize(bufsiz, numbufs)
  {
    var v, stride := NewPool(bufsiz, numbufs, block), RoundWord(bufsiz) + TAGSIZE;
    forall j | 0 <= j < |v.bufs| ensures v.lo <= v.bufs[j] && v.bufs[j] + TAGSIZE + v.size <= v.hi {
      CarveAt(block, stride, numbufs, j);
      Multiples(j, numbufs, stride);
    }
    forall j, k | 0 <= j < k < |v.bufs| ensures v.bufs[j] + TAGSIZE + v.size <= v.bufs[k] {
      CarveAt(block, stride, numbufs, j);
      CarveAt(block, stride, numbufs, k);
      Multiples(j, k, stride);
    }
  }

  /** mkbufpool fails exactly for a size or a number out of range, with all pools taken, and when it gets no
      memory or no semaphore, and then changes nothing; otherwise the next id names a pool whose buffers, of
      the size rounded up to words, lie one behind the other from the start of the block, all of them free. */
  lemma MkBufPoolMakesIff(y: Sys, bufsiz: int, numbufs: int, block: int, semok: bool)
    ensures var y', r := MkBufPool(y, bufsiz, numbufs, block, semok).0, MkBufPool(y, bufsiz, numbufs, block, semok).1;
      && (r == Failed <==>
           bufsiz < 8 || bufsiz > 8192 || numbufs < 1 || numbufs > 2048 || |y.pools| >= 20 || block == SYSERR || !semok)
      && (r == Failed ==> y' == y)
      && (r != Failed ==>
           && r == Made(|y.pools|) && |y'.pools| == |y.pools| + 1 && y' == y.(pools := y.pools + [y'.pools[|y.pools|]])
           && Fresh(y'.pools[|y.pools|], bufsiz, numbufs, block))
  {
    if MkBufPool(y, bufsiz, numbufs, block, semok).1 != Failed { NewPoolFresh(bufsiz, numbufs, block); }
  }

  ghost predicate Fresh(v: Pool, bufsiz: int, numbufs: int, block: int) {
    && bufsiz <= v.size < bufsiz + 4 && v.size % 4 == 0 && v.lo == block && v.hi == block + numbufs * (v.size + TAGSIZE)
    && |v.bufs| == numbufs && (forall j :: 0 <= j < |v.bufs| ==> v.bufs[j] == block + j * (v.size + TAGSIZE))
    && v.free == v.bufs && v.sem == Sem(true, numbufs, [])
  }

  lemma NewPoolFresh(bufsiz: int, numbufs: nat, block: int)
    ensures Fresh(NewPool(bufsiz, numbufs, block), bufsiz, numbufs, block)
  {
    var v := NewPool(bufsiz, numbufs, block);
    forall j | 0 <= j < |v.bufs| ensures v.bufs[j] == block + j * (v.size + TAGSIZE) {
      CarveAt(block, v.size + TAGSIZE, numbufs, j);
    }
  }

  /** getbuf fails at once exactly for an id that no pool has, and then changes nothing. Otherwise it goes on if
      and only if some buffer on the list is not promised to another getter; else it waits behind all others. */
  lemma GetBufEnterAnswers(y: Sys, p: Pid, i: int)
    requires Inv(y) && y.phases[p] == Idle
    ensures var y', r := GetBufEnter(y, p, i).0, GetBufEnter(y, p, i).1;
      if i < 0 || i >= |y.pools| then y' == y && r == Failed
      else
        var v, some := y.pools[i], |y.pools[i].free| > Granted(y.phases, i);
        && |y'.pools| == |y.pools| && r == Blocked && y'.phases == y.phases[p := Getting(i, some)]
        && y' == y.(phases := y'.phases, pools := y.pools[i := v.(sem := y'.pools[i].sem)])
        && y'.pools[i].sem.queue == if some then v.sem.queue else v.sem.queue + [p]
  {
    if 0 <= i < |y.pools| { assert SemOk(y.phases, i, y.pools[i]); }
  }

  /** freebuf fails exactly when the word in front of the buffer is no pool's id, and then changes nothing;
      otherwise the buffer is first on the list of that pool, and whoever waited longest for one goes on. */
  lemma FreeBufAnswers(y: Sys, addr: int, i: int)
    requires Inv(y)
    ensures var y', r := FreeBuf(y, addr, i).0, FreeBuf(y, addr, i).1;
      if i < 0 || i >= |y.pools| then y' == y && r == Failed
      else
        var v := y.pools[i];
        && r == Freed && |y'.pools| == |y.pools| && y'.pools[i].free == [addr - TAGSIZE] + v.free
        && (v.sem.queue == [] ==> y'.phases == y.phases)
        && (v.sem.queue != [] ==> y'.phases == y.phases[v.sem.queue[0] := Getting(i, true)])
        && forall j :: 0 <= j < |y.pools| && j != i ==> y'.pools[j] == y.pools[j]
  {
    if 0 <= i < |y.pools| {
      assert SemOk(y.phases, i, y.pools[i]);
      if y.pools[i].sem.queue != [] { assert y.pools[i].sem.queue[0] in y.pools[i].sem.queue; }
    }
  }

  // ---- the steps keep the invariant ----

  /** A buffer of one pool is no buffer of another. */
  lemma OtherPool(pools: seq<Pool>, tags: map<int, int>, i: int, j: int, b: int)
    requires PoolsApart(pools) && 0 <= i < |pools| && 0 <= j < |pools| && b in pools[i].bufs
    requires BufsOk(tags, pools[i]) && BufsOk(tags, pools[j])
    ensures i != j ==> b !in pools[j].bufs
  {
    if i < j { assert Apart(pools[i], pools[j]); }
    if j < i { assert Apart(pools[j], pools[i]); }
  }

  /** Changing the semaphore and the list of one pool. */
  ghost predicate SameBlock(v: Pool, w: Pool) { v.(free := [], sem := w.sem) == w.(free := []) }

  lemma ApartSame(pools: seq<Pool>, i: int, v: Pool)
    requires PoolsApart(pools) && 0 <= i < |pools| && SameBlock(pools[i], v)
    ensures PoolsApart(pools[i := v])
  {
    var r := pools[i := v];
    forall j, k | 0 <= j < k < |r| ensures Apart(r[j], r[k]) { assert Apart(pools[j], pools[k]); }
  }

  /** Pools other than i keep their semaphores in order when only getters of i change. */
  lemma OthersSem(phases: Phases, p: Pid, f: Phase, i: int, j: int, w: Pool)
    requires SemOk(phases, j, w) && i != j
    requires phases[p].Getting? ==> phases[p].pool == i
    requires f.Getting? ==> f.pool == i
    ensures SemOk(phases[p := f], j, w)
  {
    GrantedSet(phases, p, f, j);
  }

  lemma DownSem(phases: Phases, p: Pid, i: int, v: Pool)
    requires SemOk(phases, i, v) && phases[p] == Idle
    ensures SemOk(phases[p := Getting(i, !Blocks(v.sem))], i, v.(sem := Down(v.sem, p)))
  {
    GrantedSet(phases, p, Getting(i, !Blocks(v.sem)), i);
    assert p !in v.sem.queue;
  }

  lemma GetBufEnterInv(y: Sys, p: Pid, i: int)
    requires Inv(y) && y.phases[p] == Idle
    ensures Inv(GetBufEnter(y, p, i).0)
  {
    if IsPool(y, i) {
      var v, f := y.pools[i], Getting(i, !Blocks(y.pools[i].sem));
      var y' := GetBufEnter(y, p, i).0;
      DownSem(y.phases, p, i, v);
      ApartSame(y.pools, i, y'.pools[i]);
      forall j | 0 <= j < |y'.pools| ensures SemOk(y'.phases, j, y'.pools[j]) && BufsOk(y'.tags, y'.pools[j]) {
        assert SemOk(y.phases, j, y.pools[j]) && BufsOk(y.tags, y.pools[j]);
        if j != i { OthersSem(y.phases, p, f, i, j, y.pools[j]); }
      }
    }
  }

  lemma TakeSem(phases: Phases, p: Pid, i: int, v: Pool)
    requires SemOk(phases, i, v) && phases[p] == Getting(i, true)
    ensures v.free != [] && SemOk(phases[p := Idle], i, v.(free := v.free[1..]))
  {
    GrantedSet(phases, p, Idle, i);
  }

  lemma TakeBufs(tags: map<int, int>, v: Pool, i: int)
    requires BufsOk(tags, v) && v.free != []
    ensures BufsOk(tags[v.free[0] := i], v.(free := v.free[1..]))
  {
    var b := v.free[0];
    assert b in v.free && forall x :: x in v.free <==> x == b || x in v.free[1..];
  }

  /** A getter that was let through never finds the list empty, and the buffer it takes was nobody's. */
  lemma GetBufFinishInv(y: Sys, p: Pid)
    requires Inv(y) && y.phases[p].Getting? && y.phases[p].granted
    ensures var r := GetBufFinish(y, p);
      && Inv(r.0) && r.1.Got? && r.1.addr - TAGSIZE !in y.tags && r.1.addr - TAGSIZE in r.0.tags
      && r.1.addr - TAGSIZE in y.pools[y.phases[p].pool].bufs
  {
    var i := y.phases[p].pool;
    var v, y' := y.pools[i], GetBufFinish(y, p).0;
    TakeSem(y.phases, p, i, v);
    TakeBufs(y.tags, v, i);
    var b := v.free[0];
    assert b in v.free && y'.tags == y.tags[b := i];
    ApartSame(y.pools, i, y'.pools[i]);
    forall j | 0 <= j < |y'.pools| ensures SemOk(y'.phases, j, y'.pools[j]) && BufsOk(y'.tags, y'.pools[j]) {
      if j != i { TakenElsewhere(y, p, i, j, b); }
    }
  }

  lemma TakenElsewhere(y: Sys, p: Pid, i: int, j: int, b: int)
    requires Inv(y) && y.phases[p] == Getting(i, true) && IsPool(y, i) && IsPool(y, j) && j != i && b in y.pools[i].bufs
    ensures SemOk(y.phases[p := Idle], j, y.pools[j]) && BufsOk(y.tags[b := i], y.pools[j])
  {
    assert SemOk(y.phases, j, y.pools[j]) && BufsOk(y.tags, y.pools[j]);
    OthersSem(y.phases, p, Idle, i, j, y.pools[j]);
    OtherPool(y.pools, y.tags, i, j, b);
  }

  lemma UpSem(phases: Phases, i: int, v: Pool, b: int)
    requires SemOk(phases, i, v)
    ensures SemOk(Grant(phases, Released(v.sem)), i, v.(free := [b] + v.free, sem := Up(v.sem)))
  {
    if Released(v.sem) != [] {
      var r := v.sem.queue[0];
      assert r in v.sem.queue && forall p: Pid :: p in v.sem.queue <==> p == r || p in Up(v.sem).queue;
      GrantedSet(phases, r, phases[r].(granted := true), i);
    }
  }

  lemma PutBufs(tags: map<int, int>, v: Pool, b: int)
    requires BufsOk(tags, v) && b in tags && b in v.bufs
    ensures BufsOk(tags - {b}, v.(free := [b] + v.free))
  {
    assert b !in v.free && forall x :: x in [b] + v.free <==> x == b || x in v.free;
  }

  /** A buffer in use goes back to the pool it came from; freebuf never refuses it. */
  lemma FreeBufInv(y: Sys, addr: int)
    requires Inv(y) && addr - TAGSIZE in y.tags
    ensures var r := FreeBuf(y, addr, y.tags[addr - TAGSIZE]); Inv(r.0) && r.1 == Freed
  {
    var b := addr - TAGSIZE;
    var i := y.tags[b];
    var v, y' := y.pools[i], FreeBuf(y, addr, i).0;
    UpSem(y.phases, i, v, b);
    PutBufs(y.tags, v, b);
    ApartSame(y.pools, i, y'.pools[i]);
    forall j | 0 <= j < |y'.pools| ensures SemOk(y'.phases, j, y'.pools[j]) && BufsOk(y'.tags, y'.pools[j]) {
      assert SemOk(y.phases, j, y.pools[j]) && BufsOk(y.tags, y.pools[j]);
      if j != i {
        GrantOther(y.phases, i, v.sem, j, y.pools[j]);
        OtherPool(y.pools, y.tags, i, j, b);
      }
    }
  }

  /** Of any address, freebuf keeps every pool in order if and only if the word in front of it is no pool's
      id, and it fails, or the address is that of a buffer of that pool in use. */
  lemma FreeBufSafeIff(y: Sys, addr: int, i: int)
    requires Inv(y)
    ensures var b := addr - TAGSIZE;
      Inv(FreeBuf(y, addr, i).0) <==> !IsPool(y, i) || (b in y.tags && y.tags[b] == i)
  {
    var b := addr - TAGSIZE;
    if IsPool(y, i) {
      if b in y.tags && y.tags[b] == i {
        FreeBufInv(y, addr);
      } else {
        WrongBuf(y, addr, i);
      }
    }
  }

  /** Freed twice, or never allocated, or given to the wrong pool. */
  lemma WrongBuf(y: Sys, addr: int, i: int)
    requires Inv(y) && IsPool(y, i) && !(addr - TAGSIZE in y.tags && y.tags[addr - TAGSIZE] == i)
    ensures !BufsOk(FreeBuf(y, addr, i).0.tags, FreeBuf(y, addr, i).0.pools[i])
  {
    var b, v, v' := addr - TAGSIZE, y.pools[i], FreeBuf(y, addr, i).0.pools[i];
    assert BufsOk(y.tags, v) && v'.free == [b] + v.free;
    assert v'.free[0] == b;
    if b in v.free {
      var j :| 0 <= j < |v.free| && v.free[j] == b;
      assert v'.free[j + 1] == b;
    } else if b in v.bufs {
      OtherPool(y.pools, y.tags, y.tags[b], i, b);
    }
  }

  lemma GrantOther(phases: Phases, i: int, s: Sem, j: int, w: Pool)
    requires SemOk(phases, j, w) && i != j && Waiters(phases, i, s)
    ensures SemOk(Grant(phases, Released(s)), j, w)
  {
    if Released(s) != [] {
      var r := s.queue[0];
      assert r in s.queue;
      OthersSem(phases, r, phases[r].(granted := true), i, j, w);
    }
  }

  /** getmem hands out a block that overlaps no pool's. */
  ghost predicate FreshBlock(y: Sys, block: int, n: int) {
    forall i :: 0 <= i < |y.pools| ==> block + n <= y.pools[i].lo || y.pools[i].hi <= block
  }

  lemma MkBufPoolInv(y: Sys, bufsiz: int, numbufs: int, block: int, semok: bool)
    requires Inv(y) && FreshBlock(y, block, BlockSize(bufsiz, numbufs))
    ensures Inv(MkBufPool(y, bufsiz, numbufs, block, semok).0)
  {
    var r := MkBufPool(y, bufsiz, numbufs, block, semok);
    if r.1.Made? {
      var v := NewPool(bufsiz, numbufs, block);
      NewPoolOk(bufsiz, numbufs, block);
      GrantedNone(y.phases, |y.pools|);
      forall b | b in y.tags ensures b !in v.bufs {
        assert BufsOk(y.tags, y.pools[y.tags[b]]);
      }
    }
  }

  lemma KillSem(phases: Phases, p: Pid, i: int, v: Pool)
    requires SemOk(phases, i, v) && phases[p] == Getting(i, false)
    ensures SemOk(phases[p := Idle], i, v.(sem := v.sem.(count := v.sem.count + 1, queue := Without(v.sem.queue, p))))
  {
    assert p in v.sem.queue;
    WithoutNoDup(v.sem.queue, p);
    GrantedSet(phases, p, Idle, i);
  }

  lemma KillInv(y: Sys, p: Pid)
    requires Inv(y) && (y.phases[p].Getting? ==> !y.phases[p].granted)
    ensures Inv(Kill(y, p))
  {
    if y.phases[p].Getting? {
      var i := y.phases[p].pool;
      var y' := Kill(y, p);
      KillSem(y.phases, p, i, y.pools[i]);
      ApartSame(y.pools, i, y'.pools[i]);
      forall j | 0 <= j < |y'.pools| ensures SemOk(y'.phases, j, y'.pools[j]) && BufsOk(y'.tags, y'.pools[j]) {
        assert SemOk(y.phases, j, y.pools[j]) && BufsOk(y.tags, y.pools[j]);
        if j != i { OthersSem(y.phases, p, Idle, i, j, y.pools[j]); }
      }
    } else {
      assert y.phases[p := Idle] == y.phases;
    }
  }

  /** Killing a process whose wait is over loses the buffer promised to it: it stays on the list,
      uncounted, for ever. */
  lemma KillPromised(y: Sys, p: Pid)
    requires Inv(y) && y.phases[p].Getting? && y.phases[p].granted
    ensures !Accounted(Kill(y, p).phases, y.phases[p].pool, Kill(y, p).pools[y.phases[p].pool])
    ensures !Inv(Kill(y, p))
  {
    var i := y.phases[p].pool;
    assert SemOk(y.phases, i, y.pools[i]);
    GrantedSet(y.phases, p, Idle, i);
  }

  /** Killing any process keeps every pool in order if and only if it is not in getbuf with its wait over. */
  lemma KillAccountsIff(y: Sys, p: Pid)
    requires Inv(y)
    ensures Inv(Kill(y, p)) <==> (y.phases[p].Getting? ==> !y.phases[p].granted)
  {
    if y.phases[p].Getting? && y.phases[p].granted { KillPromised(y, p); } else { KillInv(y, p); }
  }

  // ---- runs ----

  datatype Move =
    | MMake(bufsiz: int, numbufs: int, block: int, semok: bool)
    | MGetEnter(p: Pid, i: int) | MGetFinish(p: Pid) | MFree(addr: int) | MKill(p: Pid)

  /** getbuf starts in a process that is not in it and goes on once its wait is over; only buffers in
      use are freed; nobody is killed between the end of its wait and the end of getbuf. */
  ghost predicate Enabled(y: Sys, m: Move) {
    match m
    case MMake(bufsiz, numbufs, block, _) => FreshBlock(y, block, BlockSize(bufsiz, numbufs))
    case MGetEnter(p, _) => y.phases[p] == Idle
    case MGetFinish(p) => y.phases[p].Getting? && y.phases[p].granted && IsPool(y, y.phases[p].pool)
    case MFree(addr) => addr - TAGSIZE in y.tags
    case MKill(p) => y.phases[p].Getting? ==> !y.phases[p].granted
  }

  ghost function Do(y: Sys, m: Move): (r: (Sys, Outcome))
    requires Enabled(y, m)
  {
    match m
    case MMake(bufsiz, numbufs, block, semok) => MkBufPool(y, bufsiz, numbufs, block, semok)
    case MGetEnter(p, i) => GetBufEnter(y, p, i)
    case MGetFinish(p) => GetBufFinish(y, p)
    case MFree(addr) => FreeBuf(y, addr, y.tags[addr - TAGSIZE])
    case MKill(p) => (Kill(y, p), Killed)
  }

  ghost predicate Legal(y: Sys, ms: seq<Move>)
    decreases |ms|
  {
    ms == [] || (Enabled(y, ms[0]) && Legal(Do(y, ms[0]).0, ms[1..]))
  }

  ghost function Run(y: Sys, ms: seq<Move>): (r: Sys)
    requires Legal(y, ms)
    decreases |ms|
  {
    if ms == [] then y else Run(Do(y, ms[0]).0, ms[1..])
  }

  /** bufinit: no pools yet. */
  function Init(): (y: Sys) { Sys([], map[], seq(NPROC, _ => Idle)) }

  lemma {:induction false} RunInv(y: Sys, ms: seq<Move>)
    requires Inv(y) && Legal(y, ms)
    ensures Inv(Run(y, ms))
    decreases |ms|
  {
    if ms != [] {
      match ms[0] {
        case MMake(bufsiz, numbufs, block, semok) => MkBufPoolInv(y, bufsiz, numbufs, block, semok);
        case MGetEnter(p, i) => GetBufEnterInv(y, p, i);
        case MGetFinish(p) => GetBufFinishInv(y, p);
        case MFree(addr) => FreeBufInv(y, addr);
        case MKill(p) => KillInv(y, p);
      }
      RunInv(Do(y, ms[0]).0, ms[1..]);
    }
  }

  /** In every reachable state, each pool's free list is as long as its semaphore count and its
      promises say. */
  lemma FreeListLength(ms: seq<Move>, i: int)
    requires Legal(Init(), ms) && IsPool(Run(Init(), ms), i)
    ensures var y := Run(Init(), ms); Accounted(y.phases, i, y.pools[i])
  {
    RunInv(Init(), ms);
    assert SemOk(Run(Init(), ms).phases, i, Run(Init(), ms).pools[i]);
  }

  /** The buffers of pool i that are in use. */
  ghost function InUse(y: Sys, i: int): (r: set<int>) { set b | b in y.tags && y.tags[b] == i }

  /** In every reachable state, every buffer of a pool is on its own list or in use, exactly one of
      the two, with the right tag. */
  lemma EveryBufferOnce(ms: seq<Move>, i: int, b: int)
    requires Legal(Init(), ms) && IsPool(Run(Init(), ms), i) && b in Run(Init(), ms).pools[i].bufs
    ensures var y := Run(Init(), ms);
      && (b in y.pools[i].free <==> b !in y.tags) && (b in InUse(y, i) <==> b in y.tags)
      && forall j :: IsPool(y, j) && j != i ==> b !in y.pools[j].free
  {
    RunInv(Init(), ms);
    var y := Run(Init(), ms);
    assert BufsOk(y.tags, y.pools[i]);
    if b in y.tags { OtherPool(y.pools, y.tags, i, y.tags[b], b); }
    forall j | IsPool(y, j) && j != i ensures b !in y.pools[j].free {
      assert BufsOk(y.tags, y.pools[j]);
      OtherPool(y.pools, y.tags, i, j, b);
    }
  }

  /** In every reachable state, two buffers in use share no byte, not even of their tags. */
  lemma HoldersNeverShare(ms: seq<Move>, b: int, c: int)
    requires Legal(Init(), ms) && b in Run(Init(), ms).tags && c in Run(Init(), ms).tags && b < c
    ensures var y := Run(Init(), ms); IsPool(y, y.tags[b]) && b + TAGSIZE + y.pools[y.tags[b]].size <= c
  {
    RunInv(Init(), ms);
    var y := Run(Init(), ms);
    var i, k := y.tags[b], y.tags[c];
    assert BufsOk(y.tags, y.pools[i]) && BufsOk(y.tags, y.pools[k]);
    if i < k { assert Apart(y.pools[i], y.pools[k]); }
    if k < i { assert Apart(y.pools[k], y.pools[i]); }
  }
}
