/** mkbufpool, getbuf and freebuf over the pool table and the words in memory that link free buffers
    and tag used ones, proved to take the abstract state y where BufPoolSpec says. */
module BufPools {
  import opened Seqs
  import opened QueueTable
  import opened Semaphores
  import opened BufPoolSpec

  const NULL := 0

  datatype BpEntry = BpEntry(bpnext: int, bpsem: Sem, bpsize: int)

  function Head(s: seq<int>): (h: int) { if s == [] then NULL else s[0] }

  /** The first word of each buffer of s is the address of the next one; that of the last is NULL. */
  ghost predicate Chained(word: map<int, int>, s: seq<int>) {
    forall j :: 0 <= j < |s| ==> s[j] > NULL && s[j] in word && word[s[j]] == Head(s[j + 1..])
  }

  lemma ChainedFrame(word: map<int, int>, b: int, w: int, s: seq<int>)
    requires Chained(word, s) && b !in s
    ensures Chained(word[b := w], s)
  {}

  lemma ChainedRest(word: map<int, int>, s: seq<int>)
    requires Chained(word, s) && s != []
    ensures Chained(word, s[1..]) && word[s[0]] == Head(s[1..])
  {
    forall j | 0 <= j < |s[1..]| ensures word[s[1..][j]] == Head(s[1..][j + 1..]) {
      assert s[1..][j] == s[j + 1] && s[1..][j + 1..] == s[j + 2..];
    }
  }

  lemma ChainedCons(word: map<int, int>, b: int, s: seq<int>)
    requires Chained(word, s) && b !in s && b > NULL
    ensures Chained(word[b := Head(s)], [b] + s)
  {
    var t := [b] + s;
    forall j | 0 <= j < |t| ensures t[j] > NULL && t[j] in word[b := Head(s)] && word[b := Head(s)][t[j]] == Head(t[j + 1..]) {
      if j > 0 {
        assert t[j] == s[j - 1] && t[j + 1..] == s[j..];
      } else {
        assert t[1..] == s;
      }
    }
  }

  predicate EntryIs(e: BpEntry, v: Pool) { e.bpsem == v.sem && e.bpsize == v.size && e.bpnext == Head(v.free) }

  ghost predicate PoolsTied(tab: seq<BpEntry>, pools: seq<Pool>, word: map<int, int>) {
    && |pools| <= |tab|
    && forall i :: 0 <= i < |pools| ==> EntryIs(tab[i], pools[i]) && Chained(word, pools[i].free)
  }

  ghost predicate TagsTied(tags: map<int, int>, word: map<int, int>) {
    forall b :: b in tags ==> b in word && word[b] == tags[b]
  }

  /** One pool and one word change; the word is in no other pool's list. */
  lemma PoolsFrame(tab: seq<BpEntry>, pools: seq<Pool>, word: map<int, int>, i: int, e: BpEntry, v: Pool, b: int, w: int)
    requires PoolsTied(tab, pools, word) && 0 <= i < |pools| && EntryIs(e, v) && Chained(word[b := w], v.free)
    requires forall j :: 0 <= j < |pools| && j != i ==> b !in pools[j].free
    ensures PoolsTied(tab[i := e], pools[i := v], word[b := w])
  {
    var pools' := pools[i := v];
    forall j | 0 <= j < |pools'| ensures Chained(word[b := w], pools'[j].free) {
      if j != i { ChainedFrame(word, b, w, pools[j].free); }
    }
  }

  /** A buffer of pool i is on no other pool's list. */
  lemma OnNoOther(y: Sys, i: int, b: int)
    requires Inv(y) && IsPool(y, i) && b in y.pools[i].bufs
    ensures forall j :: 0 <= j < |y.pools| && j != i ==> b !in y.pools[j].free
  {
    forall j | 0 <= j < |y.pools| && j != i ensures b !in y.pools[j].free {
      assert BufsOk(y.tags, y.pools[j]) && BufsOk(y.tags, y.pools[i]);
      OtherPool(y.pools, y.tags, i, j, b);
    }
  }

  /** The first buffer of a pool gets the tag of the pool in place of its link. */
  lemma UnlinkTied(tab: seq<BpEntry>, pools: seq<Pool>, tags: map<int, int>, word: map<int, int>, i: int, e: BpEntry, b: int)
    requires PoolsTied(tab, pools, word) && TagsTied(tags, word) && 0 <= i < |pools|
    requires var s := pools[i].free;
      s != [] && b == s[0] && NoDup(s) && e == tab[i].(bpnext := Head(s[1..]))
    requires forall j :: 0 <= j < |pools| && j != i ==> b !in pools[j].free
    ensures PoolsTied(tab[i := e], pools[i := pools[i].(free := pools[i].free[1..])], word[b := i])
    ensures TagsTied(tags[b := i], word[b := i])
  {
    var s := pools[i].free;
    ChainedRest(word, s);
    ChainedFrame(word, b, i, s[1..]);
    PoolsFrame(tab, pools, word, i, e, pools[i].(free := s[1..]), b, i);
  }

  class PoolTable {
    const buftab: array<BpEntry>
    const calls: array<Phase>  // where each process is inside getbuf
    var nbpools: int
    var word: map<int, int>
    ghost var y: Sys

    ghost predicate Valid()
      reads this, buftab, calls
    {
      && buftab.Length == NBPOOLS && calls.Length == NPROC && calls[..] == y.phases
      && nbpools == |y.pools| && PoolsTied(buftab[..], y.pools, word) && TagsTied(y.tags, word)
      && Inv(y) && forall i :: 0 <= i < nbpools ==> y.pools[i].lo > NULL
    }

    /** bufinit */
    constructor ()
      ensures Valid() && y == Init() && fresh(buftab) && fresh(calls)
    {
      buftab := new BpEntry[NBPOOLS](_ => BpEntry(NULL, Sem(false, 0, []), 0));
      calls := new Phase[NPROC](_ => Idle);
      nbpools, word, y := 0, map[], Init();
    }

    /** Link the buffers of a new block: numbufs of them, stride bytes apart. */
    method CarveBlock(block: int, stride: int, numbufs: int)
      requires block > NULL && stride > 0 && numbufs >= 1
      modifies this`word
      ensures Chained(word, Carve(block, stride, numbufs))
      ensures forall b :: b in old(word) && (b < block || b >= block + numbufs * stride) ==> b in word && word[b] == old(word[b])
    {
      var buf, left := block, numbufs - 1;
      ghost var bufs := Carve(block, stride, numbufs);
      CarveAt(block, stride, numbufs, 0);
      while left > 0
        invariant 0 <= left < numbufs && buf == bufs[numbufs - 1 - left]
        invariant forall j :: 0 <= j < numbufs - 1 - left ==> bufs[j] in word && word[bufs[j]] == bufs[j + 1]
        invariant forall b :: b in old(word) && (b < block || b >= block + numbufs * stride) ==> b in word && word[b] == old(word[b])
        decreases left
      {
        ghost var k := numbufs - 1 - left;
        CarveSteps(block, stride, numbufs, k);
        var next := buf + stride;
        word := word[buf := next];
        buf := next;
        left := left - 1;
      }
      CarveSteps(block, stride, numbufs, numbufs - 1);
      word := word[buf := NULL];
      forall j | 0 <= j < numbufs ensures bufs[j] > NULL && bufs[j] in word && word[bufs[j]] == Head(bufs[j + 1..]) {
        CarveAt(block, stride, numbufs, j);
        Multiples(j, numbufs, stride);
      }
    }

    lemma CarveSteps(block: int, stride: int, n: nat, k: nat)
      requires stride > 0 && k < n
      ensures var bufs := Carve(block, stride, n);
        && (k + 1 < n ==> bufs[k] + stride == bufs[k + 1])
        && block <= bufs[k] < block + n * stride
        && forall j :: 0 <= j < n && j != k ==> bufs[j] != bufs[k]
    {
      var bufs := Carve(block, stride, n);
      CarveAt(block, stride, n, k);
      Multiples(k, n, stride);
      if k + 1 < n { CarveAt(block, stride, n, k + 1); }
      forall j | 0 <= j < n && j != k ensures bufs[j] != bufs[k] {
        CarveAt(block, stride, n, j);
        Multiples(if j < k then j else k, if j < k then k else j, stride);
      }
    }

    lemma AsksSome(bufsiz: int, numbufs: int)
      requires !BadSizes(bufsiz, numbufs)
      ensures BlockSize(bufsiz, numbufs) > 0
    {
      Multiples(1, numbufs, RoundWord(bufsiz) + TAGSIZE);
    }

    /** block is what getmem answers for the bytes asked for, semok whether semcreate succeeds; the block is given
        back when it does not. */
    method MkBufPool(bufsiz: int, numbufs: int, block: int, semok: bool) returns (r: Outcome, asked: int, given: bool)
      requires Valid() && (block == SYSERR || block > NULL)
      requires FreshBlock(y, block, BlockSize(bufsiz, numbufs))
      modifies this`y, this`nbpools, this`word, buftab
      ensures Valid() && y == BufPoolSpec.MkBufPool(old(y), bufsiz, numbufs, block, semok).0
      ensures r == BufPoolSpec.MkBufPool(old(y), bufsiz, numbufs, block, semok).1
      ensures asked == if BadSizes(bufsiz, numbufs) || |old(y).pools| >= NBPOOLS then 0 else BlockSize(bufsiz, numbufs)
      ensures given <==> asked > 0 && block != SYSERR && r == Failed
    {
      if bufsiz < BP_MINB || bufsiz > BP_MAXB || numbufs < 1 || numbufs > BP_MAXN || nbpools >= NBPOOLS {
        return Failed, 0, false;
      }
      var size := RoundWord(bufsiz);
      asked := numbufs * (size + TAGSIZE);
      AsksSome(bufsiz, numbufs);
      if block == SYSERR {
        return Failed, asked, false;
      }
      ghost var y0, word0, y' := y, word, BufPoolSpec.MkBufPool(y, bufsiz, numbufs, block, semok).0;
      MkBufPoolInv(y, bufsiz, numbufs, block, semok);
      var poolid := nbpools;
      nbpools := nbpools + 1;
      buftab[poolid] := BpEntry(block, buftab[poolid].bpsem, size);
      if !semok {
        nbpools := nbpools - 1;
        return Failed, asked, true;
      }
      buftab[poolid] := buftab[poolid].(bpsem := Sem(true, numbufs, []));
      CarveBlock(block, size + TAGSIZE, numbufs);
      OldWords(y0, word0, word, block, BlockSize(bufsiz, numbufs));
      y := y';
      return Made(poolid), asked, false;
    }

    /** Words outside the new block stay, so the old pools and tags are as before. */
    lemma OldWords(y: Sys, word: map<int, int>, word': map<int, int>, block: int, n: int)
      requires Inv(y) && FreshBlock(y, block, n) && TagsTied(y.tags, word)
      requires forall i :: 0 <= i < |y.pools| ==> Chained(word, y.pools[i].free)
      requires forall b :: b in word && (b < block || b >= block + n) ==> b in word' && word'[b] == word[b]
      ensures TagsTied(y.tags, word')
      ensures forall i :: 0 <= i < |y.pools| ==> Chained(word', y.pools[i].free)
    {
      forall i, b | 0 <= i < |y.pools| && b in y.pools[i].bufs ensures b < block || b >= block + n {
        assert BufsOk(y.tags, y.pools[i]);
      }
      forall i | 0 <= i < |y.pools| ensures Chained(word', y.pools[i].free) {
        assert BufsOk(y.tags, y.pools[i]);
        forall j | 0 <= j < |y.pools[i].free| ensures y.pools[i].free[j] in y.pools[i].bufs {
          assert y.pools[i].free[j] in y.pools[i].free;
        }
      }
    }

    /** getbuf up to its wait. */
    method GetBuf(p: Pid, poolid: int) returns (r: Outcome)
      requires Valid() && y.phases[p] == Idle
      modifies this`y, buftab, calls
      ensures Valid() && (y, r) == GetBufEnter(old(y), p, poolid)
    {
      if poolid < 0 || poolid >= nbpools {
        return Failed;
      }
      GetBufEnterInv(y, p, poolid);
      var s := buftab[poolid].bpsem;
      buftab[poolid] := buftab[poolid].(bpsem := Down(s, p));
      calls[p] := Getting(poolid, !Blocks(s));
      y := GetBufEnter(y, p, poolid).0;
      return Blocked;
    }

    /** The rest of getbuf, once the wait for a buffer is over. */
    method GetBufRest(p: Pid) returns (r: Outcome)
      requires Valid() && y.phases[p].Getting? && y.phases[p].granted
      modifies this`y, this`word, buftab, calls
      ensures Valid() && (y, r) == GetBufFinish(old(y), p)
    {
      var poolid := calls[p].pool;
      ghost var v, y' := y.pools[poolid], GetBufFinish(y, p).0;
      GetBufFinishInv(y, p);
      var b := buftab[poolid].bpnext;
      ChainedRest(word, v.free);
      assert b in v.free && BufsOk(y.tags, v);
      OnNoOther(y, poolid, b);
      var e := buftab[poolid].(bpnext := word[b]);
      UnlinkTied(buftab[..], y.pools, y.tags, word, poolid, e, b);
      buftab[poolid] := e;
      word := word[b := poolid];
      calls[p] := Idle;
      y := y';
      return Got(b + TAGSIZE);
    }

    /** signal's wake-up: the wait of the released process, if any, is over. */
    method GrantReleased(ps: seq<Pid>)
      requires calls.Length == NPROC && |ps| <= 1
      modifies calls
      ensures calls[..] == Grant(old(calls[..]), ps)
    {
      if ps != [] && calls[ps[0]] != Idle {
        calls[ps[0]] := calls[ps[0]].(granted := true);
      }
    }

    /** Any address that FreeBufSafeIff says keeps the pools in order: one with no pool's id in front of it,
        or that of a buffer in use. */
    method FreeBuf(bufaddr: int) returns (r: Outcome)
      requires Valid() && bufaddr - TAGSIZE in word
      requires IsPool(y, word[bufaddr - TAGSIZE]) ==> bufaddr - TAGSIZE in y.tags
      modifies this`y, this`word, buftab, calls
      ensures Valid() && (y, r) == BufPoolSpec.FreeBuf(old(y), bufaddr, old(word[bufaddr - TAGSIZE]))
    {
      var b := bufaddr - TAGSIZE;
      var poolid := word[b];
      if poolid < 0 || poolid >= nbpools {
        return Failed;
      }
      FreeBufInv(y, bufaddr);
      ghost var v, y' := y.pools[poolid], BufPoolSpec.FreeBuf(y, bufaddr, poolid).0;
      assert BufsOk(y.tags, v) && b in v.bufs;
      OnNoOther(y, poolid, b);
      ChainedCons(word, b, v.free);
      var link := buftab[poolid].bpnext;
      var s := buftab[poolid].bpsem;
      var e := BpEntry(b, Up(s), buftab[poolid].bpsize);
      PoolsFrame(buftab[..], y.pools, word, poolid, e, y'.pools[poolid], b, link);
      word := word[b := link];
      buftab[poolid] := e;
      GrantReleased(Released(s));
      y := y';
      return Freed;
    }
  }
}
