/** The heap as the allocator keeps it: blocks that hold their own link and length, chained in address
    order from the list head memlist, whose length field is the total of free memory. */
module HeapMemory {
  import opened HeapSpec
  import opened HeapRuns

  const NULL := 0
  const OK := 1

  /** The address of the record before position i of the list: the head, or the block before. */
  function Node(fl: FreeList, head: int, i: nat): (a: int)
    requires i <= |fl|
  {
    if i == 0 then head else fl[i - 1].addr
  }

  function Next(fl: FreeList, i: nat): (a: int)
    requires i <= |fl|
  {
    if i == |fl| then NULL else fl[i].addr
  }

  predicate Ascending(fl: FreeList, head: int) {
    && (forall i :: 0 <= i < |fl| ==> head < fl[i].addr)
    && (forall i, j :: 0 <= i < j < |fl| ==> fl[i].addr < fl[j].addr)
  }

  /** The links and lengths in memory spell out the list fl. */
  ghost predicate Listed(mnext: map<int, int>, mlength: map<int, int>, fl: FreeList, head: int) {
    && 0 < head && Ascending(fl, head)
    && (forall i :: 0 <= i <= |fl| ==> Node(fl, head, i) in mnext && mnext[Node(fl, head, i)] == Next(fl, i))
    && (forall i :: 0 <= i < |fl| ==> fl[i].addr in mlength && mlength[fl[i].addr] == fl[i].len)
  }

  lemma AscendingSplit(fl: FreeList, head: int, k: nat)
    requires Ascending(fl, head) && k < |fl|
    ensures Ascending(fl[..k] + fl[k + 1..], head)
  {}

  /** Unlinking the k-th block. */
  lemma ListedUnlink(mnext: map<int, int>, mlength: map<int, int>, fl: FreeList, head: int, k: nat)
    requires Listed(mnext, mlength, fl, head) && k < |fl|
    ensures Listed(mnext[Node(fl, head, k) := Next(fl, k + 1)], mlength, fl[..k] + fl[k + 1..], head)
  {
    var r, m := fl[..k] + fl[k + 1..], mnext[Node(fl, head, k) := Next(fl, k + 1)];
    AscendingSplit(fl, head, k);
    forall i | 0 <= i <= |r| ensures Node(r, head, i) in m && m[Node(r, head, i)] == Next(r, i) {
      if i <= k {
        assert Node(r, head, i) == Node(fl, head, i);
      } else {
        assert Node(r, head, i) == Node(fl, head, i + 1);
      }
    }
  }

  /** Giving the k-th block a new address and length that keep it between its neighbours. */
  lemma ListedReplace(mnext: map<int, int>, mlength: map<int, int>, fl: FreeList, head: int, k: nat, b: Block)
    requires Listed(mnext, mlength, fl, head) && k < |fl|
    requires fl[k].addr <= b.addr && (k + 1 < |fl| ==> b.addr < fl[k + 1].addr)
    ensures Listed(mnext[Node(fl, head, k) := b.addr][b.addr := Next(fl, k + 1)], mlength[b.addr := b.len],
                   fl[k := b], head)
  {
    var r, m := fl[k := b], mnext[Node(fl, head, k) := b.addr][b.addr := Next(fl, k + 1)];
    forall i, j | 0 <= i < j < |r| ensures r[i].addr < r[j].addr {
      if j == k { assert fl[i].addr < fl[k].addr; }
      if i == k && j > k + 1 { assert fl[k + 1].addr < fl[j].addr; }
    }
    forall i | 0 <= i <= |r| ensures Node(r, head, i) in m && m[Node(r, head, i)] == Next(r, i) {
      if i != k + 1 { assert Node(r, head, i) == Node(fl, head, i); }
    }
  }

  /** A length written to a block that stays where it is. */
  lemma ListedResize(mnext: map<int, int>, mlength: map<int, int>, fl: FreeList, head: int, k: nat, len: int)
    requires Listed(mnext, mlength, fl, head) && k < |fl|
    ensures Listed(mnext, mlength[fl[k].addr := len], fl[k := Block(fl[k].addr, len)], head)
  {
    var r := fl[k := Block(fl[k].addr, len)];
    forall i | 0 <= i <= |r| ensures Node(r, head, i) in mnext && mnext[Node(r, head, i)] == Next(r, i) {
      assert Node(r, head, i) == Node(fl, head, i) && Next(r, i) == Next(fl, i);
    }
  }

  lemma AscendingInsert(fl: FreeList, head: int, k: nat, b: Block)
    requires Ascending(fl, head) && k <= |fl|
    requires head < b.addr && (k > 0 ==> fl[k - 1].addr < b.addr) && (k < |fl| ==> b.addr < fl[k].addr)
    ensures Ascending(fl[..k] + [b] + fl[k..], head)
  {}

  /** Linking a new block in at position k. */
  lemma ListedInsert(mnext: map<int, int>, mlength: map<int, int>, fl: FreeList, head: int, k: nat, b: Block)
    requires Listed(mnext, mlength, fl, head) && k <= |fl|
    requires head < b.addr && (k > 0 ==> fl[k - 1].addr < b.addr) && (k < |fl| ==> b.addr < fl[k].addr)
    ensures Listed(mnext[b.addr := Next(fl, k)][Node(fl, head, k) := b.addr], mlength[b.addr := b.len],
                   fl[..k] + [b] + fl[k..], head)
  {
    var r, m := fl[..k] + [b] + fl[k..], mnext[b.addr := Next(fl, k)][Node(fl, head, k) := b.addr];
    AscendingInsert(fl, head, k, b);
    forall i | 0 <= i <= |r| ensures Node(r, head, i) in m && m[Node(r, head, i)] == Next(r, i) {
      if i <= k {
        assert Node(r, head, i) == Node(fl, head, i);
      } else if i > k + 1 {
        assert Node(r, head, i) == Node(fl, head, i - 1);
      }
    }
  }

  /** The head's own length field is no block's. */
  lemma ListedTotal(mnext: map<int, int>, mlength: map<int, int>, fl: FreeList, head: int, total: int)
    requires Listed(mnext, mlength, fl, head)
    ensures Listed(mnext, mlength[head := total], fl, head)
  {}

  /** Block j takes over the block after it. */
  function Merged(fl: FreeList, j: nat): (r: FreeList)
    requires j + 1 < |fl|
  {
    fl[..j] + [Block(fl[j].addr, Add32(fl[j].len, fl[j + 1].len))] + fl[j + 2..]
  }

  lemma ListedMerge(mnext: map<int, int>, mlength: map<int, int>, fl: FreeList, head: int, j: nat)
    requires Listed(mnext, mlength, fl, head) && j + 1 < |fl|
    ensures Listed(mnext[fl[j].addr := Next(fl, j + 2)], mlength[fl[j].addr := Add32(fl[j].len, fl[j + 1].len)],
                   Merged(fl, j), head)
    ensures fl[j + 1].addr in mnext && mnext[fl[j + 1].addr] == Next(fl, j + 2)
  {
    var r := fl[j := Block(fl[j].addr, Add32(fl[j].len, fl[j + 1].len))];
    assert Node(fl, head, j + 2) == fl[j + 1].addr;
    ListedResize(mnext, mlength, fl, head, j, r[j].len);
    ListedUnlink(mnext, mlength[fl[j].addr := r[j].len], r, head, j + 1);
    assert r[..j + 1] + r[j + 2..] == Merged(fl, j);
  }

  /** Block j absorbs the block after it if they touch. */
  function Joined(fl: FreeList, j: nat): (r: FreeList)
    requires j < |fl|
  {
    if j + 1 < |fl| && Add32(fl[j].addr, fl[j].len) == fl[j + 1].addr then Merged(fl, j) else fl
  }

  lemma JoinedIs(p: FreeList, b: Block, t: FreeList)
    ensures Next(p + [b] + t, |p| + 1) == Next(t, 0)
    ensures Joined(p + [b] + t, |p|)
      == p + if t != [] && Add32(b.addr, b.len) == t[0].addr then [Block(b.addr, Add32(b.len, t[0].len))] + t[1..] else [b] + t
  {
    var fl := p + [b] + t;
    assert fl[..|p|] == p;
    if t != [] { assert fl[|p| + 1] == t[0] && fl[|p| + 2..] == t[1..]; }
  }

  /** Where freemem's new block is after its first step: merged into the one below, or linked in. */
  function LinkedAt(fl: FreeList, k: nat, a: int): (j: nat)
    requires k <= |fl|
    ensures j <= k
  {
    if k > 0 && Add32(fl[k - 1].addr, fl[k - 1].len) == a then k - 1 else k
  }

  function Linked(fl: FreeList, k: nat, a: int, n: int): (r: FreeList)
    requires k <= |fl|
    ensures LinkedAt(fl, k, a) < |r|
  {
    var j := LinkedAt(fl, k, a);
    if j < k then fl[j := Block(fl[j].addr, Add32(fl[j].len, n))] else fl[..k] + [Block(a, n)] + fl[k..]
  }

  /** freemem's two steps, merge below or link in, then merge above, make Put. */
  lemma LinkedIs(fl: FreeList, k: nat, a: int, n: int)
    requires k <= |fl|
    ensures var fl1, j := Linked(fl, k, a, n), LinkedAt(fl, k, a);
      && Joined(fl1, j) == Put(fl, k, a, n) && Next(fl1, j + 1) == Next(fl, k)
  {
    var fl1, j := Linked(fl, k, a, n), LinkedAt(fl, k, a);
    assert fl1 == fl[..j] + [fl1[j]] + fl[k..];
    JoinedIs(fl[..j], fl1[j], fl[k..]);
  }

  /** The block after the first step ends where the region does. */
  lemma LinkedEnd(fl: FreeList, k: nat, a: int, n: int)
    requires WellFormed(fl) && k <= |fl| && 0 < a < TWO32 && 0 <= n < TWO32
    ensures var b := Linked(fl, k, a, n)[LinkedAt(fl, k, a)]; Add32(b.addr, b.len) == Add32(a, n)
  {
    var j := LinkedAt(fl, k, a);
    if j < k { assert fl[j].addr + fl[j].len == a; }
  }

  lemma {:induction false} FirstFitIs(fl: FreeList, n: int, k: nat)
    requires k <= |fl| && (forall i :: 0 <= i < k ==> fl[i].len < n) && (k < |fl| ==> fl[k].len >= n)
    ensures FirstFit(fl, n) == k
  {
    if k > 0 { FirstFitIs(fl[1..], n, k - 1); }
  }

  lemma {:induction false} LastFitIs(fl: FreeList, n: int, k: int)
    requires -1 <= k < |fl| && (k >= 0 ==> fl[k].len >= n) && forall i :: k < i < |fl| ==> fl[i].len < n
    ensures LastFit(fl, n) == k
  {
    if k < |fl| - 1 { LastFitIs(fl[..|fl| - 1], n, k); }
  }

  lemma {:induction false} SlotIs(fl: FreeList, a: int, k: nat)
    requires k <= |fl| && (forall i :: 0 <= i < k ==> fl[i].addr < a) && (k < |fl| ==> fl[k].addr >= a)
    ensures Slot(fl, a) == k
  {
    if k > 0 { SlotIs(fl[1..], a, k - 1); }
  }

  lemma UnlinkSum(fl: FreeList, k: nat)
    requires k < |fl|
    ensures Sum(fl[..k] + fl[k + 1..]) == Sum(fl) - fl[k].len
  {
    CoversReplace(fl, k, [], 0);
    assert fl[..k] + [] + fl[k + 1..] == fl[..k] + fl[k + 1..];
  }

  lemma ReplaceSum(fl: FreeList, k: nat, b: Block)
    requires k < |fl|
    ensures Sum(fl[k := b]) == Sum(fl) - fl[k].len + b.len
  {
    CoversReplace(fl, k, [b], 0);
    assert fl[..k] + [b] + fl[k + 1..] == fl[k := b];
  }

  lemma ReplaceWellFormed(fl: FreeList, k: nat, b: Block)
    requires WellFormed(fl) && k < |fl| && BlockOk(b)
    requires fl[k].addr <= b.addr && b.addr + b.len <= fl[k].addr + fl[k].len
    ensures WellFormed(fl[k := b])
  {
    CarveWellFormed(fl, k, b);
    assert fl[..k] + [b] + fl[k + 1..] == fl[k := b];
  }

  /** Everything the allocator keeps about its memory. */
  ghost predicate Consistent(mnext: map<int, int>, mlength: map<int, int>, fl: FreeList, head: int) {
    && Listed(mnext, mlength, fl, head) && WellFormed(fl)
    && head in mlength && mlength[head] == Sum(fl)
  }

  lemma SplitLowConsistent(mnext: map<int, int>, mlength: map<int, int>, fl: FreeList, head: int, k: nat, n: int)
    requires Consistent(mnext, mlength, fl, head) && k < |fl| && 0 <= n < fl[k].len
    ensures Node(fl, head, k) != fl[k].addr && fl[k].addr in mnext && mnext[fl[k].addr] == Next(fl, k + 1)
    ensures var b := Block(fl[k].addr + n, fl[k].len - n);
      Consistent(mnext[Node(fl, head, k) := b.addr][b.addr := Next(fl, k + 1)],
                 mlength[b.addr := b.len][head := Sum(fl) - n], fl[k := b], head)
  {
    var b := Block(fl[k].addr + n, fl[k].len - n);
    assert Node(fl, head, k + 1) == fl[k].addr;
    assert k + 1 < |fl| ==> Before(fl[k], fl[k + 1]);
    ListedReplace(mnext, mlength, fl, head, k, b);
    ReplaceSum(fl, k, b);
    ReplaceWellFormed(fl, k, b);
    ListedTotal(mnext[Node(fl, head, k) := b.addr][b.addr := Next(fl, k + 1)], mlength[b.addr := b.len],
                fl[k := b], head, Sum(fl) - n);
  }

  lemma SplitHighConsistent(mnext: map<int, int>, mlength: map<int, int>, fl: FreeList, head: int, k: nat, n: int)
    requires Consistent(mnext, mlength, fl, head) && k < |fl| && 0 <= n < fl[k].len
    ensures var b := Block(fl[k].addr, fl[k].len - n);
      Consistent(mnext, mlength[b.addr := b.len][head := Sum(fl) - n], fl[k := b], head)
  {
    var b := Block(fl[k].addr, fl[k].len - n);
    ListedResize(mnext, mlength, fl, head, k, b.len);
    ReplaceSum(fl, k, b);
    ReplaceWellFormed(fl, k, b);
    ListedTotal(mnext, mlength[b.addr := b.len], fl[k := b], head, Sum(fl) - n);
  }

  lemma DetachConsistent(mnext: map<int, int>, mlength: map<int, int>, fl: FreeList, head: int, k: nat)
    requires Consistent(mnext, mlength, fl, head) && k < |fl|
    ensures Node(fl, head, k + 1) == fl[k].addr && fl[k].addr in mnext && mnext[fl[k].addr] == Next(fl, k + 1)
    ensures Consistent(mnext[Node(fl, head, k) := Next(fl, k + 1)], mlength[head := Sum(fl) - fl[k].len],
                       fl[..k] + fl[k + 1..], head)
  {
    ListedUnlink(mnext, mlength, fl, head, k);
    UnlinkSum(fl, k);
    WellFormedSlices(fl, k, k + 1);
    ListedTotal(mnext[Node(fl, head, k) := Next(fl, k + 1)], mlength, fl[..k] + fl[k + 1..], head, Sum(fl) - fl[k].len);
  }

  predicate Above(fl: FreeList, minheap: int) { forall i :: 0 <= i < |fl| ==> minheap <= fl[i].addr }

  lemma PutAbove(fl: FreeList, k: nat, a: int, n: int, minheap: int)
    requires Above(fl, minheap) && k <= |fl| && minheap <= a
    ensures Above(Put(fl, k, a, n), minheap)
  {}

  /** What freemem's two steps need to know of each other. */
  lemma LinkPlan(fl: FreeList, k: nat, a: int, n: int, minheap: int, fl1: FreeList, j: nat)
    requires WellFormed(fl) && Above(fl, minheap) && k <= |fl| && 0 < minheap <= a < TWO32 && 0 <= n < TWO32
    requires fl1 == Linked(fl, k, a, n) && j == LinkedAt(fl, k, a) && (k == |fl| ==> a + n != TWO32)
    ensures Joined(fl1, j) == Put(fl, k, a, n) && Next(fl1, j + 1) == Next(fl, k) && Above(Put(fl, k, a, n), minheap)
    ensures j + 1 == |fl1| ==> Add32(fl1[j].addr, fl1[j].len) != NULL
    ensures k > 0 && k < |fl| && a == fl[k].addr ==> Add32(fl[k - 1].addr, fl[k - 1].len) != a
  {
    LinkedIs(fl, k, a, n);
    LinkedEnd(fl, k, a, n);
    PutAbove(fl, k, a, n, minheap);
    if k > 0 && k < |fl| { assert Before(fl[k - 1], fl[k]); }
  }

  /** A list whose last block is linked to itself. */
  ghost predicate Looped(mnext: map<int, int>, mlength: map<int, int>, fl: FreeList, head: int) {
    && fl != [] && fl[|fl| - 1].addr in mnext && mnext[fl[|fl| - 1].addr] == fl[|fl| - 1].addr
    && (forall i :: 0 <= i < |fl| ==> Node(fl, head, i) in mnext && mnext[Node(fl, head, i)] == fl[i].addr)
    && (forall i :: 0 <= i < |fl| ==> fl[i].addr in mlength && mlength[fl[i].addr] == fl[i].len)
  }

  /** Writing a block over the one that is there already. */
  lemma ListedOver(mnext: map<int, int>, mlength: map<int, int>, fl: FreeList, head: int, k: nat, n: int)
    requires Listed(mnext, mlength, fl, head) && k < |fl|
    ensures var a := fl[k].addr;
      Looped(mnext[a := a], mlength[a := n], fl[..k] + [Block(a, n)], head)
  {
    var a := fl[k].addr;
    var r, m := fl[..k] + [Block(a, n)], mnext[a := a];
    forall i | 0 <= i < |r| ensures Node(r, head, i) in m && m[Node(r, head, i)] == r[i].addr {
      assert Node(r, head, i) == Node(fl, head, i);
    }
  }

  // ---- the total of free memory ----

  lemma {:induction false} SumSpan(fl: FreeList)
    requires WellFormed(fl) && fl != []
    ensures 0 < Sum(fl) <= fl[|fl| - 1].addr + fl[|fl| - 1].len - fl[0].addr
  {
    if |fl| > 1 {
      assert Before(fl[0], fl[1]);
      WellFormedSlices(fl, 0, 1);
      SumSpan(fl[1..]);
    }
  }

  lemma SumBound(fl: FreeList)
    requires WellFormed(fl)
    ensures 0 <= Sum(fl) < TWO32
  {
    if fl != [] {
      SumSpan(fl);
      assert BlockOk(fl[|fl| - 1]) && BlockOk(fl[0]);
    }
  }

  lemma SumMember(fl: FreeList, k: nat)
    requires WellFormed(fl) && k < |fl|
    ensures fl[k].len <= Sum(fl)
  {
    UnlinkSum(fl, k);
    WellFormedSlices(fl, k, k + 1);
    SumBound(fl[..k] + fl[k + 1..]);
  }

  /** Whenever the list is in order afterwards, the total of its lengths has grown by the size, in 32 bits. */
  lemma FreedSum(fl: FreeList, minheap: int, maxheap: int, a: int, nbytes: int)
    requires WellFormed(fl) && 0 < a < TWO32 && 0 < nbytes < TWO32
    requires var r := FreeMem(fl, minheap, maxheap, a, nbytes); r.1 && WellFormed(r.0)
    ensures Sum(FreeMem(fl, minheap, maxheap, a, nbytes).0) == Add32(Sum(fl), RoundMb(nbytes))
  {
    var n, k, r := RoundMb(nbytes), Slot(fl, a), FreeMem(fl, minheap, maxheap, a, nbytes).0;
    RoundMbIs(nbytes);
    SumBound(fl);
    SumBound(r);
    FreeMemInOrderIff(fl, minheap, maxheap, a, nbytes);
    if n == 0 {
      FreeNothing(fl, minheap, maxheap, a, nbytes);
    } else if a + n < TWO32 {
      FreeMemIs(fl, minheap, maxheap, a, nbytes);
    } else {
      ShrunkSum(fl, k, a, n);
    }
  }

  lemma ShrunkIs(fl: FreeList, k: nat, a: int, n: int, b: Block)
    requires WellFormed(fl) && 0 < k <= |fl| && fl[k - 1].addr + fl[k - 1].len == a && fl[k - 1].len + n > TWO32
    requires 0 < n < TWO32 && (k < |fl| ==> fl[k].addr >= a) && b == Block(fl[k - 1].addr, Add32(fl[k - 1].len, n))
    ensures Put(fl, k, a, n) == fl[k - 1 := b]
  {
    assert fl[k - 1 := b] == fl[..k - 1] + ([b] + fl[k..]);
  }

  lemma ShrunkSum(fl: FreeList, k: nat, a: int, n: int)
    requires WellFormed(fl) && 0 < k <= |fl| && fl[k - 1].addr + fl[k - 1].len == a && fl[k - 1].len + n > TWO32
    requires 0 < n < TWO32 && (k < |fl| ==> fl[k].addr >= a)
    ensures Sum(Put(fl, k, a, n)) == Add32(Sum(fl), n)
  {
    var b := Block(fl[k - 1].addr, Add32(fl[k - 1].len, n));
    ShrunkIs(fl, k, a, n, b);
    ReplaceSum(fl, k - 1, b);
    SumMember(fl, k - 1);
    SumBound(fl);
  }

  class Memory {
    const memlist: int  // the address of the list head
    const minheap: int
    const maxheap: int
    var mnext: map<int, int>
    var mlength: map<int, int>
    ghost var fl: FreeList

    ghost predicate Valid()
      reads this
    {
      && 0 < memlist < minheap <= maxheap < TWO32
      && Consistent(mnext, mlength, fl, memlist) && Above(fl, minheap)
    }

    /** The links and lengths spell out the list, which need not be in order. */
    ghost predicate Chained()
      reads this
    {
      Listed(mnext, mlength, fl, memlist) && Above(fl, minheap)
    }

    /** meminit's head of an empty list. */
    constructor (memlist: int, minheap: int, maxheap: int)
      requires 0 < memlist < minheap <= maxheap < TWO32
      ensures Valid() && fl == [] && this.minheap == minheap && this.maxheap == maxheap
    {
      this.memlist, this.minheap, this.maxheap := memlist, minheap, maxheap;
      mnext, mlength, fl := map[memlist := NULL], map[memlist := 0], [];
    }

    /** First fit, from the low end of the block. */
    method GetMem(nbytes: int) returns (addr: int)
      requires Valid() && 0 <= nbytes < TWO32
      modifies this
      ensures Valid() && (fl, addr) == HeapSpec.GetMem(old(fl), nbytes)
    {
      if nbytes == 0 {
        return SYSERR;
      }
      var n := RoundMb(nbytes);
      assert Node(fl, memlist, 0) == memlist;
      var prev, curr := memlist, mnext[memlist];
      ghost var k := 0;
      while curr != NULL
        invariant Valid() && fl == old(fl) && mnext == old(mnext) && mlength == old(mlength)
        invariant k <= |fl| && prev == Node(fl, memlist, k) && curr == Next(fl, k)
        invariant forall i :: 0 <= i < k ==> fl[i].len < n
        decreases |fl| - k
      {
        assert Node(fl, memlist, k + 1) == curr;
        if mlength[curr] == n {
          FirstFitIs(fl, n, k);
          Detach(prev, curr, n, k);
          return curr;
        } else if mlength[curr] > n {
          FirstFitIs(fl, n, k);
          SplitLow(prev, curr, n, k);
          return curr;
        }
        prev, curr := curr, mnext[curr];
        k := k + 1;
      }
      FirstFitIs(fl, n, k);
      return SYSERR;
    }

    /** An exact match leaves the list. */
    method Detach(prev: int, curr: int, n: int, ghost k: nat)
      requires Valid() && k < |fl| && prev == Node(fl, memlist, k) && curr == fl[k].addr && fl[k].len == n
      modifies this
      ensures Valid() && fl == old(fl)[..k] + old(fl)[k + 1..]
    {
      DetachConsistent(mnext, mlength, fl, memlist, k);
      mnext := mnext[prev := mnext[curr]];
      mlength := mlength[memlist := mlength[memlist] - n];
      fl := fl[..k] + fl[k + 1..];
    }

    /** The high part of a larger block stays. */
    method SplitLow(prev: int, curr: int, n: int, ghost k: nat)
      requires Valid() && k < |fl| && prev == Node(fl, memlist, k) && curr == fl[k].addr && 0 <= n < fl[k].len
      modifies this
      ensures Valid() && fl == LowCarve(old(fl), k, n)
    {
      SplitLowConsistent(mnext, mlength, fl, memlist, k, n);
      var leftover := curr + n;
      ghost var b, up, total := Block(fl[k].addr + n, fl[k].len - n), Next(fl, k + 1), Sum(fl) - n;
      ghost var mnext', mlength' := mnext[prev := b.addr][b.addr := up], mlength[b.addr := b.len][memlist := total];
      mnext := mnext[prev := leftover];
      mnext := mnext[leftover := mnext[curr]];
      mlength := mlength[leftover := mlength[curr] - n];
      mlength := mlength[memlist := mlength[memlist] - n];
      assert mnext == mnext' && mlength == mlength';
      fl := fl[k := b];
    }

    /** The low part of a larger block stays. */
    method SplitHigh(fits: int, n: int, ghost k: nat)
      requires Valid() && k < |fl| && fits == fl[k].addr && 0 <= n < fl[k].len
      modifies this
      ensures Valid() && fl == HighCarve(old(fl), k, n)
      ensures fits in mlength && mlength[fits] == old(fl)[k].len - n
    {
      SplitHighConsistent(mnext, mlength, fl, memlist, k, n);
      mlength := mlength[fits := mlength[fits] - n];
      mlength := mlength[memlist := mlength[memlist] - n];
      fl := fl[k := Block(fl[k].addr, fl[k].len - n)];
    }

    /** Last fit, from the high end of the block. */
    method GetStk(nbytes: int) returns (addr: int)
      requires Valid() && 0 <= nbytes < TWO32
      modifies this
      ensures Valid() && (fl, addr) == HeapSpec.GetStk(old(fl), nbytes)
    {
      if nbytes == 0 {
        return SYSERR;
      }
      var n := RoundMb(nbytes);
      var fits, fitsprev, f := LastThatFits(n);
      if fits == NULL {
        return SYSERR;
      }
      if n == mlength[fits] {
        Detach(fitsprev, fits, n, f);
      } else {
        SplitHigh(fits, n, f);
        fits := fits + mlength[fits];
      }
      return fits + n - 4;
    }

    /** getstk's scan of the whole list: the last block that is large enough, and the one before it. */
    method LastThatFits(n: int) returns (fits: int, fitsprev: int, ghost f: int)
      requires Valid()
      ensures f == LastFit(fl, n) && (f == -1 <==> fits == NULL)
      ensures f >= 0 ==> fits == fl[f].addr && fitsprev == Node(fl, memlist, f)
    {
      assert Node(fl, memlist, 0) == memlist;
      fits, fitsprev, f := NULL, NULL, -1;
      var prev, curr := memlist, mnext[memlist];
      ghost var k := 0;
      while curr != NULL
        invariant k <= |fl| && prev == Node(fl, memlist, k) && curr == Next(fl, k)
        invariant -1 <= f < k && (f == -1 <==> fits == NULL)
        invariant f >= 0 ==> fits == fl[f].addr && fitsprev == Node(fl, memlist, f) && fl[f].len >= n
        invariant forall i :: f < i < k ==> fl[i].len < n
        decreases |fl| - k
      {
        assert Node(fl, memlist, k + 1) == curr;
        if mlength[curr] >= n {
          fits, fitsprev, f := curr, prev, k;
        }
        prev, curr := curr, mnext[curr];
        k := k + 1;
      }
      LastFitIs(fl, n, f);
    }

    /** Give back nbytes at addr. Left out is the one region that ends exactly where the address space does
        with no free block above it, after which the code reads through the NULL link. */
    method FreeMem(addr: int, nbytes: int) returns (status: int)
      requires Valid() && 0 <= addr < TWO32 && 0 <= nbytes < TWO32
      requires HeapSpec.FreeMem(fl, minheap, maxheap, addr, nbytes).1 && Slot(fl, addr) == |fl|
        ==> addr + RoundMb(nbytes) != TWO32
      modifies this
      ensures (fl, status == OK) == HeapSpec.FreeMem(old(fl), minheap, maxheap, addr, nbytes)
      ensures status == OK || status == SYSERR
      ensures Valid() <==> WellFormed(fl)
      ensures if status == OK && Loops(old(fl), addr) then Looped(mnext, mlength, fl, memlist) else Chained()
    {
      if nbytes == 0 || addr < minheap || addr > maxheap {
        return SYSERR;
      }
      var n := RoundMb(nbytes);
      RoundMbIs(nbytes);
      var prev, next, k := WalkTo(addr);
      var top := if prev == memlist then NULL else Add32(prev, mlength[prev]);
      if (prev != memlist && addr < top) || (next != NULL && Add32(addr, n) > next) {
        return SYSERR;
      }
      ghost var fl1 := HeapSpec.FreeMem(fl, minheap, maxheap, addr, nbytes).0;
      if WellFormed(fl1) { FreedSum(fl, minheap, maxheap, addr, nbytes); }
      LinkFreed(prev, next, top, addr, n, k);
      fl := fl1;
      return OK;
    }

    /** The last block below addr, or the head, and the block after it. */
    method WalkTo(addr: int) returns (prev: int, next: int, ghost k: nat)
      requires Valid()
      ensures k == Slot(fl, addr) && prev == Node(fl, memlist, k) && next == Next(fl, k)
    {
      assert Node(fl, memlist, 0) == memlist;
      prev, next, k := memlist, mnext[memlist], 0;
      while next != NULL && next < addr
        invariant k <= |fl| && prev == Node(fl, memlist, k) && next == Next(fl, k)
        invariant forall i :: 0 <= i < k ==> fl[i].addr < addr
        decreases |fl| - k
      {
        assert Node(fl, memlist, k + 1) == next;
        prev, next := next, mnext[next];
        k := k + 1;
      }
      SlotIs(fl, addr, k);
    }

    /** Merge with the block below or link in, and then merge with the block above. */
    method LinkFreed(prev: int, next: int, top: int, addr: int, n: int, ghost k: nat)
      requires Valid() && k <= |fl| && 0 <= n < TWO32 && minheap <= addr <= maxheap
      requires prev == Node(fl, memlist, k) && next == Next(fl, k) && !Clashes(fl, k, addr, n)
      requires top == if k == 0 then NULL else Add32(fl[k - 1].addr, fl[k - 1].len)
      requires (k > 0 ==> fl[k - 1].addr < addr) && (k < |fl| ==> addr <= fl[k].addr)
      requires k == |fl| ==> addr + n != TWO32
      modifies this`mnext, this`mlength
      ensures memlist in mlength && mlength[memlist] == Add32(Sum(fl), n)
      ensures if k < |fl| && addr == fl[k].addr then Looped(mnext, mlength, fl[..k] + [Block(addr, n)], memlist)
              else Listed(mnext, mlength, Put(fl, k, addr, n), memlist) && Above(Put(fl, k, addr, n), minheap)
    {
      ListedTotal(mnext, mlength, fl, memlist, Add32(mlength[memlist], n));
      mlength := mlength[memlist := Add32(mlength[memlist], n)];
      ghost var fl1, j, loops := Linked(fl, k, addr, n), LinkedAt(fl, k, addr), k < |fl| && addr == fl[k].addr;
      LinkPlan(fl, k, addr, n, minheap, fl1, j);
      var block := LinkBelow(prev, next, top, addr, n, k);
      JoinNext(block, next, fl1, j, loops);
    }

    method LinkBelow(prev: int, next: int, top: int, addr: int, n: int, ghost k: nat) returns (block: int)
      requires Listed(mnext, mlength, fl, memlist) && k <= |fl| && memlist < addr
      requires prev == Node(fl, memlist, k) && next == Next(fl, k) && (k < |fl| ==> addr <= fl[k].addr)
      requires top == if k == 0 then NULL else Add32(fl[k - 1].addr, fl[k - 1].len)
      requires k > 0 ==> fl[k - 1].addr < addr
      requires k < |fl| && addr == fl[k].addr ==> top != addr
      modifies this`mnext, this`mlength
      ensures if k < |fl| && addr == fl[k].addr
              then block == addr && addr in mlength && mlength[addr] == n
                   && Looped(mnext, mlength, fl[..k] + [Block(addr, n)], memlist)
              else Listed(mnext, mlength, Linked(fl, k, addr, n), memlist)
                   && block == Linked(fl, k, addr, n)[LinkedAt(fl, k, addr)].addr
      ensures memlist in old(mlength) ==> memlist in mlength && mlength[memlist] == old(mlength[memlist])
    {
      block := addr;
      if top == block {
        ListedResize(mnext, mlength, fl, memlist, k - 1, Add32(fl[k - 1].len, n));
        assert Linked(fl, k, addr, n) == fl[k - 1 := Block(prev, Add32(fl[k - 1].len, n))];
        mlength := mlength[prev := Add32(mlength[prev], n)];
        block := prev;
      } else {
        if k < |fl| && addr == fl[k].addr {
          ListedOver(mnext, mlength, fl, memlist, k, n);
          assert mnext[addr := next][prev := addr] == mnext[addr := addr];
        } else {
          ListedInsert(mnext, mlength, fl, memlist, k, Block(addr, n));
          assert Linked(fl, k, addr, n) == fl[..k] + [Block(addr, n)] + fl[k..];
          assert (fl[..k] + [Block(addr, n)] + fl[k..])[k] == Block(addr, n);
        }
        mnext := mnext[block := next];
        mlength := mlength[block := n];
        mnext := mnext[prev := block];
      }
    }

    /** The last step of freemem: block j absorbs the next one if they touch. */
    method JoinNext(block: int, next: int, ghost fl1: FreeList, ghost j: nat, ghost loops: bool)
      requires !loops ==>
        && Listed(mnext, mlength, fl1, memlist) && j < |fl1|
        && block == fl1[j].addr && next == Next(fl1, j + 1) && (j + 1 == |fl1| ==> Add32(block, fl1[j].len) != NULL)
      requires loops ==>
        && block == next && block in mnext && mnext[block] == block && block in mlength
        && 0 <= block < TWO32 && 0 <= mlength[block] < TWO32
      modifies this`mnext, this`mlength
      ensures if loops then mnext == old(mnext) && mlength == old(mlength)
              else Listed(mnext, mlength, Joined(fl1, j), memlist)
      ensures memlist in old(mlength) ==> memlist in mlength && mlength[memlist] == old(mlength[memlist])
    {
      if Add32(block, mlength[block]) == next {
        ghost var mnext', mlength' := mnext, mlength;
        if !loops {
          ListedMerge(mnext, mlength, fl1, memlist, j);
          mnext' := mnext[block := Next(fl1, j + 2)];
          mlength' := mlength[block := Add32(fl1[j].len, fl1[j + 1].len)];
        }
        mlength := mlength[block := Add32(mlength[block], mlength[next])];
        mnext := mnext[block := mnext[next]];
        assert mnext == mnext' && mlength == mlength';
      }
    }
  }
}
