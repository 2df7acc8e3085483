/** What getmem, getstk and freemem promise, and what any run of them keeps: no byte is ever lost,
    given out twice, or free while in use. */
module HeapRuns {
  import opened HeapSpec

  /** Well-formed lists with a block strictly between them make a well-formed list. */
  lemma WellFormedJoin(head: FreeList, c: Block, tail: FreeList)
    requires WellFormed(head) && WellFormed(tail) && BlockOk(c)
    requires head != [] ==> Before(head[|head| - 1], c)
    requires tail != [] ==> Before(c, tail[0])
    ensures WellFormed(head + [c] + tail)
  {
    var r := head + [c] + tail;
    forall i, j | 0 <= i < j < |r| ensures Before(r[i], r[j]) {
      BeforeLast(head, i, c);
      BeforeLast(head, j, c);
      AfterFirst(tail, j - |head| - 1, c);
      AfterFirst(tail, i - |head| - 1, c);
    }
  }

  lemma BeforeLast(head: FreeList, i: int, c: Block)
    requires WellFormed(head) && (head != [] ==> Before(head[|head| - 1], c))
    ensures 0 <= i < |head| ==> Before(head[i], c)
  {
    if 0 <= i < |head| - 1 { assert Before(head[i], head[|head| - 1]); }
  }

  lemma AfterFirst(tail: FreeList, j: int, c: Block)
    requires WellFormed(tail) && (tail != [] ==> Before(c, tail[0]))
    ensures 0 <= j < |tail| ==> Before(c, tail[j])
  {
    if 0 < j < |tail| { assert Before(tail[0], tail[j]); }
  }

  lemma WellFormedSlices(fl: FreeList, i: int, j: int)
    requires WellFormed(fl) && 0 <= i <= j <= |fl|
    ensures WellFormed(fl[..i]) && WellFormed(fl[j..])
    ensures i < j ==> WellFormed(fl[..i] + fl[j..])
    ensures 0 < i < |fl| ==> Before(fl[..i][i - 1], fl[i])
    ensures 0 < j < |fl| ==> Before(fl[j - 1], fl[j..][0])
  {}

  // ---- allocation takes exactly the rounded range out of one free block ----

  lemma CarveBytes(fl: FreeList, k: nat, mid: seq<Block>, r: FreeList, a: int, n: int)
    requires k < |fl| && r == fl[..k] + mid + fl[k + 1..]
    requires forall x :: Covers(mid, x) == (if Inside(fl[k], x) then 1 else 0) - (if a <= x < a + n then 1 else 0)
    requires Sum(mid) == fl[k].len - n
    ensures Sum(r) == Sum(fl) - n
    ensures forall x :: Covers(r, x) == Covers(fl, x) - (if a <= x < a + n then 1 else 0)
  {
    forall x ensures Covers(r, x) == Covers(fl, x) - (if a <= x < a + n then 1 else 0) {
      CoversReplace(fl, k, mid, x);
    }
    CoversReplace(fl, k, mid, 0);
  }

  lemma CarveWellFormed(fl: FreeList, k: nat, b: Block)
    requires WellFormed(fl) && k < |fl| && BlockOk(b)
    requires fl[k].addr <= b.addr && b.addr + b.len <= fl[k].addr + fl[k].len
    ensures WellFormed(fl[..k] + [b] + fl[k + 1..]) && WellFormed(fl[..k] + fl[k + 1..])
  {
    WellFormedSlices(fl, k, k + 1);
    WellFormedJoin(fl[..k], b, fl[k + 1..]);
  }

  /** One block shrunk or dropped: the list stays in order and loses exactly the region cut off. */
  lemma CarvedIs(fl: FreeList, k: nat, mid: seq<Block>, r: FreeList, a: int, n: int)
    requires WellFormed(fl) && k < |fl| && r == fl[..k] + mid + fl[k + 1..] && Sum(mid) == fl[k].len - n
    requires mid == [] || (|mid| == 1 && BlockOk(mid[0]) && fl[k].addr <= mid[0].addr
                           && mid[0].addr + mid[0].len <= fl[k].addr + fl[k].len)
    requires forall x :: Covers(mid, x) == (if Inside(fl[k], x) then 1 else 0) - (if a <= x < a + n then 1 else 0)
    ensures WellFormed(r) && Sum(r) == Sum(fl) - n
    ensures forall x :: Covers(r, x) == Covers(fl, x) - (if a <= x < a + n then 1 else 0)
  {
    CarveBytes(fl, k, mid, r, a, n);
    if mid == [] {
      assert r == fl[..k] + fl[k + 1..];
      CarveWellFormed(fl, k, fl[k]);
    } else {
      assert mid == [mid[0]];
      CarveWellFormed(fl, k, mid[0]);
    }
  }

  lemma LowCarveIs(fl: FreeList, k: nat, n: int)
    requires WellFormed(fl) && k < |fl| && 0 < n <= fl[k].len
    ensures WellFormed(LowCarve(fl, k, n)) && Sum(LowCarve(fl, k, n)) == Sum(fl) - n
    ensures var a := fl[k].addr;
      forall x :: Covers(LowCarve(fl, k, n), x) == Covers(fl, x) - (if a <= x < a + n then 1 else 0)
  {
    var mid := if fl[k].len == n then [] else [Block(fl[k].addr + n, fl[k].len - n)];
    assert LowCarve(fl, k, n) == fl[..k] + mid + fl[k + 1..];
    CarvedIs(fl, k, mid, LowCarve(fl, k, n), fl[k].addr, n);
  }

  lemma HighCarveIs(fl: FreeList, k: nat, n: int)
    requires WellFormed(fl) && k < |fl| && 0 < n <= fl[k].len
    ensures WellFormed(HighCarve(fl, k, n)) && Sum(HighCarve(fl, k, n)) == Sum(fl) - n
    ensures var a := fl[k].addr + fl[k].len - n;
      forall x :: Covers(HighCarve(fl, k, n), x) == Covers(fl, x) - (if a <= x < a + n then 1 else 0)
  {
    var mid := if fl[k].len == n then [] else [Block(fl[k].addr, fl[k].len - n)];
    assert HighCarve(fl, k, n) == fl[..k] + mid + fl[k + 1..];
    CarvedIs(fl, k, mid, HighCarve(fl, k, n), fl[k].addr + fl[k].len - n, n);
  }

  /** A region [a, a + n) left the free bytes. */
  ghost predicate Taken(fl: FreeList, fl': FreeList, a: int, n: int) {
    && WellFormed(fl') && Sum(fl') == Sum(fl) - n
    && (forall x :: a <= x < a + n ==> IsFree(fl, x))
    && (forall x :: Covers(fl', x) == Covers(fl, x) - (if a <= x < a + n then 1 else 0))
  }

  ghost predicate IsLowest(fl: FreeList, k: int, n: int) {
    0 <= k < |fl| && fl[k].len >= n && forall i :: 0 <= i < |fl| && fl[i].len >= n ==> i >= k
  }

  ghost predicate IsHighest(fl: FreeList, k: int, n: int) {
    0 <= k < |fl| && fl[k].len >= n && forall i :: 0 <= i < |fl| && fl[i].len >= n ==> i <= k
  }

  /** What a request of 0 bytes after rounding takes: nothing. */
  lemma TakesNothing(fl: FreeList, k: nat)
    requires WellFormed(fl) && k < |fl|
    ensures LowCarve(fl, k, 0) == fl && HighCarve(fl, k, 0) == fl
    ensures forall a :: Taken(fl, fl, a, 0)
  {
    assert fl[k := Block(fl[k].addr + 0, fl[k].len - 0)] == fl;
  }

  /** getmem fails exactly for a size of 0 and when no block is large enough, and then changes nothing;
      otherwise it takes the rounded size from the start of the lowest block that is. */
  lemma GetMemIs(fl: FreeList, nbytes: int)
    requires WellFormed(fl) && 0 <= nbytes < TWO32
    ensures var n, r := RoundMb(nbytes), GetMem(fl, nbytes);
      && (if nbytes <= MAXREQUEST then nbytes <= n < nbytes + 8 else n == 0)
      && (r.1 == SYSERR <==> nbytes == 0 || forall i :: 0 <= i < |fl| ==> fl[i].len < n)
      && (r.1 == SYSERR ==> r.0 == fl)
      && (r.1 != SYSERR ==> Taken(fl, r.0, r.1, n) && exists k :: IsLowest(fl, k, n) && fl[k].addr == r.1)
  {
    RoundMbIs(nbytes);
    var n := RoundMb(nbytes);
    var k := FirstFit(fl, n);
    if k < |fl| {
      assert IsLowest(fl, k, n);
      if n == 0 { TakesNothing(fl, k); } else { LowCarveIs(fl, k, n); }
      forall x | fl[k].addr <= x < fl[k].addr + n ensures IsFree(fl, x) {
        BlockIsFree(fl, k, x);
      }
    }
  }

  lemma GetStkNothing(fl: FreeList)
    ensures GetStk(fl, 0) == (fl, SYSERR)
  {}

  /** getstk likewise, from the end of the highest block that is large enough. */
  lemma GetStkIs(fl: FreeList, nbytes: int)
    requires WellFormed(fl) && 0 < nbytes < TWO32
    ensures var n, r := RoundMb(nbytes), GetStk(fl, nbytes);
      && (n > 0 ==> (r.1 == SYSERR <==> forall i :: 0 <= i < |fl| ==> fl[i].len < n))
      && (r.1 == SYSERR ==> r.0 == fl)
      && (r.1 != SYSERR ==>
           Taken(fl, r.0, r.1 + 4 - n, n) && exists k :: IsHighest(fl, k, n) && fl[k].addr + fl[k].len == r.1 + 4)
  {
    RoundMbIs(nbytes);
    var n := RoundMb(nbytes);
    var k := LastFit(fl, n);
    if k >= 0 {
      HighTaken(fl, k, n);
      assert IsHighest(fl, k, n);
    }
  }

  lemma HighTaken(fl: FreeList, k: nat, n: int)
    requires WellFormed(fl) && k < |fl| && 0 <= n <= fl[k].len
    ensures Taken(fl, HighCarve(fl, k, n), fl[k].addr + fl[k].len - n, n)
  {
    if n == 0 { TakesNothing(fl, k); } else { HighCarveIs(fl, k, n); }
    forall x | fl[k].addr + fl[k].len - n <= x < fl[k].addr + fl[k].len ensures IsFree(fl, x) {
      BlockIsFree(fl, k, x);
    }
  }

  /** No region of a positive size was taken from a list that did not change. */
  lemma NothingTaken(fl: FreeList, a: int, n: int)
    requires Taken(fl, fl, a, n)
    ensures n == 0
  {}

  /** A request for which getmem answers an address gets as many bytes as it asked for if and only if
      its rounding does not wrap: beyond that the answer is the first block, with nothing taken. */
  lemma GetMemHonestIff(fl: FreeList, nbytes: int)
    requires WellFormed(fl) && 0 < nbytes < TWO32 && GetMem(fl, nbytes).1 != SYSERR
    ensures nbytes <= MAXREQUEST <==>
      exists n :: n >= nbytes && Taken(fl, GetMem(fl, nbytes).0, GetMem(fl, nbytes).1, n)
    ensures nbytes > MAXREQUEST ==> GetMem(fl, nbytes) == (fl, fl[0].addr)
  {
    GetMemIs(fl, nbytes);
    if nbytes > MAXREQUEST {
      TakesNothing(fl, 0);
      forall n | Taken(fl, fl, fl[0].addr, n) ensures n == 0 { NothingTaken(fl, fl[0].addr, n); }
    }
  }

  /** The n bytes up to and including the word at w were taken. */
  ghost predicate TakenBelow(fl: FreeList, fl': FreeList, w: int, n: int) { Taken(fl, fl', w + 4 - n, n) }

  /** The same of getstk: beyond that the answer is the last word of the last block, with nothing taken. */
  lemma GetStkHonestIff(fl: FreeList, nbytes: int)
    requires WellFormed(fl) && 0 < nbytes < TWO32 && GetStk(fl, nbytes).1 != SYSERR
    ensures nbytes <= MAXREQUEST <==>
      exists n :: n >= nbytes && TakenBelow(fl, GetStk(fl, nbytes).0, GetStk(fl, nbytes).1, n)
    ensures nbytes > MAXREQUEST ==> var b := fl[|fl| - 1]; GetStk(fl, nbytes) == (fl, b.addr + b.len - 4)
  {
    var g := GetStk(fl, nbytes);
    RoundMbIs(nbytes);
    GetStkIs(fl, nbytes);
    assert TakenBelow(fl, g.0, g.1, RoundMb(nbytes));
    if nbytes > MAXREQUEST {
      TakesNothing(fl, |fl| - 1);
      forall n | TakenBelow(fl, fl, g.1, n) ensures n == 0 { NothingTaken(fl, g.1 + 4 - n, n); }
    }
  }

  /** The first byte of the heap that 0xFFFFFFF9 bytes were "allocated" at is still free. */
  lemma GetMemWrapExample()
    ensures var fl := [Block(8, 16)]; WellFormed(fl) && GetMem(fl, 0xFFFF_FFF9) == (fl, 8) && IsFree(fl, 8)
  {
    var fl := [Block(8, 16)];
    RoundMbIs(0xFFFF_FFF9);
    assert fl[0 := Block(8 + 0, 16 - 0)] == fl;
    BlockIsFree(fl, 0, 8);
  }

  // ---- freemem ----

  /** The overlap check with the two neighbours finds every overlap with any free block. */
  lemma ClashesIff(fl: FreeList, a: int, n: int)
    requires WellFormed(fl) && n > 0 && 0 < a && a + n < TWO32
    ensures Clashes(fl, Slot(fl, a), a, n) <==> exists x :: a <= x < a + n && IsFree(fl, x)
  {
    var k := Slot(fl, a);
    if k > 0 && a < fl[k - 1].addr + fl[k - 1].len {
      BlockIsFree(fl, k - 1, a);
    } else if k < |fl| && a + n > fl[k].addr {
      BlockIsFree(fl, k, fl[k].addr);
    } else {
      forall x | a <= x < a + n ensures !IsFree(fl, x) {
        forall i | 0 <= i < |fl| ensures !Inside(fl[i], x) {
          if i < k - 1 { assert Before(fl[i], fl[k - 1]); }
          if i > k { assert Before(fl[k], fl[i]); }
        }
      }
    }
  }

  lemma PutIs(fl: FreeList, a: int, n: int)
    requires WellFormed(fl) && BlockOk(Block(a, n)) && !Clashes(fl, Slot(fl, a), a, n)
    ensures var r := Put(fl, Slot(fl, a), a, n);
      && WellFormed(r) && Sum(r) == Sum(fl) + n
      && forall x :: Covers(r, x) == Covers(fl, x) + (if a <= x < a + n then 1 else 0)
  {
    var k := Slot(fl, a);
    var r := Put(fl, k, a, n);
    PutWellFormed(fl, k, a, n);
    forall x ensures Covers(r, x) == Covers(fl, x) + (if a <= x < a + n then 1 else 0) && Sum(r) == Sum(fl) + n {
      PutCovers(fl, k, a, n, x);
    }
    PutCovers(fl, k, a, n, 0);
  }

  /** The three parts of the list freemem leaves: what lies below, the merged block, what lies above. No
      sum wraps around when the end of the region does not. */
  ghost function PutParts(fl: FreeList, k: nat, a: int, n: int): (r: (FreeList, Block, FreeList))
    requires WellFormed(fl) && k <= |fl| && 0 < a && 0 <= n && a + n < TWO32
    ensures Put(fl, k, a, n) == r.0 + [r.1] + r.2
  {
    var low := k > 0 && fl[k - 1].addr + fl[k - 1].len == a;
    var b := if low then Block(fl[k - 1].addr, fl[k - 1].len + n) else Block(a, n);
    var high := k < |fl| && b.addr + b.len == fl[k].addr;
    (fl[..if low then k - 1 else k], if high then Block(b.addr, b.len + fl[k].len) else b,
     fl[if high then k + 1 else k..])
  }

  lemma PutWellFormed(fl: FreeList, k: nat, a: int, n: int)
    requires WellFormed(fl) && k <= |fl| && BlockOk(Block(a, n)) && !Clashes(fl, k, a, n)
    requires forall i :: 0 <= i < k ==> fl[i].addr < a
    ensures WellFormed(Put(fl, k, a, n))
  {
    var p := PutParts(fl, k, a, n);
    PutParted(fl, k, a, n);
    PutEdges(fl, k, a, n, p);
    WellFormedSlices(fl, |p.0|, |fl| - |p.2|);
    WellFormedJoin(p.0, p.1, p.2);
  }

  lemma PutEdges(fl: FreeList, k: nat, a: int, n: int, p: (FreeList, Block, FreeList))
    requires WellFormed(fl) && k <= |fl| && BlockOk(Block(a, n)) && !Clashes(fl, k, a, n)
    requires (k > 0 ==> fl[k - 1].addr < a) && p == PutParts(fl, k, a, n)
    ensures BlockOk(p.1)
    ensures p.0 != [] ==> Before(p.0[|p.0| - 1], p.1)
    ensures p.2 != [] ==> Before(p.1, p.2[0])
  {
    if k > 1 { assert Before(fl[k - 2], fl[k - 1]); }
    if k > 0 && k < |fl| { assert Before(fl[k - 1], fl[k]); }
    if k + 1 < |fl| { assert Before(fl[k], fl[k + 1]); }
  }

  lemma PutParted(fl: FreeList, k: nat, a: int, n: int)
    requires WellFormed(fl) && k <= |fl| && 0 < a && 0 <= n && a + n < TWO32
    ensures var p := PutParts(fl, k, a, n);
      && |p.0| <= k <= |fl| - |p.2|
      && fl == p.0 + fl[|p.0|..k] + fl[k..|fl| - |p.2|] + p.2
      && (fl[|p.0|..k] == [] || (k > 0 && fl[|p.0|..k] == [fl[k - 1]]))
      && (fl[k..|fl| - |p.2|] == [] || (k < |fl| && fl[k..|fl| - |p.2|] == [fl[k]]))
  {}

  lemma PutCovers(fl: FreeList, k: nat, a: int, n: int, x: int)
    requires WellFormed(fl) && k <= |fl| && BlockOk(Block(a, n))
    ensures Covers(Put(fl, k, a, n), x) == Covers(fl, x) + (if a <= x < a + n then 1 else 0)
    ensures Sum(Put(fl, k, a, n)) == Sum(fl) + n
  {
    var p := PutParts(fl, k, a, n);
    var below, above := fl[|p.0|..k], fl[k..|fl| - |p.2|];
    PutParted(fl, k, a, n);
    CoversConcat(p.0 + [p.1], p.2, x);
    CoversConcat(p.0, [p.1], x);
    CoversConcat(p.0 + below + above, p.2, x);
    CoversConcat(p.0 + below, above, x);
    CoversConcat(p.0, below, x);
    PutMiddle(fl, k, a, n, x);
  }

  lemma PutMiddle(fl: FreeList, k: nat, a: int, n: int, x: int)
    requires WellFormed(fl) && k <= |fl| && BlockOk(Block(a, n))
    ensures var p := PutParts(fl, k, a, n);
      && |p.0| <= k <= |fl| - |p.2|
      && Covers([p.1], x) == Covers(fl[|p.0|..k], x) + Covers(fl[k..|fl| - |p.2|], x) + (if a <= x < a + n then 1 else 0)
      && Sum([p.1]) == Sum(fl[|p.0|..k]) + Sum(fl[k..|fl| - |p.2|]) + n
  {
    PutParted(fl, k, a, n);
  }

  // ---- granularity ----

  lemma GranularJoin(a: int, b: int)
    requires a % 8 == 0 && b % 8 == 0
    ensures (a + b) % 8 == 0 && (a - b) % 8 == 0
  {}

  lemma CarveGranular(fl: FreeList, k: nat, n: int)
    requires AllGranular(fl) && k < |fl| && n % 8 == 0
    ensures AllGranular(LowCarve(fl, k, n)) && AllGranular(HighCarve(fl, k, n))
  {
    GranularJoin(fl[k].addr, n);
    GranularJoin(fl[k].len, n);
  }

  lemma PutGranular(fl: FreeList, k: nat, a: int, n: int)
    requires WellFormed(fl) && k <= |fl| && BlockOk(Block(a, n))
    requires AllGranular(fl) && a % 8 == 0 && n % 8 == 0
    ensures AllGranular(Put(fl, k, a, n))
  {
    var p := PutParts(fl, k, a, n);
    assert Granular(p.1) by {
      if k > 0 { GranularJoin(fl[k - 1].len, n); }
      if k < |fl| {
        GranularJoin(n, fl[k].len);
        if k > 0 { GranularJoin(fl[k - 1].len + n, fl[k].len); }
      }
    }
  }

  /** With sizes whose rounding does not wrap and ends that are addresses: freemem refuses exactly a size of
      0, an address outside the heap, and a rounded region with a byte that is free already, and then
      changes nothing; otherwise exactly that region joins the free bytes, and the list is in order again. */
  lemma FreeMemIs(fl: FreeList, minheap: int, maxheap: int, a: int, nbytes: int)
    requires WellFormed(fl) && 0 < a && 0 <= nbytes <= MAXREQUEST && a + RoundMb(nbytes) < TWO32
    ensures var n, r := RoundMb(nbytes), FreeMem(fl, minheap, maxheap, a, nbytes);
      && (r.1 <==> nbytes > 0 && minheap <= a <= maxheap && forall x :: a <= x < a + n ==> !IsFree(fl, x))
      && (!r.1 ==> r.0 == fl)
      && (r.1 ==>
           && WellFormed(r.0) && Sum(r.0) == Sum(fl) + n
           && forall x :: Covers(r.0, x) == Covers(fl, x) + (if a <= x < a + n then 1 else 0))
      && (r.1 && AllGranular(fl) && a % 8 == 0 ==> AllGranular(r.0))
  {
    RoundMbIs(nbytes);
    var n := RoundMb(nbytes);
    if nbytes > 0 {
      ClashesIff(fl, a, n);
      if !Clashes(fl, Slot(fl, a), a, n) {
        PutIs(fl, a, n);
        if AllGranular(fl) && a % 8 == 0 { PutGranular(fl, Slot(fl, a), a, n); }
      }
    }
  }

  /** A region whose first byte is free is accepted if and only if it begins where a free block does, and nothing
      is left of its size or its end wraps around, which the check does not see. */
  lemma FreeAgainAcceptedIff(fl: FreeList, minheap: int, maxheap: int, a: int, nbytes: int)
    requires WellFormed(fl) && IsFree(fl, a) && 0 < nbytes < TWO32 && minheap <= a <= maxheap
    ensures var n := RoundMb(nbytes);
      FreeMem(fl, minheap, maxheap, a, nbytes).1 <==> (exists i :: 0 <= i < |fl| && fl[i].addr == a) && (n == 0 || a + n >= TWO32)
  {}

  // ---- when freemem is safe ----

  /** a is where a free block ends. */
  predicate EndsBlock(fl: FreeList, a: int) {
    var k := Slot(fl, a);
    k > 0 && fl[k - 1].addr + fl[k - 1].len == a
  }

  /** The list is in order, and every byte that was free still is. */
  ghost predicate Safe(fl: FreeList, fl': FreeList) {
    WellFormed(fl') && forall x :: IsFree(fl, x) ==> IsFree(fl', x)
  }

  /** What freemem accepts leaves the list in order with every free byte still free if and only if the
      end of the rounded region is an address, and the rounding did not wrap to 0 or the region is the end
      of a free block, where nothing then happens. */
  lemma FreeMemSafeIff(fl: FreeList, minheap: int, maxheap: int, a: int, nbytes: int)
    requires WellFormed(fl) && 0 < a < TWO32 && 0 < nbytes < TWO32 && FreeMem(fl, minheap, maxheap, a, nbytes).1
    ensures var n, r := RoundMb(nbytes), FreeMem(fl, minheap, maxheap, a, nbytes);
      && (Safe(fl, r.0) <==> a + n < TWO32 && (n > 0 || EndsBlock(fl, a)))
      && (n == 0 && EndsBlock(fl, a) ==> r.0 == fl)
  {
    RoundMbIs(nbytes);
    var n, k := RoundMb(nbytes), Slot(fl, a);
    if n == 0 {
      FreeNothing(fl, minheap, maxheap, a, nbytes);
    } else if a + n < TWO32 {
      FreeMemIs(fl, minheap, maxheap, a, nbytes);
      var r := FreeMem(fl, minheap, maxheap, a, nbytes).0;
      forall x | IsFree(fl, x) ensures IsFree(r, x) {
        CoversIs(fl, x);
        CoversIs(r, x);
      }
    } else if EndsBlock(fl, a) {
      ShrinkBelow(fl, k, a, n);
    } else {
      WrapPut(fl, minheap, maxheap, a, nbytes);
    }
  }

  /** A request whose rounding wrapped to 0. */
  lemma FreeNothing(fl: FreeList, minheap: int, maxheap: int, a: int, nbytes: int)
    requires WellFormed(fl) && 0 < a < TWO32 && 0 < nbytes < TWO32 && RoundMb(nbytes) == 0
    requires FreeMem(fl, minheap, maxheap, a, nbytes).1
    ensures var r := FreeMem(fl, minheap, maxheap, a, nbytes).0;
      if EndsBlock(fl, a) then r == fl else !WellFormed(r)
  {
    var k := Slot(fl, a);
    var r := FreeMem(fl, minheap, maxheap, a, nbytes).0;
    if EndsBlock(fl, a) {
      if k < |fl| { assert Before(fl[k - 1], fl[k]); }
      assert fl == fl[..k - 1] + ([fl[k - 1]] + fl[k..]);
    } else {
      assert r[k] == Block(a, 0);
    }
  }

  /** The end of the region wraps around, and the region does not touch the block below: it becomes a
      block that runs past the address space. */
  lemma WrapPut(fl: FreeList, minheap: int, maxheap: int, a: int, nbytes: int)
    requires WellFormed(fl) && 0 < a < TWO32 && 0 < nbytes < TWO32 && FreeMem(fl, minheap, maxheap, a, nbytes).1
    requires a + RoundMb(nbytes) >= TWO32 && !EndsBlock(fl, a)
    ensures !WellFormed(FreeMem(fl, minheap, maxheap, a, nbytes).0)
  {
    RoundMbIs(nbytes);
    assert FreeMem(fl, minheap, maxheap, a, nbytes).0[Slot(fl, a)] == Block(a, RoundMb(nbytes));
  }

  /** The end wraps around, and the region touches the block below: that block runs past the address space
      or, if its length wraps around as well, loses its last bytes. */
  lemma ShrinkBelow(fl: FreeList, k: nat, a: int, n: int)
    requires WellFormed(fl) && 0 < k <= |fl| && 0 < a < TWO32 && 0 < n < TWO32 && a + n >= TWO32
    requires fl[k - 1].addr + fl[k - 1].len == a && (k < |fl| ==> fl[k].addr >= a)
    ensures WellFormed(Put(fl, k, a, n)) <==> fl[k - 1].len + n > TWO32
    ensures !Safe(fl, Put(fl, k, a, n))
  {
    var r := Put(fl, k, a, n);
    var b := Block(fl[k - 1].addr, Add32(fl[k - 1].len, n));
    assert r == fl[..k - 1] + [b] + fl[k..];
    assert r[k - 1] == b;
    if fl[k - 1].len + n > TWO32 {
      CarveWellFormed(fl, k - 1, b);
      LostByte(fl, k - 1, b, r);
    }
  }

  /** A block made shorter has lost its last byte. */
  lemma LostByte(fl: FreeList, j: nat, b: Block, r: FreeList)
    requires WellFormed(fl) && j < |fl| && b.addr == fl[j].addr && 0 < b.len < fl[j].len
    requires r == fl[..j] + [b] + fl[j + 1..]
    ensures !Safe(fl, r)
  {
    var x := fl[j].addr + fl[j].len - 1;
    BlockIsFree(fl, j, x);
    forall i | 0 <= i < |r| ensures !Inside(r[i], x) {
      if i < j { assert Before(fl[i], fl[j]); }
      if i > j { assert Before(fl[j], fl[i]); }
    }
  }

  /** And it leaves a list in order at all if and only if it is safe, or the length of the block below
      wrapped around too. */
  lemma FreeMemInOrderIff(fl: FreeList, minheap: int, maxheap: int, a: int, nbytes: int)
    requires WellFormed(fl) && 0 < a < TWO32 && 0 < nbytes < TWO32 && FreeMem(fl, minheap, maxheap, a, nbytes).1
    ensures var n, k, r := RoundMb(nbytes), Slot(fl, a), FreeMem(fl, minheap, maxheap, a, nbytes).0;
      WellFormed(r) <==>
        if a + n < TWO32 then n > 0 || EndsBlock(fl, a) else EndsBlock(fl, a) && fl[k - 1].len + n > TWO32
  {
    RoundMbIs(nbytes);
    var n, k := RoundMb(nbytes), Slot(fl, a);
    if n == 0 {
      FreeNothing(fl, minheap, maxheap, a, nbytes);
    } else if a + n < TWO32 {
      FreeMemIs(fl, minheap, maxheap, a, nbytes);
    } else if EndsBlock(fl, a) {
      ShrinkBelow(fl, k, a, n);
    } else {
      WrapPut(fl, minheap, maxheap, a, nbytes);
    }
  }

  // ---- runs ----

  /** The allocator and the blocks it has given out and not got back. */
  datatype Heap = Heap(fl: FreeList, held: seq<Block>)

  datatype Op =
    | OGetMem(nbytes: int)
    | OGetStk(nbytes: int)
    | OFree(a: int, nbytes: int)  // give back any range of granules that are held
    | OFreeStk(p: int, len: int)  // the same through freestk
    | OFreeAgain(a: int, nbytes: int)  // free any region that is at least partly free

  /** A region to be freed: granules inside the heap, whose end is an address. */
  ghost predicate Freeable(minheap: int, maxheap: int, a: int, nbytes: int) {
    && 0 < nbytes <= MAXREQUEST && 0 < a && a % 8 == 0 && minheap <= a <= maxheap && a + RoundMb(nbytes) < TWO32
  }

  /** Every byte of the region is in some block held. */
  ghost predicate AllHeld(held: seq<Block>, a: int, n: int) {
    forall x :: a <= x < a + n ==> Covers(held, x) >= 1
  }

  /** The address freestk passes on. */
  function StkAddr(p: int, len: int): (a: int) { p - RoundMb(len) + 4 }

  ghost predicate Allowed(h: Heap, minheap: int, maxheap: int, op: Op) {
    match op
    case OGetMem(nbytes) => 0 <= nbytes < TWO32
    case OGetStk(nbytes) => 0 <= nbytes < TWO32
    case OFree(a, nbytes) => Freeable(minheap, maxheap, a, nbytes) && AllHeld(h.held, a, RoundMb(nbytes))
    case OFreeStk(p, len) =>
      && 0 < len < TWO32 && Freeable(minheap, maxheap, StkAddr(p, len), RoundMb(len))
      && AllHeld(h.held, StkAddr(p, len), RoundMb(len))
    case OFreeAgain(a, nbytes) =>
      Freeable(minheap, maxheap, a, nbytes) && exists x :: a <= x < a + RoundMb(nbytes) && IsFree(h.fl, x)
  }

  /** What is left of a block when [a, a + n) is taken out of it: up to two pieces. */
  function Pieces(b: Block, a: int, n: int): (r: seq<Block>) {
    (if b.addr < a then [Block(b.addr, (if b.addr + b.len < a then b.addr + b.len else a) - b.addr)] else [])
      + if b.addr + b.len > a + n then
          var lo := if b.addr > a + n then b.addr else a + n;
          [Block(lo, b.addr + b.len - lo)]
        else []
  }

  function Cut(held: seq<Block>, a: int, n: int): (r: seq<Block>) {
    if held == [] then [] else Pieces(held[0], a, n) + Cut(held[1..], a, n)
  }

  /** The blocks held after n bytes at a were handed out; when n wrapped to 0 there is nothing to hold. */
  function Hold(held: seq<Block>, a: int, n: int): (r: seq<Block>) { if n == 0 then held else held + [Block(a, n)] }

  ghost function Do(h: Heap, minheap: int, maxheap: int, op: Op): (r: Heap)
    requires Allowed(h, minheap, maxheap, op)
  {
    match op
    case OGetMem(nbytes) =>
      var r := GetMem(h.fl, nbytes);
      if r.1 == SYSERR then h else Heap(r.0, Hold(h.held, r.1, RoundMb(nbytes)))
    case OGetStk(nbytes) =>
      var r := GetStk(h.fl, nbytes);
      if r.1 == SYSERR then h else Heap(r.0, Hold(h.held, r.1 + 4 - RoundMb(nbytes), RoundMb(nbytes)))
    case OFree(a, nbytes) =>
      var r := FreeMem(h.fl, minheap, maxheap, a, nbytes);
      if r.1 then Heap(r.0, Cut(h.held, a, RoundMb(nbytes))) else h
    case OFreeStk(p, len) =>
      var r := FreeStk(h.fl, minheap, maxheap, p, len);
      if r.1 then Heap(r.0, Cut(h.held, StkAddr(p, len), RoundMb(len))) else h
    case OFreeAgain(a, nbytes) => h.(fl := FreeMem(h.fl, minheap, maxheap, a, nbytes).0)
  }

  ghost predicate HeldOk(b: Block, minheap: int, maxheap: int) {
    BlockOk(b) && Granular(b) && minheap <= b.addr && b.addr + b.len <= maxheap
  }

  ghost predicate AllHeldOk(held: seq<Block>, minheap: int, maxheap: int) {
    forall i :: 0 <= i < |held| ==> HeldOk(held[i], minheap, maxheap)
  }

  ghost predicate InHeap(fl: FreeList, minheap: int, maxheap: int) {
    forall i :: 0 <= i < |fl| ==> minheap <= fl[i].addr && fl[i].addr + fl[i].len <= maxheap
  }

  /** Every byte of the initial free list is free or held, once; no other byte is either. */
  ghost predicate Conserved(h: Heap, fl0: FreeList) {
    forall x :: Covers(h.fl, x) + Covers(h.held, x) == Covers(fl0, x)
  }

  ghost predicate Inv(h: Heap, fl0: FreeList, minheap: int, maxheap: int) {
    && WellFormed(fl0) && AllGranular(fl0) && InHeap(fl0, minheap, maxheap)
    && WellFormed(h.fl) && AllGranular(h.fl) && Conserved(h, fl0)
    && AllHeldOk(h.held, minheap, maxheap)
  }

  lemma {:induction false} CoversMember(held: seq<Block>, i: nat, x: int)
    requires i < |held| && Inside(held[i], x)
    ensures Covers(held, x) >= 1
  {
    if i > 0 { CoversMember(held[1..], i - 1, x); }
  }

  lemma {:induction false} TwoCovers(held: seq<Block>, i: nat, j: nat, x: int)
    requires i < j < |held| && Inside(held[i], x) && Inside(held[j], x)
    ensures Covers(held, x) >= 2
  {
    if i > 0 {
      TwoCovers(held[1..], i - 1, j - 1, x);
    } else {
      CoversMember(held[1..], j - 1, x);
    }
  }

  /** A free byte lies inside the heap. */
  lemma FreeInHeap(h: Heap, fl0: FreeList, minheap: int, maxheap: int, x: int)
    requires Inv(h, fl0, minheap, maxheap) && IsFree(h.fl, x)
    ensures minheap <= x < maxheap && 0 < x < TWO32 - 1
  {
    CoversIs(h.fl, x);
    CoversIs(fl0, x);
    var i :| 0 <= i < |fl0| && Inside(fl0[i], x);
  }

  /** Handing out a free region keeps the invariant. */
  lemma HoldInv(h: Heap, fl0: FreeList, minheap: int, maxheap: int, fl': FreeList, a: int, n: int)
    requires Inv(h, fl0, minheap, maxheap) && Taken(h.fl, fl', a, n) && AllGranular(fl')
    requires n > 0 && Granular(Block(a, n))
    ensures Inv(Heap(fl', h.held + [Block(a, n)]), fl0, minheap, maxheap)
  {
    FreeInHeap(h, fl0, minheap, maxheap, a);
    FreeInHeap(h, fl0, minheap, maxheap, a + n - 1);
    var held' := h.held + [Block(a, n)];
    forall x ensures Covers(fl', x) + Covers(held', x) == Covers(fl0, x) {
      CoversConcat(h.held, [Block(a, n)], x);
    }
  }

  lemma GetMemInv(h: Heap, fl0: FreeList, minheap: int, maxheap: int, nbytes: int)
    requires Inv(h, fl0, minheap, maxheap) && 0 <= nbytes < TWO32
    ensures Inv(Do(h, minheap, maxheap, OGetMem(nbytes)), fl0, minheap, maxheap)
  {
    var n, r := RoundMb(nbytes), GetMem(h.fl, nbytes);
    RoundMbIs(nbytes);
    if r.1 != SYSERR && nbytes > 0 {
      GetMemIs(h.fl, nbytes);
      if n == 0 {
        TakesNothing(h.fl, FirstFit(h.fl, n));
      } else {
        CarveGranular(h.fl, FirstFit(h.fl, n), n);
        HoldInv(h, fl0, minheap, maxheap, r.0, r.1, n);
      }
    }
  }

  lemma GetStkInv(h: Heap, fl0: FreeList, minheap: int, maxheap: int, nbytes: int)
    requires Inv(h, fl0, minheap, maxheap) && 0 <= nbytes < TWO32
    ensures Inv(Do(h, minheap, maxheap, OGetStk(nbytes)), fl0, minheap, maxheap)
  {
    var n, r := RoundMb(nbytes), GetStk(h.fl, nbytes);
    RoundMbIs(nbytes);
    if r.1 != SYSERR && nbytes > 0 {
      GetStkIs(h.fl, nbytes);
      var k := LastFit(h.fl, n);
      if n == 0 {
        TakesNothing(h.fl, k);
      } else {
        CarveGranular(h.fl, k, n);
        GranularJoin(h.fl[k].addr, h.fl[k].len);
        GranularJoin(h.fl[k].addr + h.fl[k].len, n);
        HoldInv(h, fl0, minheap, maxheap, r.0, r.1 + 4 - n, n);
      }
    }
  }

  lemma PiecesIs(b: Block, a: int, n: int, x: int)
    requires n > 0 && b.len > 0
    ensures Covers(Pieces(b, a, n), x) == if Inside(b, x) && !(a <= x < a + n) then 1 else 0
  {
    var low := if b.addr < a then [Block(b.addr, (if b.addr + b.len < a then b.addr + b.len else a) - b.addr)] else [];
    CoversConcat(low, Pieces(b, a, n)[|low|..], x);
    assert Pieces(b, a, n) == low + Pieces(b, a, n)[|low|..];
  }

  lemma PiecesOk(b: Block, a: int, n: int, minheap: int, maxheap: int)
    requires n > 0 && HeldOk(b, minheap, maxheap) && a % 8 == 0 && n % 8 == 0
    ensures AllHeldOk(Pieces(b, a, n), minheap, maxheap)
  {
    GranularJoin(b.addr, b.len);
    GranularJoin(a, b.addr);
    GranularJoin(a, n);
    GranularJoin(b.addr + b.len, a + n);
  }

  /** Cutting a region out of the blocks held: its bytes are not held any more, all others as before. */
  lemma {:induction false} CutIs(held: seq<Block>, a: int, n: int, minheap: int, maxheap: int, x: int)
    requires n > 0 && AllHeldOk(held, minheap, maxheap) && a % 8 == 0 && n % 8 == 0
    ensures Covers(Cut(held, a, n), x) == if a <= x < a + n then 0 else Covers(held, x)
    ensures AllHeldOk(Cut(held, a, n), minheap, maxheap)
  {
    if held != [] {
      assert HeldOk(held[0], minheap, maxheap);
      PiecesIs(held[0], a, n, x);
      PiecesOk(held[0], a, n, minheap, maxheap);
      CutIs(held[1..], a, n, minheap, maxheap, x);
      CoversConcat(Pieces(held[0], a, n), Cut(held[1..], a, n), x);
    }
  }

  /** Bytes that are held are not free. */
  lemma HeldNotFree(h: Heap, fl0: FreeList, a: int, n: int)
    requires WellFormed(fl0) && WellFormed(h.fl) && Conserved(h, fl0) && AllHeld(h.held, a, n)
    ensures forall x :: a <= x < a + n ==> !IsFree(h.fl, x) && Covers(h.held, x) == 1
  {
    forall x | a <= x < a + n ensures !IsFree(h.fl, x) && Covers(h.held, x) == 1 {
      CoversIs(fl0, x);
      CoversIs(h.fl, x);
    }
  }

  /** Whoever gives back bytes they hold, of one block or of several in one call, is never refused. */
  lemma FreeHeldSucceeds(h: Heap, fl0: FreeList, minheap: int, maxheap: int, a: int, nbytes: int)
    requires Inv(h, fl0, minheap, maxheap) && Freeable(minheap, maxheap, a, nbytes)
    requires AllHeld(h.held, a, RoundMb(nbytes))
    ensures FreeMem(h.fl, minheap, maxheap, a, nbytes).1
    ensures Inv(Heap(FreeMem(h.fl, minheap, maxheap, a, nbytes).0, Cut(h.held, a, RoundMb(nbytes))), fl0, minheap, maxheap)
  {
    var n := RoundMb(nbytes);
    RoundMbIs(nbytes);
    HeldNotFree(h, fl0, a, n);
    FreeMemIs(h.fl, minheap, maxheap, a, nbytes);
    var fl', held' := FreeMem(h.fl, minheap, maxheap, a, nbytes).0, Cut(h.held, a, n);
    forall x ensures Covers(fl', x) + Covers(held', x) == Covers(fl0, x) {
      CutIs(h.held, a, n, minheap, maxheap, x);
    }
    CutIs(h.held, a, n, minheap, maxheap, 0);
  }

  lemma FreeStkIsFreeMem(fl: FreeList, minheap: int, maxheap: int, p: int, len: int)
    requires 0 < len <= MAXREQUEST
    ensures FreeStk(fl, minheap, maxheap, p, len) == FreeMem(fl, minheap, maxheap, p + 4 - RoundMb(len), RoundMb(len))
    ensures 0 < RoundMb(len) <= MAXREQUEST && RoundMb(RoundMb(len)) == RoundMb(len)
  {
    RoundMbIs(len);
    RoundMbIs(RoundMb(len));
  }

  /** Every operation keeps the invariant; giving back held bytes always works, and freeing a region with
      a free byte in it never changes anything. */
  lemma DoInv(h: Heap, fl0: FreeList, minheap: int, maxheap: int, op: Op)
    requires Inv(h, fl0, minheap, maxheap) && Allowed(h, minheap, maxheap, op)
    ensures Inv(Do(h, minheap, maxheap, op), fl0, minheap, maxheap)
    ensures op.OFree? ==> Do(h, minheap, maxheap, op).held == Cut(h.held, op.a, RoundMb(op.nbytes))
    ensures op.OFreeStk? ==> Do(h, minheap, maxheap, op).held == Cut(h.held, StkAddr(op.p, op.len), RoundMb(op.len))
    ensures op.OFreeAgain? ==> Do(h, minheap, maxheap, op) == h
  {
    match op
    case OGetMem(nbytes) => GetMemInv(h, fl0, minheap, maxheap, nbytes);
    case OGetStk(nbytes) => GetStkInv(h, fl0, minheap, maxheap, nbytes);
    case OFree(a, nbytes) => FreeHeldSucceeds(h, fl0, minheap, maxheap, a, nbytes);
    case OFreeStk(p, len) => FreeStkInv(h, fl0, minheap, maxheap, p, len);
    case OFreeAgain(a, nbytes) => FreeMemIs(h.fl, minheap, maxheap, a, nbytes);
  }

  lemma FreeStkInv(h: Heap, fl0: FreeList, minheap: int, maxheap: int, p: int, len: int)
    requires Inv(h, fl0, minheap, maxheap) && Allowed(h, minheap, maxheap, OFreeStk(p, len))
    ensures FreeStk(h.fl, minheap, maxheap, p, len).1
    ensures Inv(Heap(FreeStk(h.fl, minheap, maxheap, p, len).0, Cut(h.held, StkAddr(p, len), RoundMb(len))),
                fl0, minheap, maxheap)
  {
    RoundMbIs(len);
    FreeStkIsFreeMem(h.fl, minheap, maxheap, p, len);
    FreeHeldSucceeds(h, fl0, minheap, maxheap, StkAddr(p, len), RoundMb(len));
  }

  ghost predicate Legal(h: Heap, minheap: int, maxheap: int, ops: seq<Op>)
    decreases |ops|
  {
    ops != [] ==> Allowed(h, minheap, maxheap, ops[0]) && Legal(Do(h, minheap, maxheap, ops[0]), minheap, maxheap, ops[1..])
  }

  ghost function Run(h: Heap, minheap: int, maxheap: int, ops: seq<Op>): (r: Heap)
    requires Legal(h, minheap, maxheap, ops)
    decreases |ops|
  {
    if ops == [] then h else Run(Do(h, minheap, maxheap, ops[0]), minheap, maxheap, ops[1..])
  }

  lemma {:induction false} RunInv(h: Heap, fl0: FreeList, minheap: int, maxheap: int, ops: seq<Op>)
    requires Inv(h, fl0, minheap, maxheap) && Legal(h, minheap, maxheap, ops)
    ensures Inv(Run(h, minheap, maxheap, ops), fl0, minheap, maxheap)
    decreases |ops|
  {
    if ops != [] {
      DoInv(h, fl0, minheap, maxheap, ops[0]);
      RunInv(Do(h, minheap, maxheap, ops[0]), fl0, minheap, maxheap, ops[1..]);
    }
  }

  /** A free list a heap can start with: granules inside the heap that do not touch. */
  ghost predicate Initial(fl0: FreeList, minheap: int, maxheap: int) {
    WellFormed(fl0) && AllGranular(fl0) && InHeap(fl0, minheap, maxheap)
  }

  ghost predicate Disjoint(held: seq<Block>) {
    forall i, j, x :: 0 <= i < j < |held| && Inside(held[i], x) ==> !Inside(held[j], x)
  }

  ghost predicate OnlyHeld(h: Heap, fl0: FreeList) {
    forall i, x :: 0 <= i < |h.held| && Inside(h.held[i], x) ==> !IsFree(h.fl, x) && IsFree(fl0, x)
  }

  lemma HeldDisjoint(h: Heap, fl0: FreeList)
    requires WellFormed(fl0) && Conserved(h, fl0)
    ensures Disjoint(h.held)
  {
    forall i, j, x | 0 <= i < j < |h.held| && Inside(h.held[i], x) ensures !Inside(h.held[j], x) {
      CoversIs(fl0, x);
      if Inside(h.held[j], x) { TwoCovers(h.held, i, j, x); }
    }
  }

  lemma HeldOnly(h: Heap, fl0: FreeList)
    requires WellFormed(fl0) && WellFormed(h.fl) && Conserved(h, fl0)
    ensures OnlyHeld(h, fl0)
  {
    forall i, x | 0 <= i < |h.held| && Inside(h.held[i], x) ensures !IsFree(h.fl, x) && IsFree(fl0, x) {
      CoversMember(h.held, i, x);
      CoversIs(fl0, x);
      CoversIs(h.fl, x);
    }
  }

  // ---- lengths add up because bytes do ----

  /** Bytes below top, each as often as some block contains it. */
  function Total(s: seq<Block>, top: nat): (n: nat) {
    if top == 0 then 0 else Total(s, top - 1) + Covers(s, top - 1)
  }

  predicate Below(s: seq<Block>, top: int) {
    forall i :: 0 <= i < |s| ==> 0 <= s[i].addr && 0 <= s[i].len && s[i].addr + s[i].len <= top
  }

  function Clamp(x: int, hi: int): (r: int) { if x < 0 then 0 else if x > hi then hi else x }

  lemma {:induction false} TotalCons(b: Block, s: seq<Block>, top: nat)
    requires 0 <= b.addr && 0 <= b.len
    ensures Total([b] + s, top) == Clamp(top - b.addr, b.len) + Total(s, top)
    decreases top
  {
    if top > 0 {
      TotalCons(b, s, top - 1);
      CoversConcat([b], s, top - 1);
    }
  }

  lemma {:induction false} TotalIsSum(s: seq<Block>, top: nat)
    requires Below(s, top)
    ensures Total(s, top) == Sum(s)
    decreases |s|
  {
    if s == [] {
      TotalNone(top);
    } else {
      assert s == [s[0]] + s[1..];
      TotalCons(s[0], s[1..], top);
      TotalIsSum(s[1..], top);
    }
  }

  lemma {:induction false} TotalNone(top: nat)
    ensures Total([], top) == 0
    decreases top
  {
    if top > 0 { TotalNone(top - 1); }
  }

  lemma {:induction false} TotalAdds(a: seq<Block>, b: seq<Block>, c: seq<Block>, top: nat)
    requires forall x :: Covers(a, x) + Covers(b, x) == Covers(c, x)
    ensures Total(a, top) + Total(b, top) == Total(c, top)
    decreases top
  {
    if top > 0 { TotalAdds(a, b, c, top - 1); }
  }

  lemma SumsAdd(h: Heap, fl0: FreeList, minheap: int, maxheap: int)
    requires Inv(h, fl0, minheap, maxheap)
    ensures Sum(h.fl) + Sum(h.held) == Sum(fl0)
  {
    var top: nat := TWO32;
    assert forall i :: 0 <= i < |h.held| ==> HeldOk(h.held[i], minheap, maxheap);
    TotalIsSum(h.fl, top);
    TotalIsSum(h.held, top);
    TotalIsSum(fl0, top);
    TotalAdds(h.fl, h.held, fl0, top);
  }

  /** At every point of every run no byte is in two held blocks, or both held and free; and every byte is
      accounted for. */
  lemma NeverShared(fl0: FreeList, minheap: int, maxheap: int, ops: seq<Op>)
    requires Initial(fl0, minheap, maxheap) && Legal(Heap(fl0, []), minheap, maxheap, ops)
    ensures var h := Run(Heap(fl0, []), minheap, maxheap, ops);
      && WellFormed(h.fl) && AllGranular(h.fl) && Sum(h.fl) + Sum(h.held) == Sum(fl0)
      && Disjoint(h.held) && OnlyHeld(h, fl0)
  {
    var h := Run(Heap(fl0, []), minheap, maxheap, ops);
    RunInv(Heap(fl0, []), fl0, minheap, maxheap, ops);
    HeldDisjoint(h, fl0);
    HeldOnly(h, fl0);
    SumsAdd(h, fl0, minheap, maxheap);
  }

  /** Any run that has given everything back, in whatever order and pieces, leaves the list it started
      with. */
  lemma EverythingReturned(fl0: FreeList, minheap: int, maxheap: int, ops: seq<Op>)
    requires Initial(fl0, minheap, maxheap) && Legal(Heap(fl0, []), minheap, maxheap, ops)
    requires Run(Heap(fl0, []), minheap, maxheap, ops).held == []
    ensures Run(Heap(fl0, []), minheap, maxheap, ops).fl == fl0
  {
    RunInv(Heap(fl0, []), fl0, minheap, maxheap, ops);
    SameCoversSameList(Run(Heap(fl0, []), minheap, maxheap, ops).fl, fl0);
  }

  lemma SameCoversSameList(a: FreeList, b: FreeList)
    requires WellFormed(a) && WellFormed(b) && forall x :: Covers(a, x) == Covers(b, x)
    ensures a == b
  {
    forall x ensures IsFree(a, x) <==> IsFree(b, x) {
      CoversIs(a, x);
      CoversIs(b, x);
    }
    SameBytesSameList(a, b);
  }

  /** freestk undoes getstk, and freemem undoes getmem: the free list is again the very same list. */
  lemma FreeUndoesGet(fl: FreeList, minheap: int, maxheap: int, nbytes: int)
    requires Initial(fl, minheap, maxheap) && 0 < nbytes <= MAXREQUEST
    ensures var g := GetStk(fl, nbytes); g.1 != SYSERR ==> FreeStk(g.0, minheap, maxheap, g.1, nbytes) == (fl, true)
    ensures var g := GetMem(fl, nbytes); g.1 != SYSERR ==> FreeMem(g.0, minheap, maxheap, g.1, nbytes) == (fl, true)
  {
    if GetStk(fl, nbytes).1 != SYSERR { GetStkUndone(fl, minheap, maxheap, nbytes); }
    if GetMem(fl, nbytes).1 != SYSERR { GetMemUndone(fl, minheap, maxheap, nbytes); }
  }

  lemma GetStkUndone(fl: FreeList, minheap: int, maxheap: int, nbytes: int)
    requires Initial(fl, minheap, maxheap) && 0 < nbytes <= MAXREQUEST && GetStk(fl, nbytes).1 != SYSERR
    ensures FreeStk(GetStk(fl, nbytes).0, minheap, maxheap, GetStk(fl, nbytes).1, nbytes) == (fl, true)
  {
    var n, g := RoundMb(nbytes), GetStk(fl, nbytes);
    FreeStkIsFreeMem(g.0, minheap, maxheap, g.1, nbytes);
    OneStackHeld(fl, minheap, maxheap, nbytes, g, n);
    LastReturned(Heap(g.0, [Block(g.1 + 4 - n, n)]), fl, minheap, maxheap, n);
  }

  lemma OneStackHeld(fl: FreeList, minheap: int, maxheap: int, nbytes: int, g: (FreeList, int), n: int)
    requires Initial(fl, minheap, maxheap) && 0 < nbytes <= MAXREQUEST && g == GetStk(fl, nbytes) && g.1 != SYSERR
    requires n == RoundMb(nbytes) && n > 0
    ensures Inv(Heap(g.0, [Block(g.1 + 4 - n, n)]), fl, minheap, maxheap)
  {
    GetStkInv(Heap(fl, []), fl, minheap, maxheap, nbytes);
    assert [] + [Block(g.1 + 4 - n, n)] == [Block(g.1 + 4 - n, n)];
  }

  lemma GetMemUndone(fl: FreeList, minheap: int, maxheap: int, nbytes: int)
    requires Initial(fl, minheap, maxheap) && 0 < nbytes <= MAXREQUEST && GetMem(fl, nbytes).1 != SYSERR
    ensures FreeMem(GetMem(fl, nbytes).0, minheap, maxheap, GetMem(fl, nbytes).1, nbytes) == (fl, true)
  {
    var n, g := RoundMb(nbytes), GetMem(fl, nbytes);
    RoundMbIs(nbytes);
    GetMemInv(Heap(fl, []), fl, minheap, maxheap, nbytes);
    assert [] + [Block(g.1, n)] == [Block(g.1, n)];
    LastReturned(Heap(g.0, [Block(g.1, n)]), fl, minheap, maxheap, nbytes);
  }

  lemma LastReturned(h: Heap, fl: FreeList, minheap: int, maxheap: int, nbytes: int)
    requires Inv(h, fl, minheap, maxheap) && |h.held| == 1
    requires 0 < nbytes <= MAXREQUEST && RoundMb(nbytes) == h.held[0].len
    ensures FreeMem(h.fl, minheap, maxheap, h.held[0].addr, nbytes) == (fl, true)
  {
    var b := h.held[0];
    assert HeldOk(b, minheap, maxheap) && h.held == [b];
    forall x | b.addr <= x < b.addr + b.len ensures Covers(h.held, x) >= 1 { CoversMember(h.held, 0, x); }
    FreeHeldSucceeds(h, fl, minheap, maxheap, b.addr, nbytes);
    assert Cut(h.held, b.addr, b.len) == [];
    SameCoversSameList(FreeMem(h.fl, minheap, maxheap, b.addr, nbytes).0, fl);
  }
}
