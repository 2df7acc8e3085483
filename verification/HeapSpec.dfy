/** The heap's free list as a sequence of blocks in address order, and what getmem, getstk and freemem
    do to it and to the set of free bytes. Addresses and sizes are 32-bit. */
module HeapSpec {

  const TWO32 := 0x1_0000_0000
  const SYSERR := -1

  datatype Block = Block(addr: int, len: int)

  type FreeList = seq<Block>

  /** roundmb: up to a multiple of 8, in 32-bit arithmetic. */
  function RoundMb(x: int): (r: int) { (7 + x) % TWO32 / 8 * 8 }

  /** The largest request whose rounding does not wrap around. */
  const MAXREQUEST := 0xFFFF_FFF8

  lemma RoundMbIs(x: int)
    requires 0 <= x < TWO32
    ensures 0 <= x <= MAXREQUEST ==> x <= RoundMb(x) < x + 8 && RoundMb(x) % 8 == 0
    ensures x > MAXREQUEST ==> RoundMb(x) == 0
    ensures x % 8 == 0 ==> RoundMb(x) == x
  {}

  /** A non-empty block inside the 32-bit address space. */
  predicate BlockOk(b: Block) { b.addr > 0 && b.len > 0 && b.addr + b.len < TWO32 }

  /** Below, and not touching. */
  predicate Before(b: Block, c: Block) { b.addr + b.len < c.addr }

  /** Address order, disjoint, and never touching: neighbours have been merged. */
  ghost predicate WellFormed(fl: FreeList) {
    && (forall i :: 0 <= i < |fl| ==> BlockOk(fl[i]))
    && (forall i, j :: 0 <= i < j < |fl| ==> Before(fl[i], fl[j]))
  }

  predicate Granular(b: Block) { b.addr % 8 == 0 && b.len % 8 == 0 }

  /** Every block starts at a multiple of 8 and is made of whole 8-byte granules. */
  ghost predicate AllGranular(fl: FreeList) { forall i :: 0 <= i < |fl| ==> Granular(fl[i]) }

  predicate Inside(b: Block, x: int) { b.addr <= x < b.addr + b.len }

  /** How many blocks of a list contain the byte x. */
  function Covers(fl: seq<Block>, x: int): (n: nat) {
    if fl == [] then 0 else (if Inside(fl[0], x) then 1 else 0) + Covers(fl[1..], x)
  }

  function Sum(fl: seq<Block>): (n: int) {
    if fl == [] then 0 else fl[0].len + Sum(fl[1..])
  }

  ghost predicate IsFree(fl: FreeList, x: int) { exists i :: 0 <= i < |fl| && Inside(fl[i], x) }

  lemma {:induction false} CoversIs(fl: FreeList, x: int)
    requires WellFormed(fl)
    ensures Covers(fl, x) == if IsFree(fl, x) then 1 else 0
  {
    if fl != [] {
      assert forall i :: 0 <= i < |fl[1..]| ==> fl[1..][i] == fl[i + 1];
      CoversIs(fl[1..], x);
      if IsFree(fl[1..], x) {
        var i :| 0 <= i < |fl[1..]| && Inside(fl[1..][i], x);
        assert Inside(fl[i + 1], x);
      }
    }
  }

  lemma {:induction false} CoversConcat(a: seq<Block>, b: seq<Block>, x: int)
    ensures Covers(a + b, x) == Covers(a, x) + Covers(b, x)
    ensures Sum(a + b) == Sum(a) + Sum(b)
  {
    if a == [] {
      assert a + b == b;
    } else {
      assert (a + b)[1..] == a[1..] + b;
      CoversConcat(a[1..], b, x);
    }
  }

  /** Taking out the k-th block, or putting another in its place. */
  lemma CoversReplace(fl: seq<Block>, k: int, mid: seq<Block>, x: int)
    requires 0 <= k < |fl|
    ensures Covers(fl[..k] + mid + fl[k + 1..], x)
      == Covers(fl, x) - (if Inside(fl[k], x) then 1 else 0) + Covers(mid, x)
    ensures Sum(fl[..k] + mid + fl[k + 1..]) == Sum(fl) - fl[k].len + Sum(mid)
  {
    assert fl == fl[..k] + ([fl[k]] + fl[k + 1..]);
    CoversConcat(fl[..k], [fl[k]] + fl[k + 1..], x);
    CoversConcat([fl[k]], fl[k + 1..], x);
    CoversConcat(fl[..k] + mid, fl[k + 1..], x);
    CoversConcat(fl[..k], mid, x);
  }

  // ---- a list is determined by its bytes ----

  lemma FirstByte(fl: FreeList, x: int)
    requires WellFormed(fl) && IsFree(fl, x)
    ensures fl != [] && fl[0].addr <= x
  {
    var i :| 0 <= i < |fl| && Inside(fl[i], x);
    if i > 0 { assert Before(fl[0], fl[i]); }
  }

  lemma RestBytes(fl: FreeList, x: int)
    requires WellFormed(fl) && fl != []
    ensures WellFormed(fl[1..])
    ensures IsFree(fl[1..], x) <==> IsFree(fl, x) && x > fl[0].addr + fl[0].len
    ensures IsFree(fl, x) ==> x != fl[0].addr + fl[0].len
  {
    assert forall i :: 0 <= i < |fl[1..]| ==> fl[1..][i] == fl[i + 1];
    if IsFree(fl, x) {
      var i :| 0 <= i < |fl| && Inside(fl[i], x);
      if i > 0 { assert Inside(fl[1..][i - 1], x); }
    }
  }

  /** The bytes of a block are free. */
  lemma BlockIsFree(fl: FreeList, i: int, x: int)
    requires 0 <= i < |fl| && fl[i].addr <= x < fl[i].addr + fl[i].len
    ensures IsFree(fl, x)
  {
    assert Inside(fl[i], x);
  }

  lemma FirstIsFree(fl: FreeList)
    requires WellFormed(fl)
    ensures fl == [] || IsFree(fl, fl[0].addr)
  {
    if fl != [] { BlockIsFree(fl, 0, fl[0].addr); }
  }

  lemma SecondByte(a: FreeList, b: FreeList)
    requires WellFormed(a) && WellFormed(b) && a != [] && b != [] && a[0].addr == b[0].addr
    requires a[0].len < b[0].len
    ensures var e := a[0].addr + a[0].len; !IsFree(a, e) && IsFree(b, e)
  {
    RestBytes(a, a[0].addr + a[0].len);
    BlockIsFree(b, 0, a[0].addr + a[0].len);
  }

  /** Two well-formed free lists with the same free bytes are the same list. */
  lemma {:induction false} SameBytesSameList(a: FreeList, b: FreeList)
    requires WellFormed(a) && WellFormed(b) && forall x :: IsFree(a, x) <==> IsFree(b, x)
    ensures a == b
  {
    FirstIsFree(a);
    FirstIsFree(b);
    if a != [] && b != [] {
      FirstByte(a, b[0].addr);
      FirstByte(b, a[0].addr);
      if a[0].len < b[0].len {
        SecondByte(a, b);
      } else if b[0].len < a[0].len {
        SecondByte(b, a);
      }
      forall x ensures IsFree(a[1..], x) <==> IsFree(b[1..], x) {
        RestBytes(a, x);
        RestBytes(b, x);
      }
      SameBytesSameList(a[1..], b[1..]);
    }
  }

  // ---- getmem: first fit, low end ----

  function FirstFit(fl: FreeList, n: int): (k: nat)
    ensures k <= |fl| && (forall i :: 0 <= i < k ==> fl[i].len < n) && (k < |fl| ==> fl[k].len >= n)
  {
    if fl == [] || fl[0].len >= n then 0 else 1 + FirstFit(fl[1..], n)
  }

  function LowCarve(fl: FreeList, k: nat, n: int): (r: FreeList)
    requires k < |fl|
  {
    if fl[k].len == n then fl[..k] + fl[k + 1..] else fl[k := Block(fl[k].addr + n, fl[k].len - n)]
  }

  function GetMem(fl: FreeList, nbytes: int): (r: (FreeList, int)) {
    var n := RoundMb(nbytes);
    var k := FirstFit(fl, n);
    if nbytes == 0 || k == |fl| then (fl, SYSERR) else (LowCarve(fl, k, n), fl[k].addr)
  }

  // ---- getstk: last fit, high end ----

  function LastFit(fl: FreeList, n: int): (k: int)
    ensures -1 <= k < |fl| && (k >= 0 ==> fl[k].len >= n) && forall i :: k < i < |fl| ==> fl[i].len < n
  {
    if fl == [] then -1
    else if fl[|fl| - 1].len >= n then |fl| - 1
    else LastFit(fl[..|fl| - 1], n)
  }

  function HighCarve(fl: FreeList, k: nat, n: int): (r: FreeList)
    requires k < |fl|
  {
    if fl[k].len == n then fl[..k] + fl[k + 1..] else fl[k := Block(fl[k].addr, fl[k].len - n)]
  }

  /** getstk answers the address of the highest word of the region it takes. */
  function GetStk(fl: FreeList, nbytes: int): (r: (FreeList, int)) {
    var n := RoundMb(nbytes);
    var k := LastFit(fl, n);
    if nbytes == 0 || k == -1 then (fl, SYSERR)
    else (HighCarve(fl, k, n), fl[k].addr + fl[k].len - 4)
  }

  // ---- freemem ----

  /** How many blocks lie below the address a. */
  function Slot(fl: FreeList, a: int): (k: nat)
    ensures k <= |fl| && (forall i :: 0 <= i < k ==> fl[i].addr < a) && (k < |fl| ==> fl[k].addr >= a)
  {
    if fl == [] || fl[0].addr >= a then 0 else 1 + Slot(fl[1..], a)
  }

  /** 32-bit addition. */
  function Add32(x: int, y: int): (r: int)
    ensures 0 <= x + y < TWO32 ==> r == x + y
    ensures TWO32 <= x + y < 2 * TWO32 ==> r == x + y - TWO32
  {
    (x + y) % TWO32
  }

  /** The overlap check against the neighbours at slot k. */
  predicate Clashes(fl: FreeList, k: nat, a: int, n: int)
    requires k <= |fl|
  {
    (k > 0 && a < Add32(fl[k - 1].addr, fl[k - 1].len)) || (k < |fl| && Add32(a, n) > fl[k].addr)
  }

  /** The block joins the one below when they touch, and then the one above when they touch. */
  function Put(fl: FreeList, k: nat, a: int, n: int): (r: FreeList)
    requires k <= |fl|
  {
    var low := k > 0 && Add32(fl[k - 1].addr, fl[k - 1].len) == a;
    var b := if low then Block(fl[k - 1].addr, Add32(fl[k - 1].len, n)) else Block(a, n);
    var rest := fl[k..];
    fl[..if low then k - 1 else k]
      + if rest != [] && Add32(b.addr, b.len) == rest[0].addr then [Block(b.addr, Add32(b.len, rest[0].len))] + rest[1..]
        else [b] + rest
  }

  /** A region that begins where a free block does. When its end wraps around, or nothing is left of its
      size, the check does not see that, and the block is linked to itself. */
  predicate Loops(fl: FreeList, a: int) { Slot(fl, a) < |fl| && fl[Slot(fl, a)].addr == a }

  /** freemem; when it loops, the list given is the one up to the block linked to itself. */
  function FreeMem(fl: FreeList, minheap: int, maxheap: int, a: int, nbytes: int): (r: (FreeList, bool)) {
    var n := RoundMb(nbytes);
    var k := Slot(fl, a);
    if nbytes == 0 || a < minheap || a > maxheap || Clashes(fl, k, a, n) then (fl, false)
    else if Loops(fl, a) then (fl[..k] + [Block(a, n)], true)
    else (Put(fl, k, a, n), true)
  }

  /** freestk(p, len). */
  function FreeStk(fl: FreeList, minheap: int, maxheap: int, p: int, len: int): (r: (FreeList, bool)) {
    FreeMem(fl, minheap, maxheap, p - RoundMb(len) + 4, RoundMb(len))
  }
}
