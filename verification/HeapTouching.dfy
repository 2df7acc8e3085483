/** Which free lists every complete round of allocation restores: those whose blocks do not touch. meminit
    may link regions that do. */
module HeapTouching {
  import opened HeapSpec
  import opened HeapRuns

  /** What meminit builds: granules inside the heap in address order, touching or not. */
  ghost predicate Ordered(fl: FreeList, minheap: int, maxheap: int) {
    && (forall i :: 0 <= i < |fl| ==> BlockOk(fl[i])) && AllGranular(fl) && InHeap(fl, minheap, maxheap)
    && (forall i, j :: 0 <= i < j < |fl| ==> fl[i].addr + fl[i].len <= fl[j].addr)
  }

  predicate Meets(b: Block, c: Block) { b.addr + b.len == c.addr }

  ghost predicate Touching(fl: FreeList) { exists i, j :: 0 <= i < j < |fl| && Meets(fl[i], fl[j]) }

  lemma WellFormedIffApart(fl: FreeList, minheap: int, maxheap: int)
    requires Ordered(fl, minheap, maxheap)
    ensures WellFormed(fl) <==> !Touching(fl)
  {
    if !Touching(fl) {
      forall i, j | 0 <= i < j < |fl| ensures Before(fl[i], fl[j]) {
        assert !Meets(fl[i], fl[j]);
      }
    } else {
      var i, j :| 0 <= i < j < |fl| && Meets(fl[i], fl[j]);
      assert !Before(fl[i], fl[j]);
    }
  }

  lemma RunCons(h: Heap, minheap: int, maxheap: int, op: Op, h1: Heap, rest: seq<Op>, ops: seq<Op>)
    requires Allowed(h, minheap, maxheap, op) && h1 == Do(h, minheap, maxheap, op)
    requires Legal(h1, minheap, maxheap, rest) && ops == [op] + rest
    ensures Legal(h, minheap, maxheap, ops)
    ensures Run(h, minheap, maxheap, ops) == Run(h1, minheap, maxheap, rest)
  {
    assert ops[1..] == rest;
  }

  // ---- giving everything back ----

  predicate Apart(b: Block, a: int, n: int) { b.addr + b.len <= a || a + n <= b.addr }

  lemma {:induction false} CutNothing(held: seq<Block>, a: int, n: int)
    requires n > 0 && forall i :: 0 <= i < |held| ==> held[i].len > 0 && Apart(held[i], a, n)
    ensures Cut(held, a, n) == held
  {
    if held != [] {
      assert Pieces(held[0], a, n) == [held[0]];
      CutNothing(held[1..], a, n);
    }
  }

  /** No byte is covered twice. */
  ghost predicate Once(h: Heap) { forall x :: Covers(h.fl, x) + Covers(h.held, x) <= 1 }

  lemma CutFirst(h: Heap, minheap: int, maxheap: int)
    requires Once(h) && h.held != [] && AllHeldOk(h.held, minheap, maxheap)
    ensures Cut(h.held, h.held[0].addr, h.held[0].len) == h.held[1..]
  {
    var b := h.held[0];
    assert HeldOk(b, minheap, maxheap);
    forall i | 0 <= i < |h.held[1..]| ensures h.held[1..][i].len > 0 && Apart(h.held[1..][i], b.addr, b.len) {
      var c := h.held[i + 1];
      assert HeldOk(c, minheap, maxheap);
      if !Apart(c, b.addr, b.len) {
        TwoCovers(h.held, 0, i + 1, if b.addr < c.addr then c.addr else b.addr);
      }
    }
    CutNothing(h.held[1..], b.addr, b.len);
    assert Pieces(b, b.addr, b.len) == [];
  }

  /** Freeing the first block held. */
  lemma GiveFirst(h: Heap, minheap: int, maxheap: int) returns (op: Op, h': Heap)
    requires WellFormed(h.fl) && AllGranular(h.fl) && AllHeldOk(h.held, minheap, maxheap) && Once(h) && h.held != []
    ensures Allowed(h, minheap, maxheap, op) && h' == Do(h, minheap, maxheap, op)
    ensures WellFormed(h'.fl) && AllGranular(h'.fl) && AllHeldOk(h'.held, minheap, maxheap) && Once(h')
    ensures h'.held == h.held[1..]
  {
    var b := h.held[0];
    assert HeldOk(b, minheap, maxheap);
    RoundMbIs(b.len);
    forall x | b.addr <= x < b.addr + b.len ensures Covers(h.held, x) >= 1 && !IsFree(h.fl, x) {
      CoversMember(h.held, 0, x);
      CoversIs(h.fl, x);
    }
    FreeMemIs(h.fl, minheap, maxheap, b.addr, b.len);
    CutFirst(h, minheap, maxheap);
    op := OFree(b.addr, b.len);
    h' := Do(h, minheap, maxheap, op);
    GivenOnce(h, h', b);
  }

  lemma GivenOnce(h: Heap, h': Heap, b: Block)
    requires Once(h) && h.held != [] && b == h.held[0] && h'.held == h.held[1..]
    requires forall x :: Covers(h'.fl, x) == Covers(h.fl, x) + (if Inside(b, x) then 1 else 0)
    ensures Once(h')
  {}

  lemma {:induction false} GiveAll(h: Heap, minheap: int, maxheap: int) returns (ops: seq<Op>)
    requires WellFormed(h.fl) && AllGranular(h.fl) && AllHeldOk(h.held, minheap, maxheap) && Once(h)
    ensures Legal(h, minheap, maxheap, ops)
    ensures var r := Run(h, minheap, maxheap, ops); r.held == [] && WellFormed(r.fl)
    decreases |h.held|
  {
    if h.held == [] {
      ops := [];
    } else {
      var op, h' := GiveFirst(h, minheap, maxheap);
      var rest := GiveAll(h', minheap, maxheap);
      ops := [op] + rest;
      RunCons(h, minheap, maxheap, op, h', rest, ops);
    }
  }

  // ---- taking everything first ----

  lemma OrderedTail(fl: FreeList, minheap: int, maxheap: int)
    requires Ordered(fl, minheap, maxheap) && fl != []
    ensures Ordered(fl[1..], minheap, maxheap) && HeldOk(fl[0], minheap, maxheap)
  {}

  /** Asking for its exact length takes the first block whole. */
  lemma TakeFirst(h: Heap, minheap: int, maxheap: int) returns (op: Op, h': Heap)
    requires Ordered(h.fl, minheap, maxheap) && AllHeldOk(h.held, minheap, maxheap) && Once(h) && h.fl != []
    ensures Allowed(h, minheap, maxheap, op) && h' == Do(h, minheap, maxheap, op)
    ensures Ordered(h'.fl, minheap, maxheap) && AllHeldOk(h'.held, minheap, maxheap) && Once(h')
    ensures |h'.fl| < |h.fl|
  {
    var fl, b := h.fl, h.fl[0];
    OrderedTail(fl, minheap, maxheap);
    RoundMbIs(b.len);
    assert FirstFit(fl, b.len) == 0;
    assert LowCarve(fl, 0, b.len) == fl[1..];
    op := OGetMem(b.len);
    h' := Heap(fl[1..], h.held + [b]);
    forall x ensures Covers(h'.fl, x) + Covers(h'.held, x) <= 1 { CoversConcat(h.held, [b], x); }
  }

  /** A run that takes every block and then gives all back. */
  lemma {:induction false} TakeAll(h: Heap, minheap: int, maxheap: int) returns (ops: seq<Op>)
    requires Ordered(h.fl, minheap, maxheap) && AllHeldOk(h.held, minheap, maxheap) && Once(h)
    ensures Legal(h, minheap, maxheap, ops)
    ensures var r := Run(h, minheap, maxheap, ops); r.held == [] && WellFormed(r.fl)
    decreases |h.fl|
  {
    if h.fl == [] {
      ops := GiveAll(h, minheap, maxheap);
    } else {
      var op, h' := TakeFirst(h, minheap, maxheap);
      var rest := TakeAll(h', minheap, maxheap);
      ops := [op] + rest;
      RunCons(h, minheap, maxheap, op, h', rest, ops);
    }
  }

  lemma {:induction false} OrderedOnce(fl: FreeList, minheap: int, maxheap: int, x: int)
    requires Ordered(fl, minheap, maxheap)
    ensures Covers(fl, x) <= 1
    ensures fl != [] && x < fl[0].addr ==> Covers(fl, x) == 0
  {
    if fl != [] {
      OrderedTail(fl, minheap, maxheap);
      OrderedOnce(fl[1..], minheap, maxheap, x);
    }
  }

  /** From touching blocks a run that takes every block and gives every block back ends with another list:
      freemem has merged them. */
  lemma TouchingBlocksMerge(fl0: FreeList, minheap: int, maxheap: int) returns (ops: seq<Op>)
    requires Ordered(fl0, minheap, maxheap) && Touching(fl0)
    ensures Complete(fl0, minheap, maxheap, ops) && Run(Heap(fl0, []), minheap, maxheap, ops).fl != fl0
  {
    forall x ensures Covers(fl0, x) + Covers([], x) <= 1 { OrderedOnce(fl0, minheap, maxheap, x); }
    ops := TakeAll(Heap(fl0, []), minheap, maxheap);
    WellFormedIffApart(fl0, minheap, maxheap);
  }

  /** Every run that has given everything back. */
  ghost predicate Complete(fl0: FreeList, minheap: int, maxheap: int, ops: seq<Op>) {
    Legal(Heap(fl0, []), minheap, maxheap, ops) && Run(Heap(fl0, []), minheap, maxheap, ops).held == []
  }

  /** Every such run leaves the list it started with if and only if no two blocks of that list touch. */
  lemma RestoresIff(fl0: FreeList, minheap: int, maxheap: int)
    requires Ordered(fl0, minheap, maxheap)
    ensures !Touching(fl0) <==>
      forall ops :: Complete(fl0, minheap, maxheap, ops) ==> Run(Heap(fl0, []), minheap, maxheap, ops).fl == fl0
  {
    if Touching(fl0) {
      var ops := TouchingBlocksMerge(fl0, minheap, maxheap);
      assert Complete(fl0, minheap, maxheap, ops);
    } else {
      WellFormedIffApart(fl0, minheap, maxheap);
      forall ops | Complete(fl0, minheap, maxheap, ops)
        ensures Run(Heap(fl0, []), minheap, maxheap, ops).fl == fl0
      {
        EverythingReturned(fl0, minheap, maxheap, ops);
      }
    }
  }
}
