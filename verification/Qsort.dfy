/** qsort in place, on an array of bytes. Pointers into the array are written as element numbers; the
    two exchange routines move the bytes. */
module Qsort {
  import opened QsortSpec

  ghost function View(buf: array<Byte>, es: nat, n: nat): (e: seq<Elem>)
    reads buf
    ensures |e| == n
  {
    Elems(buf[..], es, n)
  }

  ghost predicate Room(buf: array<Byte>, es: nat, n: nat) { es > 0 && n * es <= buf.Length }

  /** The bytes past the n elements. */
  ghost function Tail(buf: array<Byte>, es: nat, n: nat): (t: seq<Byte>)
    requires Room(buf, es, n)
    reads buf
  {
    buf[n * es..]
  }

  /** Exchange es bytes at i and j, which are apart or the same. */
  method QsExc(buf: array<Byte>, i: nat, j: nat, es: nat)
    requires es > 0 && i + es <= buf.Length && j + es <= buf.Length && Aligned(i, j, es)
    modifies buf
    ensures BytesSwapped(old(buf[..]), buf[..], i, j, es)
  {
    ghost var s := buf[..];
    ghost var d: nat := 0;  // how many bytes are done
    var n, ri, rj := es, i, j;
    while true
      invariant 0 < n <= es && d + n == es && ri == i + d && rj == j + d
      invariant BytesSwapped(s, buf[..], i, j, d)
      decreases n
    {
      ghost var t, d' := buf[..], d + 1;
      var c := buf[ri];
      buf[ri] := buf[rj];
      buf[rj] := c;
      SwapByte(s, t, buf[..], i, j, d, es, ri, rj, d');
      d := d';
      ri, rj, n := ri + 1, rj + 1, n - 1;
      if n == 0 {
        assert d == es;
        break;
      }
    }
  }

  /** One byte of a three-way move. */
  method Move3(buf: array<Byte>, ri: nat, rj: nat, rk: nat)
    requires ri < buf.Length && rj < buf.Length && rk < buf.Length && ri != rj && ri != rk
    modifies buf
    ensures buf[..] == old(buf[..])[ri := old(buf[rk])][rk := old(buf[rj])][rj := old(buf[ri])]
  {
    var c := buf[ri];
    buf[ri] := buf[rk];
    buf[rk] := buf[rj];
    buf[rj] := c;
  }

  /** Move the bytes at k to i, those at j to k, and those at i to j; j and k may be the same. */
  method QstExc(buf: array<Byte>, i: nat, j: nat, k: nat, es: nat)
    requires es > 0 && i + es <= buf.Length && j + es <= buf.Length && k + es <= buf.Length
    requires Aligned(i, j, es) && Aligned(i, k, es) && Aligned(j, k, es) && i != j && i != k
    modifies buf
    ensures BytesRotated(old(buf[..]), buf[..], i, j, k, es)
  {
    ghost var s := buf[..];
    ghost var d: nat := 0;
    var n, ri, rj, rk := es, i, j, k;
    while true
      invariant 0 < n <= es && d + n == es && ri == i + d && rj == j + d && rk == k + d
      invariant BytesRotated(s, buf[..], i, j, k, d)
      decreases n
    {
      ghost var t, d' := buf[..], d + 1;
      Move3(buf, ri, rj, rk);
      RotateByte(s, t, buf[..], i, j, k, d, es, ri, rj, rk, d');
      d := d';
      ri, rj, rk, n := ri + 1, rj + 1, rk + 1, n - 1;
      if n == 0 {
        assert d == es;
        break;
      }
    }
  }

  method Compare(buf: array<Byte>, es: nat, cmp: Cmp, ghost n: nat, i: nat, j: nat) returns (c: int)
    requires Room(buf, es, n) && i < n && j < n
    ensures c == cmp(View(buf, es, n)[i], View(buf, es, n)[j])
  {
    Fits(i, n, es);
    Fits(j, n, es);
    c := cmp(buf[i * es..i * es + es], buf[j * es..j * es + es]);
    ElemIs(buf[..], es, n, i, i * es);
    ElemIs(buf[..], es, n, j, j * es);
    assert buf[..][i * es..i * es + es] == buf[i * es..i * es + es];
    assert buf[..][j * es..j * es + es] == buf[j * es..j * es + es];
  }

  /** Comparing with a member of the middle block tells where an element stands to the pivot. */
  method CompareLeft(buf: array<Byte>, es: nat, cmp: Cmp, ghost n: nat, i: nat, lp: nat, ghost total: bool, ghost pv: Elem)
    returns (c: int)
    requires Room(buf, es, n) && i < n && lp < n && (total ==> TotalPreorder(cmp) && cmp(View(buf, es, n)[lp], pv) == 0)
    ensures c == cmp(View(buf, es, n)[i], View(buf, es, n)[lp])
    ensures total ==> var d := cmp(View(buf, es, n)[i], pv); (c < 0 <==> d < 0) && (c == 0 <==> d == 0)
  {
    c := Compare(buf, es, cmp, n, i, lp);
    if total { Tie(cmp, View(buf, es, n)[i], View(buf, es, n)[lp], pv); }
  }

  method CompareRight(buf: array<Byte>, es: nat, cmp: Cmp, ghost n: nat, hp: nat, j: nat, ghost total: bool, ghost pv: Elem)
    returns (c: int)
    requires Room(buf, es, n) && j < n && hp < n && (total ==> TotalPreorder(cmp) && cmp(View(buf, es, n)[hp], pv) == 0)
    ensures c == cmp(View(buf, es, n)[hp], View(buf, es, n)[j])
    ensures total ==> var d := cmp(View(buf, es, n)[j], pv); (c > 0 <==> d < 0) && (c == 0 <==> d == 0)
  {
    c := Compare(buf, es, cmp, n, hp, j);
    if total { Tie(cmp, View(buf, es, n)[j], View(buf, es, n)[hp], pv); }
  }

  method SwapAt(buf: array<Byte>, es: nat, ghost n: nat, i: nat, j: nat)
    requires Room(buf, es, n) && i < n && j < n
    modifies buf
    ensures View(buf, es, n) == Swap(old(View(buf, es, n)), i, j) && Tail(buf, es, n) == old(Tail(buf, es, n))
  {
    Fits(i, n, es);
    Fits(j, n, es);
    ElemsAligned(i, j, es);
    ghost var s := buf[..];
    QsExc(buf, i * es, j * es, es);
    SwapElems(s, buf[..], es, n, i, j, i * es, j * es, n * es);
    assert buf[n * es..] == buf[..][n * es..] && s[n * es..] == old(buf[n * es..]);
  }

  method RotateAt(buf: array<Byte>, es: nat, ghost n: nat, i: nat, j: nat, k: nat)
    requires Room(buf, es, n) && i < n && j < n && k < n && i != j && i != k
    modifies buf
    ensures View(buf, es, n) == Rotate(old(View(buf, es, n)), i, j, k) && Tail(buf, es, n) == old(Tail(buf, es, n))
  {
    Fits(i, n, es);
    Fits(j, n, es);
    Fits(k, n, es);
    ElemsAligned(i, j, es);
    ElemsAligned(i, k, es);
    ElemsAligned(j, k, es);
    ghost var s := buf[..];
    QstExc(buf, i * es, j * es, k * es, es);
    RotateElems(s, buf[..], es, n, i, j, k, i * es, j * es, k * es, n * es);
    assert buf[n * es..] == buf[..][n * es..] && s[n * es..] == old(buf[n * es..]);
  }

  /** Where the partition of a..l stands in the buffer. */
  ghost predicate At(total: bool, e0: seq<Elem>, buf: array<Byte>, es: nat, n: nat, cmp: Cmp, pv: Elem,
                     a: nat, i: nat, lp: nat, hp: nat, j: nat, l: nat)
    reads buf
  {
    Room(buf, es, n) && l <= n && Parting(total, e0, View(buf, es, n), cmp, pv, a, i, lp, hp, j, l)
  }

  /** The loop of qs1: split elements a..l around the middle one. */
  method Split(buf: array<Byte>, es: nat, cmp: Cmp, ghost n: nat, a: nat, l: nat, ghost total: bool)
    returns (lp: nat, hp: nat)
    requires Room(buf, es, n) && a + 2 <= l <= n && (total ==> TotalPreorder(cmp))
    modifies buf
    ensures At(total, old(View(buf, es, n)), buf, es, n, cmp, old(View(buf, es, n))[a + (l - a) / 2], a, lp, lp, hp, hp, l)
    ensures Tail(buf, es, n) == old(Tail(buf, es, n))
  {
    ghost var e0 := View(buf, es, n);
    ghost var pv := e0[a + (l - a) / 2];
    lp := a + (l - a) / 2;
    hp := lp;
    var i, j := a, l - 1;
    if total { SelfTie(cmp, pv); }
    while true
      invariant a <= i <= lp <= hp <= j < l
      invariant At(total, e0, buf, es, n, cmp, pv, a, i, lp, hp, j, l) && Tail(buf, es, n) == old(Tail(buf, es, n))
      decreases lp - i + j - hp
    {
      if i < lp {
        var c := CompareLeft(buf, es, cmp, n, i, lp, total, pv);
        if c == 0 {
          lp := DoTieLeft(total, e0, buf, es, n, cmp, pv, a, i, lp, hp, j, l);
          continue;
        }
        if c < 0 {
          var i' := i + 1;
          PassLeft(total, e0, View(buf, es, n), cmp, pv, a, i, lp, hp, j, l, i');
          i := i';
          continue;
        }
      }
      var exchanged;
      i, lp, hp, j, exchanged := ScanRight(total, e0, buf, es, n, cmp, pv, a, i, lp, hp, j, l);
      if exchanged {
        continue;
      }
      if i == lp {
        return;
      }
      lp, hp := DoShiftDown(total, e0, buf, es, n, cmp, pv, a, i, lp, hp, l);
      j := hp;
    }
  }

  /** From the label loop on: work down from j until nothing is left above the middle block, or until
      an element for the waiting left end is found. */
  method ScanRight(ghost total: bool, ghost e0: seq<Elem>, buf: array<Byte>, es: nat, ghost n: nat, cmp: Cmp,
                   ghost pv: Elem, ghost a: nat, i0: nat, lp0: nat, hp0: nat, j0: nat, ghost l: nat)
    returns (i: nat, lp: nat, hp: nat, j: nat, exchanged: bool)
    requires At(total, e0, buf, es, n, cmp, pv, a, i0, lp0, hp0, j0, l) && Waiting(total, View(buf, es, n), cmp, pv, i0, lp0)
    requires total ==> TotalPreorder(cmp)
    modifies buf
    ensures At(total, e0, buf, es, n, cmp, pv, a, i, lp, hp, j, l) && Tail(buf, es, n) == old(Tail(buf, es, n))
    ensures exchanged ==> lp - i + j - hp < lp0 - i0 + j0 - hp0
    ensures !exchanged ==> lp - i <= lp0 - i0 + j0 - hp0 && j == hp && Waiting(total, View(buf, es, n), cmp, pv, i, lp)
  {
    i, lp, hp, j := i0, lp0, hp0, j0;
    while j > hp
      invariant a <= i <= lp <= hp <= j < l && lp - i + j - hp <= lp0 - i0 + j0 - hp0
      invariant At(total, e0, buf, es, n, cmp, pv, a, i, lp, hp, j, l) && Tail(buf, es, n) == old(Tail(buf, es, n))
      invariant Waiting(total, View(buf, es, n), cmp, pv, i, lp)
      decreases j - hp
    {
      var c := CompareRight(buf, es, cmp, n, hp, j, total, pv);
      if c == 0 {
        hp := DoTieRight(total, e0, buf, es, n, cmp, pv, a, i, lp, hp, j, l);
        continue;
      }
      if c > 0 {
        if i == lp {
          lp, hp := DoShiftUp(total, e0, buf, es, n, cmp, pv, a, lp, hp, j, l);
          i := lp;
          continue;
        }
        i, j := DoExchange(total, e0, buf, es, n, cmp, pv, a, i, lp, hp, j, l);
        return i, lp, hp, j, true;
      }
      var j' := j - 1;
      PassRight(total, e0, View(buf, es, n), cmp, pv, a, i, lp, hp, j, l, j');
      j := j';
    }
    exchanged := false;
  }

  /** qsexc(i, lp -= es) */
  method DoTieLeft(ghost total: bool, ghost e0: seq<Elem>, buf: array<Byte>, es: nat, ghost n: nat, ghost cmp: Cmp,
                   ghost pv: Elem, ghost a: nat, i: nat, lp: nat, ghost hp: nat, ghost j: nat, ghost l: nat)
    returns (lp': nat)
    requires At(total, e0, buf, es, n, cmp, pv, a, i, lp, hp, j, l) && i < lp
    requires total ==> cmp(View(buf, es, n)[i], pv) == 0
    modifies buf
    ensures lp' == lp - 1
    ensures At(total, e0, buf, es, n, cmp, pv, a, i, lp', hp, j, l) && Tail(buf, es, n) == old(Tail(buf, es, n))
  {
    ghost var e := View(buf, es, n);
    lp' := lp - 1;
    SwapAt(buf, es, n, i, lp');
    TieLeft(total, e0, e, View(buf, es, n), cmp, pv, a, i, lp, hp, j, l);
  }

  /** qsexc(hp += es, j) */
  method DoTieRight(ghost total: bool, ghost e0: seq<Elem>, buf: array<Byte>, es: nat, ghost n: nat, ghost cmp: Cmp,
                    ghost pv: Elem, ghost a: nat, ghost i: nat, ghost lp: nat, hp: nat, j: nat, ghost l: nat)
    returns (hp': nat)
    requires At(total, e0, buf, es, n, cmp, pv, a, i, lp, hp, j, l) && hp < j
    requires total ==> cmp(View(buf, es, n)[j], pv) == 0
    requires Waiting(total, View(buf, es, n), cmp, pv, i, lp)
    modifies buf
    ensures hp' == hp + 1 && Waiting(total, View(buf, es, n), cmp, pv, i, lp)
    ensures At(total, e0, buf, es, n, cmp, pv, a, i, lp, hp', j, l) && Tail(buf, es, n) == old(Tail(buf, es, n))
  {
    ghost var e := View(buf, es, n);
    hp' := hp + 1;
    SwapAt(buf, es, n, hp', j);
    TieRight(total, e0, e, View(buf, es, n), cmp, pv, a, i, lp, hp, j, l);
    WaitingKept(total, e, View(buf, es, n), cmp, pv, i, lp, hp, j);
  }

  /** qstexc(i, hp += es, j); i = lp += es */
  method DoShiftUp(ghost total: bool, ghost e0: seq<Elem>, buf: array<Byte>, es: nat, ghost n: nat, ghost cmp: Cmp,
                   ghost pv: Elem, ghost a: nat, lp: nat, hp: nat, j: nat, ghost l: nat)
    returns (lp': nat, hp': nat)
    requires At(total, e0, buf, es, n, cmp, pv, a, lp, lp, hp, j, l) && hp < j
    requires total ==> cmp(View(buf, es, n)[j], pv) < 0
    modifies buf
    ensures lp' == lp + 1 && hp' == hp + 1
    ensures At(total, e0, buf, es, n, cmp, pv, a, lp', lp', hp', j, l) && Tail(buf, es, n) == old(Tail(buf, es, n))
  {
    ghost var e := View(buf, es, n);
    hp' := hp + 1;
    RotateAt(buf, es, n, lp, hp', j);
    lp' := lp + 1;
    ShiftUp(total, e0, e, View(buf, es, n), cmp, pv, a, lp, hp, j, l);
  }

  /** qsexc(i, j); j -= es; i += es */
  method DoExchange(ghost total: bool, ghost e0: seq<Elem>, buf: array<Byte>, es: nat, ghost n: nat, ghost cmp: Cmp,
                    ghost pv: Elem, ghost a: nat, i: nat, ghost lp: nat, ghost hp: nat, j: nat, ghost l: nat)
    returns (i': nat, j': nat)
    requires At(total, e0, buf, es, n, cmp, pv, a, i, lp, hp, j, l) && hp < j && i < lp
    requires total ==> cmp(View(buf, es, n)[j], pv) < 0
    requires Waiting(total, View(buf, es, n), cmp, pv, i, lp)
    modifies buf
    ensures i' == i + 1 && j' == j - 1
    ensures At(total, e0, buf, es, n, cmp, pv, a, i', lp, hp, j', l) && Tail(buf, es, n) == old(Tail(buf, es, n))
  {
    ghost var e := View(buf, es, n);
    SwapAt(buf, es, n, i, j);
    i', j' := i + 1, j - 1;
    Exchange(total, e0, e, View(buf, es, n), cmp, pv, a, i, lp, hp, j, l);
  }

  /** qstexc(j, lp -= es, i); j = hp -= es; here j == hp */
  method DoShiftDown(ghost total: bool, ghost e0: seq<Elem>, buf: array<Byte>, es: nat, ghost n: nat, ghost cmp: Cmp,
                     ghost pv: Elem, ghost a: nat, i: nat, lp: nat, hp: nat, ghost l: nat)
    returns (lp': nat, hp': nat)
    requires At(total, e0, buf, es, n, cmp, pv, a, i, lp, hp, hp, l) && i < lp
    requires Waiting(total, View(buf, es, n), cmp, pv, i, lp)
    modifies buf
    ensures lp' == lp - 1 && hp' == hp - 1
    ensures At(total, e0, buf, es, n, cmp, pv, a, i, lp', hp', hp', l) && Tail(buf, es, n) == old(Tail(buf, es, n))
  {
    ghost var e := View(buf, es, n);
    lp' := lp - 1;
    RotateAt(buf, es, n, hp, lp', i);
    hp' := hp - 1;
    ShiftDown(total, e0, e, View(buf, es, n), cmp, pv, a, i, lp, hp, l);
  }

  /** qs1: sort elements a0..l0. depth is how deeply it calls itself. */
  method Qs1(buf: array<Byte>, es: nat, cmp: Cmp, ghost n: nat, a0: nat, l0: nat, ghost total: bool)
    returns (ghost depth: nat)
    requires Room(buf, es, n) && a0 <= l0 <= n && (total ==> TotalPreorder(cmp))
    modifies buf
    ensures Permuted(old(View(buf, es, n)), View(buf, es, n), a0, l0) && Tail(buf, es, n) == old(Tail(buf, es, n))
    ensures total ==> Sorted(View(buf, es, n), cmp, a0, l0)
    ensures Pow2(depth) <= AtLeast1(l0 - a0)
    decreases l0 - a0, 1
  {
    ghost var e0 := View(buf, es, n);
    var a, l := a0, l0;
    depth := 0;
    AllLeft(total, e0, cmp, a0, l0);
    while l - a > 1
      invariant a0 <= a <= l <= l0 && Left(total, e0, View(buf, es, n), cmp, a0, a, l, l0)
      invariant Tail(buf, es, n) == old(Tail(buf, es, n)) && Pow2(depth) <= AtLeast1(l0 - a0)
      decreases l - a
    {
      ghost var d;
      a, l, d := Round(buf, es, cmp, n, a, l, total, e0, a0, l0);
      depth := if d + 1 > depth then d + 1 else depth;
    }
    NothingLeft(total, e0, View(buf, es, n), cmp, a0, a, l, l0);
  }

  /** From start: to goto start: split, sort the smaller side, and narrow the range to the other. */
  method Round(buf: array<Byte>, es: nat, cmp: Cmp, ghost n: nat, a: nat, l: nat, ghost total: bool,
               ghost e0: seq<Elem>, ghost a0: nat, ghost l0: nat)
    returns (a': nat, l': nat, ghost d: nat)
    requires Room(buf, es, n) && a0 <= a && l <= l0 <= n && l - a > 1 && (total ==> TotalPreorder(cmp))
    requires Left(total, e0, View(buf, es, n), cmp, a0, a, l, l0)
    modifies buf
    ensures a <= a' <= l' <= l && l' - a' < l - a && Left(total, e0, View(buf, es, n), cmp, a0, a', l', l0)
    ensures Tail(buf, es, n) == old(Tail(buf, es, n)) && Pow2(d + 1) <= l - a
    decreases l - a, 0
  {
    ghost var e1 := View(buf, es, n);
    ghost var pv := e1[a + (l - a) / 2];
    var lp, hp := Split(buf, es, cmp, n, a, l, total);
    ghost var e2 := View(buf, es, n);
    if lp - a >= l - hp {
      d := Qs1(buf, es, cmp, n, hp + 1, l, total);
      RightDone(total, e0, e1, e2, View(buf, es, n), cmp, pv, a0, a, lp, hp, l, l0);
      HalfDeep(d, l - hp - 1, l - a);
      a', l' := a, lp;
    } else {
      d := Qs1(buf, es, cmp, n, a, lp, total);
      HalfDeep(d, lp - a, l - a);
      a', l' := hp + 1, l;
      LeftDone(total, e0, e1, e2, View(buf, es, n), cmp, pv, a0, a, lp, hp, l, l0, a');
    }
  }

  /** Sort the n elements of es bytes at the start of buf. For every comparison the call ends, leaves
      the same elements, touches no byte past them, and nests at most log2(n) deep; for a total
      preorder the elements are in order. */
  method Qsort(buf: array<Byte>, n: nat, es: nat, cmp: Cmp) returns (ghost depth: nat)
    requires es > 0 && n * es <= buf.Length
    modifies buf
    ensures multiset(View(buf, es, n)) == multiset(old(View(buf, es, n)))
    ensures buf[n * es..] == old(buf[n * es..])
    ensures TotalPreorder(cmp) ==> Sorted(View(buf, es, n), cmp, 0, n)
    ensures Pow2(depth) <= AtLeast1(n)
  {
    depth := Qs1(buf, es, cmp, n, 0, n, TotalPreorder(cmp));
  }
}
