/** What qsort works on, seen as a sequence of elements, and the steps of its three-way partition. */
module QsortSpec {

  type Byte = x: int | 0 <= x < 256

  type Elem = seq<Byte>

  type Cmp = (Elem, Elem) -> int

  /** A comparison that ranks elements: ties are allowed, cycles are not. */
  ghost predicate TotalPreorder(cmp: Cmp) {
    && (forall x, y :: cmp(x, y) < 0 <==> cmp(y, x) > 0)
    && (forall x, y, z :: cmp(x, y) <= 0 && cmp(y, z) <= 0 ==> cmp(x, z) <= 0)
  }

  /** What a tie with the pivot tells about any other element. */
  lemma Tie(cmp: Cmp, x: Elem, y: Elem, pv: Elem)
    requires TotalPreorder(cmp) && cmp(y, pv) == 0
    ensures cmp(x, y) < 0 <==> cmp(x, pv) < 0
    ensures cmp(x, y) == 0 <==> cmp(x, pv) == 0
    ensures cmp(y, x) > 0 <==> cmp(x, pv) < 0
    ensures cmp(y, x) == 0 <==> cmp(x, pv) == 0
  {
    assert cmp(pv, y) == 0;
    assert cmp(x, y) <= 0 <==> cmp(x, pv) <= 0;
    assert cmp(y, x) <= 0 <==> cmp(pv, x) <= 0;
  }

  lemma SelfTie(cmp: Cmp, x: Elem)
    requires TotalPreorder(cmp)
    ensures cmp(x, x) == 0
  {}

  lemma Below(cmp: Cmp, x: Elem, y: Elem, pv: Elem)
    requires TotalPreorder(cmp) && cmp(x, pv) <= 0 && cmp(y, pv) >= 0
    ensures cmp(x, y) <= 0
  {}

  // ---- bytes and elements ----

  /** The k-th element of es bytes. */
  function ElemAt(s: seq<Byte>, es: nat, k: nat): (e: Elem) {
    if k * es + es <= |s| then s[k * es..k * es + es] else []
  }

  function Elems(s: seq<Byte>, es: nat, n: nat): (r: seq<Elem>)
    ensures |r| == n
  {
    seq(n, k requires k >= 0 => ElemAt(s, es, k))
  }

  /** Element k ends before element m begins. */
  lemma Fits(k: nat, m: nat, es: nat)
    requires k < m
    ensures 0 <= k * es && k * es + es <= m * es
  {
    assert (k + 1) * es == k * es + es;
    assert (m - k - 1) * es + (k + 1) * es == m * es;
  }

  /** Bytes x.. and y.. of length es have changed places. */
  ghost predicate BytesSwapped(s: seq<Byte>, s': seq<Byte>, x: nat, y: nat, es: nat)
    requires x + es <= |s| && y + es <= |s|
  {
    && |s'| == |s|
    && forall t {:trigger s'[t]} :: 0 <= t < |s| ==>
         s'[t] == if x <= t < x + es then s[t - x + y] else if y <= t < y + es then s[t - y + x] else s[t]
  }

  /** Bytes of z.. moved to x.., those of y.. to z.., and those of x.. to y... */
  ghost predicate BytesRotated(s: seq<Byte>, s': seq<Byte>, x: nat, y: nat, z: nat, es: nat)
    requires x + es <= |s| && y + es <= |s| && z + es <= |s|
  {
    && |s'| == |s|
    && forall t {:trigger s'[t]} :: 0 <= t < |s| ==>
         s'[t] == if x <= t < x + es then s[t - x + z] else if y <= t < y + es then s[t - y + x]
                  else if z <= t < z + es then s[t - z + y] else s[t]
  }

  /** One more byte. */
  lemma SwapByte(s: seq<Byte>, t: seq<Byte>, r: seq<Byte>, x: nat, y: nat, d: nat, es: nat, x': nat, y': nat, d': nat)
    requires d < es && x + es <= |s| && y + es <= |s| && Aligned(x, y, es) && BytesSwapped(s, t, x, y, d)
    requires x' == x + d && y' == y + d && d' == d + 1 && r == t[x' := t[y']][y' := t[x']]
    ensures BytesSwapped(s, r, x, y, d')
  {}

  lemma RotateByte(s: seq<Byte>, t: seq<Byte>, r: seq<Byte>, x: nat, y: nat, z: nat, d: nat, es: nat,
                   x': nat, y': nat, z': nat, d': nat)
    requires d < es && x + es <= |s| && y + es <= |s| && z + es <= |s| && BytesRotated(s, t, x, y, z, d)
    requires Aligned(x, y, es) && Aligned(x, z, es) && Aligned(y, z, es) && x != y && x != z
    requires x' == x + d && y' == y + d && z' == z + d && d' == d + 1
    requires r == t[x' := t[z']][z' := t[y']][y' := t[x']]
    ensures BytesRotated(s, r, x, y, z, d')
  {}

  function Swap(e: seq<Elem>, i: nat, j: nat): (r: seq<Elem>)
    requires i < |e| && j < |e|
    ensures |r| == |e|
  {
    e[i := e[j]][j := e[i]]
  }

  /** qstexc: element k goes to i, j to k, and i to j. */
  function Rotate(e: seq<Elem>, i: nat, j: nat, k: nat): (r: seq<Elem>)
    requires i < |e| && j < |e| && k < |e|
    ensures |r| == |e|
  {
    e[i := e[k]][k := e[j]][j := e[i]]
  }

  /** Regions of es bytes at x and z coincide or are disjoint. */
  predicate Aligned(x: nat, z: nat, es: nat) { x == z || x + es <= z || z + es <= x }

  lemma ElemsAligned(i: nat, k: nat, es: nat)
    ensures Aligned(i * es, k * es, es)
    ensures i != k && es > 0 ==> i * es != k * es
  {
    if i < k { Fits(i, k, es); }
    if k < i { Fits(k, i, es); }
  }

  lemma SwappedAt(s: seq<Byte>, s': seq<Byte>, x: nat, y: nat, z: nat, es: nat)
    requires x + es <= |s| && y + es <= |s| && z + es <= |s| && BytesSwapped(s, s', x, y, es)
    requires Aligned(x, y, es) && Aligned(x, z, es) && Aligned(y, z, es)
    ensures s'[z..z + es] == if z == x then s[y..y + es] else if z == y then s[x..x + es] else s[z..z + es]
  {
    var r := if z == x then s[y..y + es] else if z == y then s[x..x + es] else s[z..z + es];
    forall d | 0 <= d < es ensures s'[z..z + es][d] == r[d] { assert s'[z..z + es][d] == s'[z + d]; }
  }

  lemma RotatedAt(s: seq<Byte>, s': seq<Byte>, x: nat, y: nat, w: nat, z: nat, es: nat)
    requires x + es <= |s| && y + es <= |s| && w + es <= |s| && z + es <= |s| && BytesRotated(s, s', x, y, w, es)
    requires Aligned(x, z, es) && Aligned(y, z, es) && Aligned(w, z, es)
    requires Aligned(x, y, es) && Aligned(x, w, es) && Aligned(y, w, es)
    ensures s'[z..z + es] == if z == x then s[w..w + es] else if z == y then s[x..x + es]
                             else if z == w then s[y..y + es] else s[z..z + es]
  {
    var r := if z == x then s[w..w + es] else if z == y then s[x..x + es] else if z == w then s[y..y + es] else s[z..z + es];
    forall d | 0 <= d < es ensures s'[z..z + es][d] == r[d] { assert s'[z..z + es][d] == s'[z + d]; }
  }

  lemma SwappedTail(s: seq<Byte>, s': seq<Byte>, x: nat, y: nat, es: nat, end: nat)
    requires x + es <= end <= |s| && y + es <= end && BytesSwapped(s, s', x, y, es)
    ensures s'[end..] == s[end..]
  {}

  lemma RotatedTail(s: seq<Byte>, s': seq<Byte>, x: nat, y: nat, w: nat, es: nat, end: nat)
    requires x + es <= end <= |s| && y + es <= end && w + es <= end && BytesRotated(s, s', x, y, w, es)
    ensures s'[end..] == s[end..]
  {}

  /** Element k is the es bytes at z == k * es. */
  lemma ElemIs(s: seq<Byte>, es: nat, n: nat, k: nat, z: nat)
    requires k < n && z == k * es && z + es <= |s|
    ensures Elems(s, es, n)[k] == s[z..z + es]
  {}

  /** Exchanging the bytes of elements i and j exchanges the elements. */
  lemma SwapElems(s: seq<Byte>, s': seq<Byte>, es: nat, n: nat, i: nat, j: nat, x: nat, y: nat, end: nat)
    requires es > 0 && i < n && j < n && x == i * es && y == j * es && end == n * es <= |s|
    requires x + es <= |s| && y + es <= |s| && BytesSwapped(s, s', x, y, es)
    ensures Elems(s', es, n) == Swap(Elems(s, es, n), i, j)
    ensures |s'| == |s| && s'[end..] == s[end..]
  {
    var e := Elems(s, es, n);
    forall k | 0 <= k < n ensures Elems(s', es, n)[k] == Swap(e, i, j)[k] {
      SwapElem(s, s', es, n, i, j, k, x, y, k * es);
    }
    Fits(i, n, es);
    Fits(j, n, es);
    SwappedTail(s, s', x, y, es, end);
  }

  lemma SwapElem(s: seq<Byte>, s': seq<Byte>, es: nat, n: nat, i: nat, j: nat, k: nat, x: nat, y: nat, z: nat)
    requires es > 0 && i < n && j < n && k < n && x == i * es && y == j * es && z == k * es && n * es <= |s|
    requires x + es <= |s| && y + es <= |s| && BytesSwapped(s, s', x, y, es)
    ensures Elems(s', es, n)[k] == Swap(Elems(s, es, n), i, j)[k]
  {
    Fits(k, n, es);
    ElemsAligned(i, j, es);
    ElemsAligned(i, k, es);
    ElemsAligned(j, k, es);
    SwappedAt(s, s', x, y, z, es);
    ElemIs(s', es, n, k, z);
    ElemIs(s, es, n, k, z);
    ElemIs(s, es, n, i, x);
    ElemIs(s, es, n, j, y);
  }

  /** Rotating the bytes of three elements, of which the last two may coincide, rotates the elements. */
  lemma RotateElems(s: seq<Byte>, s': seq<Byte>, es: nat, n: nat, i: nat, j: nat, m: nat, x: nat, y: nat, w: nat, end: nat)
    requires es > 0 && i < n && j < n && m < n && i != j && i != m
    requires x == i * es && y == j * es && w == m * es && end == n * es <= |s|
    requires x + es <= |s| && y + es <= |s| && w + es <= |s| && BytesRotated(s, s', x, y, w, es)
    ensures Elems(s', es, n) == Rotate(Elems(s, es, n), i, j, m)
    ensures |s'| == |s| && s'[end..] == s[end..]
  {
    var e := Elems(s, es, n);
    forall k | 0 <= k < n ensures Elems(s', es, n)[k] == Rotate(e, i, j, m)[k] {
      RotateElem(s, s', es, n, i, j, m, k, x, y, w, k * es);
    }
    Fits(i, n, es);
    Fits(j, n, es);
    Fits(m, n, es);
    RotatedTail(s, s', x, y, w, es, end);
  }

  lemma RotateElem(s: seq<Byte>, s': seq<Byte>, es: nat, n: nat, i: nat, j: nat, m: nat, k: nat,
                   x: nat, y: nat, w: nat, z: nat)
    requires es > 0 && i < n && j < n && m < n && k < n && i != j && i != m
    requires x == i * es && y == j * es && w == m * es && z == k * es && n * es <= |s|
    requires x + es <= |s| && y + es <= |s| && w + es <= |s| && BytesRotated(s, s', x, y, w, es)
    ensures Elems(s', es, n)[k] == Rotate(Elems(s, es, n), i, j, m)[k]
  {
    Fits(k, n, es);
    ElemsAligned(i, j, es);
    ElemsAligned(i, m, es);
    ElemsAligned(j, m, es);
    ElemsAligned(i, k, es);
    ElemsAligned(j, k, es);
    ElemsAligned(m, k, es);
    RotatedAt(s, s', x, y, w, z, es);
    ElemIs(s', es, n, k, z);
    ElemIs(s, es, n, k, z);
    ElemIs(s, es, n, i, x);
    ElemIs(s, es, n, j, y);
    ElemIs(s, es, n, m, w);
  }

  // ---- permutations of one range ----

  /** f has the elements of e, reordered within [a, l) only. */
  ghost predicate Permuted(e: seq<Elem>, f: seq<Elem>, a: nat, l: nat) {
    && a <= l <= |e| == |f| && multiset(f) == multiset(e)
    && forall x {:trigger f[x]} :: 0 <= x < |e| && !(a <= x < l) ==> f[x] == e[x]
  }

  lemma SwapPermuted(e: seq<Elem>, a: nat, l: nat, i: nat, j: nat)
    requires a <= i < l <= |e| && a <= j < l
    ensures Permuted(e, Swap(e, i, j), a, l)
  {}

  lemma RotatePermuted(e: seq<Elem>, a: nat, l: nat, i: nat, j: nat, k: nat)
    requires a <= i < l <= |e| && a <= j < l && a <= k < l && i != j && i != k
    ensures Permuted(e, Rotate(e, i, j, k), a, l)
  {
    assert Rotate(e, i, j, k) == Swap(Swap(e, i, k), j, k);
    SwapPermuted(e, a, l, i, k);
    SwapPermuted(Swap(e, i, k), a, l, j, k);
  }

  lemma PermutedTrans(e: seq<Elem>, f: seq<Elem>, g: seq<Elem>, a: nat, l: nat)
    requires Permuted(e, f, a, l) && Permuted(f, g, a, l)
    ensures Permuted(e, g, a, l)
  {}

  /** Reordering a part of a range reorders the range. */
  lemma PermutedWiden(e: seq<Elem>, f: seq<Elem>, a0: nat, a: nat, l: nat, l0: nat)
    requires Permuted(e, f, a, l) && a0 <= a && l <= l0 <= |e|
    ensures Permuted(e, f, a0, l0)
  {}

  lemma Parts(e: seq<Elem>, a: nat, l: nat)
    requires a <= l <= |e|
    ensures multiset(e) == multiset(e[..a]) + multiset(e[a..l]) + multiset(e[l..])
  {
    assert e == e[..a] + e[a..l] + e[l..];
  }

  /** The range itself holds the same elements as before. */
  lemma PermutedRange(e: seq<Elem>, f: seq<Elem>, a: nat, l: nat)
    requires Permuted(e, f, a, l)
    ensures multiset(f[a..l]) == multiset(e[a..l])
  {
    Parts(e, a, l);
    Parts(f, a, l);
    assert e[..a] == f[..a];
    assert e[l..] == f[l..];
    var m, n := multiset(e[a..l]), multiset(f[a..l]);
    assert m == multiset(e) - multiset(e[..a]) - multiset(e[l..]);
    assert n == multiset(f) - multiset(f[..a]) - multiset(f[l..]);
  }

  /** Where an element of the reordered range came from. */
  lemma CameFrom(e: seq<Elem>, f: seq<Elem>, a: nat, l: nat, q: nat) returns (r: nat)
    requires Permuted(e, f, a, l) && q < |f|
    ensures r < |e| && e[r] == f[q] && (a <= q < l <==> a <= r < l) && (q < a || q >= l ==> r == q)
  {
    if a <= q < l {
      PermutedRange(e, f, a, l);
      assert f[q] == f[a..l][q - a] && f[q] in multiset(f[a..l]);
      assert f[q] in e[a..l];
      r :| a <= r < l && e[r] == f[q];
    } else {
      r := q;
    }
  }

  // ---- the partition ----

  /** [a, i) is below the pivot, [lp, hp] ties with it, and (j, l) is above. */
  ghost predicate Split3(e: seq<Elem>, cmp: Cmp, pv: Elem, a: nat, i: nat, lp: nat, hp: nat, j: nat, l: nat) {
    && a <= i <= lp <= hp <= j < l <= |e|
    && (forall x :: a <= x < i ==> cmp(e[x], pv) < 0)
    && (forall x :: lp <= x <= hp ==> cmp(e[x], pv) == 0)
    && (forall x :: j < x < l ==> cmp(e[x], pv) > 0)
  }

  /** Where the partition stands: only [a, l) has been reordered, and if the comparison is total, a
      total preorder, the three finished parts are what they should be. */
  ghost predicate Parting(total: bool, e0: seq<Elem>, e: seq<Elem>, cmp: Cmp, pv: Elem,
                          a: nat, i: nat, lp: nat, hp: nat, j: nat, l: nat) {
    a <= i <= lp <= hp <= j < l && Permuted(e0, e, a, l) && (total ==> Split3(e, cmp, pv, a, i, lp, hp, j, l))
  }

  /** The left end waits with an element above the pivot, unless it has reached the middle block. */
  ghost predicate Waiting(total: bool, e: seq<Elem>, cmp: Cmp, pv: Elem, i: nat, lp: nat) {
    i <= lp && (i < lp ==> i < |e| && (total ==> cmp(e[i], pv) > 0))
  }

  lemma SwapIn(e0: seq<Elem>, e: seq<Elem>, r: seq<Elem>, a: nat, l: nat, i: nat, j: nat)
    requires Permuted(e0, e, a, l) && a <= i < l && a <= j < l && r == Swap(e, i, j)
    ensures Permuted(e0, r, a, l)
  {
    SwapPermuted(e, a, l, i, j);
    PermutedTrans(e0, e, r, a, l);
  }

  lemma RotateIn(e0: seq<Elem>, e: seq<Elem>, r: seq<Elem>, a: nat, l: nat, i: nat, j: nat, k: nat)
    requires Permuted(e0, e, a, l) && a <= i < l && a <= j < l && a <= k < l && i != j && i != k && r == Rotate(e, i, j, k)
    ensures Permuted(e0, r, a, l)
  {
    RotatePermuted(e, a, l, i, j, k);
    PermutedTrans(e0, e, r, a, l);
  }

  /** A tie on the left joins the middle block from below; the two positions may coincide. */
  lemma TieLeftSplit(e: seq<Elem>, cmp: Cmp, pv: Elem, a: nat, i: nat, lp: nat, hp: nat, j: nat, l: nat)
    requires Split3(e, cmp, pv, a, i, lp, hp, j, l) && i < lp && cmp(e[i], pv) == 0
    ensures Split3(Swap(e, i, lp - 1), cmp, pv, a, i, lp - 1, hp, j, l)
  {}

  lemma TieLeft(total: bool, e0: seq<Elem>, e: seq<Elem>, r: seq<Elem>, cmp: Cmp, pv: Elem,
                a: nat, i: nat, lp: nat, hp: nat, j: nat, l: nat)
    requires Parting(total, e0, e, cmp, pv, a, i, lp, hp, j, l) && i < lp && (total ==> cmp(e[i], pv) == 0)
    requires r == Swap(e, i, lp - 1)
    ensures Parting(total, e0, r, cmp, pv, a, i, lp - 1, hp, j, l)
  {
    SwapIn(e0, e, r, a, l, i, lp - 1);
    if total { TieLeftSplit(e, cmp, pv, a, i, lp, hp, j, l); }
  }

  /** A tie on the right joins the middle block from above. */
  lemma TieRightSplit(e: seq<Elem>, cmp: Cmp, pv: Elem, a: nat, i: nat, lp: nat, hp: nat, j: nat, l: nat)
    requires Split3(e, cmp, pv, a, i, lp, hp, j, l) && hp < j && cmp(e[j], pv) == 0
    ensures Split3(Swap(e, hp + 1, j), cmp, pv, a, i, lp, hp + 1, j, l)
  {}

  lemma TieRight(total: bool, e0: seq<Elem>, e: seq<Elem>, r: seq<Elem>, cmp: Cmp, pv: Elem,
                 a: nat, i: nat, lp: nat, hp: nat, j: nat, l: nat)
    requires Parting(total, e0, e, cmp, pv, a, i, lp, hp, j, l) && hp < j && (total ==> cmp(e[j], pv) == 0)
    requires r == Swap(e, hp + 1, j)
    ensures Parting(total, e0, r, cmp, pv, a, i, lp, hp + 1, j, l)
  {
    SwapIn(e0, e, r, a, l, hp + 1, j);
    if total { TieRightSplit(e, cmp, pv, a, i, lp, hp, j, l); }
  }

  /** An element below the pivot on the right, with no place on the left: the middle block moves up. */
  lemma WaitingKept(total: bool, e: seq<Elem>, r: seq<Elem>, cmp: Cmp, pv: Elem, i: nat, lp: nat, hp: nat, j: nat)
    requires Waiting(total, e, cmp, pv, i, lp) && lp <= hp < j < |e| && r == Swap(e, hp + 1, j)
    ensures Waiting(total, r, cmp, pv, i, lp)
  {}

  lemma ShiftUpSplit(e: seq<Elem>, cmp: Cmp, pv: Elem, a: nat, lp: nat, hp: nat, j: nat, l: nat)
    requires Split3(e, cmp, pv, a, lp, lp, hp, j, l) && hp < j && cmp(e[j], pv) < 0
    ensures Split3(Rotate(e, lp, hp + 1, j), cmp, pv, a, lp + 1, lp + 1, hp + 1, j, l)
  {}

  lemma ShiftUp(total: bool, e0: seq<Elem>, e: seq<Elem>, r: seq<Elem>, cmp: Cmp, pv: Elem,
                a: nat, lp: nat, hp: nat, j: nat, l: nat)
    requires Parting(total, e0, e, cmp, pv, a, lp, lp, hp, j, l) && hp < j && (total ==> cmp(e[j], pv) < 0)
    requires r == Rotate(e, lp, hp + 1, j)
    ensures Parting(total, e0, r, cmp, pv, a, lp + 1, lp + 1, hp + 1, j, l)
  {
    RotateIn(e0, e, r, a, l, lp, hp + 1, j);
    if total { ShiftUpSplit(e, cmp, pv, a, lp, hp, j, l); }
  }

  /** An element above on the left and one below on the right change places. */
  lemma ExchangeSplit(e: seq<Elem>, cmp: Cmp, pv: Elem, a: nat, i: nat, lp: nat, hp: nat, j: nat, l: nat)
    requires Split3(e, cmp, pv, a, i, lp, hp, j, l) && hp < j && cmp(e[j], pv) < 0 && i < lp && cmp(e[i], pv) > 0
    ensures Split3(Swap(e, i, j), cmp, pv, a, i + 1, lp, hp, j - 1, l)
  {}

  lemma Exchange(total: bool, e0: seq<Elem>, e: seq<Elem>, r: seq<Elem>, cmp: Cmp, pv: Elem,
                 a: nat, i: nat, lp: nat, hp: nat, j: nat, l: nat)
    requires Parting(total, e0, e, cmp, pv, a, i, lp, hp, j, l) && hp < j && (total ==> cmp(e[j], pv) < 0)
    requires Waiting(total, e, cmp, pv, i, lp) && i < lp
    requires r == Swap(e, i, j)
    ensures Parting(total, e0, r, cmp, pv, a, i + 1, lp, hp, j - 1, l)
  {
    SwapIn(e0, e, r, a, l, i, j);
    if total { ExchangeSplit(e, cmp, pv, a, i, lp, hp, j, l); }
  }

  /** An element above the pivot on the left, with no place on the right: the middle block moves down. */
  lemma ShiftDownSplit(e: seq<Elem>, cmp: Cmp, pv: Elem, a: nat, i: nat, lp: nat, hp: nat, l: nat)
    requires Split3(e, cmp, pv, a, i, lp, hp, hp, l) && i < lp && cmp(e[i], pv) > 0
    ensures Split3(Rotate(e, hp, lp - 1, i), cmp, pv, a, i, lp - 1, hp - 1, hp - 1, l)
  {}

  lemma ShiftDown(total: bool, e0: seq<Elem>, e: seq<Elem>, r: seq<Elem>, cmp: Cmp, pv: Elem,
                  a: nat, i: nat, lp: nat, hp: nat, l: nat)
    requires Parting(total, e0, e, cmp, pv, a, i, lp, hp, hp, l) && i < lp && Waiting(total, e, cmp, pv, i, lp)
    requires r == Rotate(e, hp, lp - 1, i)
    ensures Parting(total, e0, r, cmp, pv, a, i, lp - 1, hp - 1, hp - 1, l)
  {
    RotateIn(e0, e, r, a, l, hp, lp - 1, i);
    if total { ShiftDownSplit(e, cmp, pv, a, i, lp, hp, l); }
  }

  /** Elements passed over: one below the pivot on the left, one above it on the right. */
  lemma PassLeft(total: bool, e0: seq<Elem>, e: seq<Elem>, cmp: Cmp, pv: Elem,
                 a: nat, i: nat, lp: nat, hp: nat, j: nat, l: nat, i': nat)
    requires Parting(total, e0, e, cmp, pv, a, i, lp, hp, j, l) && i < lp && (total ==> cmp(e[i], pv) < 0) && i' == i + 1
    ensures Parting(total, e0, e, cmp, pv, a, i', lp, hp, j, l)
  {}

  lemma PassRight(total: bool, e0: seq<Elem>, e: seq<Elem>, cmp: Cmp, pv: Elem,
                  a: nat, i: nat, lp: nat, hp: nat, j: nat, l: nat, j': nat)
    requires Parting(total, e0, e, cmp, pv, a, i, lp, hp, j, l) && hp < j && (total ==> cmp(e[j], pv) > 0) && j == j' + 1
    ensures Parting(total, e0, e, cmp, pv, a, i, lp, hp, j', l)
  {}

  // ---- sortedness ----

  ghost predicate Sorted(e: seq<Elem>, cmp: Cmp, a: nat, l: nat) {
    l <= |e| && forall p, q :: a <= p < q < l ==> cmp(e[p], e[q]) <= 0
  }

  /** Every pair in [a0, l0) is in order, except perhaps those with both members in [a, l). */
  ghost predicate SortedOutside(e: seq<Elem>, cmp: Cmp, a0: nat, a: nat, l: nat, l0: nat) {
    && a0 <= a && l <= l0 <= |e|
    && forall p, q :: a0 <= p < q < l0 && !(a <= p && q < l) ==> cmp(e[p], e[q]) <= 0
  }

  /** Reordering the rest does not disturb the pairs already in order. */
  lemma OutsideKept(e: seq<Elem>, f: seq<Elem>, cmp: Cmp, a0: nat, a: nat, l: nat, l0: nat)
    requires SortedOutside(e, cmp, a0, a, l, l0) && Permuted(e, f, a, l)
    ensures SortedOutside(f, cmp, a0, a, l, l0)
  {
    forall p, q | a0 <= p < q < l0 && !(a <= p && q < l) ensures cmp(f[p], f[q]) <= 0 {
      var p1 := CameFrom(e, f, a, l, p);
      var q1 := CameFrom(e, f, a, l, q);
    }
  }

  lemma SplitKept(e: seq<Elem>, f: seq<Elem>, cmp: Cmp, pv: Elem, a: nat, lp: nat, hp: nat, l: nat)
    requires Split3(e, cmp, pv, a, lp, lp, hp, hp, l)
    requires Permuted(e, f, hp + 1, l) || Permuted(e, f, a, lp)
    ensures Split3(f, cmp, pv, a, lp, lp, hp, hp, l)
  {
    forall x | a <= x < l
      ensures x < lp ==> cmp(f[x], pv) < 0
      ensures lp <= x <= hp ==> cmp(f[x], pv) == 0
      ensures hp < x ==> cmp(f[x], pv) > 0
    {
      if Permuted(e, f, hp + 1, l) {
        var y := CameFrom(e, f, hp + 1, l, x);
      } else {
        var y := CameFrom(e, f, a, lp, x);
      }
    }
  }

  /** Once the range is split and one side sorted, only the other side is left to sort. */
  lemma OneSideLeft(e: seq<Elem>, cmp: Cmp, pv: Elem, a0: nat, a: nat, lp: nat, hp: nat, l: nat, l0: nat)
    requires TotalPreorder(cmp) && Split3(e, cmp, pv, a, lp, lp, hp, hp, l) && SortedOutside(e, cmp, a0, a, l, l0)
    ensures Sorted(e, cmp, hp + 1, l) ==> SortedOutside(e, cmp, a0, a, lp, l0)
    ensures Sorted(e, cmp, a, lp) ==> SortedOutside(e, cmp, a0, hp + 1, l, l0)
  {
    forall p, q | a <= p < q < l && (p <= hp || q < lp) && (q >= lp || p > hp) ensures cmp(e[p], e[q]) <= 0 {
      Below(cmp, e[p], e[q], pv);
    }
  }

  // ---- recursion depth ----

  function Pow2(n: nat): (r: nat)
    ensures r >= 1
  {
    if n == 0 then 1 else 2 * Pow2(n - 1)
  }

  function AtLeast1(n: int): (r: int) { if n < 1 then 1 else n }

  /** Sorting a part of at most half the range first leaves the depth logarithmic. */
  lemma HalfDeep(d: nat, part: nat, size: nat)
    requires Pow2(d) <= AtLeast1(part) && 2 * part <= size && size >= 2
    ensures Pow2(d + 1) <= size
  {}

  // ---- one round of qs1 ----

  /** What is left to sort is [a, l). */
  ghost predicate Left(total: bool, e0: seq<Elem>, e: seq<Elem>, cmp: Cmp, a0: nat, a: nat, l: nat, l0: nat) {
    a0 <= a <= l <= l0 && Permuted(e0, e, a0, l0) && (total ==> SortedOutside(e, cmp, a0, a, l, l0))
  }

  lemma RoundPermuted(e0: seq<Elem>, e1: seq<Elem>, e2: seq<Elem>, e3: seq<Elem>,
                      a0: nat, a: nat, b: nat, c: nat, l: nat, l0: nat)
    requires Permuted(e0, e1, a0, l0) && Permuted(e1, e2, a, l) && Permuted(e2, e3, b, c)
    requires a0 <= a <= b <= c <= l <= l0
    ensures Permuted(e0, e3, a0, l0) && Permuted(e2, e3, a, l)
  {
    PermutedWiden(e1, e2, a0, a, l, l0);
    PermutedWiden(e2, e3, a, b, c, l);
    PermutedWiden(e2, e3, a0, b, c, l0);
    PermutedTrans(e0, e1, e2, a0, l0);
    PermutedTrans(e0, e2, e3, a0, l0);
  }

  lemma RoundSorted(e1: seq<Elem>, e2: seq<Elem>, e3: seq<Elem>, cmp: Cmp, pv: Elem,
                    a0: nat, a: nat, lp: nat, hp: nat, l: nat, l0: nat)
    requires TotalPreorder(cmp) && SortedOutside(e1, cmp, a0, a, l, l0) && Permuted(e1, e2, a, l)
    requires Split3(e2, cmp, pv, a, lp, lp, hp, hp, l) && Permuted(e2, e3, a, l)
    requires Permuted(e2, e3, hp + 1, l) || Permuted(e2, e3, a, lp)
    ensures Sorted(e3, cmp, hp + 1, l) ==> SortedOutside(e3, cmp, a0, a, lp, l0)
    ensures Sorted(e3, cmp, a, lp) ==> SortedOutside(e3, cmp, a0, hp + 1, l, l0)
  {
    OutsideKept(e1, e2, cmp, a0, a, l, l0);
    OutsideKept(e2, e3, cmp, a0, a, l, l0);
    SplitKept(e2, e3, cmp, pv, a, lp, hp, l);
    OneSideLeft(e3, cmp, pv, a0, a, lp, hp, l, l0);
  }

  /** The right part was sorted: the left part remains. */
  lemma RightDone(total: bool, e0: seq<Elem>, e1: seq<Elem>, e2: seq<Elem>, e3: seq<Elem>, cmp: Cmp, pv: Elem,
                  a0: nat, a: nat, lp: nat, hp: nat, l: nat, l0: nat)
    requires Left(total, e0, e1, cmp, a0, a, l, l0) && Parting(total, e1, e2, cmp, pv, a, lp, lp, hp, hp, l)
    requires Permuted(e2, e3, hp + 1, l) && (total ==> Sorted(e3, cmp, hp + 1, l) && TotalPreorder(cmp))
    ensures Left(total, e0, e3, cmp, a0, a, lp, l0)
  {
    RoundPermuted(e0, e1, e2, e3, a0, a, hp + 1, l, l, l0);
    if total { RoundSorted(e1, e2, e3, cmp, pv, a0, a, lp, hp, l, l0); }
  }

  /** The left part was sorted: the right part remains. */
  lemma LeftDone(total: bool, e0: seq<Elem>, e1: seq<Elem>, e2: seq<Elem>, e3: seq<Elem>, cmp: Cmp, pv: Elem,
                 a0: nat, a: nat, lp: nat, hp: nat, l: nat, l0: nat, a': nat)
    requires Left(total, e0, e1, cmp, a0, a, l, l0) && Parting(total, e1, e2, cmp, pv, a, lp, lp, hp, hp, l)
    requires Permuted(e2, e3, a, lp) && (total ==> Sorted(e3, cmp, a, lp) && TotalPreorder(cmp)) && a' == hp + 1
    ensures Left(total, e0, e3, cmp, a0, a', l, l0)
  {
    RoundPermuted(e0, e1, e2, e3, a0, a, a, lp, l, l0);
    if total { RoundSorted(e1, e2, e3, cmp, pv, a0, a, lp, hp, l, l0); }
  }

  lemma NothingLeft(total: bool, e0: seq<Elem>, e: seq<Elem>, cmp: Cmp, a0: nat, a: nat, l: nat, l0: nat)
    requires Left(total, e0, e, cmp, a0, a, l, l0) && l - a <= 1
    ensures Permuted(e0, e, a0, l0) && (total ==> Sorted(e, cmp, a0, l0))
  {}

  lemma AllLeft(total: bool, e: seq<Elem>, cmp: Cmp, a0: nat, l0: nat)
    requires a0 <= l0 <= |e|
    ensures Left(total, e, e, cmp, a0, a0, l0, l0)
  {}
}
