/** The shared queue table `queuetab`: every queue of the kernel is a doubly linked list threaded
    through one array. Slots 0..NPROC-1 are the nodes of the processes; each queue owns two further
    slots, a head q and a tail q + 1. This module holds the facts about the table as a value. */
module QueueTable {
  import opened Seqs

  const NPROC := 100
  const NSEM := 100
  const NQENT := NPROC + 4 + NSEM + NSEM
  const EMPTY := -1
  const SYSERR := -1
  const OK := 1
  const MAXKEY := 0x7FFF_FFFF
  const MINKEY := -0x8000_0000  // 0x80000000 stored in a signed 32-bit field

  /** A slot of the process table. */
  type Pid = p: int | 0 <= p < NPROC

  datatype QEntry = QEntry(key: int, next: int, prev: int)

  predicate IsBadQid(q: int) { q < NPROC || q >= NQENT - 1 }

  /** The ids newqueue can hand out. */
  predicate IsQueue(q: int) { !IsBadQid(q) && q % 2 == 0 }

  ghost predicate Pids(s: seq<int>) { forall i :: 0 <= i < |s| ==> 0 <= s[i] < NPROC }

  ghost predicate Slots(t: seq<QEntry>, w: seq<int>) { forall i :: 0 <= i < |w| ==> 0 <= w[i] < |t| }

  /** The slots w are linked to each other in this order, in both directions. */
  ghost predicate Chain(t: seq<QEntry>, w: seq<int>)
    requires Slots(t, w)
  {
    && (forall i :: 0 <= i < |w| - 1 ==> t[w[i]].next == w[i + 1])
    && (forall i :: 0 < i < |w| ==> t[w[i]].prev == w[i - 1])
  }

  /** The nodes met when walking queue q with contents s: the head, the members, the tail. */
  function Walk(q: int, s: seq<int>): (w: seq<int>) { [q] + s + [q + 1] }

  /** In table t the queue q is a doubly linked list with contents s. */
  ghost predicate Linked(t: seq<QEntry>, q: int, s: seq<int>)
    requires |t| == NQENT && IsQueue(q) && Pids(s)
  {
    Chain(t, Walk(q, s)) && t[q].key == MAXKEY && t[q + 1].key == MINKEY
  }

  /** No process is on two queues, or twice on one. */
  ghost predicate Apart(lists: map<int, seq<int>>) {
    && (forall q :: q in lists ==> IsQueue(q) && Pids(lists[q]) && NoDup(lists[q]))
    && (forall q, r, p :: q in lists && r in lists && q != r && p in lists[q] ==> p !in lists[r])
  }

  ghost predicate Queued(lists: map<int, seq<int>>, p: int) {
    exists q :: q in lists && p in lists[q]
  }

  ghost predicate WellLinked(t: seq<QEntry>, lists: map<int, seq<int>>) {
    && |t| == NQENT && Apart(lists)
    && forall q :: q in lists ==> Linked(t, q, lists[q])
  }

  /** Only the key of x may have changed. */
  ghost predicate SameKeys(t: seq<QEntry>, t': seq<QEntry>, x: int) {
    |t| == |t'| == NQENT && forall p: Pid :: p != x ==> t'[p].key == t[p].key
  }

  /** The contents of every queue after p was unlinked. */
  function Unlink(lists: map<int, seq<int>>, p: int): (r: map<int, seq<int>>)
    ensures r.Keys == lists.Keys
  {
    map q | q in lists :: Without(lists[q], p)
  }

  function InsertAt<T(!new)>(s: seq<T>, k: int, p: T): (r: seq<T>)
    requires 0 <= k <= |s|
    ensures |r| == |s| + 1
    ensures forall x :: x in r <==> x == p || x in s
  {
    var r := s[..k] + [p] + s[k..];
    assert s == s[..k] + s[k..];
    r
  }

  /** Where insert puts a key: before the first smaller one. */
  function Place(t: seq<QEntry>, s: seq<int>, key: int): (k: int)
    requires |t| == NQENT && Pids(s)
    ensures 0 <= k <= |s|
    ensures forall i :: 0 <= i < k ==> t[s[i]].key >= key
    ensures k < |s| ==> t[s[k]].key < key
  {
    if s == [] || t[s[0]].key < key then 0 else 1 + Place(t, s[1..], key)
  }

  /** Where insertd puts a delay, and what is left of the delay there. */
  function DeltaPlace(t: seq<QEntry>, s: seq<int>, key: int): (r: (int, int))
    requires |t| == NQENT && Pids(s)
    ensures 0 <= r.0 <= |s|
    ensures r.0 < |s| ==> t[s[r.0]].key > r.1
  {
    if s == [] || t[s[0]].key > key then (0, key)
    else var r := DeltaPlace(t, s[1..], key - t[s[0]].key); (r.0 + 1, r.1)
  }

  /** The table after p was linked between prev and next with the given key. */
  function LinkIn(t: seq<QEntry>, prev: int, next: int, p: int, key: int): (r: seq<QEntry>)
    requires 0 <= prev < |t| && 0 <= next < |t| && 0 <= p < |t|
    ensures |r| == |t|
    ensures forall x :: 0 <= x < |t| && x != p ==> r[x].key == t[x].key
  {
    var t1 := t[p := QEntry(key, next, prev)];
    var t2 := t1[prev := t1[prev].(next := p)];
    t2[next := t2[next].(prev := p)]
  }

  /** The table after the node p was unlinked (its own links are left as they were). */
  function LinkOut(t: seq<QEntry>, p: int): (r: seq<QEntry>)
    requires 0 <= p < |t| && 0 <= t[p].prev < |t| && 0 <= t[p].next < |t|
    ensures |r| == |t|
  {
    var t1 := t[t[p].prev := t[t[p].prev].(next := t[p].next)];
    t1[t[p].next := t1[t[p].next].(prev := t[p].prev)]
  }

  lemma ChainInsert(t: seq<QEntry>, w: seq<int>, k: int, p: int, key: int)
    requires Slots(t, w) && Chain(t, w) && NoDup(w) && 0 <= k < |w| - 1
    requires 0 <= p < |t| && p !in w
    ensures Slots(t, InsertAt(w, k + 1, p))
    ensures Chain(LinkIn(t, w[k], w[k + 1], p, key), InsertAt(w, k + 1, p))
  {
    var t' := LinkIn(t, w[k], w[k + 1], p, key);
    var w' := InsertAt(w, k + 1, p);
    forall i | 0 <= i < |w'| - 1 ensures t'[w'[i]].next == w'[i + 1] {
      if i < k { assert w[i] != w[k] && w[i] != w[k + 1]; }
      if i > k + 1 { assert w[i - 1] != w[k]; }
    }
    forall i | 0 < i < |w'| ensures t'[w'[i]].prev == w'[i - 1] {
      if i <= k { assert w[i] != w[k + 1]; }
      if i > k + 2 { assert w[i - 1] != w[k] && w[i - 1] != w[k + 1]; }
    }
  }

  lemma ChainRemove(t: seq<QEntry>, w: seq<int>, k: int)
    requires Slots(t, w) && Chain(t, w) && NoDup(w) && 0 < k < |w| - 1
    ensures t[w[k]].prev == w[k - 1] && t[w[k]].next == w[k + 1]
    ensures Slots(t, w[..k] + w[k + 1..])
    ensures Chain(LinkOut(t, w[k]), w[..k] + w[k + 1..])
  {
    assert t[w[k]].prev == w[k - 1] && t[w[k - 1]].next == w[k] && t[w[k]].next == w[k + 1];
    var t' := LinkOut(t, w[k]);
    var w' := w[..k] + w[k + 1..];
    forall i | 0 <= i < |w'| - 1 ensures t'[w'[i]].next == w'[i + 1] {
      if i < k - 1 { assert w[i] != w[k - 1] && w[i] != w[k + 1]; }
      if i >= k { assert w[i + 1] != w[k - 1]; }
    }
    forall i | 0 < i < |w'| ensures t'[w'[i]].prev == w'[i - 1] {
      if i < k { assert w[i] != w[k + 1]; }
      if i > k { assert w[i + 1] != w[k - 1] && w[i + 1] != w[k + 1]; }
    }
  }

  /** A chain none of whose slots changed is still the same chain. */
  lemma ChainFrame(t: seq<QEntry>, t': seq<QEntry>, w: seq<int>)
    requires |t| == |t'| && Slots(t, w) && Chain(t, w)
    requires forall i :: 0 <= i < |w| ==> t'[w[i]].next == t[w[i]].next && t'[w[i]].prev == t[w[i]].prev
    ensures Chain(t', w)
  {}

  lemma WalkFacts(q: int, s: seq<int>)
    requires IsQueue(q) && Pids(s) && NoDup(s)
    ensures NoDup(Walk(q, s))
    ensures forall x :: x in Walk(q, s) <==> x == q || x == q + 1 || x in s
    ensures forall i :: 0 <= i < |Walk(q, s)| ==> 0 <= Walk(q, s)[i] < NQENT
  {
    forall x | x in s ensures x in Walk(q, s) {
      var i :| 0 <= i < |s| && s[i] == x;
      assert Walk(q, s)[i + 1] == x;
    }
    assert Walk(q, s)[0] == q && Walk(q, s)[|s| + 1] == q + 1;
  }

  /** The slots of two different queues never coincide. */
  lemma WalksApart(lists: map<int, seq<int>>, q: int, r: int)
    requires Apart(lists) && q in lists && r in lists && q != r
    ensures forall x :: x in Walk(q, lists[q]) ==> x !in Walk(r, lists[r])
  {
    WalkFacts(q, lists[q]);
    WalkFacts(r, lists[r]);
  }

  lemma InsertNoDup<T(!new)>(s: seq<T>, k: int, p: T)
    requires NoDup(s) && 0 <= k <= |s| && p !in s
    ensures NoDup(InsertAt(s, k, p))
  {}

  lemma ApartInsert(lists: map<int, seq<int>>, q: int, k: int, p: int)
    requires Apart(lists) && q in lists && 0 <= k <= |lists[q]| && 0 <= p < NPROC && !Queued(lists, p)
    ensures Apart(lists[q := InsertAt(lists[q], k, p)])
  {
    InsertNoDup(lists[q], k, p);
  }

  /** A change of the table confined to queue q and a process on no other queue leaves r alone. */
  lemma OtherQueue(t: seq<QEntry>, t': seq<QEntry>, lists: map<int, seq<int>>, q: int, r: int, p: int)
    requires WellLinked(t, lists) && |t'| == NQENT && q in lists && r in lists && q != r
    requires 0 <= p < NPROC && p !in lists[r]
    requires forall x :: 0 <= x < NQENT && x !in Walk(q, lists[q]) && x != p ==> t'[x] == t[x]
    ensures Linked(t', r, lists[r])
  {
    WalkFacts(r, lists[r]);
    WalksApart(lists, q, r);
    assert r in Walk(r, lists[r]) && r + 1 in Walk(r, lists[r]);
    assert Linked(t, r, lists[r]);
    ChainFrame(t, t', Walk(r, lists[r]));
  }

  lemma WalkInsert(q: int, s: seq<int>, k: int, p: int)
    requires 0 <= k <= |s| && Pids(s) && 0 <= p < NPROC
    ensures InsertAt(Walk(q, s), k + 1, p) == Walk(q, InsertAt(s, k, p))
    ensures Pids(InsertAt(s, k, p))
  {
    assert Walk(q, s)[..k + 1] == [q] + s[..k];
    assert Walk(q, s)[k + 1..] == s[k..] + [q + 1];
  }

  lemma LinkInSelf(t: seq<QEntry>, q: int, s: seq<int>, k: int, p: int, key: int)
    requires |t| == NQENT && IsQueue(q) && Pids(s) && NoDup(s) && Linked(t, q, s)
    requires 0 <= k <= |s| && 0 <= p < NPROC && p !in s
    ensures var w := Walk(q, s);
      && 0 <= w[k] < NQENT && 0 <= w[k + 1] < NQENT && t[w[k]].next == w[k + 1] && t[w[k + 1]].prev == w[k]
      && w[k] in w && w[k + 1] in w
      && Pids(InsertAt(s, k, p)) && Linked(LinkIn(t, w[k], w[k + 1], p, key), q, InsertAt(s, k, p))
  {
    var w := Walk(q, s);
    WalkFacts(q, s);
    assert w[k] in w && w[k + 1] in w;
    assert t[w[k]].next == w[k + 1] && t[w[k + 1]].prev == w[k];
    ChainInsert(t, w, k, p, key);
    WalkInsert(q, s, k, p);
  }

  /** Linking p in at position k of queue q inserts it there, and changes no other queue. */
  lemma LinkInList(t: seq<QEntry>, lists: map<int, seq<int>>, q: int, k: int, p: int, key: int)
    requires WellLinked(t, lists) && q in lists && 0 <= k <= |lists[q]|
    requires 0 <= p < NPROC && !Queued(lists, p)
    ensures var w := Walk(q, lists[q]);
      && 0 <= w[k] < NQENT && 0 <= w[k + 1] < NQENT && t[w[k]].next == w[k + 1] && t[w[k + 1]].prev == w[k]
      && WellLinked(LinkIn(t, w[k], w[k + 1], p, key), lists[q := InsertAt(lists[q], k, p)])
  {
    var w := Walk(q, lists[q]);
    LinkInSelf(t, q, lists[q], k, p, key);
    ApartInsert(lists, q, k, p);
    var t' := LinkIn(t, w[k], w[k + 1], p, key);
    forall r | r in lists && r != q ensures Linked(t', r, lists[r]) {
      OtherQueue(t, t', lists, q, r, p);
    }
  }

  lemma UnlinkOne(lists: map<int, seq<int>>, q: int, k: int)
    requires Apart(lists) && q in lists && 0 <= k < |lists[q]|
    ensures Unlink(lists, lists[q][k]) == lists[q := lists[q][..k] + lists[q][k + 1..]]
    ensures Apart(Unlink(lists, lists[q][k])) && !Queued(Unlink(lists, lists[q][k]), lists[q][k])
  {
    var p := lists[q][k];
    WithoutAt(lists[q], k);
    assert p in lists[q];
    forall r | r in lists && r != q ensures Without(lists[r], p) == lists[r] {
      assert p !in lists[r];
    }
  }

  /** Unlinking a member removes it from its queue, and changes no other queue. */
  lemma LinkOutList(t: seq<QEntry>, lists: map<int, seq<int>>, q: int, k: int)
    requires WellLinked(t, lists) && q in lists && 0 <= k < |lists[q]|
    ensures var p := lists[q][k];
      && 0 <= p < NPROC && 0 <= t[p].prev < NQENT && 0 <= t[p].next < NQENT
      && t[p].prev == Walk(q, lists[q])[k] && t[p].next == Walk(q, lists[q])[k + 2]
      && WellLinked(LinkOut(t, p), Unlink(lists, p)) && !Queued(Unlink(lists, p), p)
  {
    var s := lists[q];
    var p := s[k];
    var w := Walk(q, s);
    WalkFacts(q, s);
    assert Linked(t, q, s) && w[k + 1] == p;
    ChainRemove(t, w, k + 1);
    UnlinkOne(lists, q, k);
    var t' := LinkOut(t, p);
    assert w[..k + 1] + w[k + 2..] == Walk(q, Unlink(lists, p)[q]);
    assert Linked(t', q, Unlink(lists, p)[q]);
    assert w[k] in w && w[k + 2] in w && p in s;
    forall r | r in lists && r != q ensures Linked(t', r, Unlink(lists, p)[r]) {
      OtherQueue(t, t', lists, q, r, p);
    }
  }
}
