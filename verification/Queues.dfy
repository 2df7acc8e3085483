/** The operations on the queue table (queue.c, getitem.c, insert.c, insertd.c, newqueue.c), each
    proved to do to the abstract queue contents what its name says and nothing to any other queue. */
module Queues {
  import opened Seqs
  import opened QueueTable

  lemma KeyFrame(t: seq<QEntry>, lists: map<int, seq<int>>, x: int, v: int)
    requires WellLinked(t, lists) && 0 <= x < NPROC
    ensures WellLinked(t[x := t[x].(key := v)], lists)
  {
    forall q | q in lists ensures Linked(t[x := t[x].(key := v)], q, lists[q]) {
      assert Linked(t, q, lists[q]);
      WalkFacts(q, lists[q]);
      ChainFrame(t, t[x := t[x].(key := v)], Walk(q, lists[q]));
    }
  }

  lemma FreeSlotFrame(t: seq<QEntry>, lists: map<int, seq<int>>, p: int, e: QEntry)
    requires WellLinked(t, lists) && 0 <= p < NPROC && !Queued(lists, p)
    ensures WellLinked(t[p := e], lists)
  {
    forall q | q in lists ensures Linked(t[p := e], q, lists[q]) {
      assert Linked(t, q, lists[q]);
      WalkFacts(q, lists[q]);
      assert p !in lists[q];
      ChainFrame(t, t[p := e], Walk(q, lists[q]));
    }
  }

  lemma NewQueueFrame(t: seq<QEntry>, lists: map<int, seq<int>>, q: int)
    requires WellLinked(t, lists) && IsQueue(q) && forall r :: r in lists ==> r < q
    ensures WellLinked(t[q := QEntry(MAXKEY, q + 1, EMPTY)][q + 1 := QEntry(MINKEY, EMPTY, q)], lists[q := []])
  {
    var t' := t[q := QEntry(MAXKEY, q + 1, EMPTY)][q + 1 := QEntry(MINKEY, EMPTY, q)];
    assert Walk(q, []) == [q, q + 1];
    forall r | r in lists && r != q ensures Linked(t', r, lists[r]) {
      assert Linked(t, r, lists[r]);
      WalkFacts(r, lists[r]);
      ChainFrame(t, t', Walk(r, lists[r]));
    }
  }

  lemma {:induction false} PlaceIs(t: seq<QEntry>, s: seq<int>, key: int, k: int)
    requires |t| == NQENT && Pids(s) && 0 <= k <= |s|
    requires forall i :: 0 <= i < k ==> t[s[i]].key >= key
    requires k < |s| ==> t[s[k]].key < key
    ensures Place(t, s, key) == k
  {
    if k > 0 {
      assert t[s[0]].key >= key;
      PlaceIs(t, s[1..], key, k - 1);
    }
  }

  /** insert's search finds its place in the queue, at the latest at the tail, if and only if the key is not
      the least there is: with that one it would run on past the tail. */
  lemma SearchStopsIff(t: seq<QEntry>, q: int, s: seq<int>, key: int)
    requires |t| == NQENT && IsQueue(q) && Pids(s) && Linked(t, q, s) && forall i :: 0 <= i < |s| ==> t[s[i]].key >= MINKEY
    ensures key > MINKEY <==> exists k :: 0 < k <= |s| + 1 && t[Walk(q, s)[k]].key < key
  {
    assert Walk(q, s)[|s| + 1] == q + 1;
    forall k | 0 < k <= |s| + 1 ensures t[Walk(q, s)[k]].key >= MINKEY {
      if k <= |s| { assert Walk(q, s)[k] == s[k - 1]; }
    }
  }

  class Table {
    const tab: array<QEntry>
    var nextqid: int                   // next queue id to hand out
    ghost var lists: map<int, seq<int>>  // contents of every queue handed out

    ghost predicate Valid()
      reads this, tab
    {
      && WellLinked(tab[..], lists)
      && NPROC <= nextqid <= NQENT && nextqid % 2 == 0
      && forall q :: q in lists <==> IsQueue(q) && q < nextqid
    }

    constructor ()
      ensures Valid() && fresh(tab) && nextqid == NPROC && lists == map[]
    {
      tab := new QEntry[NQENT](_ => QEntry(0, EMPTY, EMPTY));
      nextqid := NPROC;
      lists := map[];
    }

    method NewQueue() returns (q: int)
      requires Valid()
      modifies this, tab
      ensures Valid()
      ensures old(nextqid) >= NQENT ==> q == SYSERR && lists == old(lists) && nextqid == old(nextqid)
      ensures old(nextqid) < NQENT ==>
        q == old(nextqid) && nextqid == q + 2 && q !in old(lists) && lists == old(lists)[q := []]
    {
      q := nextqid;
      if q >= NQENT {
        return SYSERR;
      }
      nextqid := nextqid + 2;
      NewQueueFrame(tab[..], lists, q);
      ghost var t := tab[..];
      tab[q] := QEntry(MAXKEY, q + 1, EMPTY);
      tab[q + 1] := QEntry(MINKEY, EMPTY, q);
      assert tab[..] == t[q := QEntry(MAXKEY, q + 1, EMPTY)][q + 1 := QEntry(MINKEY, EMPTY, q)];
      lists := lists[q := []];
    }

    function FirstId(q: int): (n: int)
      requires 0 <= q < tab.Length
      reads tab
    {
      tab[q].next
    }

    /** isempty(q) answers whether the queue holds no process; firstid is its first process. */
    lemma FirstIdIs(q: int)
      requires Valid() && q in lists
      ensures FirstId(q) == if lists[q] == [] then q + 1 else lists[q][0]
      ensures FirstId(q) >= NPROC <==> lists[q] == []
    {
      assert Linked(tab[..], q, lists[q]);
      WalkFacts(q, lists[q]);
      assert tab[..][Walk(q, lists[q])[0]].next == Walk(q, lists[q])[1];
      assert lists[q] != [] ==> lists[q][0] in lists[q];
    }

    /** The writes that link pid in between two neighbours of queue q. */
    method Link(pid: int, prev: int, next: int, key: int, ghost q: int, ghost k: int)
      requires Valid() && q in lists && 0 <= pid < NPROC && !Queued(lists, pid) && 0 <= k <= |lists[q]|
      requires prev == Walk(q, lists[q])[k] && next == Walk(q, lists[q])[k + 1]
      modifies tab, `lists
      ensures Valid() && lists == old(lists)[q := InsertAt(old(lists)[q], k, pid)]
      ensures tab[pid].key == key
      ensures SameKeys(old(tab[..]), tab[..], pid)
    {
      ghost var t := tab[..];
      LinkInList(t, lists, q, k, pid, key);
      tab[pid] := QEntry(key, next, prev);
      tab[prev] := tab[prev].(next := pid);
      tab[next] := tab[next].(prev := pid);
      assert tab[..] == LinkIn(t, prev, next, pid, key);
      lists := lists[q := InsertAt(lists[q], k, pid)];
    }

    method Enqueue(pid: int, q: int, badpid: bool) returns (r: int)
      requires Valid()
      requires !IsBadQid(q) && !badpid ==> q in lists && 0 <= pid < NPROC && !Queued(lists, pid)
      modifies tab, `lists
      ensures Valid()
      ensures IsBadQid(q) || badpid ==> r == SYSERR && lists == old(lists)
      ensures !IsBadQid(q) && !badpid ==> r == pid && lists == old(lists)[q := old(lists)[q] + [pid]]
      ensures SameKeys(old(tab[..]), tab[..], pid)
    {
      if IsBadQid(q) || badpid {
        return SYSERR;
      }
      ghost var k := |lists[q]|;
      LinkInList(tab[..], lists, q, k, pid, tab[pid].key);
      var tail := q + 1;
      assert InsertAt(lists[q], k, pid) == lists[q] + [pid];
      Link(pid, tab[tail].prev, tail, tab[pid].key, q, k);
      return pid;
    }

    /** Unlink a process from whatever queue holds it. */
    method GetItem(pid: int) returns (r: int)
      requires Valid() && Queued(lists, pid)
      modifies tab, `lists
      ensures Valid() && r == pid && !Queued(lists, pid)
      ensures 0 <= pid < NPROC && lists == Unlink(old(lists), pid)
      ensures SameKeys(old(tab[..]), tab[..], EMPTY)
    {
      ghost var t := tab[..];
      ghost var q :| q in lists && pid in lists[q];
      ghost var k := Index(lists[q], pid);
      LinkOutList(t, lists, q, k);
      var next, prev := tab[pid].next, tab[pid].prev;
      tab[prev] := tab[prev].(next := next);
      tab[next] := tab[next].(prev := prev);
      assert tab[..] == LinkOut(t, pid);
      lists := Unlink(lists, pid);
      return pid;
    }

    method GetFirst(q: int) returns (r: int)
      requires Valid() && q in lists
      modifies tab, `lists
      ensures Valid()
      ensures old(lists)[q] == [] ==> r == EMPTY && lists == old(lists)
      ensures old(lists)[q] != [] ==>
        r == old(lists)[q][0] && lists == old(lists)[q := old(lists)[q][1..]] && !Queued(lists, r)
      ensures SameKeys(old(tab[..]), tab[..], EMPTY)
    {
      FirstIdIs(q);
      if FirstId(q) >= NPROC {
        return EMPTY;
      }
      assert lists[q][0] in lists[q];
      UnlinkOne(lists, q, 0);
      r := GetItem(FirstId(q));
    }

    method GetLast(q: int) returns (r: int)
      requires Valid() && q in lists
      modifies tab, `lists
      ensures Valid()
      ensures old(lists)[q] == [] ==> r == EMPTY && lists == old(lists)
      ensures old(lists)[q] != [] ==> var n := |old(lists)[q]| - 1;
        r == old(lists)[q][n] && lists == old(lists)[q := old(lists)[q][..n]] && !Queued(lists, r)
    {
      FirstIdIs(q);
      if FirstId(q) >= NPROC {
        return EMPTY;
      }
      ghost var n := |lists[q]| - 1;
      LinkOutList(tab[..], lists, q, n);
      assert Linked(tab[..], q, lists[q]);
      assert tab[..][Walk(q, lists[q])[n + 2]].prev == Walk(q, lists[q])[n + 1];
      assert lists[q][n] in lists[q];
      UnlinkOne(lists, q, n);
      assert lists[q][..n] + lists[q][n + 1..] == lists[q][..n];
      r := GetItem(tab[q + 1].prev);
    }

    method Dequeue(q: int) returns (r: int)
      requires Valid() && (IsBadQid(q) || q in lists)
      modifies tab, `lists
      ensures Valid()
      ensures IsBadQid(q) ==> r == SYSERR && lists == old(lists)
      ensures !IsBadQid(q) && old(lists)[q] == [] ==> r == EMPTY && lists == old(lists)
      ensures !IsBadQid(q) && old(lists)[q] != [] ==>
        && r == old(lists)[q][0] && lists == old(lists)[q := old(lists)[q][1..]] && !Queued(lists, r)
        && tab[r].prev == EMPTY && tab[r].next == EMPTY
      ensures SameKeys(old(tab[..]), tab[..], EMPTY)
    {
      if IsBadQid(q) {
        return SYSERR;
      }
      FirstIdIs(q);
      if FirstId(q) >= NPROC {
        return EMPTY;
      }
      assert lists[q][0] in lists[q];
      r := GetFirst(q);
      ghost var t := tab[..];
      FreeSlotFrame(t, lists, r, t[r].(prev := EMPTY, next := EMPTY));
      tab[r] := tab[r].(prev := EMPTY);
      tab[r] := tab[r].(next := EMPTY);
      assert tab[..] == t[r := t[r].(prev := EMPTY, next := EMPTY)];
    }

    /** Adjust the key of one process. */
    method AddKey(pid: int, d: int)
      requires Valid() && 0 <= pid < NPROC
      modifies tab
      ensures Valid() && tab[pid].key == old(tab[pid].key) + d
      ensures forall p :: 0 <= p < NQENT ==> tab[p].next == old(tab[p].next)
      ensures SameKeys(old(tab[..]), tab[..], pid)
    {
      ghost var t := tab[..];
      KeyFrame(t, lists, pid, t[pid].key + d);
      tab[pid] := tab[pid].(key := tab[pid].key + d);
      assert tab[..] == t[pid := t[pid].(key := t[pid].key + d)];
    }

    /** Insert in descending key order, after every equal key; the tail's key ends the search. */
    method Insert(pid: int, q: int, key: int, badpid: bool) returns (r: int)
      requires Valid()
      requires !IsBadQid(q) && !badpid ==> q in lists && 0 <= pid < NPROC && !Queued(lists, pid) && key > MINKEY
      modifies tab, `lists
      ensures Valid()
      ensures IsBadQid(q) || badpid ==> r == SYSERR && lists == old(lists) && tab[..] == old(tab[..])
      ensures !IsBadQid(q) && !badpid ==>
        && r == OK && tab[pid].key == key
        && lists == old(lists)[q := InsertAt(old(lists)[q], Place(old(tab[..]), old(lists)[q], key), pid)]
      ensures SameKeys(old(tab[..]), tab[..], pid)
    {
      if IsBadQid(q) || badpid {
        return SYSERR;
      }
      ghost var t, s := tab[..], lists[q];
      ghost var w := Walk(q, s);
      WalkFacts(q, s);
      assert Linked(t, q, s);
      assert t[w[0]].next == w[1];
      var curr := tab[q].next;
      ghost var k := 0;
      while tab[curr].key >= key
        invariant 0 <= k <= |s| && curr == w[k + 1] && 0 <= curr < NQENT
        invariant forall i :: 0 <= i < k ==> t[s[i]].key >= key
        decreases |s| - k
      {
        assert t[w[k + 1]].next == w[k + 2];
        curr := tab[curr].next;
        k := k + 1;
      }
      PlaceIs(t, s, key, k);
      LinkInList(t, lists, q, k, pid, key);
      var prev := tab[curr].prev;
      Link(pid, prev, curr, key, q, k);
      return OK;
    }

    /** insertd's search: the neighbours between which the delay belongs, and what is left of it. */
    method SeekDelta(q: int, delay: int) returns (prev: int, next: int, key: int, ghost k: int)
      requires Valid() && q in lists
      ensures 0 <= k <= |lists[q]| && prev == Walk(q, lists[q])[k] && next == Walk(q, lists[q])[k + 1]
      ensures DeltaPlace(tab[..], lists[q], delay) == (k, key)
    {
      ghost var t, s := tab[..], lists[q];
      ghost var w := Walk(q, s);
      WalkFacts(q, s);
      assert Linked(t, q, s);
      assert t[w[0]].next == w[1];
      key := delay;
      prev := q;
      next := tab[q].next;
      k := 0;
      while next != q + 1 && tab[next].key <= key
        invariant 0 <= k <= |s| && prev == w[k] && next == w[k + 1] && 0 <= next < NQENT
        invariant DeltaPlace(t, s, delay) == (k + DeltaPlace(t, s[k..], key).0, DeltaPlace(t, s[k..], key).1)
        decreases |s| - k
      {
        assert k < |s| && s[k..][0] == s[k] && s[k..][1..] == s[k + 1..];
        assert t[w[k + 1]].next == w[k + 2];
        key := key - tab[next].key;
        prev := next;
        next := tab[next].next;
        k := k + 1;
      }
      assert next != q + 1 ==> s[k..][0] == s[k] == next;
    }

    /** Insert in a delta list: the key is reduced by every key passed, and the next key by the rest. */
    method InsertD(pid: int, q: int, delay: int, badpid: bool) returns (r: int)
      requires Valid()
      requires !IsBadQid(q) && !badpid ==> q in lists && 0 <= pid < NPROC && !Queued(lists, pid)
      modifies tab, `lists
      ensures Valid()
      ensures IsBadQid(q) || badpid ==> r == SYSERR && lists == old(lists) && tab[..] == old(tab[..])
      ensures !IsBadQid(q) && !badpid ==>
        var s, at := old(lists)[q], DeltaPlace(old(tab[..]), old(lists)[q], delay);
        && r == OK && tab[pid].key == at.1 && lists == old(lists)[q := InsertAt(s, at.0, pid)]
        && (at.0 < |s| ==> tab[s[at.0]].key == old(tab[..])[s[at.0]].key - at.1)
        && (forall p: Pid :: p != pid && (at.0 < |s| ==> p != s[at.0]) ==> tab[p].key == old(tab[..])[p].key)
    {
      if IsBadQid(q) || badpid {
        return SYSERR;
      }
      WalkFacts(q, lists[q]);
      var prev, next, key, k := SeekDelta(q, delay);
      assert k < |lists[q]| ==> next == lists[q][k] && next in lists[q];
      Link(pid, prev, next, key, q, k);
      if next != q + 1 {
        AddKey(next, -key);
      }
      return OK;
    }

    /** unsleep's first half: pass the key of pid on to its successor, if that is a process. */
    method PassKeyOn(pid: int)
      requires Valid() && 0 <= pid < NPROC
      requires 0 <= tab[pid].next < NQENT
      modifies tab
      ensures Valid() && forall p :: 0 <= p < NQENT ==> tab[p].next == old(tab[p].next)
      ensures var n := old(tab[pid].next);
        && (n < NPROC ==> tab[n].key == old(tab[n].key) + old(tab[pid].key))
        && SameKeys(old(tab[..]), tab[..], n)
    {
      var n := tab[pid].next;
      if n < NPROC {
        AddKey(n, tab[pid].key);
      }
    }

    /** The successor of a member in the table is its successor in the queue, or the tail. */
    lemma NextIs(q: int, k: int)
      requires Valid() && q in lists && 0 <= k < |lists[q]|
      ensures 0 <= lists[q][k] < NPROC
      ensures tab[lists[q][k]].next == if k + 1 < |lists[q]| then lists[q][k + 1] else q + 1
    {
      assert Linked(tab[..], q, lists[q]);
      WalkFacts(q, lists[q]);
      assert tab[..][Walk(q, lists[q])[k + 1]].next == Walk(q, lists[q])[k + 2];
    }
  }
}
