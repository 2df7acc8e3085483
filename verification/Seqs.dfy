/** Sequence facts shared by the queue, port and heap models. */
module Seqs {

  ghost predicate NoDup<T>(s: seq<T>) {
    forall i, j :: 0 <= i < j < |s| ==> s[i] != s[j]
  }

  /** s with its first occurrence of x removed; s itself when x does not occur. */
  function Without<T(==)>(s: seq<T>, x: T): (r: seq<T>)
    ensures x !in s ==> r == s
    ensures x in s ==> |r| == |s| - 1
    ensures forall y :: y in r ==> y in s
    ensures forall y :: y in s && y != x ==> y in r
  {
    if s == [] then [] else if s[0] == x then s[1..] else [s[0]] + Without(s[1..], x)
  }

  lemma {:induction false} WithoutAt<T>(s: seq<T>, i: int)
    requires NoDup(s) && 0 <= i < |s|
    ensures Without(s, s[i]) == s[..i] + s[i + 1..]
    ensures NoDup(Without(s, s[i])) && s[i] !in Without(s, s[i])
  {
    if i > 0 {
      WithoutAt(s[1..], i - 1);
      assert s[1..][i - 1] == s[i];
      assert s[..i] + s[i + 1..] == [s[0]] + (s[1..][..i - 1] + s[1..][i..]);
    }
  }

  lemma WithoutNoDup<T>(s: seq<T>, x: T)
    requires NoDup(s)
    ensures NoDup(Without(s, x)) && x !in Without(s, x)
  {
    if x in s {
      var i :| 0 <= i < |s| && s[i] == x;
      WithoutAt(s, i);
    }
  }

  /** The position of x in s. */
  ghost function Index<T>(s: seq<T>, x: T): (i: nat)
    requires x in s
    ensures i < |s| && s[i] == x
  {
    var i: nat :| i < |s| && s[i] == x; i
  }

  /** d places on from i, around a table of n. */
  function Around(i: int, d: int, n: int): (r: int) { if i + d < n then i + d else i + d - n }

  lemma AroundNext(i: int, d: int, n: int)
    requires 0 <= i < n && 0 <= d && d + 1 <= n
    ensures Around(Around(i, 1, n), d, n) == Around(i, d + 1, n)
  {}

  /** a is what is left of b when some of its members are taken out. */
  predicate Subsequence<T(==)>(a: seq<T>, b: seq<T>)
    decreases |b|
  {
    a == [] || (b != [] && ((a[0] == b[0] && Subsequence(a[1..], b[1..])) || Subsequence(a, b[1..])))
  }

  lemma {:induction false} SubRefl<T>(a: seq<T>)
    ensures Subsequence(a, a)
  {
    if a != [] { SubRefl(a[1..]); }
  }

  lemma {:induction false} SubTail<T>(a: seq<T>, b: seq<T>)
    requires Subsequence(a, b) && a != []
    ensures Subsequence(a[1..], b)
    decreases |b|
  {
    if !(a[0] == b[0] && Subsequence(a[1..], b[1..])) { SubTail(a, b[1..]); }
  }

  lemma {:induction false} SubTrans<T>(a: seq<T>, b: seq<T>, c: seq<T>)
    requires Subsequence(a, b) && Subsequence(b, c)
    ensures Subsequence(a, c)
    decreases |c|
  {
    if a == [] {
    } else if b[0] == c[0] && Subsequence(b[1..], c[1..]) {
      if a[0] == b[0] && Subsequence(a[1..], b[1..]) {
        SubTrans(a[1..], b[1..], c[1..]);
      } else {
        SubTrans(a, b[1..], c[1..]);
      }
    } else {
      SubTrans(a, b, c[1..]);
    }
  }

  lemma {:induction false} SubPrepend<T>(x: seq<T>, a: seq<T>, b: seq<T>)
    requires Subsequence(a, b)
    ensures Subsequence(x + a, x + b)
  {
    if x == [] {
      assert [] + a == a && [] + b == b;
    } else {
      SubPrepend(x[1..], a, b);
      assert (x + a)[1..] == x[1..] + a && (x + b)[1..] == x[1..] + b;
    }
  }

  lemma {:induction false} SubAppend<T>(a: seq<T>, b: seq<T>, x: seq<T>)
    requires Subsequence(a, b)
    ensures Subsequence(a + x, b + x)
    decreases |b|
  {
    if a == [] {
      SubEnd(b, x);
      assert [] + x == x;
    } else {
      assert (a + x)[1..] == a[1..] + x && (b + x)[1..] == b[1..] + x;
      if a[0] == b[0] && Subsequence(a[1..], b[1..]) {
        SubAppend(a[1..], b[1..], x);
      } else {
        SubAppend(a, b[1..], x);
      }
    }
  }

  lemma {:induction false} SubEnd<T>(b: seq<T>, x: seq<T>)
    ensures Subsequence(x, b + x)
  {
    if b == [] {
      SubRefl(x);
      assert [] + x == x;
    } else {
      SubEnd(b[1..], x);
      assert (b + x)[1..] == b[1..] + x;
    }
  }

  lemma {:induction false} SubWithout<T>(s: seq<T>, x: T)
    ensures Subsequence(Without(s, x), s)
  {
    if s == [] {
    } else if s[0] == x {
      SubEnd([s[0]], s[1..]);
      assert [s[0]] + s[1..] == s;
    } else {
      SubWithout(s[1..], x);
    }
  }

  lemma {:induction false} WithoutMembers<T>(s: seq<T>, x: T)
    requires x in s
    ensures multiset(s) == multiset(Without(s, x)) + multiset{x}
  {
    assert s == [s[0]] + s[1..];
    if s[0] != x { WithoutMembers(s[1..], x); }
  }

  lemma {:induction false} SubShorter<T>(a: seq<T>, b: seq<T>)
    requires Subsequence(a, b)
    ensures |a| <= |b| && (|a| == |b| ==> a == b)
    decreases |b|
  {
    if a != [] {
      if a[0] == b[0] && Subsequence(a[1..], b[1..]) { SubShorter(a[1..], b[1..]); } else { SubShorter(a, b[1..]); }
    }
  }
}
