/** Domain names, their wire form with compression pointers (sections 3.1 and 4.1.4 of RFC 1035), and
    how building and reading them relate. */
module DnsSpec {

  type Byte = x: int | 0 <= x < 256

  type Bytes = seq<Byte>

  const DOT: Byte := 46
  const DNSDATASIZ := 500
  const HEADERSIZE := 12  // sizeof(struct dnspkt) - DNSDATASIZ
  const MAXLABEL := 63
  const DNS_QT_A := 1
  const DNS_QC_IN := 1
  const SYSERR32 := 0xFFFF_FFFF  // SYSERR as an unsigned 32-bit value

  // ---- dotted text ----

  /** The labels of a dotted name. */
  function Split(name: Bytes): (r: seq<Bytes>)
    ensures |r| >= 1
  {
    if name == [] then [[]]
    else
      var r, c := Split(name[..|name| - 1]), name[|name| - 1];
      if c == DOT then r + [[]] else r[|r| - 1 := r[|r| - 1] + [c]]
  }

  /** Every label followed by a dot. */
  function Dotted(labels: seq<Bytes>): (r: Bytes) {
    if labels == [] then [] else labels[0] + [DOT] + Dotted(labels[1..])
  }

  /** The labels joined by dots. */
  function Text(labels: seq<Bytes>): (r: Bytes) {
    var d := Dotted(labels); if d == [] then [] else d[..|d| - 1]
  }

  lemma {:induction false} DottedConcat(a: seq<Bytes>, b: seq<Bytes>)
    ensures Dotted(a + b) == Dotted(a) + Dotted(b)
  {
    if a == [] {
      assert a + b == b;
    } else {
      assert (a + b)[1..] == a[1..] + b;
      DottedConcat(a[1..], b);
    }
  }

  lemma DottedLast(init: seq<Bytes>, l: Bytes)
    ensures Dotted(init + [l]) == Dotted(init) + l + [DOT]
  {
    DottedConcat(init, [l]);
    assert [l][1..] == [] && Dotted([l]) == l + [DOT] + Dotted([l][1..]);
  }

  /** Splitting a name and joining the labels again gives the name. */
  lemma {:induction false} SplitDotted(name: Bytes)
    ensures Dotted(Split(name)) == name + [DOT]
  {
    if name == [] {
      var none: seq<Bytes> := [];
      DottedLast(none, []);
      assert none + [[]] == Split(name);
    } else {
      var r, c := Split(name[..|name| - 1]), name[|name| - 1];
      SplitDotted(name[..|name| - 1]);
      assert name == name[..|name| - 1] + [c];
      if c == DOT {
        DottedLast(r, []);
      } else {
        var init := r[..|r| - 1];
        assert r == init + [r[|r| - 1]] && Split(name) == init + [r[|r| - 1] + [c]];
        DottedLast(init, r[|r| - 1]);
        DottedLast(init, r[|r| - 1] + [c]);
        DottedParts(Dotted(init), r[|r| - 1], c, name[..|name| - 1]);
      }
    }
  }

  lemma DottedParts(a: Bytes, l: Bytes, c: Byte, name: Bytes)
    requires a + l + [DOT] == name + [DOT]
    ensures a + (l + [c]) + [DOT] == name + [c] + [DOT]
  {
    assert name == (name + [DOT])[..|name|] == (a + l + [DOT])[..|name|] == a + l;
  }

  ghost predicate Dotless(labels: seq<Bytes>) { forall i :: 0 <= i < |labels| ==> DOT !in labels[i] }

  lemma {:induction false} SplitDotless(name: Bytes)
    ensures Dotless(Split(name))
  {
    if name != [] { SplitDotless(name[..|name| - 1]); }
  }

  /** A list with its last label one character shorter. */
  lemma DottedShorter(r: seq<Bytes>, name: Bytes)
    requires r != [] && Dotted(r) == name + [DOT] && name != []
    ensures var init, l := r[..|r| - 1], r[|r| - 1];
      if l == [] then init != [] && name[|name| - 1] == DOT && Dotted(init) == name
      else name[|name| - 1] == l[|l| - 1] && Dotted(init + [l[..|l| - 1]]) == name[..|name| - 1] + [DOT]
  {
    var init, l := r[..|r| - 1], r[|r| - 1];
    assert r == init + [l];
    DottedLast(init, l);
    assert name == (name + [DOT])[..|name|] == Dotted(init) + l;
    if l == [] {
      assert Dotted(init) == name;
      var front, m := init[..|init| - 1], init[|init| - 1];
      assert init == front + [m];
      DottedLast(front, m);
    } else {
      DottedLast(init, l[..|l| - 1]);
      assert name[..|name| - 1] == Dotted(init) + l[..|l| - 1];
    }
  }

  /** The labels of a name are the one list of labels without dots that gives the name when joined by dots. */
  lemma {:induction false} SplitIsIff(name: Bytes, r: seq<Bytes>)
    ensures Dotless(r) && Dotted(r) == name + [DOT] <==> r == Split(name)
    decreases |name|
  {
    SplitDotless(name);
    SplitDotted(name);
    if Dotless(r) && Dotted(r) == name + [DOT] {
      var init, l := r[..|r| - 1], r[|r| - 1];
      assert r == init + [l];
      if name == [] {
        DottedLast(init, l);
        assert |Dotted(init)| + |l| == 0;
      } else {
        DottedShorter(r, name);
        if l == [] {
          assert name == name[..|name| - 1] + [DOT];
          SplitIsIff(name[..|name| - 1], init);
        } else {
          var shorter, c := l[..|l| - 1], l[|l| - 1];
          assert c in l && forall x :: x in shorter ==> x in l;
          SplitIsIff(name[..|name| - 1], init + [shorter]);
          assert l == shorter + [c] && (init + [shorter])[|init| := l] == init + [l];
        }
      }
    }
  }

  // ---- wire form ----

  /** Each label after its length, which is kept in one byte. */
  function Frame(labels: seq<Bytes>): (r: Bytes) {
    if labels == [] then [] else [|labels[0]| % 256] + labels[0] + Frame(labels[1..])
  }

  /** A question: the name, type A and class IN. */
  function Question(name: Bytes): (r: Bytes) { Frame(Split(name)) + [0] + [0, 1] + [0, 1] }

  lemma {:induction false} FrameConcat(a: seq<Bytes>, b: seq<Bytes>)
    ensures Frame(a + b) == Frame(a) + Frame(b)
  {
    if a == [] {
      assert a + b == b;
    } else {
      assert (a + b)[1..] == a[1..] + b;
      FrameConcat(a[1..], b);
    }
  }

  lemma FrameLast(init: seq<Bytes>, l: Bytes)
    ensures Frame(init + [l]) == Frame(init) + [|l| % 256] + l
  {
    FrameConcat(init, [l]);
    assert [l][1..] == [] && Frame([l]) == [|l| % 256] + l + Frame([l][1..]);
  }

  lemma {:induction false} FrameLength(labels: seq<Bytes>)
    ensures |Frame(labels)| == |Dotted(labels)|
  {
    if labels != [] { FrameLength(labels[1..]); }
  }

  /** A question takes six bytes more than the name has characters. */
  lemma QuestionLength(name: Bytes)
    ensures |Question(name)| == |name| + 6
  {
    FrameLength(Split(name));
    SplitDotted(name);
  }

  /** The data area holds the question of a name dns_bldq accepts exactly when it has at most 494
      characters. */
  lemma QuestionFitsIff(name: Bytes)
    requires |name| < DNSDATASIZ
    ensures |Question(name)| <= DNSDATASIZ <==> |name| <= 494
  {
    QuestionLength(name);
  }

  // ---- reading names ----

  /** The 16-bit field at `at`, in network order. */
  function Field(pkt: Bytes, at: nat): (r: nat)
    requires at + 1 < |pkt|
  {
    var high: int := pkt[at]; high * 256 + pkt[at + 1]
  }

  /** The target of the two-byte pointer at `at`. */
  function Offset(pkt: Bytes, at: nat): (r: nat)
    requires at + 1 < |pkt|
  {
    Field(pkt, at) % 0x4000
  }

  /** From `at` on the name ends after following at most `hops` pointers, and every label and pointer of it
      lies in the packet. */
  predicate NameOk(pkt: Bytes, at: nat, hops: nat)
    decreases hops, |pkt| - at
  {
    && at < |pkt|
    && (pkt[at] == 0
        || (if pkt[at] <= MAXLABEL then NameOk(pkt, at + 1 + pkt[at], hops)
            else at + 1 < |pkt| && hops > 0 && NameOk(pkt, Offset(pkt, at), hops - 1)))
  }

  /** The labels of the name, pointers followed. */
  function Expand(pkt: Bytes, at: nat, hops: nat): (r: seq<Bytes>)
    requires NameOk(pkt, at, hops)
    decreases hops, |pkt| - at
  {
    if pkt[at] == 0 then []
    else if pkt[at] <= MAXLABEL then
      var next := at + 1 + pkt[at];
      assert NameOk(pkt, next, hops);
      [pkt[at + 1..next]] + Expand(pkt, next, hops)
    else Expand(pkt, Offset(pkt, at), hops - 1)
  }

  /** Every label before the end or the first pointer lies in the packet. */
  predicate InPlaceOk(pkt: Bytes, at: nat)
    decreases |pkt| - at
  {
    at < |pkt| && (1 <= pkt[at] <= MAXLABEL ==> InPlaceOk(pkt, at + 1 + pkt[at]))
  }

  /** How many bytes the name occupies in place: a pointer ends it. */
  function InPlace(pkt: Bytes, at: nat): (n: nat)
    requires InPlaceOk(pkt, at)
    decreases |pkt| - at
  {
    if pkt[at] == 0 then 1
    else if pkt[at] <= MAXLABEL then 1 + pkt[at] + InPlace(pkt, at + 1 + pkt[at])
    else 2
  }

  lemma {:induction false} NameOkInPlace(pkt: Bytes, at: nat, hops: nat)
    requires NameOk(pkt, at, hops)
    ensures InPlaceOk(pkt, at)
    decreases |pkt| - at
  {
    if 1 <= pkt[at] <= MAXLABEL { NameOkInPlace(pkt, at + 1 + pkt[at], hops); }
  }

  // ---- building and reading ----

  predicate GoodLabel(l: Bytes) { 1 <= |l| <= MAXLABEL }

  ghost predicate GoodLabels(labels: seq<Bytes>) { forall i :: 0 <= i < |labels| ==> GoodLabel(labels[i]) }

  /** The bytes w stand in the packet at `at`. */
  predicate StandsAt(pkt: Bytes, at: nat, w: Bytes) { at + |w| <= |pkt| && pkt[at..at + |w|] == w }

  lemma StandsParts(pkt: Bytes, at: nat, v: Bytes, w: Bytes)
    requires StandsAt(pkt, at, v + w)
    ensures StandsAt(pkt, at, v) && StandsAt(pkt, at + |v|, w)
  {
    assert pkt[at..at + |v|] == (v + w)[..|v|] && pkt[at + |v|..at + |v| + |w|] == (v + w)[|v|..];
  }

  /** Where a framed list of labels stands, its first label does, and after it the framed rest. */
  lemma FirstLabel(pkt: Bytes, at: nat, labels: seq<Bytes>)
    requires labels != [] && StandsAt(pkt, at, Frame(labels) + [0])
    ensures at < |pkt| && pkt[at] == |labels[0]| % 256
    ensures StandsAt(pkt, at + 1, labels[0]) && StandsAt(pkt, at + 1 + |labels[0]|, Frame(labels[1..]) + [0])
  {
    var l, rest := labels[0], Frame(labels[1..]) + [0];
    assert Frame(labels) + [0] == [|l| % 256] + (l + rest);
    StandsParts(pkt, at, [|l| % 256], l + rest);
    assert pkt[at] == pkt[at..at + 1][0];
    StandsParts(pkt, at + 1, l, rest);
  }

  lemma EndOfName(pkt: Bytes, at: nat)
    requires StandsAt(pkt, at, Frame([]) + [0])
    ensures at < |pkt| && pkt[at] == 0
  {
    assert |Frame([]) + [0]| == 1 && pkt[at] == pkt[at..at + 1][0];
  }

  /** A framed list of good labels reads back as that list, and occupies its bytes in place. */
  lemma {:induction false} FrameReads(pkt: Bytes, at: nat, hops: nat, labels: seq<Bytes>)
    requires GoodLabels(labels) && StandsAt(pkt, at, Frame(labels) + [0])
    ensures NameOk(pkt, at, hops) && Expand(pkt, at, hops) == labels
    ensures InPlaceOk(pkt, at) && InPlace(pkt, at) == |Frame(labels)| + 1
    decreases |labels|
  {
    if labels == [] {
      EndOfName(pkt, at);
    } else {
      FirstLabel(pkt, at, labels);
      assert GoodLabel(labels[0]);
      FrameReads(pkt, at + 1 + |labels[0]|, hops, labels[1..]);
    }
  }

  /** Whatever dns_bldq wrote for a name whose labels have 1 to 63 characters, the reader gives the
      name back, from wherever in a packet it stands. */
  lemma QuestionReadsBack(pkt: Bytes, at: nat, name: Bytes)
    requires GoodLabels(Split(name)) && StandsAt(pkt, at, Question(name))
    ensures NameOk(pkt, at, 0) && Text(Expand(pkt, at, 0)) == name
    ensures InPlaceOk(pkt, at) && at + InPlace(pkt, at) + 4 == at + |Question(name)|
  {
    QuestionParts(pkt, at, name);
    FrameReads(pkt, at, 0, Split(name));
    SplitDotted(name);
    assert (name + [DOT])[..|name|] == name;
  }

  lemma QuestionParts(pkt: Bytes, at: nat, name: Bytes)
    requires StandsAt(pkt, at, Question(name))
    ensures StandsAt(pkt, at, Frame(Split(name)) + [0]) && |Question(name)| == |Frame(Split(name))| + 5
  {
    var w := Frame(Split(name)) + [0];
    assert Question(name) == w + ([0, 1] + [0, 1]);
    StandsParts(pkt, at, w, [0, 1] + [0, 1]);
  }

  /** Behind the name and its terminating zero, where the reader leaves the name when its labels have 1 to 63
      characters, the question asks for an address, of class internet. */
  lemma QuestionAsksForAddress(pkt: Bytes, at: nat, name: Bytes)
    requires StandsAt(pkt, at, Question(name))
    ensures var e := at + |name| + 1;
      && e + 4 < |pkt| && pkt[e] == 0 && Field(pkt, e + 1) == DNS_QT_A && Field(pkt, e + 3) == DNS_QC_IN
      && (GoodLabels(Split(name)) ==> InPlaceOk(pkt, at) && at + InPlace(pkt, at) == e + 1)
  {
    var e := at + |name| + 1;
    QuestionLength(name);
    QuestionParts(pkt, at, name);
    forall j | 0 <= j < |Question(name)| ensures pkt[at + j] == Question(name)[j] {
      assert pkt[at..at + |Question(name)|][j] == pkt[at + j];
    }
    if GoodLabels(Split(name)) { FrameReads(pkt, at, 0, Split(name)); }
  }

  /** Where each label stands in the question, behind a byte with its length modulo 256. */
  lemma LabelStands(name: Bytes, i: nat)
    requires i < |Split(name)|
    ensures var q, l, pos := Question(name), Split(name)[i], |Dotted(Split(name)[..i])|;
      pos + 1 + |l| < |q| && q[pos] == |l| % 256 && q[pos + 1..pos + 1 + |l|] == l
  {
    var ls := Split(name);
    var before, l, after := Frame(ls[..i]), ls[i], Frame(ls[i + 1..]);
    assert ls == ls[..i] + ([l] + ls[i + 1..]);
    FrameConcat(ls[..i], [l] + ls[i + 1..]);
    assert ([l] + ls[i + 1..])[1..] == ls[i + 1..];
    FrameLength(ls[..i]);
    assert Question(name) == before + [|l| % 256] + l + after + [0] + [0, 1] + [0, 1];
  }

  /** Where labels and a pointer stand, the first label does, and after it the rest. */
  lemma FirstBeforePointer(pkt: Bytes, at: nat, labels: seq<Bytes>, w: Bytes)
    requires labels != [] && GoodLabel(labels[0]) && StandsAt(pkt, at, Frame(labels) + w) && w != []
    ensures var next := at + 1 + |labels[0]|;
      next < |pkt| && pkt[at] == |labels[0]| && pkt[at + 1..next] == labels[0] && StandsAt(pkt, next, Frame(labels[1..]) + w)
  {
    var l, rest := labels[0], Frame(labels[1..]) + w;
    assert Frame(labels) + w == [|l| % 256] + (l + rest);
    StandsParts(pkt, at, [|l| % 256], l + rest);
    assert pkt[at] == pkt[at..at + 1][0];
    StandsParts(pkt, at + 1, l, rest);
  }

  lemma JustPointer(pkt: Bytes, at: nat, hops: nat, high: Byte, low: Byte, target: nat)
    requires high > MAXLABEL && StandsAt(pkt, at, [high, low]) && target == high % 64 * 256 + low && NameOk(pkt, target, hops)
    ensures NameOk(pkt, at, hops + 1) && Expand(pkt, at, hops + 1) == Expand(pkt, target, hops)
    ensures InPlaceOk(pkt, at) && InPlace(pkt, at) == 2
  {
    assert pkt[at] == pkt[at..at + 2][0] == high && pkt[at + 1] == pkt[at..at + 2][1] == low;
    PointerTarget(high, low);
    assert Offset(pkt, at) == target;
  }

  /** A name with a label in front. */
  lemma OneMoreLabel(pkt: Bytes, at: nat, hops: nat, l: Bytes, next: nat)
    requires GoodLabel(l) && next == at + 1 + |l| < |pkt| && pkt[at] == |l| && pkt[at + 1..next] == l
    requires NameOk(pkt, next, hops) && InPlaceOk(pkt, next)
    ensures NameOk(pkt, at, hops) && Expand(pkt, at, hops) == [l] + Expand(pkt, next, hops)
    ensures InPlaceOk(pkt, at) && InPlace(pkt, at) == 1 + |l| + InPlace(pkt, next)
  {}

  /** A pointer, whose two top bits are not part of it, ends a name in place and goes on with the name at its
      target. */
  lemma {:induction false} PointerReads(pkt: Bytes, at: nat, hops: nat, labels: seq<Bytes>, high: Byte, low: Byte, target: nat)
    requires GoodLabels(labels) && high > MAXLABEL && StandsAt(pkt, at, Frame(labels) + [high, low])
    requires target == high % 64 * 256 + low && NameOk(pkt, target, hops)
    ensures NameOk(pkt, at, hops + 1) && Expand(pkt, at, hops + 1) == labels + Expand(pkt, target, hops)
    ensures InPlaceOk(pkt, at) && InPlace(pkt, at) == |Frame(labels)| + 2
    decreases |labels|
  {
    var pointer: Bytes, x := [high, low], Expand(pkt, target, hops);
    if labels == [] {
      assert Frame(labels) + pointer == pointer && labels + x == x;
      JustPointer(pkt, at, hops, high, low, target);
    } else {
      var next := at + 1 + |labels[0]|;
      RestGood(labels);
      FirstBeforePointer(pkt, at, labels, pointer);
      PointerReads(pkt, next, hops, labels[1..], high, low, target);
      OneMoreLabel(pkt, at, hops + 1, labels[0], next);
      assert labels + x == [labels[0]] + (labels[1..] + x);
    }
  }

  lemma PointerTarget(high: int, low: int)
    requires 0 <= high < 256 && 0 <= low < 256
    ensures (high * 256 + low) % 0x4000 == high % 64 * 256 + low
  {}

  lemma RestGood(labels: seq<Bytes>)
    requires labels != []
    ensures GoodLabels(labels) <==> GoodLabel(labels[0]) && GoodLabels(labels[1..])
  {
    assert forall i :: 0 <= i < |labels[1..]| ==> labels[1..][i] == labels[i + 1];
    assert forall i :: 0 < i < |labels| ==> labels[i] == labels[1..][i - 1];
  }

  /** Reading stops early at an empty label, or at a length that looks like a pointer. */
  lemma {:induction false} FrameStops(pkt: Bytes, at: nat, labels: seq<Bytes>)
    requires StandsAt(pkt, at, Frame(labels) + [0]) && forall i :: 0 <= i < |labels| ==> |labels[i]| < 256
    ensures InPlaceOk(pkt, at) && InPlace(pkt, at) <= |Frame(labels)| + 1
    ensures InPlace(pkt, at) == |Frame(labels)| + 1 <==> GoodLabels(labels)
    decreases |labels|
  {
    if labels == [] {
      EndOfName(pkt, at);
    } else {
      FirstLabel(pkt, at, labels);
      if GoodLabel(labels[0]) {
        FrameStops(pkt, at + 1 + |labels[0]|, labels[1..]);
        RestGood(labels);
      }
    }
  }

  /** For labels below 256 characters, the skipping loop of dns_geta passes over exactly the bytes
      dns_bldq wrote if and only if every label has 1 to 63 characters. */
  lemma SkipExactIff(pkt: Bytes, at: nat, name: Bytes)
    requires StandsAt(pkt, at, Question(name)) && forall i :: 0 <= i < |Split(name)| ==> |Split(name)[i]| < 256
    ensures InPlaceOk(pkt, at)
    ensures at + InPlace(pkt, at) + 4 == at + |Question(name)| <==> GoodLabels(Split(name))
  {
    QuestionParts(pkt, at, name);
    FrameStops(pkt, at, Split(name));
  }

  lemma {:induction false} ExpandIsGood(pkt: Bytes, at: nat, hops: nat)
    requires NameOk(pkt, at, hops)
    ensures GoodLabels(Expand(pkt, at, hops))
    decreases hops, |pkt| - at
  {
    if 1 <= pkt[at] <= MAXLABEL {
      ExpandIsGood(pkt, at + 1 + pkt[at], hops);
    } else if pkt[at] > MAXLABEL {
      ExpandIsGood(pkt, Offset(pkt, at), hops - 1);
    }
  }

  /** A compressed name reads the same as the same name written out in full. */
  lemma CompressionTransparent(pkt: Bytes, at: nat, hops: nat, full: Bytes)
    requires NameOk(pkt, at, hops) && full == Frame(Expand(pkt, at, hops)) + [0]
    ensures NameOk(full, 0, 0) && Expand(full, 0, 0) == Expand(pkt, at, hops)
  {
    ExpandIsGood(pkt, at, hops);
    assert full[0..0 + |full|] == full;
    FrameReads(full, 0, 0, Expand(pkt, at, hops));
  }

  // ---- which names end ----

  const ENDED := -1
  const OUTSIDE := -2

  /** Where the name at `at` goes on: the target of its pointer, unless it ends, or leaves the packet. */
  function Target(pkt: Bytes, at: nat): (r: int)
    ensures r >= 0 || r == ENDED || r == OUTSIDE
    decreases |pkt| - at
  {
    if at >= |pkt| then OUTSIDE
    else if pkt[at] == 0 then ENDED
    else if pkt[at] <= MAXLABEL then Target(pkt, at + 1 + pkt[at])
    else if at + 1 >= |pkt| then OUTSIDE
    else Offset(pkt, at)
  }

  /** Where the i-th pointer followed from `at` leads. */
  function Hop(pkt: Bytes, at: int, i: nat): (r: int)
    ensures at >= 0 ==> r >= 0 || r == ENDED || r == OUTSIDE
    decreases i
  {
    if i == 0 || at < 0 then at else Hop(pkt, Target(pkt, at), i - 1)
  }

  ghost predicate Ends(pkt: Bytes, at: nat) { exists hops :: NameOk(pkt, at, hops) }

  /** Some byte the reader looks at lies outside the packet. */
  ghost predicate Leaves(pkt: Bytes, at: nat) { exists i :: Hop(pkt, at, i) == OUTSIDE }

  /** The chain of pointers comes back to a name it has been at. */
  ghost predicate Circular(pkt: Bytes, at: nat) {
    exists i, j :: i < j && Hop(pkt, at, i) >= 0 && Hop(pkt, at, i) == Hop(pkt, at, j)
  }

  lemma {:induction false} NameOkTarget(pkt: Bytes, at: nat, hops: nat)
    ensures var t := Target(pkt, at);
      NameOk(pkt, at, hops) <==> t == ENDED || (t >= 0 && hops > 0 && NameOk(pkt, t, hops - 1))
    decreases |pkt| - at
  {
    if at < |pkt| && 1 <= pkt[at] <= MAXLABEL { NameOkTarget(pkt, at + 1 + pkt[at], hops); }
  }

  /** A name ends within so many pointers exactly when the chain has ended by then. */
  lemma {:induction false} NameOkHop(pkt: Bytes, at: nat, hops: nat)
    ensures NameOk(pkt, at, hops) <==> Hop(pkt, at, hops + 1) == ENDED
    decreases hops
  {
    NameOkTarget(pkt, at, hops);
    var t := Target(pkt, at);
    assert Hop(pkt, at, hops + 1) == Hop(pkt, t, hops);
    if t >= 0 && hops > 0 { NameOkHop(pkt, t, hops - 1); }
  }

  lemma {:induction false} HopAdd(pkt: Bytes, at: int, i: nat, j: nat)
    ensures Hop(pkt, at, i + j) == Hop(pkt, Hop(pkt, at, i), j)
    decreases i
  {
    if i > 0 && at >= 0 { HopAdd(pkt, Target(pkt, at), i - 1, j); }
  }

  /** Going round a cycle never gets below 0. */
  lemma {:induction false} CycleGoesOn(pkt: Bytes, x: int, period: nat, i: nat)
    requires x >= 0 && period > 0 && Hop(pkt, x, period) == x
    ensures Hop(pkt, x, i) >= 0
    decreases i
  {
    if i >= period {
      HopAdd(pkt, x, period, i - period);
      CycleGoesOn(pkt, x, period, i - period);
    } else if Hop(pkt, x, i) < 0 {
      HopAdd(pkt, x, i, period - i);
    }
  }

  /** More positions than there are bytes: two of them are the same. */
  lemma {:induction false} Pigeonhole(s: seq<int>, n: nat) returns (i: nat, j: nat)
    requires |s| > n && forall k :: 0 <= k < |s| ==> 0 <= s[k] < n
    ensures i < j < |s| && s[i] == s[j]
    decreases n
  {
    var last := |s| - 1;
    if k :| 0 <= k < last && s[k] == s[last] {
      i, j := k, last;
    } else {
      var t := seq(last, k requires 0 <= k < last => if s[k] == n - 1 then s[last] else s[k]);
      i, j := Pigeonhole(t, n - 1);
    }
  }

  lemma EndsOtherwise(pkt: Bytes, at: nat)
    requires !Leaves(pkt, at) && !Circular(pkt, at)
    ensures Ends(pkt, at)
  {
    var n := |pkt| + 1;
    if Hop(pkt, at, n) == ENDED {
      NameOkHop(pkt, at, |pkt|);
    } else {
      var s := seq(n, k requires 0 <= k < n => Hop(pkt, at, k));
      forall k | 0 <= k < n ensures 0 <= s[k] < |pkt| { HopInside(pkt, at, k, n); }
      var i, j := Pigeonhole(s, |pkt|);
    }
  }

  lemma HopInside(pkt: Bytes, at: nat, k: nat, n: nat)
    requires !Leaves(pkt, at) && k < n && Hop(pkt, at, n) != ENDED
    ensures 0 <= Hop(pkt, at, k) < |pkt|
  {
    HopNext(pkt, at, k);
    if Hop(pkt, at, k) < 0 { HopStays(pkt, at, k, n); }
  }

  lemma HopNext(pkt: Bytes, at: int, k: nat)
    ensures var x := Hop(pkt, at, k); Hop(pkt, at, k + 1) == if x < 0 then x else Target(pkt, x)
  {
    HopAdd(pkt, at, k, 1);
  }

  lemma HopStays(pkt: Bytes, at: int, k: nat, n: nat)
    requires Hop(pkt, at, k) < 0 && k <= n
    ensures Hop(pkt, at, n) == Hop(pkt, at, k)
  {
    HopAdd(pkt, at, k, n - k);
  }

  /** A name ends if and only if its chain of pointers is not circular and stays inside the packet. */
  lemma EndsIff(pkt: Bytes, at: nat)
    ensures Ends(pkt, at) <==> !Circular(pkt, at) && !Leaves(pkt, at)
  {
    if Ends(pkt, at) {
      var hops: nat :| NameOk(pkt, at, hops);
      NameOkHop(pkt, at, hops);
      if Leaves(pkt, at) {
        var i: nat :| Hop(pkt, at, i) == OUTSIDE;
        OneEnd(pkt, at, hops + 1, i);
      }
      if Circular(pkt, at) {
        var i: nat, j: nat :| i < j && Hop(pkt, at, i) >= 0 && Hop(pkt, at, i) == Hop(pkt, at, j);
        var x := Hop(pkt, at, i);
        HopAdd(pkt, at, i, j - i);
        CycleGoesOn(pkt, x, j - i, hops + 1);
        HopAdd(pkt, at, i, hops + 1);
        HopAdd(pkt, at, hops + 1, i);
      }
    } else if !Circular(pkt, at) && !Leaves(pkt, at) {
      EndsOtherwise(pkt, at);
    }
  }

  /** A chain has one end. */
  lemma OneEnd(pkt: Bytes, at: nat, i: nat, j: nat)
    requires Hop(pkt, at, i) < 0 && Hop(pkt, at, j) < 0
    ensures Hop(pkt, at, i) == Hop(pkt, at, j)
  {
    if i <= j { HopStays(pkt, at, i, j); } else { HopStays(pkt, at, j, i); }
  }

  /** The labels do not depend on how many pointers one is prepared to follow. */
  lemma {:induction false} ExpandSame(pkt: Bytes, at: nat, m: nat, n: nat)
    requires NameOk(pkt, at, m) && NameOk(pkt, at, n)
    ensures Expand(pkt, at, m) == Expand(pkt, at, n)
    decreases m, |pkt| - at
  {
    if 1 <= pkt[at] <= MAXLABEL {
      ExpandSame(pkt, at + 1 + pkt[at], m, n);
    } else if pkt[at] > MAXLABEL {
      ExpandSame(pkt, Offset(pkt, at), m - 1, n - 1);
    }
  }
}
