/** dns_bldq, the question-skipping loop of dns_geta, and dns_getrname, over byte buffers. */
module Dns {
  import opened DnsSpec

  // ---- dns_bldq ----

  /** Everything but the last label, and the last label. */
  function Init(labels: seq<Bytes>): (r: seq<Bytes>)
    requires labels != []
  {
    labels[..|labels| - 1]
  }

  function Last(labels: seq<Bytes>): (r: Bytes)
    requires labels != []
  {
    labels[|labels| - 1]
  }

  /** Adding one to a length byte wraps around. */
  function Inc(b: Byte): (r: Byte) {
    var n: int := b; (n + 1) % 256
  }

  /** What dns_bldq has written for the name so far, and where the length byte of its last label is. */
  ghost predicate Written(w: Bytes, name: Bytes, llptr: nat) {
    w == Frame(Split(name)) && llptr == |Frame(Init(Split(name)))|
      && llptr + 1 + |Last(Split(name))| == |w| == |name| + 1 && w[llptr] == |Last(Split(name))| % 256
  }

  lemma WrittenNothing()
    ensures Written([0], [], 0)
  {
    var none: seq<Bytes> := [];
    FrameLast(none, []);
    assert Split([]) == none + [[]] && Init(Split([])) == none;
  }

  lemma WrittenLength(name: Bytes)
    ensures |Frame(Split(name))| == |name| + 1
    ensures var l := Split(name);
      Frame(l) == Frame(Init(l)) + [|Last(l)| % 256] + Last(l)
  {
    FrameLength(Split(name));
    SplitDotted(name);
    FrameLast(Init(Split(name)), Last(Split(name)));
    assert Split(name) == Init(Split(name)) + [Last(Split(name))];
  }

  lemma WrittenDot(w: Bytes, name: Bytes, llptr: nat, name': Bytes)
    requires Written(w, name, llptr) && name' == name + [DOT]
    ensures Written(w + [0], name', |w|)
  {
    assert name'[..|name' | - 1] == name;
    assert Init(Split(name')) == Split(name) && Last(Split(name')) == [];
    WrittenLength(name');
  }

  lemma WrittenChar(w: Bytes, name: Bytes, llptr: nat, c: Byte, name': Bytes)
    requires Written(w, name, llptr) && c != DOT && name' == name + [c]
    ensures Written((w + [c])[llptr := Inc(w[llptr])], name', llptr)
  {
    var l, l' := Split(name), Split(name');
    assert name'[..|name' | - 1] == name;
    assert Init(l') == Init(l) && Last(l') == Last(l) + [c];
    WrittenLength(name);
    WrittenLength(name');
    NextLength(|Last(l)|);
    assert (w + [c])[llptr := Inc(w[llptr])] == Frame(l');
  }

  lemma NextLength(n: nat)
    ensures (n % 256 + 1) % 256 == (n + 1) % 256
  {}

  /** One character of the name: a dot starts a new label. */
  method PutChar(data: array<Byte>, pos: nat, llptr: nat, c: Byte, ghost name: Bytes, ghost name': Bytes)
    returns (pos': nat, llptr': nat)
    requires pos < data.Length && Written(data[..pos], name, llptr) && name' == name + [c]
    modifies data
    ensures pos' == pos + 1 && Written(data[..pos'], name', llptr') && data[pos'..] == old(data[pos'..])
  {
    ghost var w := data[..pos];
    if c != DOT {
      WrittenChar(w, name, llptr, c, name');
      data[pos] := c;
      data[llptr] := Inc(data[llptr]);
      pos', llptr' := pos + 1, llptr;
      assert data[..pos'] == (w + [c])[llptr := Inc(w[llptr])];
    } else {
      WrittenDot(w, name, llptr, name');
      llptr' := pos;
      pos' := pos + 1;
      data[llptr'] := 0;
      assert data[..pos'] == w + [0];
    }
  }

  /** The end of the name, the type and the class, in network byte order. */
  method PutTypeAndClass(data: array<Byte>, pos: nat)
    requires pos + 5 <= data.Length
    modifies data
    ensures data[..] == old(data[..pos]) + [0] + [0, 1] + [0, 1] + old(data[pos + 5..])
  {
    data[pos] := 0;
    data[pos + 1], data[pos + 2] := 0, 1;
    data[pos + 3], data[pos + 4] := 0, 1;
  }

  lemma AsksAtStart(data: Bytes, name: Bytes, rest: Bytes)
    requires data == Question(name) + rest
    ensures |name| + 5 < |data| && data[|name| + 1] == 0
    ensures Field(data, |name| + 2) == DNS_QT_A && Field(data, |name| + 4) == DNS_QC_IN
  {
    assert data[0..|Question(name)|] == Question(name);
    QuestionAsksForAddress(data, 0, name);
  }

  /** Build the question for a name in the data area; the result is the length of the packet. */
  method DnsBldq(dname: Bytes, data: array<Byte>) returns (r: int)
    requires data.Length >= DNSDATASIZ && (|dname| < DNSDATASIZ ==> |dname| + 6 <= data.Length)
    modifies data
    ensures r == SYSERR32 <==> |dname| >= DNSDATASIZ
    ensures |dname| < DNSDATASIZ ==> r == HEADERSIZE + |Question(dname)| && |Question(dname)| == |dname| + 6
    ensures |dname| < DNSDATASIZ ==> data[..] == Question(dname) + old(data[|dname| + 6..])
    ensures |dname| < DNSDATASIZ ==>
      data[|dname| + 1] == 0 && Field(data[..], |dname| + 2) == DNS_QT_A && Field(data[..], |dname| + 4) == DNS_QC_IN
  {
    var llptr: nat, pos, qlen, i := 0, 1, 1, 0;
    data[llptr] := 0;
    WrittenNothing();
    ghost var name: Bytes := [];
    assert data[..pos] == [0];
    while i < |dname|
      invariant 0 <= i <= |dname| && pos == qlen == i + 1 && (i == |dname| || qlen <= DNSDATASIZ) && pos <= data.Length
      invariant name == dname[..i] && Written(data[..pos], name, llptr) && data[pos..] == old(data[pos..])
      invariant i > 0 ==> i < DNSDATASIZ
    {
      if qlen >= DNSDATASIZ {
        return SYSERR32;
      }
      ghost var name' := dname[..i + 1];
      pos, llptr := PutChar(data, pos, llptr, dname[i], name, name');
      name := name';
      qlen := qlen + 1;
      i := i + 1;
    }
    QuestionLength(dname);
    PutTypeAndClass(data, pos);
    qlen := qlen + 5;
    assert name == dname;
    AsksAtStart(data[..], dname, old(data[|dname| + 6..]));
    return HEADERSIZE + qlen;
  }

  // ---- dns_geta: skipping the questions ----

  /** Where the reader is after n questions from `at` on, if they lie in the packet. */
  ghost predicate QuestionsOk(pkt: Bytes, at: nat, n: nat)
    decreases n
  {
    n > 0 ==> InPlaceOk(pkt, at) && QuestionsOk(pkt, at + InPlace(pkt, at) + 4, n - 1)
  }

  ghost function AfterQuestions(pkt: Bytes, at: nat, n: nat): (r: nat)
    requires QuestionsOk(pkt, at, n)
    decreases n
  {
    if n == 0 then at else AfterQuestions(pkt, at + InPlace(pkt, at) + 4, n - 1)
  }

  /** Questions one behind the other. */
  function Questions(names: seq<Bytes>): (r: Bytes) {
    if names == [] then [] else Question(names[0]) + Questions(names[1..])
  }

  lemma SkipsOne(pkt: Bytes, at: nat, name: Bytes, rest: Bytes, next: nat)
    requires StandsAt(pkt, at, Question(name) + rest) && GoodLabels(Split(name)) && next == at + |Question(name)|
    ensures InPlaceOk(pkt, at) && at + InPlace(pkt, at) + 4 == next && StandsAt(pkt, next, rest)
  {
    StandsParts(pkt, at, Question(name), rest);
    QuestionReadsBack(pkt, at, name);
  }

  lemma OneMoreQuestion(pkt: Bytes, at: nat, next: nat, n: nat, n': nat)
    requires InPlaceOk(pkt, at) && next == at + InPlace(pkt, at) + 4 && QuestionsOk(pkt, next, n) && n' == n + 1
    ensures QuestionsOk(pkt, at, n') && AfterQuestions(pkt, at, n') == AfterQuestions(pkt, next, n)
  {}

  /** The loop over the questions passes over exactly as many as there are. */
  lemma {:induction false} SkipsAll(pkt: Bytes, at: nat, names: seq<Bytes>)
    requires StandsAt(pkt, at, Questions(names)) && forall i :: 0 <= i < |names| ==> GoodLabels(Split(names[i]))
    ensures QuestionsOk(pkt, at, |names|) && AfterQuestions(pkt, at, |names|) == at + |Questions(names)|
    decreases |names|
  {
    if names != [] {
      var next, rest := at + |Question(names[0])|, names[1..];
      SkipsOne(pkt, at, names[0], Questions(rest), next);
      assert forall i :: 0 <= i < |rest| ==> rest[i] == names[i + 1];
      SkipsAll(pkt, next, rest);
      OneMoreQuestion(pkt, at, next, |rest|, |names|);
    }
  }

  method SkipQuestions(pkt: Bytes, data: nat, qcount: nat) returns (dptr: nat)
    requires QuestionsOk(pkt, data, qcount)
    ensures dptr == AfterQuestions(pkt, data, qcount)
  {
    dptr := data;
    var i := 0;
    while i < qcount
      invariant 0 <= i <= qcount && QuestionsOk(pkt, dptr, qcount - i)
      invariant AfterQuestions(pkt, dptr, qcount - i) == AfterQuestions(pkt, data, qcount)
    {
      dptr := SkipQuestion(pkt, dptr);
      i := i + 1;
    }
  }

  method SkipQuestion(pkt: Bytes, start: nat) returns (dptr: nat)
    requires InPlaceOk(pkt, start)
    ensures dptr == start + InPlace(pkt, start) + 4
  {
    dptr := start;
    var llen := pkt[dptr];
    while llen != 0
      invariant dptr >= start && InPlaceOk(pkt, dptr) && llen == pkt[dptr]
      invariant dptr + InPlace(pkt, dptr) == start + InPlace(pkt, start)
      decreases |pkt| - dptr
    {
      if llen > MAXLABEL {
        dptr := dptr + 2;
        break;
      }
      dptr := dptr + llen + 1;
      llen := pkt[dptr];
    }
    if llen == 0 {
      dptr := dptr + 1;
    }
    dptr := dptr + 2 + 2;
  }

  // ---- dns_getrname ----

  /** t is s with w written over it at d. */
  ghost predicate Wrote(t: Bytes, s: Bytes, d: nat, w: Bytes) {
    && |t| == |s| && d + |w| <= |s|
    && forall x {:trigger t[x]} :: 0 <= x < |s| ==> t[x] == if d <= x < d + |w| then w[x - d] else s[x]
  }

  /** t is s with w written over it at d, and the last of its bytes, or the one before d if it has
      none, then set to NUL. */
  ghost predicate WroteText(t: Bytes, s: Bytes, d: nat, w: Bytes) {
    && |t| == |s| && 1 <= d + |w| <= |s| && t[d + |w| - 1] == 0
    && forall x {:trigger t[x]} :: 0 <= x < |s| && x != d + |w| - 1 ==> t[x] == if d <= x < d + |w| then w[x - d] else s[x]
  }

  lemma WroteByte(t: Bytes, s: Bytes, d: nat, w: Bytes, dp: nat, c: Byte, w': Bytes)
    requires Wrote(t, s, d, w) && dp == d + |w| < |s| && w' == w + [c]
    ensures Wrote(t[dp := c], s, d, w')
  {}

  lemma WroteRest(t: Bytes, u: Bytes, s: Bytes, d: nat, w: Bytes, dp: nat, v: Bytes, wv: Bytes)
    requires Wrote(t, s, d, w) && dp == d + |w| && WroteText(u, t, dp, v) && wv == w + v
    ensures WroteText(u, s, d, wv)
  {}

  lemma WroteEnd(t: Bytes, s: Bytes, d: nat, w: Bytes, last: nat)
    requires Wrote(t, s, d, w) && last + 1 == d + |w|
    ensures WroteText(t[last := 0], s, d, w)
  {}

  method Put(dst: array<Byte>, dp: nat, c: Byte, ghost s: Bytes, ghost d: nat, ghost w: Bytes, ghost w': Bytes)
    returns (dp': nat)
    requires Wrote(dst[..], s, d, w) && dp == d + |w| < dst.Length && w' == w + [c]
    modifies dst
    ensures Wrote(dst[..], s, d, w') && dp' == d + |w'|
  {
    WroteByte(dst[..], s, d, w, dp, c, w');
    dst[dp] := c;
    dp' := dp + 1;
  }

  /** Copy a label and a dot behind the text w already written at d. */
  method CopyLabel(pkt: Bytes, src: nat, llen: nat, dst: array<Byte>, dp: nat, ghost s: Bytes, ghost d: nat, ghost w: Bytes)
    returns (dp': nat)
    requires src + llen <= |pkt| && Wrote(dst[..], s, d, w) && dp == d + |w| && d + |w| + llen + 1 <= dst.Length
    modifies dst
    ensures Wrote(dst[..], s, d, w + (pkt[src..src + llen] + [DOT]))
    ensures dp' == dp + llen + 1
  {
    ghost var v := w;
    var i := 0;
    dp' := dp;
    while i < llen
      invariant 0 <= i <= llen && v == w + pkt[src..src + i] && Wrote(dst[..], s, d, v) && dp' == d + |v|
    {
      ghost var v' := v + [pkt[src + i]];
      dp' := Put(dst, dp', pkt[src + i], s, d, v, v');
      v := v';
      i := i + 1;
    }
    ghost var v' := w + (pkt[src..src + llen] + [DOT]);
    dp' := Put(dst, dp', DOT, s, d, v, v');
  }

  lemma ExpandStep(pkt: Bytes, at: nat, hops: nat)
    requires NameOk(pkt, at, hops) && 1 <= pkt[at] <= MAXLABEL
    ensures var next := at + 1 + pkt[at];
      NameOk(pkt, next, hops)
      && Dotted(Expand(pkt, at, hops)) == pkt[at + 1..next] + [DOT] + Dotted(Expand(pkt, next, hops))
  {
    var next := at + 1 + pkt[at];
    var l: Bytes := pkt[at + 1..next];
    assert NameOk(pkt, next, hops);
    assert Expand(pkt, at, hops) == [l] + Expand(pkt, next, hops);
    assert ([l] + Expand(pkt, next, hops))[1..] == Expand(pkt, next, hops);
  }

  /** The reader has come to `at` in the name at son, and w is the text so far. */
  ghost predicate Reading(pkt: Bytes, son: nat, hops: nat, at: nat, w: Bytes) {
    && NameOk(pkt, son, hops) && NameOk(pkt, at, hops) && InPlaceOk(pkt, son) && InPlaceOk(pkt, at)
    && Dotted(Expand(pkt, son, hops)) == w + Dotted(Expand(pkt, at, hops))
    && at + InPlace(pkt, at) == son + InPlace(pkt, son)
  }

  lemma ReadingStart(pkt: Bytes, son: nat, hops: nat)
    requires NameOk(pkt, son, hops)
    ensures Reading(pkt, son, hops, son, [])
  {
    NameOkInPlace(pkt, son, hops);
  }

  lemma ReadingLabel(pkt: Bytes, son: nat, hops: nat, at: nat, w: Bytes, next: nat, l: Bytes)
    requires Reading(pkt, son, hops, at, w) && 1 <= pkt[at] <= MAXLABEL && next == at + 1 + pkt[at]
    requires next <= |pkt| && l == pkt[at + 1..next] + [DOT]
    ensures Reading(pkt, son, hops, next, w + l) && |w| + |l| <= |Dotted(Expand(pkt, son, hops))|
  {
    ExpandStep(pkt, at, hops);
    var rest := Dotted(Expand(pkt, next, hops));
    assert w + (l + rest) == w + l + rest;
  }

  lemma ReadingPointer(pkt: Bytes, son: nat, hops: nat, at: nat, w: Bytes)
    requires Reading(pkt, son, hops, at, w) && pkt[at] > MAXLABEL
    ensures at + 1 < |pkt| && hops > 0 && NameOk(pkt, Offset(pkt, at), hops - 1)
    ensures Dotted(Expand(pkt, son, hops)) == w + Dotted(Expand(pkt, Offset(pkt, at), hops - 1))
    ensures at + 2 == son + InPlace(pkt, son)
  {}

  lemma ReadingEnd(pkt: Bytes, son: nat, hops: nat, at: nat, w: Bytes)
    requires Reading(pkt, son, hops, at, w) && pkt[at] == 0
    ensures Dotted(Expand(pkt, son, hops)) == w && at + 1 == son + InPlace(pkt, son)
  {}

  lemma ReadingNext(pkt: Bytes, son: nat, hops: nat, at: nat, w: Bytes)
    requires Reading(pkt, son, hops, at, w) && 1 <= pkt[at] <= MAXLABEL
    ensures at + 1 + pkt[at] < |pkt|
  {
    assert NameOk(pkt, at + 1 + pkt[at], hops);
  }

  /** Copy a label behind the text w already written at d, and go on to the next length byte. */
  method AppendLabel(pkt: Bytes, ghost son: nat, ghost hops: nat, ghost at: nat, src: nat, llen: nat, dst: array<Byte>, dp: nat,
                     ghost s: Bytes, ghost d: nat, ghost w: Bytes)
    returns (ghost w': Bytes, src': nat, dp': nat)
    requires Reading(pkt, son, hops, at, w) && 1 <= llen <= MAXLABEL && llen == pkt[at] && src == at + 1
    requires d + |Dotted(Expand(pkt, son, hops))| <= dst.Length && dp == d + |w| && Wrote(dst[..], s, d, w)
    modifies dst
    ensures src' == src + llen && Reading(pkt, son, hops, src', w') && dp' == d + |w'| <= dst.Length && Wrote(dst[..], s, d, w')
  {
    ReadingNext(pkt, son, hops, at, w);
    ghost var l := pkt[src..src + llen] + [DOT];
    src' := src + llen;
    ReadingLabel(pkt, son, hops, at, w, src', l);
    w' := w + l;
    dp' := CopyLabel(pkt, src, llen, dst, dp, s, d, w);
  }

  /** Write the text of the name at son into memory, to the buffer at address d, and end it with a NUL in
      place of its last dot; the result is how many bytes the name occupies in place. The root name has no
      dot: its NUL goes in front of the buffer. The recursion is as deep as there are pointers. */
  method DnsGetRname(pkt: Bytes, son: nat, ghost hops: nat, dst: array<Byte>, d: nat) returns (n: nat)
    requires NameOk(pkt, son, hops)
    requires 1 <= d && d + |Dotted(Expand(pkt, son, hops))| <= dst.Length
    modifies dst
    ensures InPlaceOk(pkt, son) && n == InPlace(pkt, son)
    ensures WroteText(dst[..], old(dst[..]), d, Dotted(Expand(pkt, son, hops)))
    decreases hops
  {
    ghost var s, w, at, text := dst[..], [], son, Dotted(Expand(pkt, son, hops));
    ReadingStart(pkt, son, hops);
    var src, dp := son, d;
    var llen := pkt[src];
    src := src + 1;
    while llen != 0
      invariant Reading(pkt, son, hops, at, w) && src == at + 1 && llen == pkt[at]
      invariant dp == d + |w| <= dst.Length && Wrote(dst[..], s, d, w)
      decreases |pkt| - at
    {
      if llen > MAXLABEL {
        n := FollowPointer(pkt, son, hops, at, src - 1, dst, dp, s, d, w);
        return;
      }
      w, src, dp := AppendLabel(pkt, son, hops, at, src, llen, dst, dp, s, d, w);
      at := src;
      llen := pkt[src];
      src := src + 1;
    }
    ReadingEnd(pkt, son, hops, at, w);
    dp := dp - 1;
    WroteEnd(dst[..], s, d, w, dp);
    dst[dp] := 0;
    return src - son;
  }

  /** The remainder of the name is at the target of a pointer. */
  method FollowPointer(pkt: Bytes, son: nat, ghost hops: nat, ghost at: nat, src: nat, dst: array<Byte>, dp: nat,
                       ghost s: Bytes, ghost d: nat, ghost w: Bytes)
    returns (n: nat)
    requires Reading(pkt, son, hops, at, w) && pkt[at] > MAXLABEL && src == at && dp == d + |w| && Wrote(dst[..], s, d, w)
    requires 1 <= d && d + |Dotted(Expand(pkt, son, hops))| <= dst.Length
    modifies dst
    ensures n == InPlace(pkt, son)
    ensures WroteText(dst[..], s, d, Dotted(Expand(pkt, son, hops)))
    decreases hops, 0
  {
    ReadingPointer(pkt, son, hops, at, w);
    var offset := Offset(pkt, src);
    ghost var m, t := dst[..], Dotted(Expand(pkt, offset, hops - 1));
    var _ := DnsGetRname(pkt, offset, hops - 1, dst, dp);
    WroteRest(m, dst[..], s, d, w, dp, t, Dotted(Expand(pkt, son, hops)));
    return src + 2 - son;
  }

  lemma DottedEmptyIff(labels: seq<Bytes>)
    ensures Dotted(labels) == [] <==> labels == []
  {}

  /** dns_getrname keeps to its buffer, whatever the memory holds, if and only if the name has a label: for
      the root name it writes the byte in front of it. */
  lemma StaysInBufferIff(labels: seq<Bytes>, d: nat)
    requires d >= 1
    ensures labels != [] <==> forall s, t :: WroteText(t, s, d, Dotted(labels)) ==> t[..d] == s[..d]
  {
    DottedEmptyIff(labels);
    if labels == [] {
      var s: Bytes := seq(d, _ => 1);
      var t: Bytes := s[d - 1 := 0];
      assert WroteText(t, s, d, []);
      assert t[..d][d - 1] != s[..d][d - 1];
    }
  }
}
