/** The TFTP reader as a machine over what it sends and receives, against any network that loses,
    repeats and reorders packets and any server that follows sections 2 and 6 of RFC 1350: what a
    successful transfer delivers, and for which files. */
module TftpSpec {

  type Byte = x: int | 0 <= x < 256

  type Bytes = seq<Byte>

  const SYSERR := -1
  const TIMEOUT := -3
  const TFTP_RRQ := 1
  const TFTP_DATA := 3
  const TFTP_ACK := 4
  const TFTP_ERROR := 5
  const MAXRETRIES := 3
  const MAXDATA := 512
  const NUMBERS := 65536  // block numbers have 16 bits

  datatype Option<T> = None | Some(value: T)

  datatype Msg = Rrq(name: Bytes) | Ack(block: int)

  /** What one receive yields. */
  datatype Event = Timeout | SockErr | Packet(bytes: Bytes)

  datatype Act = Sent(m: Msg) | SendFailed | Received(e: Event)

  datatype Mode = ToSend | Waiting | Final | Stopped(result: int)

  /** data is everything consumed so far, in blocks pieces; tries counts the timeouts of this step. */
  datatype Client = Client(expected: int, out: Msg, blocks: nat, data: Bytes, tries: nat, mode: Mode)

  /** The 16-bit field at byte i, in network order. */
  function Field(p: Bytes, i: nat): (r: int)
    requires i + 1 < |p|
  {
    var high: int := p[i]; high * 256 + p[i + 1]
  }

  predicate IsData(p: Bytes) { |p| >= 4 && Field(p, 0) == TFTP_DATA }

  predicate IsError(p: Bytes) { |p| >= 4 && Field(p, 0) == TFTP_ERROR }

  /** The data block waited for has come: the next message acknowledges it, and a short block is the last. */
  function Consume(c: Client, p: Bytes): (r: Client)
    requires IsData(p)
  {
    var b := p[4..];
    if |b| < MAXDATA then Client(c.expected, Ack(c.expected), c.blocks + 1, c.data + b, 0, Final)
    else Client((c.expected + 1) % NUMBERS, Ack(c.expected), c.blocks + 1, c.data + b, 0, ToSend)
  }

  function TimedOut(c: Client): (r: Client) {
    c.(tries := c.tries + 1, mode := if c.tries + 1 >= MAXRETRIES then Stopped(SYSERR) else ToSend)
  }

  /** One send or receive of the reader; None if it is not what the reader does next. */
  function Next(c: Client, a: Act): (r: Option<Client>) {
    match c.mode
    case ToSend =>
      if a == Sent(c.out) then Some(c.(mode := Waiting))
      else if a == SendFailed then Some(c.(mode := Stopped(SYSERR)))
      else None
    case Waiting =>
      if a == Received(Timeout) then Some(TimedOut(c))
      else if a == Received(SockErr) then Some(c.(mode := Stopped(SYSERR)))
      else if !a.Received? then None
      else if IsError(a.e.bytes) then Some(c.(mode := Stopped(SYSERR)))
      else if IsData(a.e.bytes) && Field(a.e.bytes, 2) == c.expected then Some(Consume(c, a.e.bytes))
      else Some(c)
    case Final =>
      if a == Sent(c.out) then Some(c.(mode := Stopped(|c.data|)))
      else if a == SendFailed then Some(c.(mode := Stopped(SYSERR)))
      else None
    case Stopped(_) => None
  }

  function Start(name: Bytes): (c: Client) { Client(1, Rrq(name), 0, [], 0, ToSend) }

  function Run(c: Client, log: seq<Act>): (r: Option<Client>) {
    if log == [] then Some(c)
    else
      var d := Run(c, log[..|log| - 1]);
      if d.None? then None else Next(d.value, log[|log| - 1])
  }

  lemma RunSnoc(c: Client, log: seq<Act>, a: Act, d: Client)
    requires Run(c, log) == Some(d)
    ensures Run(c, log + [a]) == Next(d, a)
  {
    assert (log + [a])[..|log|] == log;
  }

  // ---- messages on the wire (section 5 of RFC 1350) ----

  const OCTET: Bytes := [111, 99, 116, 101, 116]

  /** The two bytes of a 16-bit number, in network order. */
  function Word(n: int): (w: Bytes)
    ensures |w| == 2
  {
    [n / 256 % 256, n % 256]
  }

  function Wire(m: Msg): (b: Bytes) {
    match m
    case Rrq(name) => Word(TFTP_RRQ) + name + [0] + OCTET + [0]
    case Ack(n) => Word(TFTP_ACK) + Word(n)
  }

  /** The characters before the first NUL. */
  function UpToNul(b: Bytes): (r: Bytes) { if b == [] || b[0] == 0 then [] else [b[0]] + UpToNul(b[1..]) }

  /** What a server reads: a request in octet mode, or an acknowledgement. */
  function Parse(b: Bytes): (r: Option<Msg>) {
    if |b| < 4 then None
    else if Field(b, 0) == TFTP_ACK && |b| == 4 then Some(Ack(Field(b, 2)))
    else
      var name := UpToNul(b[2..]);
      if Field(b, 0) == TFTP_RRQ && b[2..] == name + [0] + OCTET + [0] then Some(Rrq(name)) else None
  }

  lemma {:induction false} NameBeforeNul(name: Bytes, rest: Bytes)
    requires 0 !in name
    ensures UpToNul(name + [0] + rest) == name
  {
    if name != [] {
      assert (name + [0] + rest)[1..] == name[1..] + [0] + rest && name[0] in name;
      NameBeforeNul(name[1..], rest);
    } else {
      assert name + [0] + rest == [0] + rest;
    }
  }

  /** A server reads what the reader meant to say. */
  lemma WireReadsBack(m: Msg)
    requires if m.Rrq? then 0 !in m.name else 0 <= m.block < NUMBERS
    ensures Parse(Wire(m)) == Some(m)
  {
    if m.Rrq? {
      var b := Wire(m);
      assert b[2..] == m.name + [0] + (OCTET + [0]);
      NameBeforeNul(m.name, OCTET + [0]);
      assert b[0] == 0 && b[1] == 1;
    } else {
      var b := Wire(m);
      assert b[0] == 0 && b[1] == 4 && b[2] == m.block / 256 % 256 && b[3] == m.block % 256;
    }
  }

  // ---- what a log says by itself ----

  predicate IsBlock(a: Act, number: int) {
    a.Received? && a.e.Packet? && IsData(a.e.bytes) && Field(a.e.bytes, 2) == number
  }

  /** How many blocks have come, each with the number next in turn. */
  function Arrived(log: seq<Act>): (n: nat) {
    if log == [] then 0
    else var n := Arrived(log[..|log| - 1]); if IsBlock(log[|log| - 1], (n + 1) % NUMBERS) then n + 1 else n
  }

  /** How many receives have timed out since the last of them. */
  function Late(log: seq<Act>): (n: nat) {
    if log == [] then 0
    else
      var past, a := log[..|log| - 1], log[|log| - 1];
      if Arrived(log) > Arrived(past) then 0 else Late(past) + (if a == Received(Timeout) then 1 else 0)
  }

  /** The log ends with what makes the reader give up: a failed send or receive, an error packet, or a third
      timeout in waiting for the same block. */
  predicate Fatal(log: seq<Act>) {
    log != [] && var a := log[|log| - 1];
    || a == SendFailed || a == Received(SockErr)
    || (a.Received? && a.e.Packet? && |a.e.bytes| >= 4 && Field(a.e.bytes, 0) == 5)
    || (a == Received(Timeout) && Late(log) >= 3)
  }

  /** The reader's counters are those of the log. */
  ghost predicate Tallies(c: Client, log: seq<Act>) {
    && c.blocks == Arrived(log) && (!c.mode.Stopped? ==> c.tries == Late(log) < MAXRETRIES)
    && (c.mode == ToSend || c.mode == Waiting ==> c.expected == (c.blocks + 1) % NUMBERS)
    && (c.mode == Stopped(SYSERR) <==> Fatal(log))
  }

  lemma NextNumber(k: nat)
    ensures (k % NUMBERS + 1) % NUMBERS == (k + 1) % NUMBERS
  {}

  lemma LateNext(log: seq<Act>, a: Act, log': seq<Act>)
    requires log' == log + [a]
    ensures Arrived(log') == if IsBlock(a, (Arrived(log) + 1) % NUMBERS) then Arrived(log) + 1 else Arrived(log)
    ensures Late(log') == if Arrived(log') > Arrived(log) then 0 else Late(log) + (if a == Received(Timeout) then 1 else 0)
    ensures Fatal(log') <==>
      || a == SendFailed || a == Received(SockErr) || (a.Received? && a.e.Packet? && IsError(a.e.bytes))
      || (a == Received(Timeout) && Late(log') >= 3)
  {
    assert log'[..|log' | - 1] == log && log'[|log' | - 1] == a;
  }

  lemma TalliesNext(c: Client, log: seq<Act>, a: Act, log': seq<Act>)
    requires Tallies(c, log) && !Fatal(log) && Next(c, a).Some? && log' == log + [a] && (c.mode == Final ==> c.tries == 0)
    ensures Tallies(Next(c, a).value, log')
  {
    LateNext(log, a, log');
    NextNumber(c.blocks + 1);
  }

  lemma {:induction false} TalliesRun(name: Bytes, log: seq<Act>)
    requires Run(Start(name), log).Some?
    ensures var c := Run(Start(name), log).value; Tallies(c, log) && (c.mode == Final ==> c.tries == 0)
    decreases |log|
  {
    if log != [] {
      var past, a := log[..|log| - 1], log[|log| - 1];
      TalliesRun(name, past);
      assert log == past + [a];
      TalliesNext(Run(Start(name), past).value, past, a, log);
    }
  }

  /** The reader gives up if and only if a send or a receive fails, an error packet comes, or three receives
      time out in waiting for one block. */
  lemma GivesUpIff(name: Bytes, log: seq<Act>)
    requires Run(Start(name), log).Some?
    ensures Run(Start(name), log).value.mode == Stopped(SYSERR) <==> Fatal(log)
  {
    TalliesRun(name, log);
  }

  /** The message due after m blocks: the request, or the acknowledgement of the last block. */
  function OutAt(name: Bytes, m: nat): (r: Msg) { if m == 0 then Rrq(name) else Ack(m % NUMBERS) }

  /** Something is sent as the first thing, and then after each block and each timeout. */
  predicate Due(log: seq<Act>) {
    log == [] || log[|log| - 1] == Received(Timeout) || Arrived(log) > Arrived(log[..|log| - 1])
  }

  ghost predicate Sending(c: Client, name: Bytes, log: seq<Act>) {
    !c.mode.Stopped? ==> c.out == OutAt(name, Arrived(log)) && (c.mode == ToSend || c.mode == Final <==> Due(log))
  }

  lemma DueNext(log: seq<Act>, a: Act, log': seq<Act>)
    requires log' == log + [a]
    ensures Due(log') <==> a == Received(Timeout) || Arrived(log') > Arrived(log)
  {
    assert log'[..|log' | - 1] == log && log'[|log' | - 1] == a;
  }

  lemma BlockSends(c: Client, name: Bytes, log: seq<Act>, a: Act, log': seq<Act>)
    requires Tallies(c, log) && c.mode == Waiting && IsBlock(a, c.expected) && log' == log + [a]
    ensures Next(c, a) == Some(Consume(c, a.e.bytes)) && Sending(Consume(c, a.e.bytes), name, log')
  {
    LateNext(log, a, log');
    DueNext(log, a, log');
  }

  lemma SendingNext(c: Client, name: Bytes, log: seq<Act>, a: Act, log': seq<Act>)
    requires Tallies(c, log) && Sending(c, name, log) && Next(c, a).Some? && log' == log + [a]
    ensures Sending(Next(c, a).value, name, log') && (a.Sent? ==> a.m == OutAt(name, Arrived(log)) && Due(log))
  {
    if c.mode == Waiting && IsBlock(a, c.expected) {
      BlockSends(c, name, log, a, log');
    } else {
      LateNext(log, a, log');
      DueNext(log, a, log');
      assert Arrived(log') == Arrived(log);
    }
  }

  lemma {:induction false} SendingRun(name: Bytes, log: seq<Act>)
    requires Run(Start(name), log).Some?
    ensures Sending(Run(Start(name), log).value, name, log)
    ensures log != [] && log[|log| - 1].Sent? ==>
      var past := log[..|log| - 1]; log[|log| - 1].m == OutAt(name, Arrived(past)) && Due(past)
    decreases |log|
  {
    if log != [] {
      var past, a := log[..|log| - 1], log[|log| - 1];
      SendingRun(name, past);
      TalliesRun(name, past);
      assert log == past + [a];
      SendingNext(Run(Start(name), past).value, name, past, a, log);
    }
  }

  lemma {:induction false} RunPrefix(name: Bytes, log: seq<Act>, n: nat)
    requires Run(Start(name), log).Some? && n <= |log|
    ensures Run(Start(name), log[..n]).Some?
    decreases |log|
  {
    if n == |log| {
      assert log[..n] == log;
    } else {
      assert log[..|log| - 1][..n] == log[..n];
      RunPrefix(name, log[..|log| - 1], n);
    }
  }

  /** Whatever the reader sends is the request, until the first block has come, and then the acknowledgement of
      the last block that has; and it sends only at the start, after a block, and after a timeout. */
  lemma SendsInTurn(name: Bytes, log: seq<Act>, i: nat)
    requires Run(Start(name), log).Some? && i < |log| && log[i].Sent?
    ensures log[i].m == OutAt(name, Arrived(log[..i])) && Due(log[..i])
  {
    RunPrefix(name, log, i + 1);
    assert log[..i + 1][..i] == log[..i];
    SendingRun(name, log[..i + 1]);
  }

  // ---- the server and the network ----

  function Min(a: int, b: int): int { if a < b then a else b }

  /** A file of n bytes takes n / 512 full blocks and a shorter, possibly empty, last one. */
  function Blocks(file: Bytes): (n: nat) { |file| / MAXDATA + 1 }

  function Block(file: Bytes, k: nat): (b: Bytes)
    requires 1 <= k <= Blocks(file)
  {
    file[MAXDATA * (k - 1)..Min(MAXDATA * k, |file|)]
  }

  function DataPacket(file: Bytes, k: nat): (p: Bytes)
    requires 1 <= k <= Blocks(file)
  {
    [0, TFTP_DATA, k % NUMBERS / 256, k % 256] + Block(file, k)
  }

  ghost predicate Acked(log: seq<Act>, n: int) { Sent(Ack(n)) in log }

  ghost predicate Asked(log: seq<Act>) { exists name :: Sent(Rrq(name)) in log }

  /** The request, or an acknowledgement with the number of block t, has been sent. */
  ghost predicate MayPass(log: seq<Act>, t: nat) { if t == 0 then Asked(log) else Acked(log, t % NUMBERS) }

  /** How far a server may have got: it sends block t + 1 only once the request, or an acknowledgement
      with the number of block t, has been sent, and it may be any old copy of one. */
  ghost function Reach(log: seq<Act>, blocks: nat, t: nat): (r: nat)
    requires t <= blocks
    ensures t <= r <= blocks
    decreases blocks - t
  {
    if t < blocks && MayPass(log, t) then Reach(log, blocks, t + 1) else t
  }

  /** p is a data packet some server has sent at some time before. */
  ghost predicate FromServer(file: Bytes, past: seq<Act>, p: Bytes) {
    exists k :: 1 <= k <= Reach(past, Blocks(file), 0) && p == DataPacket(file, k)
  }

  /** Every data packet received was sent by a server before, however long ago and however often it has
      been received already. Nothing is said of other packets, nor of timeouts and failures. */
  ghost predicate Plausible(file: Bytes, log: seq<Act>) {
    forall i :: 0 <= i < |log| ==>
      log[i].Received? && log[i].e.Packet? && IsData(log[i].e.bytes) ==> FromServer(file, log[..i], log[i].e.bytes)
  }

  lemma PlausiblePrefix(file: Bytes, log: seq<Act>, n: nat)
    requires Plausible(file, log) && n <= |log|
    ensures Plausible(file, log[..n])
  {
    forall i | 0 <= i < n ensures log[..n][i] == log[i] && log[..n][..i] == log[..i] {}
  }

  // ---- safety ----

  /** The client holds the first blocks of the file, and waits for the next; when done, all of it. */
  ghost predicate InStep(c: Client, file: Bytes) {
    match c.mode
    case Final => c.data == file && c.blocks == Blocks(file)
    case Stopped(r) => r == SYSERR || (r == |file| && c.data == file && c.blocks == Blocks(file))
    case _ => c.blocks < Blocks(file) && c.data == file[..MAXDATA * c.blocks] && c.expected == (c.blocks + 1) % NUMBERS
  }

  /** The two bytes of a block number. */
  lemma NumberBytes(k: nat)
    ensures k % NUMBERS / 256 < 256 && k % NUMBERS / 256 * 256 + k % 256 == k % NUMBERS
  {}

  lemma HeaderFields(p: Bytes, high: Byte, low: Byte, b: Bytes)
    requires p == [0, TFTP_DATA, high, low] + b
    ensures IsData(p) && (var h: int := high; Field(p, 2) == h * 256 + low) && p[4..] == b
  {}

  lemma PacketFields(file: Bytes, k: nat)
    requires 1 <= k <= Blocks(file)
    ensures var p := DataPacket(file, k); IsData(p) && Field(p, 2) == k % NUMBERS && p[4..] == Block(file, k)
  {
    NumberBytes(k);
    HeaderFields(DataPacket(file, k), k % NUMBERS / 256, k % 256, Block(file, k));
  }

  /** Only the last block is short. */
  lemma BlockLength(file: Bytes, k: nat)
    requires 1 <= k <= Blocks(file)
    ensures if k < Blocks(file) then |Block(file, k)| == MAXDATA else |Block(file, k)| == |file| - MAXDATA * (k - 1) < MAXDATA
  {}

  lemma BlocksJoin(file: Bytes, k: nat)
    requires 1 <= k <= Blocks(file)
    ensures file[..MAXDATA * (k - 1)] + Block(file, k) == file[..Min(MAXDATA * k, |file|)]
    ensures k == Blocks(file) ==> Min(MAXDATA * k, |file|) == |file|
  {}

  lemma OneNumber(j: nat, k: nat)
    requires 1 <= j <= NUMBERS && 1 <= k <= NUMBERS && j % NUMBERS == k % NUMBERS
    ensures j == k
  {}

  /** With at most 65536 blocks, the number waited for names one block only. */
  lemma InStepConsume(c: Client, file: Bytes, k: nat)
    requires Blocks(file) <= NUMBERS && InStep(c, file) && c.mode == Waiting
    requires 1 <= k <= Blocks(file) && k % NUMBERS == c.expected
    ensures IsData(DataPacket(file, k)) && InStep(Consume(c, DataPacket(file, k)), file)
  {
    OneNumber(c.blocks + 1, k);
    PacketFields(file, k);
    ConsumesBlock(c, file, k, DataPacket(file, k));
  }

  lemma InStepNext(c: Client, file: Bytes, past: seq<Act>, a: Act)
    requires Blocks(file) <= NUMBERS && InStep(c, file) && Next(c, a).Some?
    requires a.Received? && a.e.Packet? && IsData(a.e.bytes) ==> FromServer(file, past, a.e.bytes)
    ensures InStep(Next(c, a).value, file)
  {
    if c.mode == Waiting && a.Received? && a.e.Packet? && IsData(a.e.bytes) && Field(a.e.bytes, 2) == c.expected {
      var k :| 1 <= k <= Reach(past, Blocks(file), 0) && a.e.bytes == DataPacket(file, k);
      PacketFields(file, k);
      InStepConsume(c, file, k);
    }
  }

  lemma {:induction false} InStepRun(file: Bytes, name: Bytes, log: seq<Act>)
    requires Blocks(file) <= NUMBERS && Plausible(file, log) && Run(Start(name), log).Some?
    ensures InStep(Run(Start(name), log).value, file)
    decreases |log|
  {
    if log != [] {
      var past, a := log[..|log| - 1], log[|log| - 1];
      LastAct(file, log);
      InStepRun(file, name, past);
      InStepNext(Run(Start(name), past).value, file, past, a);
    }
  }

  lemma LastAct(file: Bytes, log: seq<Act>)
    requires Plausible(file, log) && log != []
    ensures var past, a := log[..|log| - 1], log[|log| - 1];
      && Plausible(file, past)
      && (a.Received? && a.e.Packet? && IsData(a.e.bytes) ==> FromServer(file, past, a.e.bytes))
  {
    PlausiblePrefix(file, log, |log| - 1);
  }

  ghost predicate Succeeds(name: Bytes, log: seq<Act>) {
    Run(Start(name), log).Some? && Run(Start(name), log).value.mode.Stopped?
      && Run(Start(name), log).value.mode.result != SYSERR
  }

  ghost predicate Exact(file: Bytes, name: Bytes, log: seq<Act>) {
    Run(Start(name), log).Some? && var c := Run(Start(name), log).value;
    c.mode == Stopped(|file|) && c.data == file && c.blocks == Blocks(file)
  }

  /** A transfer that succeeds reports the exact size, and has consumed each block of the file once,
      in order. */
  lemma SuccessIsExact(file: Bytes, name: Bytes, log: seq<Act>)
    requires Blocks(file) <= NUMBERS && Plausible(file, log) && Succeeds(name, log)
    ensures Exact(file, name, log)
  {
    InStepRun(file, name, log);
  }

  // ---- longer files ----

  /** The m-th block received: after block 65536 the old copies come again. */
  function KAt(m: nat): (k: nat)
    requires m >= 1
    ensures 1 <= k <= m && k % NUMBERS == m % NUMBERS
  {
    if m <= NUMBERS then m else m - NUMBERS
  }

  function Long(file: Bytes, name: Bytes, m: nat): (log: seq<Act>)
    requires m <= NUMBERS + Blocks(file) && Blocks(file) > NUMBERS
  {
    if m == 0 then []
    else Long(file, name, m - 1) + [Sent(OutAt(name, m - 1))] + [Received(Packet(DataPacket(file, KAt(m))))]
  }

  lemma {:induction false} LongSends(file: Bytes, name: Bytes, m: nat, j: nat)
    requires j < m <= NUMBERS + Blocks(file) && Blocks(file) > NUMBERS
    ensures Sent(OutAt(name, j)) in Long(file, name, m)
    decreases m
  {
    if j < m - 1 { LongSends(file, name, m - 1, j); }
  }

  lemma {:induction false} ReachAtLeast(log: seq<Act>, blocks: nat, t: nat, m: nat)
    requires t <= m <= blocks && (m > 0 ==> Asked(log)) && forall j :: 1 <= j < m ==> Acked(log, j % NUMBERS)
    ensures Reach(log, blocks, t) >= m
    decreases m - t
  {
    if t < m {
      ReachAtLeast(log, blocks, t + 1, m);
      assert MayPass(log, t) by { assert t > 0 ==> Acked(log, t % NUMBERS); }
    }
  }

  /** Before its m-th packet, the server may have sent block KAt(m). */
  lemma LongReach(file: Bytes, name: Bytes, m: nat)
    requires 1 <= m <= NUMBERS + Blocks(file) && Blocks(file) > NUMBERS
    ensures FromServer(file, Long(file, name, m - 1) + [Sent(OutAt(name, m - 1))], DataPacket(file, KAt(m)))
  {
    var past, t := Long(file, name, m - 1) + [Sent(OutAt(name, m - 1))], Min(m, Blocks(file));
    assert Asked(past) by {
      if m > 1 { LongSends(file, name, m - 1, 0); }
      assert Sent(Rrq(name)) in past;
    }
    forall j | 1 <= j < t ensures Acked(past, j % NUMBERS) {
      if j < m - 1 { LongSends(file, name, m - 1, j); }
      assert Sent(OutAt(name, j)) in past;
    }
    ReachAtLeast(past, Blocks(file), 0, t);
  }

  lemma PlausibleSnoc(file: Bytes, log: seq<Act>, a: Act)
    requires Plausible(file, log)
    requires a.Received? && a.e.Packet? && IsData(a.e.bytes) ==> FromServer(file, log, a.e.bytes)
    ensures Plausible(file, log + [a])
  {
    var r := log + [a];
    forall i | 0 <= i < |r| && r[i].Received? && r[i].e.Packet? && IsData(r[i].e.bytes)
      ensures FromServer(file, r[..i], r[i].e.bytes)
    {
      assert r[..i] == log[..i];
      if i == |log| { assert log[..i] == log; }
    }
  }

  lemma {:induction false} LongPlausible(file: Bytes, name: Bytes, m: nat)
    requires m <= NUMBERS + Blocks(file) && Blocks(file) > NUMBERS
    ensures Plausible(file, Long(file, name, m))
  {
    if m > 0 {
      LongPlausible(file, name, m - 1);
      LongReach(file, name, m);
      PlausibleSnoc(file, Long(file, name, m - 1), Sent(OutAt(name, m - 1)));
      PlausibleSnoc(file, Long(file, name, m - 1) + [Sent(OutAt(name, m - 1))],
                    Received(Packet(DataPacket(file, KAt(m)))));
    }
  }

  /** The reader takes the repeated blocks for new ones. */
  ghost predicate After(c: Client, file: Bytes, name: Bytes, m: nat) {
    && c.out == OutAt(name, m) && c.blocks == m
    && if m < NUMBERS + Blocks(file) then c.mode == ToSend && c.expected == (m + 1) % NUMBERS && |c.data| == MAXDATA * m
       else c.mode == Final && |c.data| == MAXDATA * NUMBERS + |file|
  }

  lemma {:induction false} LongRuns(file: Bytes, name: Bytes, m: nat)
    requires m <= NUMBERS + Blocks(file) && Blocks(file) > NUMBERS
    ensures Run(Start(name), Long(file, name, m)).Some? && After(Run(Start(name), Long(file, name, m)).value, file, name, m)
  {
    if m > 0 {
      LongRuns(file, name, m - 1);
      LongPair(Long(file, name, m - 1), Run(Start(name), Long(file, name, m - 1)).value, file, name, m);
    }
  }

  lemma LongPair(log: seq<Act>, c: Client, file: Bytes, name: Bytes, m: nat)
    requires 1 <= m <= NUMBERS + Blocks(file) && Blocks(file) > NUMBERS && After(c, file, name, m - 1)
    requires Run(Start(name), log) == Some(c)
    ensures var d := Run(Start(name), log + [Sent(OutAt(name, m - 1))] + [Received(Packet(DataPacket(file, KAt(m))))]);
      d.Some? && After(d.value, file, name, m)
  {
    var p := DataPacket(file, KAt(m));
    RunSnoc(Start(name), log, Sent(OutAt(name, m - 1)), c);
    RunSnoc(Start(name), log + [Sent(OutAt(name, m - 1))], Received(Packet(p)), c.(mode := Waiting));
    PacketFields(file, KAt(m));
    NextConsumes(c, p);
    BlockLength(file, KAt(m));
    AfterBlock(c, Consume(c, p), file, name, m, p[4..]);
  }

  lemma NextConsumes(c: Client, p: Bytes)
    requires IsData(p) && Field(p, 2) == c.expected
    ensures Next(c.(mode := Waiting), Received(Packet(p))) == Some(Consume(c, p))
  {}

  lemma AfterBlock(c: Client, d: Client, file: Bytes, name: Bytes, m: nat, b: Bytes)
    requires 1 <= m <= NUMBERS + Blocks(file) && Blocks(file) > NUMBERS && After(c, file, name, m - 1)
    requires if KAt(m) < Blocks(file) then |b| == MAXDATA else |b| == |file| - MAXDATA * (KAt(m) - 1) < MAXDATA
    requires d.out == Ack(c.expected) && d.blocks == c.blocks + 1 && |d.data| == |c.data| + |b|
    requires if |b| < MAXDATA then d.mode == Final else d.mode == ToSend && d.expected == (c.expected + 1) % NUMBERS
    ensures After(d, file, name, m)
  {
    assert (m % NUMBERS + 1) % NUMBERS == (m + 1) % NUMBERS;
  }

  ghost predicate AlwaysExact(file: Bytes, name: Bytes) {
    forall log :: Plausible(file, log) && Succeeds(name, log) ==> Exact(file, name, log)
  }

  /** Every successful transfer of a file is exact if and only if it has at most 65536 blocks: with
      more, a network that repeats the first 65536 packets makes the reader report a wrong size. */
  lemma AlwaysExactIff(file: Bytes, name: Bytes)
    ensures AlwaysExact(file, name) <==> Blocks(file) <= NUMBERS
  {
    if Blocks(file) <= NUMBERS {
      forall log | Plausible(file, log) && Succeeds(name, log) ensures Exact(file, name, log) {
        SuccessIsExact(file, name, log);
      }
    } else {
      var m := NUMBERS + Blocks(file);
      LongPlausible(file, name, m);
      LongRuns(file, name, m);
      var c, log := Run(Start(name), Long(file, name, m)).value, Long(file, name, m) + [Sent(OutAt(name, m))];
      RunSnoc(Start(name), Long(file, name, m), Sent(OutAt(name, m)), c);
      PlausibleSnoc(file, Long(file, name, m), Sent(OutAt(name, m)));
      assert Succeeds(name, log) && !Exact(file, name, log);
    }
  }

  // ---- progress ----

  /** What the receives in a log have yielded, and which of its sends failed. */
  function Yield(log: seq<Act>): (r: seq<Event>) {
    if log == [] then []
    else
      var r, a := Yield(log[..|log| - 1]), log[|log| - 1];
      if a.Received? then r + [a.e] else r
  }

  function Failures(log: seq<Act>): (r: seq<bool>) {
    if log == [] then []
    else
      var r, a := Failures(log[..|log| - 1]), log[|log| - 1];
      if a.Received? then r else r + [a == SendFailed]
  }

  /** The events that a socket yields are those given, and then timeouts. */
  ghost predicate Yields(events: seq<Event>, log: seq<Act>) {
    forall i :: 0 <= i < |Yield(log)| ==> Yield(log)[i] == if i < |events| then events[i] else Timeout
  }

  /** Sends fail as given, and then no more. */
  ghost predicate Fails(failing: seq<bool>, log: seq<Act>) {
    forall i :: 0 <= i < |Failures(log)| ==> (Failures(log)[i] <==> i < |failing| && failing[i])
  }

  lemma {:induction false} NoFailure(failing: seq<bool>, log: seq<Act>)
    requires Fails(failing, log) && true !in failing
    ensures SendFailed !in log
    decreases |log|
  {
    if log != [] {
      var past, a := log[..|log| - 1], log[|log| - 1];
      assert forall i :: 0 <= i < |Failures(past)| ==> Failures(log)[i] == Failures(past)[i];
      NoFailure(failing, past);
      if a == SendFailed { assert Failures(log)[|Failures(past)|]; }
      assert log == past + [a];
    }
  }

  /** The events to come bring block k and then all later ones to a reader that has waited for block k through
      `late` timeouts: each before the third timeout, nothing in between failing, and nothing else in its
      number. */
  ghost predicate Delivers(file: Bytes, events: seq<Event>, k: nat, late: nat)
    requires 1 <= k <= Blocks(file)
    decreases |events|
  {
    events != [] && match events[0]
    case Timeout => late + 1 < MAXRETRIES && Delivers(file, events[1..], k, late + 1)
    case SockErr => false
    case Packet(p) =>
      if p == DataPacket(file, k) then k == Blocks(file) || Delivers(file, events[1..], k + 1, 0)
      else !IsError(p) && !(IsData(p) && Field(p, 2) == k % NUMBERS) && Delivers(file, events[1..], k, late)
  }

  /** The reader has all blocks so far and will get the others. */
  ghost predicate OnTrack(c: Client, file: Bytes, events: seq<Event>, n: nat) {
    match c.mode
    case Final => c.data == file && c.blocks == Blocks(file)
    case Stopped(r) => r == |file| && c.data == file && c.blocks == Blocks(file)
    case _ =>
      && c.blocks < Blocks(file) && c.data == file[..MAXDATA * c.blocks] && c.expected == (c.blocks + 1) % NUMBERS
      && n <= |events| && Delivers(file, events[n..], c.blocks + 1, c.tries)
  }

  lemma OnTrackNext(c: Client, file: Bytes, events: seq<Event>, n: nat, a: Act)
    requires OnTrack(c, file, events, n) && Next(c, a).Some? && a != SendFailed
    requires a.Received? ==> a.e == if n < |events| then events[n] else Timeout
    ensures OnTrack(Next(c, a).value, file, events, if a.Received? then n + 1 else n)
  {
    if c.mode == Waiting {
      assert events[n..][0] == events[n] && events[n..][1..] == events[n + 1..];
      var k := c.blocks + 1;
      PacketFields(file, k);
      if a.e.Packet? && a.e.bytes == DataPacket(file, k) {
        BlockArrives(c, file, k);
      }
    }
  }

  /** The reader after block k. */
  ghost predicate HasBlocks(d: Client, file: Bytes, k: nat)
    requires k <= Blocks(file)
  {
    && d.blocks == k && d.tries == 0
    && if k == Blocks(file) then d.mode == Final && d.data == file
       else d.mode == ToSend && d.data == file[..MAXDATA * k] && d.expected == (k + 1) % NUMBERS
  }

  lemma ConsumesBlock(c: Client, file: Bytes, k: nat, p: Bytes)
    requires k == c.blocks + 1 <= Blocks(file) && c.data == file[..MAXDATA * c.blocks] && c.expected == k % NUMBERS
    requires IsData(p) && p[4..] == Block(file, k)
    ensures HasBlocks(Consume(c, p), file, k)
  {
    BlockLength(file, k);
    BlocksJoin(file, k);
    NextNumber(k);
  }

  lemma BlockArrives(c: Client, file: Bytes, k: nat)
    requires c.mode == Waiting && k == c.blocks + 1 <= Blocks(file) && c.data == file[..MAXDATA * c.blocks]
    requires c.expected == k % NUMBERS
    ensures var p := DataPacket(file, k);
      IsData(p) && Field(p, 2) == c.expected && !IsError(p) && HasBlocks(Consume(c, p), file, k)
  {
    PacketFields(file, k);
    ConsumesBlock(c, file, k, DataPacket(file, k));
  }

  lemma {:induction false} OnTrackRun(file: Bytes, name: Bytes, events: seq<Event>, log: seq<Act>)
    requires Run(Start(name), log).Some? && Delivers(file, events, 1, 0) && Yields(events, log) && SendFailed !in log
    ensures OnTrack(Run(Start(name), log).value, file, events, |Yield(log)|)
    decreases |log|
  {
    if log == [] {
      assert events[0..] == events;
    } else {
      var past, a := log[..|log| - 1], log[|log| - 1];
      assert a in log && forall x :: x in past ==> x in log;
      assert forall i :: 0 <= i < |Yield(past)| ==> Yield(log)[i] == Yield(past)[i];
      OnTrackRun(file, name, events, past);
      if a.Received? { assert Yield(log)[|Yield(past)|] == a.e; }
      OnTrackNext(Run(Start(name), past).value, file, events, |Yield(past)|, a);
    }
  }

  /** When no send fails and the events bring every block in time, a reader that comes to an end has the whole
      file, of whatever size. */
  lemma DeliveredIsRead(file: Bytes, name: Bytes, events: seq<Event>, log: seq<Act>)
    requires Run(Start(name), log).Some? && Run(Start(name), log).value.mode.Stopped?
    requires Delivers(file, events, 1, 0) && Yields(events, log) && SendFailed !in log
    ensures Exact(file, name, log)
  {
    OnTrackRun(file, name, events, log);
  }
}
