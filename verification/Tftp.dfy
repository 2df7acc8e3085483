/** tftp_send1 and tftpget over a datagram socket. What the socket will yield is given beforehand; what
    passes over it is logged, and proved to be a run of TftpSpec's reader. */
module Tftp {
  import opened TftpSpec

  const FUNCMAGIC := 0xFFFF_FF00
  const MAXNAM := 64
  const TWO32 := 0x1_0000_0000

  /** One call of the user's function. */
  datatype Call = Call(block: int, data: Bytes, last: bool)

  class Socket {
    var incoming: seq<Event>  // what the receives to come yield; after these they time out
    var fails: seq<bool>  // which of the sends to come fail; after these they succeed
    ghost var log: seq<Act>
    ghost const events: seq<Event>  // what they were at first
    ghost const failing: seq<bool>

    /** What has passed over the socket is what it was given. */
    ghost predicate Valid()
      reads this
    {
      && Yields(events, log) && incoming == events[Min(|Yield(log)|, |events|)..]
      && Fails(failing, log) && fails == failing[Min(|Failures(log)|, |failing|)..]
    }

    constructor (incoming: seq<Event>, fails: seq<bool>)
      ensures Valid() && events == incoming && failing == fails && log == []
    {
      this.incoming, this.fails, log := incoming, fails, [];
      events, failing := incoming, fails;
    }

    method Send(packet: Bytes, ghost m: Msg) returns (ok: bool)
      requires Valid() && packet == Wire(m)
      modifies this
      ensures Valid() && log == old(log) + [if ok then Sent(m) else SendFailed] && incoming == old(incoming)
    {
      ok := true;
      if fails != [] {
        ok := !fails[0];
        fails := fails[1..];
      }
      ghost var a := if ok then Sent(m) else SendFailed;
      assert (log + [a])[..|log|] == log;
      log := log + [a];
    }

    method Receive() returns (e: Event)
      requires Valid()
      modifies this
      ensures Valid() && log == old(log) + [Received(e)]
      ensures old(incoming) == [] ==> e == Timeout && incoming == []
      ensures old(incoming) != [] ==> e == old(incoming)[0] && incoming == old(incoming)[1..]
    {
      e := Timeout;
      if incoming != [] {
        e := incoming[0];
        incoming := incoming[1..];
      }
      assert (log + [Received(e)])[..|log|] == log;
      log := log + [Received(e)];
    }
  }

  /** The outgoing message buffer holds the mlen bytes of m. */
  ghost predicate Holds(outmsg: array<Byte>, mlen: nat, m: Msg)
    reads outmsg
  {
    outmsg.Length == 516 && mlen <= 516 && outmsg[..mlen] == Wire(m)
  }

  method PutWord(outmsg: array<Byte>, i: nat, n: nat)
    requires i + 2 <= outmsg.Length && n < 65536
    modifies outmsg
    ensures outmsg[..] == old(outmsg[..i]) + Word(n) + old(outmsg[i + 2..])
  {
    outmsg[i], outmsg[i + 1] := n / 256, n % 256;
  }

  /** Copy a string and its NUL. */
  method PutString(outmsg: array<Byte>, i: nat, s: Bytes)
    requires i + |s| + 1 <= outmsg.Length
    modifies outmsg
    ensures outmsg[..] == old(outmsg[..i]) + s + [0] + old(outmsg[i + |s| + 1..])
  {
    var j := 0;
    while j < |s|
      invariant 0 <= j <= |s| && outmsg[..] == old(outmsg[..i]) + s[..j] + old(outmsg[i + j..])
    {
      outmsg[i + j] := s[j];
      j := j + 1;
    }
    outmsg[i + j] := 0;
  }

  /** The read request: the file name and the mode, each with its NUL. */
  method FormRequest(outmsg: array<Byte>, filename: Bytes) returns (mlen: nat)
    requires outmsg.Length == 516 && |filename| <= MAXNAM
    modifies outmsg
    ensures Holds(outmsg, mlen, Rrq(filename))
  {
    var nlen := |filename|;
    PutWord(outmsg, 0, TFTP_RRQ);
    PutString(outmsg, 2, filename);
    PutString(outmsg, 2 + nlen + 1, OCTET);
    mlen := nlen + 5 + 4;
  }

  method FormAck(outmsg: array<Byte>, expected: nat) returns (mlen: nat)
    requires outmsg.Length == 516 && expected < NUMBERS
    modifies outmsg
    ensures Holds(outmsg, mlen, Ack(expected))
  {
    PutWord(outmsg, 0, TFTP_ACK);
    PutWord(outmsg, 2, expected);
    mlen := 2 + 2;
  }

  /** The log so far is a run of the reader that has come to c. */
  ghost predicate Tracks(sock: Socket, name: Bytes, c: Client)
    reads sock
  {
    Run(Start(name), sock.log) == Some(c)
  }

  /** Send a message and wait for the data block expected, discarding everything else. */
  method TftpSend1(sock: Socket, outmsg: array<Byte>, mlen: nat, expected: int, ghost name: Bytes, ghost c: Client)
    returns (n: int, inmsg: Bytes, ghost c': Client)
    requires sock.Valid() && Tracks(sock, name, c) && c.mode == ToSend && Holds(outmsg, mlen, c.out) && c.expected == expected
    modifies sock
    ensures sock.Valid() && Tracks(sock, name, c')
    ensures n == SYSERR || n == TIMEOUT || n == |inmsg| >= 4
    ensures n == SYSERR ==> c'.mode == Stopped(SYSERR)
    ensures n == TIMEOUT ==> c' == TimedOut(c.(mode := Waiting))
    ensures n >= 4 ==> IsData(inmsg) && Field(inmsg, 2) == expected && c' == Consume(c.(mode := Waiting), inmsg)
    ensures n < 0 ==> c'.data == c.data && c'.blocks == c.blocks
    ensures if n >= 4 then |sock.incoming| < |old(sock.incoming)| else |sock.incoming| <= |old(sock.incoming)|
  {
    RunSnoc(Start(name), sock.log, Sent(c.out), c);
    RunSnoc(Start(name), sock.log, SendFailed, c);
    var ok := sock.Send(outmsg[..mlen], c.out);
    inmsg := [];
    if !ok {
      return SYSERR, inmsg, c.(mode := Stopped(SYSERR));
    }
    ghost var w := c.(mode := Waiting);
    while true
      invariant sock.Valid() && Tracks(sock, name, w) && |sock.incoming| <= |old(sock.incoming)|
      decreases |sock.incoming|
    {
      ghost var past := sock.log;
      var more := sock.incoming != [];
      var e := sock.Receive();
      RunSnoc(Start(name), past, Received(e), w);
      if e == SockErr {
        return SYSERR, [], c.(mode := Stopped(SYSERR));
      } else if e == Timeout {
        return TIMEOUT, [], TimedOut(w);
      }
      inmsg := e.bytes;
      if |inmsg| < 4 {
        continue;
      }
      if Field(inmsg, 0) == TFTP_ERROR {
        return SYSERR, inmsg, c.(mode := Stopped(SYSERR));
      }
      if Field(inmsg, 0) == TFTP_DATA && Field(inmsg, 2) == expected {
        return |inmsg|, inmsg, Consume(w, inmsg);
      }
    }
  }

  /** Send, and send again after a timeout, at most three times. */
  method TryThrice(sock: Socket, outmsg: array<Byte>, mlen: nat, expected: int, ghost name: Bytes, ghost c: Client)
    returns (n: int, inmsg: Bytes, ghost c': Client)
    requires sock.Valid() && Tracks(sock, name, c) && c.mode == ToSend && Holds(outmsg, mlen, c.out) && c.expected == expected && c.tries == 0
    modifies sock
    ensures sock.Valid() && Tracks(sock, name, c')
    ensures n == SYSERR || n == |inmsg| >= 4
    ensures n == SYSERR ==> c'.mode == Stopped(SYSERR)
    ensures n >= 4 ==> IsData(inmsg) && Field(inmsg, 2) == expected && c' == Consume(c.(mode := Waiting), inmsg)
    ensures n < 0 ==> c'.data == c.data && c'.blocks == c.blocks
    ensures if n >= 4 then |sock.incoming| < |old(sock.incoming)| else |sock.incoming| <= |old(sock.incoming)|
  {
    var i := 0;
    ghost var d := c;
    while i < MAXRETRIES
      invariant 0 <= i <= MAXRETRIES && sock.Valid() && Tracks(sock, name, d)
      invariant |sock.incoming| <= |old(sock.incoming)|
      invariant d == c.(tries := i, mode := if i < MAXRETRIES then ToSend else Stopped(SYSERR))
    {
      n, inmsg, c' := TftpSend1(sock, outmsg, mlen, expected, name, d);
      if n > 0 {
        return;
      } else if n == SYSERR {
        return;
      }
      d := c';
      i := i + 1;
    }
    return SYSERR, [], d;
  }

  /** The first bytes of the file that a buffer of userlen bytes has room for. */
  ghost predicate Stored(buf: array<Byte>, before: Bytes, userlen: int, data: Bytes)
    requires userlen == FUNCMAGIC || 0 <= userlen <= buf.Length
    reads buf
  {
    if userlen == FUNCMAGIC then buf[..] == before
    else var m := Min(userlen, |data|); m <= |before| && buf[..] == data[..m] + before[m..]
  }

  /** Move a block into the buffer as far as it has room, and count its bytes. */
  method StoreBlock(buf: array<Byte>, userlen: int, filesiz: int, block: Bytes, ghost before: Bytes, ghost data: Bytes)
    returns (filesiz': int)
    requires userlen == FUNCMAGIC || 0 <= userlen <= buf.Length
    requires filesiz == |data| && Stored(buf, before, userlen, data)
    modifies buf
    ensures filesiz' == |data + block| && Stored(buf, before, userlen, data + block)
  {
    filesiz' := filesiz;
    var i := 0;
    ghost var d := data;
    while i < |block|
      invariant 0 <= i <= |block| && d == data + block[..i] && filesiz' == |d| && Stored(buf, before, userlen, d)
    {
      ghost var d' := d + [block[i]];
      if userlen != FUNCMAGIC && filesiz' < userlen {
        buf[filesiz'] := block[i];
        assert buf[..] == d' + before[|d'|..];
      } else if userlen != FUNCMAGIC {
        assert d'[..userlen] == d[..userlen];
      }
      filesiz' := filesiz' + 1;
      d := d';
      i := i + 1;
    }
  }

  function Joined(calls: seq<Call>): (r: Bytes) {
    if calls == [] then [] else Joined(calls[..|calls| - 1]) + calls[|calls| - 1].data
  }

  /** The calls so far pass on everything consumed, block by block, the last one marked. */
  ghost predicate Passed(calls: seq<Call>, c: Client) {
    && Joined(calls) == c.data && |calls| == c.blocks
    && forall i :: 0 <= i < |calls| ==> calls[i].block == (i + 1) % NUMBERS && (calls[i].last <==> |calls[i].data| < MAXDATA)
  }

  lemma PassedMore(calls: seq<Call>, c: Client, p: Bytes, call: Call)
    requires Passed(calls, c) && IsData(p) && c.expected == (c.blocks + 1) % NUMBERS
    requires call == Call(c.expected, p[4..], |p[4..]| < MAXDATA)
    ensures Passed(calls + [call], Consume(c, p))
  {
    assert (calls + [call])[..|calls|] == calls;
  }

  /** What tftpget holds when its client has come to c. */
  ghost predicate Holding(c: Client, buf: array<Byte>, before: Bytes, userlen: int, calls: seq<Call>)
    requires userlen == FUNCMAGIC || 0 <= userlen <= buf.Length
    reads buf
  {
    && Stored(buf, before, userlen, c.data)
    && if userlen == FUNCMAGIC then Passed(calls, c) else calls == []
  }

  /** Between blocks, the variables of tftpget are those of its client. */
  ghost predicate Ready(c: Client, expected: int, filesiz: int) {
    && c.mode == ToSend && c.tries == 0 && |c.data| == filesiz
    && c.expected == expected == (c.blocks + 1) % NUMBERS
  }

  /** They are again after a full block. */
  lemma ReadyAgain(c: Client, p: Bytes, next: int)
    requires IsData(p) && |p[4..]| >= MAXDATA && c.expected == (c.blocks + 1) % NUMBERS && next == (c.expected + 1) % NUMBERS
    ensures var d := Consume(c, p); Ready(d, next, |d.data|)
  {
    NextNumber(c.blocks + 1);
  }

  /** The arguments for which tftpget fails before it sends anything. */
  predicate BadArguments(serverip: int, filename: Bytes, userlen: int, registered: bool) {
    serverip == 0 || userlen == 0 || |filename| < 1 || |filename| > 64 || !registered
  }

  /** Get a file. The user gives a buffer of userlen bytes, or a function to call with each block, for
      which userlen has a value that marks it. Without bad arguments the call fails exactly when a send or a
      receive fails, an error packet comes, or three receives time out in waiting for one block. When no send
      fails and the socket brings every block in time, the call returns the size of the file. And for any file
      that a server sent over the network, the call that succeeds returns its size, and the buffer or the
      function got its bytes. */
  method TftpGet(sock: Socket, serverip: int, filename: Bytes, userlen: int, buf: array<Byte>, registered: bool)
    returns (r: int, calls: seq<Call>, ghost c: Client)
    requires 0 <= userlen < TWO32 && (userlen == FUNCMAGIC || userlen <= buf.Length) && sock.Valid() && sock.log == []
    modifies sock, buf
    ensures BadArguments(serverip, filename, userlen, registered) ==>
      r == SYSERR && sock.log == [] && buf[..] == old(buf[..]) && calls == []
    ensures !BadArguments(serverip, filename, userlen, registered) ==> (r == SYSERR <==> Fatal(sock.log))
    ensures sock.Valid() && Tracks(sock, filename, c)
    ensures !BadArguments(serverip, filename, userlen, registered) ==> c.mode == Stopped(r)
    ensures Holding(c, buf, old(buf[..]), userlen, calls)
    ensures !BadArguments(serverip, filename, userlen, registered) && true !in sock.failing ==>
      forall file :: Delivers(file, sock.events, 1, 0) ==> r == |file| && c.data == file && c.blocks == Blocks(file)
    ensures forall file :: Plausible(file, sock.log) && Blocks(file) <= NUMBERS && r != SYSERR ==>
      r == |file| && c.data == file && c.blocks == Blocks(file)
  {
    c, calls := Start(filename), [];
    if serverip == 0 || userlen == 0 {
      return SYSERR, calls, c;
    }
    if |filename| <= 0 || |filename| > MAXNAM {
      return SYSERR, calls, c;
    }
    if !registered {
      return SYSERR, calls, c;
    }
    r, calls, c := GetBlocks(sock, filename, userlen, buf, old(buf[..]));
    EndsRight(sock, filename, c, r);
  }

  /** What the end of a transfer says about the file. */
  lemma EndsRight(sock: Socket, name: Bytes, c: Client, r: int)
    requires sock.Valid() && Tracks(sock, name, c) && c.mode == Stopped(r)
    ensures r == SYSERR <==> Fatal(sock.log)
    ensures forall file :: true !in sock.failing && Delivers(file, sock.events, 1, 0) ==>
      r == |file| && c.data == file && c.blocks == Blocks(file)
    ensures forall file :: Plausible(file, sock.log) && Blocks(file) <= NUMBERS && r != SYSERR ==>
      r == |file| && c.data == file && c.blocks == Blocks(file)
  {
    GivesUpIff(name, sock.log);
    forall file | true !in sock.failing && Delivers(file, sock.events, 1, 0)
      ensures r == |file| && c.data == file && c.blocks == Blocks(file)
    {
      NoFailure(sock.failing, sock.log);
      DeliveredIsRead(file, name, sock.events, sock.log);
    }
    forall file | Plausible(file, sock.log) && Blocks(file) <= NUMBERS && r != SYSERR
      ensures r == |file| && c.data == file && c.blocks == Blocks(file)
    {
      SuccessIsExact(file, name, sock.log);
    }
  }

  /** The loop of tftpget. */
  method GetBlocks(sock: Socket, filename: Bytes, userlen: int, buf: array<Byte>, ghost before: Bytes)
    returns (r: int, calls: seq<Call>, ghost c: Client)
    requires (userlen == FUNCMAGIC || 0 <= userlen <= buf.Length) && sock.Valid() && sock.log == [] && before == buf[..]
    requires |filename| <= MAXNAM
    modifies sock, buf
    ensures sock.Valid() && Tracks(sock, filename, c) && c.mode == Stopped(r) && Holding(c, buf, before, userlen, calls)
  {
    c, calls := Start(filename), [];
    var filesiz, expected, outmsg := 0, 1, new Byte[516](_ => 0);
    var mlen := FormRequest(outmsg, filename);
    while true
      invariant sock.Valid() && Tracks(sock, filename, c) && Ready(c, expected, filesiz) && Holds(outmsg, mlen, c.out)
      invariant Holding(c, buf, before, userlen, calls)
      decreases |sock.incoming|
    {
      var n, inmsg;
      ghost var d;
      n, inmsg, d := TryThrice(sock, outmsg, mlen, expected, filename, c);
      if n == SYSERR {
        return SYSERR, calls, d;
      }
      var block := inmsg[4..];
      var lastpkt := |block| < MAXDATA;
      filesiz, calls := TakeBlock(inmsg, lastpkt, filesiz, userlen, buf, calls, c, before, expected);
      mlen := FormAck(outmsg, expected);
      if lastpkt {
        r := FinalAck(sock, outmsg, mlen, filesiz, filename, d);
        c := d.(mode := Stopped(r));
        return;
      }
      expected := (expected + 1) % NUMBERS;
      ReadyAgain(c.(mode := Waiting), inmsg, expected);
      c := d;
    }
  }

  /** Store the block or call the user's function. */
  method TakeBlock(inmsg: Bytes, lastpkt: bool, filesiz: int, userlen: int, buf: array<Byte>, calls: seq<Call>,
                   ghost c: Client, ghost before: Bytes, ghost expected: int)
    returns (filesiz': int, calls': seq<Call>)
    requires userlen == FUNCMAGIC || 0 <= userlen <= buf.Length
    requires IsData(inmsg) && Field(inmsg, 2) == expected == c.expected == (c.blocks + 1) % NUMBERS
    requires lastpkt == (|inmsg[4..]| < MAXDATA) && filesiz == |c.data| && Holding(c, buf, before, userlen, calls)
    modifies buf
    ensures filesiz' == |Consume(c, inmsg).data| && Holding(Consume(c, inmsg), buf, before, userlen, calls')
    ensures Consume(c, inmsg).blocks == c.blocks + 1
  {
    var block := inmsg[4..];
    calls' := calls;
    filesiz' := StoreBlock(buf, userlen, filesiz, block, before, c.data);
    if userlen == FUNCMAGIC {
      var call := Call(Field(inmsg, 2), block, lastpkt);
      PassedMore(calls, c, inmsg, call);
      calls' := calls + [call];
    }
  }

  method FinalAck(sock: Socket, outmsg: array<Byte>, mlen: nat, filesiz: int, ghost name: Bytes, ghost c: Client) returns (r: int)
    requires sock.Valid() && Tracks(sock, name, c) && c.mode == Final && Holds(outmsg, mlen, c.out) && filesiz == |c.data|
    modifies sock
    ensures sock.Valid() && Tracks(sock, name, c.(mode := Stopped(r)))
  {
    RunSnoc(Start(name), sock.log, Sent(c.out), c);
    RunSnoc(Start(name), sock.log, SendFailed, c);
    var ok := sock.Send(outmsg[..mlen], c.out);
    if !ok {
      return SYSERR;
    }
    return filesiz;
  }
}
