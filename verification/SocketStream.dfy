/**
 The audio byte stream: `IOStream` buffers what is sent, `SocketStream` owns the block and talks to the socket.

 Both C++ classes keep a size and a pointer of their own for the one heap block; here they are the `io...` and the
 `sock...` fields of one class. A socket call can be cut short, interrupted or fail: a script lists the outcomes to
 come, so a statement for every script is one for every fragmentation and every placement of EINTR. When the script
 is used up, calls do as much as they can.
 */
module SocketStream {
  import opened Base

  const INT_MAX := TWO31 - 1
  const TWO64 := TWO32 * TWO32
  const PTRDIFF_MAX := TWO64 / 2 - 1   // malloc and realloc give no block above it

  type Size = n: int | 0 <= n < TWO64

  datatype Outcome = Moves(n: nat) | Interrupted | Fails

  function Min(a: nat, b: nat): nat {
    if a < b then a else b
  }

  function Max(a: nat, b: nat): nat {
    if a < b then b else a
  }

  /** `allocLen`, which is an `int`. */
  function AllocLen(len: Size, bufSize: nat): int {
    ToInt(Max(len, bufSize))
  }

  /** An `int` converted to `size_t`. */
  function ToSize(n: int): Size
    requires -TWO31 <= n < TWO31
  {
    if n < 0 then n + TWO64 else n
  }

  /** Subtraction of `size_t`. */
  function Minus(a: Size, b: Size): Size {
    if b <= a then a - b else a - b + TWO64
  }

  /** Three ranges of lengths: the size is right; it is negative, so that no block is that large; it is any small one. */
  lemma AllocLenRanges(len: Size, bufSize: nat)
    requires bufSize <= INT_MAX
    ensures len <= INT_MAX ==> AllocLen(len, bufSize) == Max(len, bufSize)
    ensures TWO32 <= len ==> (ToSize(AllocLen(len, bufSize)) <= INT_MAX <==> len % TWO32 < TWO31)
    ensures INT_MAX < len < TWO32 ==> PTRDIFF_MAX < ToSize(AllocLen(len, bufSize))
    ensures ToSize(AllocLen(len, bufSize)) <= INT_MAX || PTRDIFF_MAX < ToSize(AllocLen(len, bufSize))
  {
  }

  /** How many of `size` bytes writeFully gets onto the wire. */
  function Sent(size: nat, script: seq<Outcome>): (n: nat)
    ensures n <= size
    decreases |script|
  {
    if size == 0 then 0
    else if script == [] then size
    else match script[0]
      case Moves(k) => Min(k, size) + Sent(size - Min(k, size), script[1..])
      case Interrupted => Sent(size, script[1..])
      case Fails => 0
  }

  /** What is left of the script then. */
  function SentRest(size: nat, script: seq<Outcome>): seq<Outcome>
    decreases |script|
  {
    if size == 0 || script == [] then script
    else match script[0]
      case Moves(k) => SentRest(size - Min(k, size), script[1..])
      case Interrupted => SentRest(size, script[1..])
      case Fails => script[1..]
  }

  /** How many bytes readFully stores, out of `avail` that the peer ever sends; moving none is the peer's shutdown. */
  function Got(len: nat, avail: nat, script: seq<Outcome>): (n: nat)
    ensures n <= len && n <= avail
    decreases |script|
  {
    if len == 0 then 0
    else if script == [] then Min(len, avail)
    else match script[0]
      case Moves(k) =>
        var m := Min(k, Min(len, avail));
        if m == 0 then 0 else m + Got(len - m, avail - m, script[1..])
      case Interrupted => Got(len, avail, script[1..])
      case Fails => 0
  }

  /** The stream does its duty: it may fragment and interrupt, but neither fails nor shuts down. */
  predicate Reliable(script: seq<Outcome>) {
    Fails !in script && Moves(0) !in script
  }

  lemma {:induction false} SentAll(size: nat, script: seq<Outcome>)
    requires Fails !in script
    ensures Sent(size, script) == size
    decreases |script|
  {
    if size > 0 && script != [] {
      if script[0].Moves? {
        SentAll(size - Min(script[0].n, size), script[1..]);
      } else {
        assert script[0] in script;
        SentAll(size, script[1..]);
      }
    }
  }

  lemma {:induction false} SentRestKeeps(size: nat, script: seq<Outcome>)
    requires Fails !in script
    ensures Fails !in SentRest(size, script)
    decreases |script|
  {
    if size > 0 && script != [] {
      assert script == [script[0]] + script[1..];
      SentRestKeeps(if script[0].Moves? then size - Min(script[0].n, size) else size, script[1..]);
    }
  }

  /** The bytes that a script would move on its own. */
  function Moved(script: seq<Outcome>): nat {
    if script == [] then 0 else (if script[0].Moves? then script[0].n else 0) + Moved(script[1..])
  }

  /** A send error ends it: what had moved before is out, and the calls to come are for others. */
  lemma {:induction false} SentUntilError(size: nat, a: seq<Outcome>, b: seq<Outcome>)
    requires Fails !in a && Moved(a) < size
    ensures Sent(size, a + [Fails] + b) == Moved(a) && SentRest(size, a + [Fails] + b) == b
    decreases |a|
  {
    var script := a + [Fails] + b;
    if a == [] {
      assert script[0] == Fails && script[1..] == b;
    } else {
      assert a[0] in a && script[0] == a[0] && script[1..] == a[1..] + [Fails] + b;
      assert Fails !in a[1..];
      SentUntilError(if a[0].Moves? then size - a[0].n else size, a[1..], b);
    }
  }

  /** An error that comes after enough has moved is not seen. */
  lemma {:induction false} SentBeforeError(size: nat, a: seq<Outcome>, b: seq<Outcome>)
    requires Fails !in a && size <= Moved(a)
    ensures Sent(size, a + b) == size
    decreases |a|
  {
    if size > 0 {
      var script := a + b;
      assert a != [] && a[0] in a && script[0] == a[0] && script[1..] == a[1..] + b;
      assert Fails !in a[1..];
      SentBeforeError(if a[0].Moves? then size - Min(a[0].n, size) else size, a[1..], b);
    }
  }

  ghost predicate ErrorAt(size: nat, script: seq<Outcome>, i: int) {
    0 <= i < |script| && script[i] == Fails && Fails !in script[..i] && Moved(script[..i]) < size
  }

  /** writeFully fails exactly when an error comes before enough bytes have moved; an interruption never counts. */
  lemma SentShortIff(size: nat, script: seq<Outcome>)
    ensures Sent(size, script) < size <==> exists i :: ErrorAt(size, script, i)
  {
    if i :| ErrorAt(size, script, i) {
      assert script == script[..i] + [Fails] + script[i + 1..];
      SentUntilError(size, script[..i], script[i + 1..]);
    } else if Fails in script {
      var i := FirstError(script);
      assert script == script[..i] + script[i..];
      assert !ErrorAt(size, script, i);
      SentBeforeError(size, script[..i], script[i..]);
    } else {
      SentAll(size, script);
    }
  }

  lemma {:induction false} FirstError(script: seq<Outcome>) returns (i: nat)
    requires Fails in script
    ensures i < |script| && script[i] == Fails && Fails !in script[..i]
  {
    if script[0] == Fails {
      i := 0;
    } else {
      assert script == [script[0]] + script[1..];
      var j := FirstError(script[1..]);
      i := j + 1;
      assert script[..i] == [script[0]] + script[1..][..j];
    }
  }

  /** Over a reliable stream everything that is wanted and comes is stored. */
  lemma {:induction false} GotAll(len: nat, avail: nat, script: seq<Outcome>)
    requires Reliable(script)
    ensures Got(len, avail, script) == Min(len, avail)
    decreases |script|
  {
    if len > 0 && script != [] {
      assert script[0] in script;
      if script[0].Moves? {
        var m := Min(script[0].n, Min(len, avail));
        if m > 0 { GotAll(len - m, avail - m, script[1..]); }
      } else {
        GotAll(len, avail, script[1..]);
      }
    }
  }

  /** An error, or the peer's shutdown, ends it: what had come before is stored, and it is not enough. */
  lemma {:induction false} GotUntilEnd(len: nat, avail: nat, a: seq<Outcome>, o: Outcome, b: seq<Outcome>)
    requires Reliable(a) && Moved(a) < len && Moved(a) <= avail && (o == Fails || o == Moves(0))
    ensures Got(len, avail, a + [o] + b) == Moved(a)
    decreases |a|
  {
    var script := a + [o] + b;
    if a == [] {
      assert script[0] == o;
    } else {
      assert a[0] in a && script[0] == a[0] && script[1..] == a[1..] + [o] + b;
      assert Fails !in a[1..] && Moves(0) !in a[1..];
      if a[0].Moves? {
        GotUntilEnd(len - a[0].n, avail - a[0].n, a[1..], o, b);
      } else {
        GotUntilEnd(len, avail, a[1..], o, b);
      }
    }
  }

  /**
   End to end over a reliable stream: what one side's writeFully delivers, the other side's readFully stores, byte
   for byte, however the two sides are fragmented and interrupted.
   */
  lemma ExactTransfer(data: seq<Byte>, sender: seq<Outcome>, receiver: seq<Outcome>)
    requires Fails !in sender && Reliable(receiver)
    ensures var wire := data[..Sent(|data|, sender)];
      wire[..Got(|data|, |wire|, receiver)] == data
  {
    SentAll(|data|, sender);
    GotAll(|data|, |data|, receiver);
  }

  /** A sender that fails half-way leaves the receiver short, whatever the receiver's script. */
  lemma ShortTransferIsSeen(data: seq<Byte>, sender: seq<Outcome>, receiver: seq<Outcome>)
    ensures var n := Sent(|data|, sender);
      Got(|data|, n, receiver) == |data| ==> n == |data|
  {
  }

  /** The first `n` bytes have moved from the stream to the front of the buffer, and nothing else has changed. */
  ghost predicate Split(stream: seq<Byte>, before: seq<Byte>, n: nat, left: seq<Byte>, buf: seq<Byte>) {
    n <= |stream| && n <= |before| && left == stream[n..] && buf == stream[..n] + before[n..]
  }

  lemma SplitMoves(stream: seq<Byte>, before: seq<Byte>, n: nat, left: seq<Byte>, buf: seq<Byte>, k: nat)
    requires Split(stream, before, n, left, buf) && k <= |left| && n + k <= |before|
    ensures Split(stream, before, n + k, left[k..], buf[..n] + left[..k] + buf[n + k..])
  {
    assert stream[..n] + stream[n..][..k] == stream[..n + k];
    assert buf[n + k..] == before[n + k..];
  }

  function Rest(script: seq<Outcome>): seq<Outcome> {
    if script == [] then [] else script[1..]
  }

  /** What recv of at most `n` bytes returns when `avail` are there to come. */
  function RecvStat(script: seq<Outcome>, n: nat, avail: nat): (stat: int)
    ensures stat <= n && stat <= avail
  {
    if script == [] then Min(n, avail) else if script[0].Moves? then Min(script[0].n, Min(n, avail)) else -1
  }

  /** writeFully with `res` bytes to go: the rest of the script decides the rest. */
  ghost predicate SendOnTrack(size: nat, script: seq<Outcome>, res: int, now: seq<Outcome>) {
    && 0 <= res <= size
    && Sent(size, script) == (size - res) + Sent(res, now)
    && SentRest(size, script) == SentRest(res, now)
  }

  lemma SendStep(size: nat, script: seq<Outcome>, res: int, now: seq<Outcome>)
    requires SendOnTrack(size, script, res, now) && res > 0
    ensures now == [] ==> SendOnTrack(size, script, 0, [])
    ensures now != [] && now[0].Moves? ==> SendOnTrack(size, script, res - Min(now[0].n, res), now[1..])
    ensures now != [] && now[0].Interrupted? ==> SendOnTrack(size, script, res, now[1..])
    ensures now != [] && now[0].Fails? ==> Sent(size, script) == size - res && SentRest(size, script) == now[1..]
  {
  }

  lemma NextBytes(before: seq<Byte>, block: seq<Byte>, n: nat, k: nat)
    requires n + k <= |block|
    ensures before + block[..n] + block[n..n + k] == before + block[..n + k]
  {
    assert block[..n] + block[n..n + k] == block[..n + k];
  }

  /** With `res` bytes to go, the rest of the script leads to `total` in all. */
  ghost predicate OnTrack(len: nat, total: nat, res: int, avail: nat, script: seq<Outcome>) {
    0 <= res <= len && total == (len - res) + Got(res, avail, script)
  }

  lemma TrackStep(len: nat, total: nat, res: int, avail: nat, script: seq<Outcome>)
    requires OnTrack(len, total, res, avail, script) && res > 0
    ensures var stat := RecvStat(script, res, avail);
      if stat > 0 then OnTrack(len, total, res - stat, avail - stat, Rest(script))
      else if Interrupts(script) then OnTrack(len, total, res, avail, Rest(script)) && |Rest(script)| < |script|
      else total == len - res
  {
  }

  predicate Interrupts(script: seq<Outcome>) {
    script != [] && script[0].Interrupted?
  }

  class SocketStream {
    // IOStream
    var ioBuf: array?<Byte>
    var ioBufsize: nat
    var ioFree: nat
    // SocketStream
    var sock: int
    var sockBufsize: nat
    var sockBuf: array?<Byte>
    // the connection
    var wire: seq<Byte>            // everything the kernel took from us
    var incoming: seq<Byte>        // what the peer sends and we have not received
    var sendScript: seq<Outcome>
    var recvScript: seq<Outcome>

    /** The capacity of the real block bounds what either class believes, as long as the block is held. */
    ghost predicate Valid()
      reads this
    {
      && (sockBuf != null ==> sockBufsize <= sockBuf.Length <= INT_MAX)
      && (ioBuf != null ==> ioBuf == sockBuf && ioBufsize <= ioBuf.Length)
      && ioFree <= ioBufsize <= INT_MAX
      && sockBufsize <= INT_MAX
    }

    function Used(): nat
      reads this
      requires Valid()
    {
      if ioBuf == null then 0 else ioBufsize - ioFree
    }

    /** Chunks handed out and not flushed. */
    function Pending(): seq<Byte>
      reads this, ioBuf
      requires Valid()
    {
      if ioBuf == null then [] else ioBuf[..Used()]
    }

    /** The stream so far: what went out, then what waits. */
    function Stream(): seq<Byte>
      reads this, ioBuf
      requires Valid()
    {
      wire + Pending()
    }

    constructor (s: int, bufSize: nat)
      requires bufSize <= INT_MAX
      ensures Valid() && sock == s && wire == [] && Stream() == [] && sockBuf == null && sendScript == []
    {
      ioBuf, ioBufsize, ioFree := null, bufSize, 0;
      sock, sockBufsize, sockBuf := s, bufSize, null;
      wire, incoming, sendScript, recvScript := [], [], [], [];
    }

    predicate SockValid()
      reads this`sock
    {
      sock >= 0
    }

    /** ::send of block[at..at + n]: the bytes taken, or -1; `eintr` tells errno. */
    method Send(block: array<Byte>, at: nat, n: nat) returns (stat: int, eintr: bool)
      requires at + n <= block.Length
      modifies this`wire, this`sendScript
      ensures sendScript == if old(sendScript) == [] then [] else old(sendScript)[1..]
      ensures old(sendScript) == [] ==> stat == n
      ensures old(sendScript) != [] ==>
        match old(sendScript)[0]
        case Moves(k) => stat == Min(k, n)
        case Interrupted => stat == -1 && eintr
        case Fails => stat == -1 && !eintr
      ensures wire == old(wire) + if stat < 0 then [] else block[at..at + stat]
    {
      var o := if sendScript == [] then Moves(n) else sendScript[0];
      sendScript := if sendScript == [] then [] else sendScript[1..];
      if o.Moves? {
        stat, eintr := Min(o.n, n), false;
        wire := wire + block[at..at + stat];
      } else {
        stat, eintr := -1, o.Interrupted?;
      }
    }

    /** ::recv into buf[at..at + n]; no byte moved means the peer has shut down. */
    method Recv(buf: array<Byte>, at: nat, n: nat) returns (stat: int, eintr: bool)
      requires at + n <= buf.Length
      modifies this`incoming, this`recvScript, buf
      ensures recvScript == Rest(old(recvScript))
      ensures stat == RecvStat(old(recvScript), n, |old(incoming)|)
      ensures eintr == Interrupts(old(recvScript))
      ensures 0 < stat ==>
        && incoming == old(incoming)[stat..]
        && buf[..] == old(buf[..])[..at] + old(incoming)[..stat] + old(buf[..])[at + stat..]
      ensures stat <= 0 ==> incoming == old(incoming) && buf[..] == old(buf[..])
    {
      var o := if recvScript == [] then Moves(n) else recvScript[0];
      recvScript := Rest(recvScript);
      if o.Moves? {
        stat, eintr := Min(o.n, Min(n, |incoming|)), false;
        forall i | 0 <= i < stat { buf[at + i] := incoming[i]; }
        incoming := incoming[stat..];
      } else {
        stat, eintr := -1, o.Interrupted?;
      }
    }

    method WriteFully(block: array<Byte>, size: nat) returns (retval: int)
      requires size <= block.Length
      modifies this`wire, this`sendScript
      ensures !SockValid() ==> retval == -1 && wire == old(wire) && sendScript == old(sendScript)
      ensures Fails !in old(sendScript) ==> Fails !in sendScript
      ensures SockValid() ==>
        && sendScript == SentRest(size, old(sendScript))
        && wire == old(wire) + block[..Sent(size, old(sendScript))]
        && retval == (if Sent(size, old(sendScript)) == size then 0 else -1)
    {
      if !SockValid() { return -1; }
      if Fails !in sendScript { SentRestKeeps(size, sendScript); }
      retval := WriteLoop(block, size, wire, sendScript);
    }

    /** The loop of writeFully. */
    method WriteLoop(block: array<Byte>, size: nat, ghost before: seq<Byte>, ghost script: seq<Outcome>) returns (retval: int)
      requires size <= block.Length && before == wire && script == sendScript
      modifies this`wire, this`sendScript
      ensures wire == before + block[..Sent(size, script)] && sendScript == SentRest(size, script)
      ensures retval == if Sent(size, script) == size then 0 else -1
    {
      var res := size;
      retval := 0;
      while res > 0
        invariant retval == 0 && SendOnTrack(size, script, res, sendScript)
        invariant wire == before + block[..size - res]
        decreases res, |sendScript|
      {
        SendStep(size, script, res, sendScript);
        ghost var sent := wire;
        var stat, eintr := Send(block, size - res, res);
        if stat < 0 {
          assert wire == sent + [] == sent;
          if !eintr {
            retval := stat;
            break;
          }
        } else {
          NextBytes(before, block[..], size - res, stat);
          res := res - stat;
        }
      }
    }

    /** True stands for a non-null result, which is `buf` itself. */
    method ReadFully(buf: array?<Byte>, len: nat) returns (ok: bool)
      requires buf != null ==> len <= buf.Length
      modifies this`incoming, this`recvScript, buf
      ensures !SockValid() || buf == null ==> !ok && incoming == old(incoming) && (buf != null ==> buf[..] == old(buf[..]))
      ensures SockValid() && buf != null ==>
        var n := Got(len, |old(incoming)|, old(recvScript));
        && ok == (n == len)
        && Split(old(incoming), old(buf[..]), n, incoming, buf[..])
    {
      if !SockValid() { return false; }
      if buf == null { return false; }
      ghost var stream, before := incoming, buf[..];
      ghost var total := Got(len, |incoming|, recvScript);
      assert Split(stream, before, 0, incoming, buf[..]);
      ok := ReadLoop(buf, len, stream, before, total);
    }

    /** The loop of readFully, on the way to `total` bytes in all. */
    method ReadLoop(buf: array<Byte>, len: nat, ghost stream: seq<Byte>, ghost before: seq<Byte>, ghost total: nat)
      returns (ok: bool)
      requires len <= buf.Length && OnTrack(len, total, len, |incoming|, recvScript)
      requires Split(stream, before, 0, incoming, buf[..])
      modifies this`incoming, this`recvScript, buf
      ensures Split(stream, before, total, incoming, buf[..]) && ok == (total == len)
    {
      var res := len;
      while res > 0
        invariant OnTrack(len, total, res, |incoming|, recvScript)
        invariant Split(stream, before, len - res, incoming, buf[..])
        decreases res, |recvScript|
      {
        TrackStep(len, total, res, |incoming|, recvScript);
        var stat, eintr := Receive(buf, len - res, res, stream, before);
        if stat > 0 {
          res := res - stat;
          continue;
        }
        if stat == 0 || !eintr {
          return false;
        }
      }
      return true;
    }

    /** recv in the loop of readFully: the bytes that come join the ones that have. */
    method Receive(buf: array<Byte>, done: nat, n: nat, ghost stream: seq<Byte>, ghost before: seq<Byte>)
      returns (stat: int, eintr: bool)
      requires done + n <= buf.Length && Split(stream, before, done, incoming, buf[..])
      modifies this`incoming, this`recvScript, buf
      ensures recvScript == Rest(old(recvScript)) && eintr == Interrupts(old(recvScript))
      ensures stat == RecvStat(old(recvScript), n, |old(incoming)|)
      ensures var moved := if stat > 0 then stat else 0;
        Split(stream, before, done + moved, incoming, buf[..]) && |incoming| == |old(incoming)| - moved
    {
      ghost var left, now := incoming, buf[..];
      stat, eintr := Recv(buf, done, n);
      if stat > 0 {
        SplitMoves(stream, before, done, left, now, stat);
      }
    }

    method CommitBuffer(size: nat) returns (retval: int)
      requires sockBuf != null && size <= sockBuf.Length
      modifies this`wire, this`sendScript
      ensures !SockValid() ==> retval == -1 && wire == old(wire) && sendScript == old(sendScript)
      ensures Fails !in old(sendScript) ==> Fails !in sendScript
      ensures SockValid() ==>
        && sendScript == SentRest(size, old(sendScript))
        && wire == old(wire) + sockBuf[..Sent(size, old(sendScript))]
        && retval == (if Sent(size, old(sendScript)) == size then 0 else -1)
    {
      retval := WriteFully(sockBuf, size);
    }

    /** malloc leaves `sockBufsize` as it is, too small or not; realloc sets it, and a failed one frees the block. */
    method AllocBuffer(minSize: Size, memory: bool) returns (block: array?<Byte>)
      requires sockBufsize <= INT_MAX && (sockBuf != null ==> sockBufsize <= sockBuf.Length)
      modifies this`sockBuf, this`sockBufsize
      ensures block == sockBuf
      ensures block != null ==> minSize <= block.Length && sockBufsize <= block.Length
      ensures block != null && block != old(sockBuf) ==> fresh(block) && block.Length == Max(minSize, old(sockBufsize))
      ensures block == null ==> !memory || PTRDIFF_MAX < minSize
      ensures PTRDIFF_MAX < minSize ==> block == null
      ensures sockBufsize <= Max(minSize, old(sockBufsize)) && (minSize > PTRDIFF_MAX ==> sockBufsize <= old(sockBufsize))
    {
      var allocSize := if sockBufsize < minSize then minSize else sockBufsize;
      if sockBuf == null {
        if memory && allocSize <= PTRDIFF_MAX {
          sockBuf := new Byte[allocSize];
        }
      } else if sockBufsize < allocSize {
        if memory && allocSize <= PTRDIFF_MAX {
          sockBuf := Realloc(sockBuf, allocSize);
          sockBufsize := allocSize;
        } else {
          sockBuf := null;
          sockBufsize := 0;
        }
      }
      return sockBuf;
    }

    static method Realloc(block: array<Byte>, size: nat) returns (r: array<Byte>)
      ensures fresh(r) && r.Length == size
      ensures forall i | 0 <= i < Min(size, block.Length) :: r[i] == block[i]
    {
      r := new Byte[size](i reads block => if 0 <= i < block.Length then block[i] else 0);
    }

    /** Pending bytes go out and the buffer is let go; on a failed send a part of them is lost. */
    method Flush() returns (stat: int)
      requires Valid()
      modifies this`ioBuf, this`ioFree, this`wire, this`sendScript
      ensures Valid() && ioBufsize == old(ioBufsize)
      ensures Pending() == []
      ensures stat == 0 || stat == -1
      ensures stat == 0 ==> wire == old(Stream())
      ensures stat == -1 ==> old(wire) <= wire < old(Stream())
      ensures SockValid() ==> var pend := old(Pending()); var n := Sent(|pend|, old(sendScript));
        wire == old(wire) + pend[..n] && (stat == 0 <==> n == |pend|) && sendScript == SentRest(|pend|, old(sendScript))
      ensures !SockValid() ==> wire == old(wire) && (stat == 0 <==> old(Pending()) == [])
      ensures SockValid() && Fails !in old(sendScript) ==> stat == 0
      ensures Fails !in old(sendScript) ==> Fails !in sendScript
      ensures ioBuf != null ==> ioFree == ioBufsize && ioBuf == old(ioBuf)
    {
      if ioBuf == null || ioFree == ioBufsize { return 0; }
      ghost var pend := Pending();
      ghost var script := sendScript;
      stat := CommitBuffer(ioBufsize - ioFree);
      ioBuf := null;
      ioFree := 0;
      if Fails !in script { SentAll(|pend|, script); }
      assert SockValid() ==> sockBuf[..Sent(|pend|, script)] == pend[..Sent(|pend|, script)];
    }

    /**
     A chunk of `len` bytes at position `ptr` of the block, or -1. A chunk is the next stretch of the stream: it
     starts where everything before it ends, those bytes stay as they are, and the block is large enough for it.
     The block's size is computed in an `int`: a length from 2^31 on gets no chunk that fits, and from 2^32 on only its
     low 32 bits count. With memory and no send error the buffer breaks exactly when these are a small number, because
     then a chunk is handed out that ends outside the block.
     */
    method Alloc(len: Size, memory: bool) returns (ptr: int)
      requires Valid()
      modifies this`ioBuf, this`ioBufsize, this`ioFree, this`wire, this`sendScript, this`sockBuf, this`sockBufsize
      ensures Valid() <==> ptr < 0 || len < TWO32
      ensures old(SockValid()) && Fails !in old(sendScript) && memory ==>
        (Valid() <==> len < TWO32 || TWO31 <= len % TWO32) && (ptr < 0 <==> TWO31 <= len % TWO32 || TWO31 <= len < TWO32)
      ensures sockBuf == null || fresh(sockBuf) || sockBuf == old(sockBuf)
      ensures 0 <= ptr && len < TWO32 ==>
        && len <= INT_MAX
        && ioBuf != null
        && ptr + len == Used() <= ioBuf.Length
        && |wire| + ptr == |old(Stream())|
        && wire + Pending()[..ptr] == old(Stream())
      ensures 0 <= ptr && TWO32 <= len ==> ioBuf != null && ioBuf.Length < ptr + len
      ensures old(ioBuf != null && len <= ioFree) ==>
        0 <= ptr && ioBuf == old(ioBuf) && wire == old(wire) && sendScript == old(sendScript)
      ensures 0 <= ptr && len < TWO32 ==> ioBufsize == Max(old(ioBufsize), len)
      ensures ptr < 0 ==> Pending() == [] && old(wire) <= wire <= old(Stream())
      ensures Fails !in old(sendScript) ==> Fails !in sendScript
      ensures ptr < 0 && SockValid() && Fails !in old(sendScript) ==> (!memory || INT_MAX < len) && wire == old(Stream())
    {
      ghost var stream := Stream();
      if ioBuf != null && len > ioFree {
        var stat := Flush();
        if stat < 0 {
          return -1;
        }
      }
      var room := MakeRoom(len, memory);
      if !room {
        return -1;
      }
      ptr := ioBufsize - ioFree;
      ioFree := Minus(ioFree, len);
    }

    /** The second step of alloc: a block, if none is held or the one that is held is too small. */
    method MakeRoom(len: Size, memory: bool) returns (ok: bool)
      requires Valid() && (ioBuf == null || len <= ioFree || ioFree == ioBufsize)
      modifies this`ioBuf, this`ioBufsize, this`ioFree, this`sockBuf, this`sockBufsize
      ensures Valid() && Stream() == old(Stream()) && (ok <==> ioBuf != null)
      ensures sockBuf == null || fresh(sockBuf) || sockBuf == old(sockBuf)
      ensures ok ==> ioBuf.Length <= INT_MAX && (len <= ioFree || TWO32 <= len)
      ensures ok && len < TWO32 ==> ioBufsize == Max(old(ioBufsize), len)
      ensures old(ioBuf != null && len <= ioFree) ==> ok && ioBuf == old(ioBuf)
      ensures !ok ==> !memory || INT_MAX < len
      ensures memory && TWO31 <= len ==> (ok <==> TWO32 <= len && len % TWO32 < TWO31)
    {
      if ioBuf == null || len > ioBufsize {
        var allocLen := AllocLen(len, ioBufsize);
        AllocLenRanges(len, ioBufsize);
        ioBuf := AllocBuffer(ToSize(allocLen), memory);
        if ioBuf == null {
          return false;
        }
        ioBufsize, ioFree := ToSize(allocLen), ToSize(allocLen);
      }
      return true;
    }

    /** The result of the flush is ignored; `flushed` says what it was. */
    method Readback(buf: array?<Byte>, len: nat) returns (ok: bool, ghost flushed: bool)
      requires Valid() && (buf != null ==> len <= buf.Length && buf != sockBuf)
      modifies this`ioBuf, this`ioFree, this`wire, this`sendScript, this`incoming, this`recvScript, buf
      ensures Valid() && Pending() == []
      ensures flushed ==> wire == old(Stream())
      ensures !flushed ==> old(wire) <= wire < old(Stream())
      ensures SockValid() && Fails !in old(sendScript) ==> flushed
      ensures Fails !in old(sendScript) ==> Fails !in sendScript
      ensures SockValid() && buf != null ==>
        var n := Got(len, |old(incoming)|, old(recvScript));
        ok == (n == len) && Split(old(incoming), old(buf[..]), n, incoming, buf[..])
    {
      var stat := Flush();
      flushed := stat == 0;
      ok := ReadFully(buf, len);
    }

    /** A client writes its chunk, at any time before the flush. */
    method Fill(ptr: nat, data: seq<Byte>)
      requires Valid() && ioBuf != null && ptr + |data| <= Used()
      modifies ioBuf
      ensures Valid() && Pending() == old(Pending())[..ptr] + data + old(Pending())[ptr + |data|..]
    {
      forall i | 0 <= i < |data| { ioBuf[ptr + i] := data[i]; }
    }

    /** What a client does with one chunk, if it is one that alloc can serve. */
    method Put(c: seq<Byte>, memory: bool) returns (ok: bool)
      requires Valid()
      modifies this, sockBuf
      ensures Valid() && sock == old(sock)
      ensures sockBuf == null || fresh(sockBuf) || sockBuf == old(sockBuf)
      ensures ok ==> Stream() == old(Stream()) + c
      ensures Fails !in old(sendScript) ==> Fails !in sendScript
      ensures SockValid() && Fails !in old(sendScript) && memory && |c| <= INT_MAX ==> ok
    {
      if TWO32 <= |c| {
        return false;
      }
      var ptr := Alloc(|c|, memory);
      if ptr < 0 {
        return false;
      }
      ghost var pend := Pending();
      Fill(ptr, c);
      FilledLast(wire, pend, ptr, c);
      return true;
    }

    /** One call of a client; `ok` says that nothing failed on the sending side, seen by the client or not. */
    method Do(o: Op, memory: bool) returns (ghost ok: bool)
      requires Valid()
      modifies this, sockBuf
      ensures Valid() && sock == old(sock)
      ensures sockBuf == null || fresh(sockBuf) || sockBuf == old(sockBuf)
      ensures ok ==> Stream() == old(Stream()) + Bytes(o)
      ensures Fails !in old(sendScript) ==> Fails !in sendScript
      ensures SockValid() && Fails !in old(sendScript) && memory && |Bytes(o)| <= INT_MAX ==> ok
    {
      match o
      case Chunk(c) =>
        var put := Put(c, memory);
        ok := put;
      case FlushNow =>
        var stat := Flush();
        ok := stat == 0;
        assert wire + [] == wire;
      case Read(n) =>
        var buf := new Byte[n](_ => 0);
        var got, flushed := Readback(buf, n);
        ok := flushed;
        assert wire + [] == wire;
    }

    /**
     Any run of the stream, of chunks, flushes and reads in any order: when nothing fails on the sending side, the bytes
     sent followed by the bytes pending have grown by exactly the chunks, in order.
     */
    method DoAll(ops: seq<Op>, memory: bool) returns (ghost ok: bool)
      requires Valid()
      modifies this, sockBuf
      ensures Valid()
      ensures ok ==> Stream() == old(Stream()) + Chunks(ops)
      ensures old(SockValid()) && Fails !in old(sendScript) && memory && (forall o | o in ops :: |Bytes(o)| <= INT_MAX) ==> ok
    {
      ok := true;
      var k := 0;
      while k < |ops|
        invariant k <= |ops|
        invariant Valid() && sock == old(sock)
        invariant sockBuf == null || fresh(sockBuf) || sockBuf == old(sockBuf)
        invariant ok ==> Stream() == old(Stream()) + Chunks(ops[..k])
        invariant Fails !in old(sendScript) ==> Fails !in sendScript
        invariant old(SockValid()) && Fails !in old(sendScript) && memory && (forall o | o in ops :: |Bytes(o)| <= INT_MAX) ==> ok
      {
        ghost var done := Do(ops[k], memory);
        ok := ok && done;
        ChunksNext(ops, k);
        k := k + 1;
      }
      assert ops[..k] == ops;
    }

    /** The buffer does break: a fresh stream of the usual size, and one call with a length whose low 32 bits are 0. */
    static method BreakBuffer(sock: int) returns (s: SocketStream, ptr: int)
      requires 0 <= sock
      ensures fresh(s) && 0 <= ptr && !s.Valid()
      ensures s.ioBuf != null && s.ioBuf.Length < ptr + TWO32
    {
      s := new SocketStream(sock, 10000);
      ptr := s.Alloc(TWO32, true);
    }
  }

  datatype Op = Chunk(bytes: seq<Byte>) | FlushNow | Read(n: nat)

  function Bytes(o: Op): seq<Byte> {
    if o.Chunk? then o.bytes else []
  }

  function Chunks(ops: seq<Op>): seq<Byte> {
    if ops == [] then [] else Chunks(ops[..|ops| - 1]) + Bytes(ops[|ops| - 1])
  }

  lemma ChunksNext(ops: seq<Op>, k: nat)
    requires k < |ops|
    ensures forall s: seq<Byte> :: s + Chunks(ops[..k]) + Bytes(ops[k]) == s + Chunks(ops[..k + 1])
  {
    assert ops[..k + 1][..k] == ops[..k];
    forall s: seq<Byte> ensures s + Chunks(ops[..k]) + Bytes(ops[k]) == s + Chunks(ops[..k + 1]) {
      assert s + Chunks(ops[..k]) + Bytes(ops[k]) == s + (Chunks(ops[..k]) + Bytes(ops[k]));
    }
  }

  /** A chunk that ends where the pending bytes end. */
  lemma FilledLast(wire: seq<Byte>, pend: seq<Byte>, ptr: nat, c: seq<Byte>)
    requires ptr + |c| == |pend|
    ensures wire + (pend[..ptr] + c + pend[ptr + |c|..]) == wire + pend[..ptr] + c
  {
    assert pend[ptr + |c|..] == [];
  }

  /**
   End to end: one stream writes a block, its bytes arrive at the other, and that one reads. What is stored is the
   block's front, as far as both scripts let it come, and a full read means a full, equal block.
   */
  method Transfer(sender: SocketStream, receiver: SocketStream, block: array<Byte>, buf: array<Byte>)
    returns (written: int, ok: bool)
    requires sender != receiver && block != buf && block.Length == buf.Length
    requires sender.SockValid() && receiver.SockValid() && receiver.incoming == []
    modifies sender`wire, sender`sendScript, receiver`incoming, receiver`recvScript, buf
    ensures var size := block.Length; var sent := Sent(size, old(sender.sendScript));
      var got := Got(size, sent, old(receiver.recvScript));
      buf[..] == block[..got] + old(buf[..])[got..] && (written == 0 <==> sent == size) && ok == (got == size)
    ensures ok ==> written == 0 && buf[..] == block[..]
    ensures Fails !in old(sender.sendScript) && Reliable(old(receiver.recvScript)) ==> ok
  {
    ghost var size := block.Length;
    var before := |sender.wire|;
    ghost var sendScript, recvScript := sender.sendScript, receiver.recvScript;
    written := sender.WriteFully(block, block.Length);
    ghost var sent := Sent(size, sendScript);
    assert sender.wire[before..] == block[..sent];
    receiver.incoming := sender.wire[before..];
    ok := receiver.ReadFully(buf, buf.Length);
    ghost var got := Got(size, sent, recvScript);
    assert block[..sent][..got] == block[..got];
    if Fails !in sendScript && Reliable(recvScript) {
      SentAll(size, sendScript);
      GotAll(size, sent, recvScript);
    }
    if ok {
      assert block[..got] == block[..] && old(buf[..])[got..] == [];
    }
  }
}
