/**
 Reading inotify events: a cursor over a byte buffer of variable-length kernel records.

 A record is four 32-bit words in the machine's (little-endian) order, wd, mask, cookie and len, followed by `len`
 bytes that hold the NUL-padded name. The watcher must return exactly the records the kernel wrote.
 */
module EventCursor {
  import opened Base

  const NAME_MAX := 255
  const EVENT_SIZE := 16
  const CURRENT_EVENT_SIZE := 16 * (EVENT_SIZE + NAME_MAX + 1)
  const EVENT_BUFFER_SIZE := 64 * (EVENT_SIZE + NAME_MAX + 1)

  type Word = w: int | 0 <= w < TWO32

  /** The fields the service reads; `len` is the padded length of the name, 0 when there is none. */
  datatype Event = Event(wd: int, mask: Word, cookie: Word, name: seq<Byte>, len: nat) {
    /** What the kernel writes: a signed 32-bit wd, and a name of at most NAME_MAX bytes that leaves room for a NUL. */
    predicate Valid() {
      && -TWO31 <= wd < TWO31
      && 0 !in name
      && (if len == 0 then name == [] else |name| < len <= NAME_MAX + 1)
    }
  }

  function Le32(w: Word): (b: seq<Byte>)
    ensures |b| == 4
  {
    var w1 := w / 256;
    var w2 := w1 / 256;
    [w % 256, w1 % 256, w2 % 256, w2 / 256]
  }

  function Word32(b: seq<Byte>): Word
    requires |b| == 4
  {
    b[0] + 256 * (b[1] + 256 * (b[2] + 256 * (b[3] as int)))
  }

  lemma Word32OfLe32(w: Word)
    ensures Word32(Le32(w)) == w
  {
  }

  function Unsigned(wd: int): Word
    requires -TWO31 <= wd < TWO31
  {
    if wd < 0 then wd + TWO32 else wd
  }

  function Signed(w: Word): int {
    if w < TWO31 then w else w - TWO32
  }

  function Header(e: Event): (b: seq<Byte>)
    requires e.Valid()
    ensures |b| == EVENT_SIZE
  {
    Le32(Unsigned(e.wd)) + Le32(e.mask) + Le32(e.cookie) + Le32(e.len)
  }

  function Padded(e: Event): (b: seq<Byte>)
    requires e.Valid()
    ensures |b| == e.len
  {
    e.name + seq(e.len - |e.name|, _ => 0)
  }

  function Encode(e: Event): (b: seq<Byte>)
    requires e.Valid()
    ensures |b| == EVENT_SIZE + e.len <= CURRENT_EVENT_SIZE
  {
    Header(e) + Padded(e)
  }

  ghost predicate AllValid(es: seq<Event>) {
    forall e | e in es :: e.Valid()
  }

  function EncodeAll(es: seq<Event>): (b: seq<Byte>)
    requires AllValid(es)
    ensures es == [] <==> b == []
    ensures |b| >= EVENT_SIZE * |es|
  {
    if es == [] then [] else Encode(es[0]) + EncodeAll(es[1..])
  }

  /** e->len, read at the start of a record. */
  function LenField(b: seq<Byte>): Word
    requires |b| >= EVENT_SIZE
  {
    Word32(b[12..16])
  }

  /** QString(event->name): the bytes up to the first NUL. */
  function CString(b: seq<Byte>): (s: seq<Byte>)
    ensures |s| <= |b| && 0 !in s
  {
    if b == [] || b[0] == 0 then [] else [b[0]] + CString(b[1..])
  }

  /** The record at the start of `b`, as the fields of a struct inotify_event. */
  function Decode(b: seq<Byte>): Event
    requires |b| >= EVENT_SIZE && |b| >= EVENT_SIZE + LenField(b)
  {
    Event(Signed(Word32(b[0..4])), Word32(b[4..8]), Word32(b[8..12]), CString(b[16..16 + LenField(b)]), LenField(b))
  }

  lemma {:induction false} CStringOfPadded(name: seq<Byte>, n: nat)
    requires 0 !in name
    ensures CString(name + seq<Byte>(n, _ => 0)) == name
  {
    var b := name + seq<Byte>(n, _ => 0);
    if name != [] {
      assert b[1..] == name[1..] + seq<Byte>(n, _ => 0);
      CStringOfPadded(name[1..], n);
    }
  }

  lemma HeaderFields(e: Event, b: seq<Byte>)
    requires e.Valid() && |b| >= EVENT_SIZE && b[..EVENT_SIZE] == Header(e)
    ensures LenField(b) == e.len
    ensures Signed(Word32(b[0..4])) == e.wd && Word32(b[4..8]) == e.mask && Word32(b[8..12]) == e.cookie
  {
    var h := b[..EVENT_SIZE];
    assert b[0..4] == h[0..4] == Le32(Unsigned(e.wd));
    assert b[4..8] == h[4..8] == Le32(e.mask);
    assert b[8..12] == h[8..12] == Le32(e.cookie);
    assert b[12..16] == h[12..16] == Le32(e.len);
    Word32OfLe32(Unsigned(e.wd));
    Word32OfLe32(e.mask);
    Word32OfLe32(e.cookie);
    Word32OfLe32(e.len);
  }

  /** Decoding undoes encoding, whatever bytes follow the record. */
  lemma DecodeEncode(e: Event, rest: seq<Byte>)
    requires e.Valid()
    ensures var b := Encode(e) + rest; LenField(b) == e.len && Decode(b) == e
  {
    var b := Encode(e) + rest;
    assert b[..EVENT_SIZE] == Header(e);
    HeaderFields(e, b);
    assert b[16..16 + e.len] == Padded(e);
    if e.len > 0 {
      CStringOfPadded(e.name, e.len - |e.name|);
    }
  }

  /** The layout of struct inotify_event, on one record: words of four bytes, the lowest first, then the padded name. */
  lemma KnownRecord()
    ensures
      var header: seq<Byte> := [255, 255, 255, 255] + [0, 1, 0, 64] + [7, 0, 0, 0] + [4, 0, 0, 0];
      var b := header + [97, 98, 0, 0];
      LenField(b) == 4 && Decode(b) == Event(-1, 0x4000_0100, 7, [97, 98], 4)
  {
    var wd: seq<Byte>, mask: seq<Byte>, cookie: seq<Byte>, len: seq<Byte> :=
      [255, 255, 255, 255], [0, 1, 0, 64], [7, 0, 0, 0], [4, 0, 0, 0];
    var name: seq<Byte> := [97, 98, 0, 0];
    var b := wd + mask + cookie + len + name;
    assert b[0..4] == wd && b[4..8] == mask && b[8..12] == cookie && b[12..16] == len;
    assert Word32(len) == 4 && b[16..20] == name;
    KnownName();
  }

  lemma KnownName()
    ensures CString([97, 98, 0, 0]) == [97, 98]
  {
    var two: seq<Byte> := seq<Byte>(2, _ => 0);
    CStringOfPadded([97, 98], 2);
    assert [97, 98] + two == [97, 98, 0, 0];
  }

  /** The serialisation is uniquely readable: equal bytes come from equal event lists. */
  lemma {:induction false} EncodeAllInjective(a: seq<Event>, b: seq<Event>)
    requires AllValid(a) && AllValid(b) && EncodeAll(a) == EncodeAll(b)
    ensures a == b
  {
    if a != [] {
      DecodeEncode(a[0], EncodeAll(a[1..]));
      DecodeEncode(b[0], EncodeAll(b[1..]));
      assert a[0] == b[0];
      var n := |Encode(a[0])|;
      assert EncodeAll(a[1..]) == EncodeAll(a)[n..] == EncodeAll(b[1..]);
      EncodeAllInjective(a[1..], b[1..]);
      assert a == [a[0]] + a[1..] && b == [b[0]] + b[1..];
    }
  }

  /** What poll and read answer when the buffer has to be filled. */
  datatype Input = Nothing | ReadError | Data(batch: seq<Event>) {
    /** One read returns whole records, as many as fit. */
    ghost predicate Valid() {
      Data? ==> AllValid(batch) && |EncodeAll(batch)| <= EVENT_BUFFER_SIZE
    }

    function Batch(): seq<Event> {
      if Data? then batch else []
    }
  }

  /** One call of readNextEvent, over the records still in the buffer. */
  function Next(pending: seq<Event>, input: Input): (Option<Event>, seq<Event>) {
    var avail := if pending == [] then input.Batch() else pending;
    if avail == [] then (None, []) else (Some(avail[0]), avail[1..])
  }

  /** The events a run of calls returns. */
  function Returned(pending: seq<Event>, inputs: seq<Input>): seq<Event>
    decreases |inputs|
  {
    if inputs == [] then [] else
    var (e, rest) := Next(pending, inputs[0]);
    (if e.Some? then [e.value] else []) + Returned(rest, inputs[1..])
  }

  /** The records the kernel handed over in the run: an input is used only when the buffer is empty. */
  function Written(pending: seq<Event>, inputs: seq<Input>): seq<Event>
    decreases |inputs|
  {
    if inputs == [] then [] else
    (if pending == [] then inputs[0].Batch() else []) + Written(Next(pending, inputs[0]).1, inputs[1..])
  }

  function Left(pending: seq<Event>, inputs: seq<Input>): seq<Event>
    decreases |inputs|
  {
    if inputs == [] then pending else Left(Next(pending, inputs[0]).1, inputs[1..])
  }

  /** Over any run the returned events, then those still buffered, are the records in order: none lost, none repeated. */
  lemma {:induction false} ExactDelivery(pending: seq<Event>, inputs: seq<Input>)
    ensures Returned(pending, inputs) + Left(pending, inputs) == pending + Written(pending, inputs)
    decreases |inputs|
  {
    if inputs != [] {
      var (e, rest) := Next(pending, inputs[0]);
      ExactDelivery(rest, inputs[1..]);
      var batch := if pending == [] then inputs[0].Batch() else [];
      var head := if e.Some? then [e.value] else [];
      var returned, written := Returned(rest, inputs[1..]), Written(rest, inputs[1..]);
      assert head + rest == pending + batch;
      Regroup(head, returned, Left(rest, inputs[1..]), rest, written, pending, batch);
    }
  }

  /** Nothing is held back: as long as records are buffered, each call returns the next one. */
  lemma {:induction false} NothingHeldBack(pending: seq<Event>, inputs: seq<Input>)
    requires |inputs| <= |pending|
    ensures Returned(pending, inputs) == pending[..|inputs|] && Left(pending, inputs) == pending[|inputs|..]
    decreases |inputs|
  {
    if inputs != [] {
      NothingHeldBack(pending[1..], inputs[1..]);
      assert pending == [pending[0]] + pending[1..];
    }
  }

  /** A read of some records, and as many calls as there are records: all of them come out, and the buffer is used up. */
  lemma BatchComesOut(batch: seq<Event>, inputs: seq<Input>)
    requires batch != [] && |inputs| == |batch| && inputs[0] == Data(batch)
    ensures Returned([], inputs) == batch && Left([], inputs) == []
  {
    assert Next([], inputs[0]) == (Some(batch[0]), batch[1..]);
    NothingHeldBack(batch[1..], inputs[1..]);
    assert batch == [batch[0]] + batch[1..];
  }

  /** An empty buffer and nothing new: nothing comes out. */
  lemma {:induction false} NothingFromNothing(inputs: seq<Input>)
    requires forall i | i in inputs :: i.Batch() == []
    ensures Returned([], inputs) == [] && Left([], inputs) == []
  {
    if inputs != [] {
      assert inputs[0] in inputs;
      NothingFromNothing(inputs[1..]);
    }
  }

  lemma Regroup(a: seq<Event>, b: seq<Event>, c: seq<Event>, d: seq<Event>, e: seq<Event>, f: seq<Event>, g: seq<Event>)
    requires b + c == d + e && a + d == f + g
    ensures (a + b) + c == f + (g + e)
  {
    assert (a + b) + c == a + (b + c);
    assert a + (d + e) == (a + d) + e;
    assert (f + g) + e == f + (g + e);
  }

  method Memcpy(dst: array<Byte>, src: array<Byte>, from: nat, n: nat)
    requires dst != src && n <= dst.Length && from + n <= src.Length
    modifies dst
    ensures dst[..n] == src[from..from + n] && dst[n..] == old(dst[n..])
  {
    forall i | 0 <= i < n { dst[i] := src[from + i]; }
  }

  class EventReader {
    var mInitialized: bool
    var mCurrentPosition: nat
    var mTotalRead: int
    const mCurrentEvent: array<Byte>
    const mEventBuffer: array<Byte>
    ghost var pending: seq<Event>

    ghost predicate Valid()
      reads this, mEventBuffer
    {
      && mCurrentEvent != mEventBuffer
      && mCurrentEvent.Length == CURRENT_EVENT_SIZE
      && mEventBuffer.Length == EVENT_BUFFER_SIZE
      && 0 <= mCurrentPosition <= mTotalRead <= EVENT_BUFFER_SIZE
      && AllValid(pending)
      && mEventBuffer[mCurrentPosition..mTotalRead] == EncodeAll(pending)
      && SaneLength()
    }

    /** At the start of the buffer stand the length of some record that was read there, or the zeros it was made with. */
    ghost predicate SaneLength()
      reads this, mEventBuffer
      requires mEventBuffer.Length == EVENT_BUFFER_SIZE
    {
      Word32(mEventBuffer[12..16]) <= NAME_MAX + 1
    }

    constructor ()
      ensures Valid() && fresh(mCurrentEvent) && fresh(mEventBuffer) && pending == [] && !mInitialized
    {
      mInitialized, mCurrentPosition, mTotalRead, pending := false, 0, 0, [];
      mCurrentEvent := new Byte[CURRENT_EVENT_SIZE](_ => 0);
      mEventBuffer := new Byte[EVENT_BUFFER_SIZE](_ => 0);
    }

    /** read(mInotifyFd, mEventBuffer, EVENT_BUFFER_SIZE). */
    method Read(input: Input) returns (n: int)
      requires input.Valid() && !input.Nothing?
      requires mEventBuffer.Length == EVENT_BUFFER_SIZE
      modifies mEventBuffer
      ensures input.ReadError? ==> n == -1
      ensures input.ReadError? ==> mEventBuffer[..] == old(mEventBuffer[..])
      ensures input.Data? ==>
        && n == |EncodeAll(input.batch)|
        && mEventBuffer[..n] == EncodeAll(input.batch) && mEventBuffer[n..] == old(mEventBuffer[n..])
    {
      if input.ReadError? { return -1; }
      var bytes := EncodeAll(input.batch);
      forall i | 0 <= i < |bytes| { mEventBuffer[i] := bytes[i]; }
      return |bytes|;
    }

    /** The refill at the head of readNextEvent: an empty buffer is filled by one poll and one read. */
    method Refill(input: Input) returns (ready: bool)
      requires Valid() && input.Valid()
      modifies this`mCurrentPosition, this`mTotalRead, this`pending, mEventBuffer
      ensures Valid()
      ensures pending == if old(pending) == [] then input.Batch() else old(pending)
      ensures pending == [] ==> mCurrentPosition == mTotalRead == 0
      ensures !ready ==> pending == []
    {
      if mCurrentPosition == mTotalRead {
        mTotalRead := 0;
        mCurrentPosition := 0;
        pending := [];
        if input.Nothing? { return false; }
        ghost var before := mEventBuffer[..];
        mTotalRead := Read(input);
        LengthAfterRead(input, before, mEventBuffer[..]);
        if mTotalRead < 0 {
          mTotalRead := 0;
          mCurrentPosition := 0;
          return false;
        }
        pending := input.batch;
      }
      return true;
    }

    /** e->len at the cursor. */
    method PeekLen() returns (len: Word)
      requires Valid() && (pending == [] ==> mCurrentPosition == 0)
      ensures pending != [] ==> len == pending[0].len && mCurrentPosition + EVENT_SIZE + len <= mTotalRead
      ensures len <= NAME_MAX + 1
    {
      if pending != [] {
        assert pending[0] in pending;
        assert mEventBuffer[..][mCurrentPosition..mTotalRead] == mEventBuffer[mCurrentPosition..mTotalRead];
        RecordAt(pending, mEventBuffer[..], mCurrentPosition, mTotalRead);
      }
      len := Word32(mEventBuffer[mCurrentPosition + 12..mCurrentPosition + 16]);
    }

    /** True stands for a non-null result, which points at `mCurrentEvent`. */
    method ReadNextEvent(input: Input) returns (got: bool)
      requires Valid() && input.Valid()
      modifies this`mCurrentPosition, this`mTotalRead, this`pending, mCurrentEvent, mEventBuffer
      ensures Valid()
      ensures !mInitialized ==> !got && pending == old(pending)
      ensures mInitialized ==> got == Next(old(pending), input).0.Some? && pending == Next(old(pending), input).1
      ensures mInitialized ==> (got <==> old(pending) != [] || input.Batch() != [])
      ensures got ==>
        && EVENT_SIZE + LenField(mCurrentEvent[..]) <= CURRENT_EVENT_SIZE
        && Decode(mCurrentEvent[..]) == Next(old(pending), input).0.value
    {
      if !mInitialized { return false; }
      var ready := Refill(input);
      if !ready { return false; }
      var len := PeekLen();
      if ToInt(mCurrentPosition + EVENT_SIZE + len) > mTotalRead {
        mCurrentPosition := 0;
        mTotalRead := 0;
        return false;
      }
      TakeRecord(len);
      return true;
    }

    /** The loop of the service around it: one input for each call, and the events in the order they come out. */
    method ReadEvents(inputs: seq<Input>) returns (events: seq<Event>)
      requires Valid() && mInitialized && forall i | i in inputs :: i.Valid()
      modifies this`mCurrentPosition, this`mTotalRead, this`pending, mCurrentEvent, mEventBuffer
      ensures Valid()
      ensures events == Returned(old(pending), inputs)
      ensures events + pending == old(pending) + Written(old(pending), inputs)
    {
      events := [];
      ghost var first := pending;
      var k := 0;
      while k < |inputs|
        invariant k <= |inputs| && Valid() && mInitialized
        invariant Delivering(first, inputs, events, pending, k)
      {
        DeliverNext(first, inputs, events, pending, k);
        var out := ReadOne(inputs[k]);
        events := events + out;
        k := k + 1;
      }
      assert inputs[k..] == [] && events + [] == events;
      ExactDelivery(first, inputs);
    }

    /** One turn of that loop: the event that a non-null result points at, as long as it stands there. */
    method ReadOne(input: Input) returns (out: seq<Event>)
      requires Valid() && mInitialized && input.Valid()
      modifies this`mCurrentPosition, this`mTotalRead, this`pending, mCurrentEvent, mEventBuffer
      ensures Valid()
      ensures var (e, rest) := Next(old(pending), input); out == (if e.Some? then [e.value] else []) && pending == rest
    {
      var got := ReadNextEvent(input);
      out := if got then [Decode(mCurrentEvent[..])] else [];
    }

    /** The end of readNextEvent: copy one record out and move past it. */
    method TakeRecord(len: Word)
      requires Valid() && pending != [] && len == pending[0].len
      modifies this`mCurrentPosition, this`pending, mCurrentEvent
      ensures Valid() && pending == old(pending)[1..]
      ensures LenField(mCurrentEvent[..]) == len && EVENT_SIZE + len <= CURRENT_EVENT_SIZE
      ensures Decode(mCurrentEvent[..]) == old(pending)[0]
    {
      assert mEventBuffer[..][mCurrentPosition..mTotalRead] == mEventBuffer[mCurrentPosition..mTotalRead];
      RecordAt(pending, mEventBuffer[..], mCurrentPosition, mTotalRead);
      Memcpy(mCurrentEvent, mEventBuffer, mCurrentPosition, EVENT_SIZE + len);
      DecodeCopy(pending[0], mCurrentEvent[..], EVENT_SIZE + len);
      mCurrentPosition := mCurrentPosition + EVENT_SIZE + len;
      pending := pending[1..];
    }
  }

  /** After `k` inputs: what has come out and what is still buffered lead to the same end. */
  ghost predicate Delivering(first: seq<Event>, inputs: seq<Input>, events: seq<Event>, pending: seq<Event>, k: nat) {
    && k <= |inputs|
    && Returned(first, inputs) == events + Returned(pending, inputs[k..])
    && Left(first, inputs) == Left(pending, inputs[k..])
  }

  lemma DeliverNext(first: seq<Event>, inputs: seq<Input>, events: seq<Event>, pending: seq<Event>, k: nat)
    requires Delivering(first, inputs, events, pending, k) && k < |inputs|
    ensures var (e, rest) := Next(pending, inputs[k]);
      Delivering(first, inputs, events + (if e.Some? then [e.value] else []), rest, k + 1)
  {
    assert inputs[k..][1..] == inputs[k + 1..];
    var (e, rest) := Next(pending, inputs[k]);
    var out := if e.Some? then [e.value] else [];
    assert events + (out + Returned(rest, inputs[k + 1..])) == events + out + Returned(rest, inputs[k + 1..]);
  }

  /** One read leaves the length of a record in the third word, or whatever stood there. */
  lemma LengthAfterRead(input: Input, before: seq<Byte>, after: seq<Byte>)
    requires input.Valid() && !input.Nothing? && |before| == |after| == EVENT_BUFFER_SIZE
    requires Word32(before[12..16]) <= NAME_MAX + 1
    requires input.ReadError? ==> after == before
    requires input.Data? ==> var n := |EncodeAll(input.batch)|;
      after[..n] == EncodeAll(input.batch) && after[n..] == before[n..]
    ensures Word32(after[12..16]) <= NAME_MAX + 1
  {
    if input.Data? && input.batch != [] {
      var n := |EncodeAll(input.batch)|;
      assert after[0..n] == after[..n];
      RecordAt(input.batch, after, 0, n);
      assert input.batch[0] in input.batch;
    } else if input.Data? {
      assert after[0..] == after && before[0..] == before;
    }
  }

  lemma DecodeCopy(e: Event, b: seq<Byte>, n: nat)
    requires e.Valid() && n <= |b| && b[..n] == Encode(e)
    ensures LenField(b) == e.len && Decode(b) == e
  {
    assert b == Encode(e) + b[n..];
    DecodeEncode(e, b[n..]);
  }

  /** Two consecutive pieces of a buffer, read through its own indices. */
  lemma SplitAt(buffer: seq<Byte>, at: nat, end: nat, head: seq<Byte>, tail: seq<Byte>)
    requires at <= end <= |buffer| && buffer[at..end] == head + tail
    ensures at + |head| <= end
    ensures buffer[at..at + |head|] == head && buffer[at + |head|..end] == tail
    ensures |head| >= EVENT_SIZE ==> buffer[at + 12..at + 16] == head[12..16]
  {
    var s := buffer[at..end];
    assert |s| == |head| + |tail|;
    forall k | 0 <= k < |head| ensures buffer[at + k] == head[k] {
      assert s[k] == head[k];
    }
    forall k | 0 <= k < |tail| ensures buffer[at + |head| + k] == tail[k] {
      assert s[|head| + k] == tail[k];
    }
  }

  lemma LenOfEncode(e: Event)
    requires e.Valid()
    ensures Word32(Encode(e)[12..16]) == e.len
  {
    assert Encode(e)[..EVENT_SIZE] == Header(e);
    HeaderFields(e, Encode(e));
  }

  /** The first of the buffered records, seen at the cursor. */
  lemma RecordAt(es: seq<Event>, buffer: seq<Byte>, at: nat, end: nat)
    requires AllValid(es) && es != [] && at <= end <= |buffer| && buffer[at..end] == EncodeAll(es)
    ensures var n := EVENT_SIZE + es[0].len;
      && at + n <= end
      && Word32(buffer[at + 12..at + 16]) == es[0].len
      && buffer[at..at + n] == Encode(es[0])
      && buffer[at + n..end] == EncodeAll(es[1..])
  {
    LenOfEncode(es[0]);
    SplitAt(buffer, at, end, Encode(es[0]), EncodeAll(es[1..]));
  }
}
