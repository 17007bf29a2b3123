/**
 * One ASIO session: its completion slot (an optional stored Status and an
 * optional registered callback) and the framing of reads and writes.
 *
 * Every transfer first tries a synchronous non-blocking read or write. The
 * stream's answer is a parameter of the method (the error code and the
 * bytes moved); an answer of "would block" arms one asynchronous
 * continuation for exactly the span still missing, and the stream's later
 * answer to that continuation is the parameter of the `On…` method that
 * models the handler.
 */
module AsioSession {
  import opened Base
  import opened WireHeader

  /** Identifies a `TicketCallback` so that its invocations can be recorded. */
  type CallbackId = nat

  /** One run of a callback with the status it received. */
  datatype Invocation = Invocation(callback: CallbackId, status: Status)

  /** The session's `_status` and `_callback` taken together. */
  datatype Slot = Slot(status: Option<Status>, callback: Option<CallbackId>)

  const EmptySlot: Slot := Slot(None, None)

  /** A slot never holds both a status and a callback. */
  predicate Exclusive(slot: Slot)
  {
    !(slot.status.Some? && slot.callback.Some?)
  }

  /** `_complete` on the slot: the new slot and the callbacks it runs. */
  function CompleteSlot(slot: Slot, s: Status): (Slot, seq<Invocation>)
  {
    if slot.status.Some? then (slot, [])
    else if slot.callback.None? then (Slot(Some(s), None), [])
    else (EmptySlot, [Invocation(slot.callback.value, s)])
  }

  /** Synchronous `getOperationStatus()`: the status taken out, and the slot left behind. */
  function TakeStatus(slot: Slot): (Option<Status>, Slot)
    requires slot.callback.None?
  {
    (slot.status, Slot(None, slot.callback))
  }

  /** Asynchronous `getOperationStatus(ticket, callback)`: the new slot and the callbacks it runs. */
  function RegisterCallback(slot: Slot, cb: CallbackId): (Slot, seq<Invocation>)
  {
    if slot.status.Some? then (slot, [Invocation(cb, slot.status.value)])
    else (Slot(None, Some(cb)), [])
  }

  /**
   * Several completions arriving one after the other (a cancellation racing
   * the transfer's own completion, say): the final slot and every callback
   * run, in order.
   */
  function CompleteEach(slot: Slot, ss: seq<Status>): (r: (Slot, seq<Invocation>))
    requires Exclusive(slot)
    ensures Exclusive(r.0)
    ensures |r.1| <= 1
    ensures slot.callback.None? ==> r.1 == []
    ensures ss != [] ==> r.0.status.Some? || r.1 != []
    decreases |ss|
  {
    if ss == [] then (slot, [])
    else
      var (next, calls) := CompleteSlot(slot, ss[0]);
      var (last, later) := CompleteEach(next, ss[1..]);
      (last, calls + later)
  }

  /** Once a status is stored, later completions are dropped and run nothing. */
  lemma {:induction false} StoredStatusAbsorbs(slot: Slot, ss: seq<Status>)
    requires Exclusive(slot) && slot.status.Some?
    ensures CompleteEach(slot, ss) == (slot, [])
    decreases |ss|
  {
    if ss != [] {
      StoredStatusAbsorbs(slot, ss[1..]);
    }
  }

  /**
   * With no callback registered, the first of several completions is the
   * one a later `getOperationStatus()` observes; nothing is run.
   */
  lemma {:induction false} FirstCompletionKept(slot: Slot, ss: seq<Status>)
    requires slot == EmptySlot && ss != []
    ensures CompleteEach(slot, ss) == (Slot(Some(ss[0]), None), [])
    ensures TakeStatus(CompleteEach(slot, ss).0) == (Some(ss[0]), EmptySlot)
  {
    StoredStatusAbsorbs(Slot(Some(ss[0]), None), ss[1..]);
  }

  /**
   * With a callback registered, the first completion goes to the callback
   * and only there; the second is stored for the next caller, and any later
   * ones are dropped.
   */
  lemma {:induction false} CallbackTakesFirstCompletion(cb: CallbackId, ss: seq<Status>)
    requires ss != []
    ensures var r := CompleteEach(Slot(None, Some(cb)), ss);
      r.1 == [Invocation(cb, ss[0])] &&
      r.0 == (if |ss| == 1 then EmptySlot else Slot(Some(ss[1]), None))
  {
    if |ss| > 1 {
      FirstCompletionKept(EmptySlot, ss[1..]);
    }
  }

  /**
   * Registering a callback and then completing runs that callback once with
   * the completion's status, leaving the slot empty; completing first and
   * then registering runs it with the same status, but the status stays in
   * the slot, so a second registration is run with it again.
   */
  lemma {:induction false} RegisterAndCompleteCommute(cb: CallbackId, cb2: CallbackId, s: Status)
    ensures var (slot, calls) := RegisterCallback(EmptySlot, cb);
      CompleteSlot(slot, s) == (EmptySlot, [Invocation(cb, s)]) && calls == []
    ensures var (slot, calls) := CompleteSlot(EmptySlot, s);
      RegisterCallback(slot, cb) == (Slot(Some(s), None), [Invocation(cb, s)]) && calls == []
    ensures var (slot, _) := CompleteSlot(EmptySlot, s);
      RegisterCallback(RegisterCallback(slot, cb).0, cb2).1 == [Invocation(cb2, s)]
  {
  }

  /** Every slot operation keeps a slot from holding a status and a callback at once. */
  lemma {:induction false} SlotOperationsKeepExclusive(slot: Slot, s: Status, cb: CallbackId)
    requires Exclusive(slot)
    ensures Exclusive(CompleteSlot(slot, s).0) && Exclusive(RegisterCallback(slot, cb).0)
    ensures slot.callback.None? ==> Exclusive(TakeStatus(slot).1)
  {
  }

  /** The stream's error code for one transfer. */
  datatype IoError = NoError | WouldBlock | IoFailure(code: int)

  /** What a synchronous attempt leads to. */
  datatype Attempt =
    | Finished
    | Failed
    | Armed(offset: nat, remaining: nat)

  /**
   * The three-way test after a synchronous transfer of `transferred` of
   * `wanted` bytes: done only with no error and a full transfer; armed for
   * the rest on would-block; failed otherwise, a short transfer with no
   * error included.
   */
  function SyncAttempt(ec: IoError, transferred: nat, wanted: nat): (a: Attempt)
    requires transferred <= wanted
    ensures a == Finished <==> ec == NoError && transferred == wanted
    ensures a.Armed? <==> ec == WouldBlock
    ensures a == Failed <==> ec != WouldBlock && (ec != NoError || transferred < wanted)
    ensures a.Armed? ==> a.offset == transferred && a.offset + a.remaining == wanted
  {
    if ec == NoError && transferred == wanted then Finished
    else if ec != WouldBlock then Failed
    else Armed(transferred, wanted - transferred)
  }

  /** The stream's answer to one read: its error code and the bytes it delivered. */
  datatype ReadOutcome = ReadOutcome(ec: IoError, data: seq<byte>)

  /** The stream's answer to one write: its error code and how many bytes it took. */
  datatype WriteOutcome = WriteOutcome(ec: IoError, written: nat)

  /** The size of the buffer a message of `msgLen` bytes is read into. */
  function BufferSize(msgLen: nat): (n: nat)
    ensures n >= msgLen && n >= kInitialMessageSize
    ensures n > kInitialMessageSize <==> msgLen > kInitialMessageSize
  {
    if msgLen > kInitialMessageSize then msgLen else kInitialMessageSize
  }

  /**
   * The header announces a length of at least a header (the length is not
   * validated before `msgLen - kHeaderLen` is computed, so a shorter one
   * would wrap around) and the body answer is no longer than the body.
   */
  predicate BodyFits(hdr: seq<byte>, body: ReadOutcome)
    requires |hdr| == kHeaderLen
  {
    kHeaderLen <= MessageLength(hdr) && |body.data| <= MessageLength(hdr) - kHeaderLen
  }

  /** The first answer fits a header, and if it completes the header, the second fits the body. */
  predicate ReadFits(header: ReadOutcome, body: ReadOutcome)
  {
    |header.data| <= kHeaderLen &&
    (SyncAttempt(header.ec, |header.data|, kHeaderLen) == Finished ==> BodyFits(header.data, body))
  }

  /** A `Message`; `data` is set by `setData` once a read has completed. */
  class Message {
    var data: array?<byte>

    constructor ()
      ensures data == null
    {
      data := null;
    }
  }

  function DataOf(m: Message): set<object>
    reads m
  {
    if m.data == null then {} else {m.data}
  }

  /** The continuation a read has armed, with the state its handler captured. */
  datatype ReadOp =
    | NoRead
    | HeaderPending(message: Message, buf: array<byte>, got: nat)
    | BodyPending(message: Message, buf: array<byte>, msgLen: nat, bytesRead: nat)

  /** The continuation a write has armed. */
  datatype WriteOp =
    | NoWrite
    | WritePending(msg: seq<byte>, msgLen: nat, bytesWritten: nat)

  /** Copies `src` into `dst` at `at`, leaving the rest of `dst` as it was. */
  method CopyInto(dst: array<byte>, at: nat, src: seq<byte>)
    requires at + |src| <= dst.Length
    modifies dst
    ensures dst[..] == old(dst[..at]) + src + old(dst[at + |src|..])
  {
    var i := 0;
    while i < |src|
      invariant 0 <= i <= |src|
      invariant dst[..at] == old(dst[..at])
      invariant dst[at..at + i] == src[..i]
      invariant dst[at + i..] == old(dst[at + i..])
    {
      dst[at + i] := src[i];
      i := i + 1;
      assert dst[at..at + i] == dst[at..at + i - 1] + [src[i - 1]];
    }
    assert dst[..] == dst[..at] + dst[at..at + |src|] + dst[at + |src|..];
  }

  /** `SharedBuffer::realloc`: a larger buffer that starts with the old contents. */
  method Realloc(buf: array<byte>, size: nat) returns (grown: array<byte>)
    requires buf.Length <= size
    ensures fresh(grown) && grown.Length == size
    ensures grown[..buf.Length] == buf[..]
  {
    grown := new byte[size];
    var i := 0;
    while i < buf.Length
      invariant 0 <= i <= buf.Length
      invariant grown[..i] == buf[..i]
    {
      grown[i] := buf[i];
      i := i + 1;
    }
  }

  class ASIOSession {
    const id: nat
    /** `_status` and `_callback`, guarded by the session's one mutex. */
    var status: Option<Status>
    var callback: Option<CallbackId>
    /** The callbacks the session has run, in order. */
    var invocations: seq<Invocation>
    var reading: ReadOp
    var writing: WriteOp
    /** The bytes the session has handed to the stream, in order. */
    var sent: seq<byte>
    /** The bytes the stream has delivered to the read in flight. */
    ghost var received: seq<byte>
    /** `_entry`: the node of the transport's session registry that refers to this session. */
    var entry: Option<nat>

    function ReadBuffer(): set<object>
      reads this
    {
      if reading.NoRead? then {} else {reading.buf}
    }

    ghost predicate Valid()
      reads this, ReadBuffer()
    {
      Exclusive(Slot(status, callback)) &&
      (match reading
       case NoRead => true
       case HeaderPending(_, buf, got) =>
         buf.Length == kInitialMessageSize && got <= kHeaderLen &&
         |received| == got && buf[..got] == received
       case BodyPending(_, buf, msgLen, bytesRead) =>
         kHeaderLen <= msgLen && buf.Length == BufferSize(msgLen) &&
         bytesRead <= msgLen - kHeaderLen &&
         |received| == kHeaderLen + bytesRead && buf[..kHeaderLen + bytesRead] == received &&
         MessageLength(received[..kHeaderLen]) == msgLen) &&
      (match writing
       case NoWrite => true
       case WritePending(msg, msgLen, bytesWritten) =>
         bytesWritten <= msgLen <= |msg| &&
         bytesWritten <= |sent| && sent[|sent| - bytesWritten..] == msg[..bytesWritten])
    }

    constructor (id: nat)
      ensures Valid() && this.id == id
      ensures status == None && callback == None && invocations == []
      ensures reading == NoRead && writing == NoWrite && sent == [] && entry == None
    {
      this.id := id;
      status, callback, invocations := None, None, [];
      reading, writing, sent := NoRead, NoWrite, [];
      received := [];
      entry := None;
    }

    /** `setIter`: records the session's registry node, and nothing else. */
    method SetIter(node: nat)
      modifies this`entry
      ensures entry == Some(node)
    {
      entry := Some(node);
    }

    /** The slot went exactly where `_complete` sends the completion `s`. */
    twostate predicate Completed(s: Status)
      reads this
    {
      var r := CompleteSlot(Slot(old(status), old(callback)), s);
      Slot(status, callback) == r.0 && invocations == old(invocations) + r.1
    }

    twostate predicate SlotUnchanged()
      reads this
    {
      status == old(status) && callback == old(callback) && invocations == old(invocations)
    }

    /**
     * `_complete`: a status already stored wins and the new one is dropped;
     * otherwise the status is stored when no callback is registered, or
     * the callback is taken out and run with it, never both.
     */
    method CompleteStatus(s: Status)
      requires Valid()
      modifies this`status, this`callback, this`invocations
      ensures Valid() && Completed(s)
      ensures old(status).Some? ==> SlotUnchanged()
      ensures old(status).None? && old(callback).None? ==>
        status == Some(s) && callback == None && invocations == old(invocations)
      ensures old(status).None? && old(callback).Some? ==>
        status == None && callback == None &&
        invocations == old(invocations) + [Invocation(old(callback).value, s)]
    {
      if status.Some? {
        return;
      }
      var taken: Option<CallbackId> := None;
      if callback.None? {
        status := Some(s);
      } else {
        taken, callback := callback, None;
      }
      if taken.Some? {
        invocations := invocations + [Invocation(taken.value, s)];
      }
    }

    /** `complete(args...)`: builds one Status and hands it to `_complete` once. */
    method Complete(code: ErrorCode, reason: string)
      requires Valid()
      modifies this`status, this`callback, this`invocations
      ensures Valid() && Completed(Status(code, reason))
    {
      CompleteStatus(Status(code, reason));
    }

    /**
     * Synchronous `getOperationStatus()`: only legal with no callback
     * registered; hands out the stored status, if any, and leaves none.
     */
    method GetOperationStatus() returns (r: Option<Status>)
      requires Valid() && callback.None?
      modifies this`status
      ensures Valid()
      ensures r == old(status) && status == None
      ensures TakeStatus(Slot(old(status), callback)) == (r, Slot(status, callback))
    {
      r := status;
      status := None;
    }

    /**
     * Asynchronous `getOperationStatus(ticket, callback)`: a stored status
     * is handed to the callback at once and stays stored; otherwise the
     * callback replaces any registered one and waits for `_complete`.
     */
    method GetOperationStatusAsync(cb: CallbackId)
      requires Valid()
      modifies this`callback, this`invocations
      ensures Valid()
      ensures |invocations| >= |old(invocations)|
      ensures (Slot(status, callback), invocations[|old(invocations)|..]) ==
              RegisterCallback(Slot(status, old(callback)), cb)
      ensures old(status).Some? ==>
        callback == old(callback) && invocations == old(invocations) + [Invocation(cb, status.value)]
      ensures old(status).None? ==> callback == Some(cb) && invocations == old(invocations)
    {
      if status.Some? {
        invocations := invocations + [Invocation(cb, status.value)];
        assert invocations[|old(invocations)|..] == [Invocation(cb, status.value)];
        return;
      }
      callback := Some(cb);
      assert invocations[|old(invocations)|..] == [];
    }

    /**
     * What the session looks like once the body of a read has been
     * attempted with answer `body`, the header `hdr` being in hand: the
     * message gets the whole frame and OK is completed, or "failed body
     * read" is completed, or a continuation is armed for the rest.
     */
    twostate predicate BodyAttempted(message: Message, hdr: seq<byte>, body: ReadOutcome)
      requires |hdr| == kHeaderLen && BodyFits(hdr, body)
      reads this, message, DataOf(message)
    {
      var msgLen := MessageLength(hdr);
      match SyncAttempt(body.ec, |body.data|, msgLen - kHeaderLen)
      case Finished =>
        reading == NoRead && message.data != null &&
        message.data.Length == BufferSize(msgLen) &&
        message.data[..msgLen] == hdr + body.data &&
        Completed(StatusOK)
      case Failed =>
        reading == NoRead && message.data == old(message.data) &&
        Completed(Status(BadValue, "failed body read"))
      case Armed(offset, _) =>
        reading.BodyPending? && reading.message == message &&
        reading.msgLen == msgLen && reading.bytesRead == offset &&
        received == hdr + body.data && message.data == old(message.data) &&
        SlotUnchanged()
    }

    /**
     * `continueRead`: takes the length from the header, grows the buffer
     * only for a message longer than the initial buffer, and reads the
     * body behind the header.
     */
    method ContinueRead(message: Message, buf: array<byte>, ghost hdr: seq<byte>, body: ReadOutcome)
      requires Valid() && reading == NoRead
      requires buf.Length == kInitialMessageSize && |hdr| == kHeaderLen && buf[..kHeaderLen] == hdr
      requires BodyFits(hdr, body)
      modifies this`status, this`callback, this`invocations, this`reading, this`received, message, buf
      ensures Valid() && BodyAttempted(message, hdr, body)
    {
      var msgLen: nat := MessageLength(buf[..kHeaderLen]);
      var md := buf;
      if msgLen > kInitialMessageSize {
        md := Realloc(buf, msgLen);
      }
      assert md[..kHeaderLen] == hdr;
      CopyInto(md, kHeaderLen, body.data);
      assert md[..kHeaderLen + |body.data|] == hdr + body.data;
      match SyncAttempt(body.ec, |body.data|, msgLen - kHeaderLen)
      case Finished =>
        message.data := md;
        assert message.data[..msgLen] == hdr + body.data;
        CompleteStatus(StatusOK);
      case Failed =>
        Complete(BadValue, "failed body read");
      case Armed(offset, _) =>
        received := hdr + body.data;
        assert received[..kHeaderLen] == hdr;
        reading := BodyPending(message, md, msgLen, offset);
    }

    /**
     * What the session looks like once a read has begun with answers
     * `header` and `body`: the body attempted behind a full header, or
     * "failed header read" completed, or a continuation armed for the rest
     * of the header.
     */
    twostate predicate ReadBegun(message: Message, header: ReadOutcome, body: ReadOutcome)
      requires ReadFits(header, body)
      reads this, message, DataOf(message)
    {
      match SyncAttempt(header.ec, |header.data|, kHeaderLen)
      case Finished => BodyAttempted(message, header.data, body)
      case Failed =>
        reading == NoRead && message.data == old(message.data) &&
        Completed(Status(BadValue, "failed header read"))
      case Armed(offset, _) =>
        reading.HeaderPending? && reading.message == message && reading.got == offset &&
        received == header.data && message.data == old(message.data) && SlotUnchanged()
    }

    /**
     * `beginRead`: a fresh buffer of the initial size, a synchronous read
     * of the header, then the body at once, a "failed header read", or a
     * continuation armed for the rest of the header.
     */
    method BeginRead(message: Message, header: ReadOutcome, body: ReadOutcome)
      requires Valid() && reading == NoRead
      requires ReadFits(header, body)
      modifies this`status, this`callback, this`invocations, this`reading, this`received, message
      ensures Valid() && ReadBegun(message, header, body)
    {
      var buf := new byte[kInitialMessageSize];
      CopyInto(buf, 0, header.data);
      assert buf[..|header.data|] == header.data;
      match SyncAttempt(header.ec, |header.data|, kHeaderLen)
      case Finished =>
        ContinueRead(message, buf, header.data, body);
      case Failed =>
        Complete(BadValue, "failed header read");
      case Armed(offset, _) =>
        received := header.data;
        reading := HeaderPending(message, buf, offset);
    }

    /**
     * The handler of the header continuation. It reads the rest of the
     * header into the buffer behind the bytes the synchronous read took,
     * then continues with the body; any error completes "failed header
     * async read".
     */
    method OnHeaderReadable(more: ReadOutcome, body: ReadOutcome)
      requires Valid() && reading.HeaderPending?
      requires |more.data| <= kHeaderLen - reading.got
      requires more.ec != NoError || |more.data| == kHeaderLen - reading.got
      requires more.ec == NoError ==> BodyFits(received + more.data, body)
      modifies this`status, this`callback, this`invocations, this`reading, this`received
      modifies reading.message, reading.buf
      ensures Valid()
      ensures more.ec != NoError ==>
        reading == NoRead && Completed(Status(BadValue, "failed header async read"))
      ensures more.ec == NoError ==>
        BodyAttempted(old(reading.message), old(received) + more.data, body)
    {
      var HeaderPending(message, buf, got) := reading;
      reading := NoRead;
      if more.ec != NoError {
        Complete(BadValue, "failed header async read");
        return;
      }
      ghost var hdr := received + more.data;
      CopyInto(buf, got, more.data);
      assert buf[..kHeaderLen] == hdr;
      received := [];
      ContinueRead(message, buf, hdr, body);
    }

    /**
     * The handler of the body continuation: on success the message gets
     * the buffer, which now holds the whole frame, and OK is completed;
     * any error completes "failed body async read".
     */
    method OnBodyReadable(more: ReadOutcome)
      requires Valid() && reading.BodyPending?
      requires |more.data| <= reading.msgLen - kHeaderLen - reading.bytesRead
      requires more.ec != NoError || |more.data| == reading.msgLen - kHeaderLen - reading.bytesRead
      modifies this`status, this`callback, this`invocations, this`reading, this`received
      modifies reading.message, reading.buf
      ensures Valid() && reading == NoRead
      ensures more.ec != NoError ==>
        old(reading.message).data == old(reading.message.data) &&
        Completed(Status(BadValue, "failed body async read"))
      ensures more.ec == NoError ==>
        old(reading.message).data == old(reading.buf) &&
        old(reading.buf).Length == BufferSize(old(reading.msgLen)) &&
        old(reading.buf)[..old(reading.msgLen)] == old(received) + more.data &&
        MessageLength(old(reading.buf)[..kHeaderLen]) == old(reading.msgLen) &&
        Completed(StatusOK)
    {
      var BodyPending(message, buf, msgLen, bytesRead) := reading;
      reading := NoRead;
      if more.ec != NoError {
        Complete(BadValue, "failed body async read");
        return;
      }
      ghost var frame := received;
      CopyInto(buf, kHeaderLen + bytesRead, more.data);
      assert buf[..msgLen] == frame + more.data;
      assert buf[..kHeaderLen] == frame[..kHeaderLen];
      received := [];
      message.data := buf;
      CompleteStatus(StatusOK);
    }

    /**
     * What the session looks like once a write of `msg` has begun with
     * answer `w`: the written prefix sent, then OK, "failed write", or a
     * continuation armed for the unwritten rest.
     */
    twostate predicate WriteBegun(msg: seq<byte>, w: WriteOutcome)
      requires |msg| >= 4 && 0 <= MessageLength(msg) <= |msg|
      requires w.written <= MessageLength(msg)
      reads this
    {
      sent == old(sent) + msg[..w.written] &&
      match SyncAttempt(w.ec, w.written, MessageLength(msg))
      case Finished => writing == NoWrite && Completed(StatusOK)
      case Failed => writing == NoWrite && Completed(Status(BadValue, "failed write"))
      case Armed(offset, _) =>
        writing == WritePending(msg, MessageLength(msg), offset) && SlotUnchanged()
    }

    /**
     * `beginWrite`: a synchronous write of the `msgLen` bytes the message's
     * header announces, then OK, "failed write", or a continuation armed
     * for the unwritten rest.
     */
    method BeginWrite(msg: seq<byte>, w: WriteOutcome)
      requires Valid() && writing == NoWrite
      requires |msg| >= 4 && 0 <= MessageLength(msg) <= |msg|
      requires w.written <= MessageLength(msg)
      modifies this`status, this`callback, this`invocations, this`writing, this`sent
      ensures Valid() && WriteBegun(msg, w)
    {
      var msgLen: nat := MessageLength(msg);
      sent := sent + msg[..w.written];
      match SyncAttempt(w.ec, w.written, msgLen)
      case Finished =>
        CompleteStatus(StatusOK);
      case Failed =>
        Complete(BadValue, "failed write");
      case Armed(offset, _) =>
        writing := WritePending(msg, msgLen, offset);
    }

    /**
     * The handler of the write continuation: it sends the rest of the
     * message and completes OK, or "failed async write" on an error.
     * Together with the synchronous part the stream has then been handed
     * the whole message, in order.
     */
    method OnWritable(w: WriteOutcome)
      requires Valid() && writing.WritePending?
      requires w.written <= writing.msgLen - writing.bytesWritten
      requires w.ec != NoError || w.written == writing.msgLen - writing.bytesWritten
      modifies this`status, this`callback, this`invocations, this`writing, this`sent
      ensures Valid() && writing == NoWrite
      ensures var WritePending(msg, msgLen, done) := old(writing);
        sent == old(sent) + msg[done..done + w.written]
      ensures w.ec != NoError ==> Completed(Status(BadValue, "failed async write"))
      ensures w.ec == NoError ==>
        Completed(StatusOK) &&
        |sent| >= old(writing.msgLen) &&
        sent[|sent| - old(writing.msgLen)..] == old(writing.msg)[..old(writing.msgLen)]
    {
      var WritePending(msg, msgLen, done) := writing;
      ghost var before := sent;
      sent := sent + msg[done..done + w.written];
      writing := NoWrite;
      if w.ec != NoError {
        Complete(BadValue, "failed async write");
      } else {
        assert msg[..msgLen] == msg[..done] + msg[done..msgLen];
        assert sent[|sent| - msgLen..] == before[|before| - done..] + msg[done..msgLen];
        CompleteStatus(StatusOK);
      }
    }
  }

  /**
   * The header the continuation assembles as written: the synchronous read
   * took `got` bytes off the stream, and the continuation reads a whole
   * header again into the start of the buffer, so it gets the sixteen bytes
   * that follow those `got` instead of the rest of the header.
   */
  function HeaderAfterContinuationAsWritten(wire: seq<byte>, got: nat): (h: seq<byte>)
    requires got <= kHeaderLen && got + kHeaderLen <= |wire|
    ensures |h| == kHeaderLen
    ensures forall i :: 0 <= i < kHeaderLen ==> h[i] == wire[got + i]
  {
    wire[got..got + kHeaderLen]
  }

  /**
   * A peer sends a 20-byte message whose length field is 20; the synchronous
   * read takes its first 4 bytes and would block. The header the code as
   * written assembles announces length 0, and `msgLen - kHeaderLen` then
   * wraps around, while the bytes the peer sent announce 20.
   */
  lemma AsWrittenContinuationLosesLength()
    ensures var wire := EncodeInt32LE(20) + seq(36, i => 0);
      MessageLength(wire[..kHeaderLen]) == 20 &&
      MessageLength(HeaderAfterContinuationAsWritten(wire, 4)) == 0
  {
    var wire := EncodeInt32LE(20) + seq(36, i => 0);
    MessageLengthOfHeader(20, wire[4..kHeaderLen]);
    assert wire[..kHeaderLen] == EncodeInt32LE(20) + wire[4..kHeaderLen];
    var h := HeaderAfterContinuationAsWritten(wire, 4);
    assert h[..4] == [0, 0, 0, 0];
  }

  /**
   * The corrected continuation: whatever split between the synchronous
   * read and the continuation, the header is the first sixteen bytes the
   * peer sent, so the announced length is the peer's.
   */
  lemma {:induction false} ContinuationKeepsHeader(wire: seq<byte>, got: nat)
    requires got <= kHeaderLen <= |wire|
    ensures wire[..got] + wire[got..kHeaderLen] == wire[..kHeaderLen]
    ensures MessageLength(wire[..got] + wire[got..kHeaderLen]) == MessageLength(wire[..kHeaderLen])
  {
    assert wire[..got] + wire[got..kHeaderLen] == wire[..kHeaderLen];
  }
}
