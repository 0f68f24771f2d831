/** The buffered writer of a connection, and the batch that a client frames with it. */
module Clients {
  import opened Bytes
  import opened Strings
  import opened Values

  const COMPRESSED: bytes := [0x63, 0x6f, 0x6d, 0x70, 0x72, 0x65, 0x73, 0x73, 0x65, 0x64]
  const GZIP: bytes := [0x67, 0x7a, 0x69, 0x70]

  /** What stands in front of a batch's payload, and behind it. */
  function BatchHead(tag: bytes, size: nat): bytes {
    ([0x93] + (StringHeader(|tag|) + tag)) + BinaryHeader(size)
  }

  function BatchTail(): bytes {
    ([0x81] + (StringHeader(|COMPRESSED|) + COMPRESSED)) + (StringHeader(|GZIP|) + GZIP)
  }

  /** Behind the payload stands an option map that says the payload is gzip. */
  lemma TailSpelt()
    ensures BatchTail() == [0x81, 0xaa] + Ascii("compressed") + [0xa4] + Ascii("gzip")
  {
    assert COMPRESSED == Ascii("compressed") && GZIP == Ascii("gzip");
  }

  /** As much of a message as a connection with room for so many bytes takes. */
  function Fits(room: nat, message: bytes): bytes {
    if |message| <= room then message else message[..room]
  }

  /** msgpack.Writer with its connection: sent is what the connection has taken; it takes room more bytes
      and then fails. */
  class Writer {
    var buf: bytes
    var sent: bytes
    var room: nat

    constructor (room: nat)
      ensures buf == [] && sent == [] && this.room == room
    {
      buf, sent, this.room := [], [], room;
    }

    /** A write of the connection. */
    method Send(message: bytes) returns (ok: bool)
      modifies this`sent, this`room
      ensures ok == (|message| <= old(room))
      ensures sent == old(sent) + Fits(old(room), message) && room == old(room) - |Fits(old(room), message)|
    {
      ok := |message| <= room;
      var taken := if ok then message else message[..room];
      sent, room := sent + taken, room - |taken|;
    }

    /** Flush: the buffer is emptied only when all of it has been written. */
    method Flush() returns (ok: bool)
      modifies this
      ensures ok == (|old(buf)| <= old(room)) && buf == (if ok then [] else old(buf))
      ensures sent == old(sent) + Fits(old(room), old(buf)) && room == old(room) - |Fits(old(room), old(buf))|
    {
      ok := Send(buf);
      if ok {
        buf := [];
      }
    }

    /** WriteBinaryReader on a reader that delivers data and then ends, or fails. The header goes out with what
        the buffer holds, the data behind it. The buffer, stretched to its capacity, serves for the copy; spare
        is what is left in it then. */
    method WriteBinaryReader(size: nat, data: bytes, complete: bool, spare: bytes) returns (ok: bool)
      modifies this
      ensures var head := old(buf) + BinaryHeader(size);
        && ok == (|head| + |data| <= old(room) && complete)
        && sent == old(sent) + Fits(old(room), head + data)
        && room == old(room) - |Fits(old(room), head + data)|
        && buf == if |head| > old(room) then head else if ok then [] else spare
    {
      buf := buf + BinaryHeader(size);
      ghost var head := buf;
      ok := Flush();
      FitsTwo(old(room), head, data);
      if !ok {
        return;
      }
      buf := spare;
      ok := Send(data);
      Assoc(old(sent), head, Fits(old(room) - |head|, data));
      ok := ok && complete;
      if ok {
        buf := [];
      }
    }
  }

  /** Two messages in a row fit as their concatenation does. */
  lemma FitsTwo(room: nat, a: bytes, b: bytes)
    ensures |a| > room ==> Fits(room, a + b) == Fits(room, a)
    ensures |a| <= room ==> Fits(room, a + b) == a + Fits(room - |a|, b)
  {
  }

  /** Client.WriteBatch on a connection that is up. What goes out is what the writer's buffer still held, which
      is nothing unless a batch has failed before on the same connection, and the framed batch; when the
      connection or the reader of the file fails, the part before that; the error says which. */
  method WriteBatch(w: Writer, tag: bytes, size: nat, file: bytes, complete: bool, spare: bytes) returns (ok: bool)
    modifies w
    ensures var head := old(w.buf) + BatchHead(tag, size);
      var batch := head + file + (if complete then BatchTail() else []);
      && ok == (|batch| <= old(w.room) && complete)
      && w.sent == old(w.sent) + Fits(old(w.room), batch)
      && w.buf == if ok then [] else if |head| > old(w.room) then head
                  else if |head + file| > old(w.room) || !complete then spare else BatchTail()
  {
    hide AppendArrayHeader, AppendMapHeader, AppendString, BatchHead, BatchTail, BinaryHeader, Fits;
    ghost var stale := w.buf;
    w.buf := AppendArrayHeader(w.buf, 3);
    w.buf := AppendString(w.buf, tag);
    ghost var head, tail := stale + BatchHead(tag, size) + file, BatchTail();
    FitsTwo(old(w.room), head, tail);
    HeadBuilt(stale, tag, size);
    assert head + [] == head;
    ok := w.WriteBinaryReader(size, file, complete, spare);
    if !ok {
      return;
    }
    ghost var between := w.sent;
    assert between == old(w.sent) + head by { AllFits(old(w.room), head); }
    w.buf := AppendMapHeader(w.buf, 1);
    w.buf := AppendString(w.buf, COMPRESSED);
    w.buf := AppendString(w.buf, GZIP);
    TailBuilt();
    ok := w.Flush();
    Assoc(old(w.sent), head, Fits(old(w.room) - |head|, tail));
  }

  lemma HeadBuilt(stale: bytes, tag: bytes, size: nat)
    ensures AppendString(AppendArrayHeader(stale, 3), tag) + BinaryHeader(size) == stale + BatchHead(tag, size)
  {
    assert ArrayHeader(3) == [0x93];
    hide StringHeader, BinaryHeader, ArrayHeader;
    Assoc(stale, [0x93], StringHeader(|tag|) + tag);
    Assoc(stale, [0x93] + (StringHeader(|tag|) + tag), BinaryHeader(size));
  }

  lemma TailBuilt()
    ensures AppendString(AppendString(AppendMapHeader([], 1), COMPRESSED), GZIP) == BatchTail()
  {
    assert MapHeader(1) == [0x81];
    hide StringHeader, MapHeader;
    assert [] + [0x81] == [0x81];
  }

  lemma AllFits(room: nat, message: bytes)
    requires |message| <= room
    ensures Fits(room, message) == message
  {
  }
}
