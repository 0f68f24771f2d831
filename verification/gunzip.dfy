/** The lazy gzip reader: it skips headers and trailers and concatenates the members' contents.
    DEFLATE itself is a parameter. */
module Gunzip {
  import opened Bytes
  import opened Results

  /** What a decompressor makes of the bytes in front of it: the content, how many of the bytes it
      used, and how it ended: EOF behind the last block, otherwise the error. */
  datatype Inflated = Inflated(content: bytes, used: nat, end: Error)

  type Inflate = bytes -> Inflated

  /** What a reader delivers, and the error it then ends with. */
  datatype Stream = Stream(data: bytes, end: Error)

  /** Where the limited reader stands after an operation, and the operation's error. */
  datatype Moved = Moved(pos: nat, err: Option<Error>)

  function Short(br: bytes, p: nat): Error {
    if p < |br| then UnexpectedEOF else EOF
  }

  /** ReadBytes keeps the position when it fails. */
  function ReadBytes(br: bytes, p: nat, n: nat): (r: Moved)
    requires p <= |br|
    ensures p <= r.pos <= |br| && (r.err == None ==> r.pos == p + n)
  {
    if p + n <= |br| then Moved(p + n, None) else Moved(p, Some(Short(br, p)))
  }

  /** Discard moves to the end when it fails. */
  function Discard(br: bytes, p: nat, n: nat): (r: Moved)
    requires p <= |br|
    ensures p <= r.pos <= |br| && (r.err == None ==> r.pos == p + n)
  {
    if p + n <= |br| then Moved(p + n, None) else Moved(|br|, Some(Short(br, p)))
  }

  /** skipNullTerminated: up to and including the next null. */
  function SkipNullTerminated(br: bytes, p: nat): (r: Moved)
    requires p <= |br|
    ensures p <= r.pos <= |br|
    decreases |br| - p
  {
    if p == |br| then Moved(p, Some(EOF))
    else if br[p] == 0 then Discard(br, p, 1)
    else
      var r := SkipNullTerminated(br, p + 1);
      if r.err == Some(EOF) then Moved(r.pos, Some(UnexpectedEOF)) else r
  }

  /** Whether a flag, a power of two, is set in the FLG byte. */
  predicate Flag(flg: byte, mask: nat)
    requires mask > 0
  {
    (flg / mask) % 2 == 1
  }

  const FLAG_HDR_CRC := 2
  const FLAG_EXTRA := 4
  const FLAG_NAME := 8
  const FLAG_COMMENT := 16

  function SkipExtra(br: bytes, p: nat, flg: byte): (r: Moved)
    requires p <= |br|
    ensures p <= r.pos <= |br|
  {
    if !Flag(flg, FLAG_EXTRA) then Moved(p, None) else
    var r := ReadBytes(br, p, 2);
    if r.err != None then r else
    var high: nat := br[p + 1];
    Discard(br, r.pos, 256 * high + br[p])
  }

  function SkipString(br: bytes, p: nat, flg: byte, mask: nat): (r: Moved)
    requires p <= |br| && mask > 0
    ensures p <= r.pos <= |br|
  {
    if Flag(flg, mask) then SkipNullTerminated(br, p) else Moved(p, None)
  }

  function SkipCrc(br: bytes, p: nat, flg: byte): (r: Moved)
    requires p <= |br|
    ensures p <= r.pos <= |br|
  {
    if Flag(flg, FLAG_HDR_CRC) then Discard(br, p, 2) else Moved(p, None)
  }

  /** skipHeader, without the decompressor it sets up. */
  function HeaderSkipped(br: bytes, p: nat): (r: Moved)
    requires p <= |br|
    ensures p <= r.pos <= |br| && (r.err == None ==> p + 10 <= r.pos)
  {
    var r0 := ReadBytes(br, p, 10);
    if r0.err != None then r0
    else if br[p] != 0x1f || br[p + 1] != 0x8b || br[p + 2] != 8 then Moved(r0.pos, Some(GzipHeader))
    else FieldsSkipped(br, r0.pos, br[p + 3])
  }

  /** The optional fields behind the fixed part. */
  function FieldsSkipped(br: bytes, p: nat, flg: byte): (r: Moved)
    requires p <= |br|
    ensures p <= r.pos <= |br|
  {
    var r1 := SkipExtra(br, p, flg);
    if r1.err != None then r1 else
    var r2 := SkipString(br, r1.pos, flg, FLAG_NAME);
    if r2.err != None then r2 else
    var r3 := SkipString(br, r2.pos, flg, FLAG_COMMENT);
    if r3.err != None then r3 else
    SkipCrc(br, r3.pos, flg)
  }

  /** How many of the remaining bytes a decompressor reset at p uses. */
  function Used(inflate: Inflate, br: bytes, p: nat): (u: nat)
    requires p <= |br|
    ensures p + u <= |br|
  {
    var u := inflate(br[p..]).used;
    if p + u <= |br| then u else |br| - p
  }

  function Prepend(content: bytes, rest: Stream): Stream {
    Stream(content + rest.data, rest.end)
  }

  /** Everything the reader delivers once the header before p is skipped. */
  function Unzip(inflate: Inflate, br: bytes, p: nat): Stream
    requires p <= |br|
    decreases |br| - p, 1
  {
    var d := inflate(br[p..]);
    if d.end != EOF then Stream(d.content, d.end)
    else Prepend(d.content, UnzipNext(inflate, br, p + Used(inflate, br, p)))
  }

  /** Everything it delivers from the end of a member's compressed data on; each member takes at
      least eighteen bytes of trailer and header. */
  function UnzipNext(inflate: Inflate, br: bytes, q: nat): Stream
    requires q <= |br|
    decreases |br| - q, 0
  {
    var r := Discard(br, q, 8);
    if r.err != None then Stream([], r.err.value) else UnzipFrom(inflate, br, r.pos)
  }

  /** Everything it delivers from the start of a member on. */
  function UnzipFrom(inflate: Inflate, br: bytes, p: nat): Stream
    requires p <= |br|
    decreases |br| - p, 2
  {
    var h := HeaderSkipped(br, p);
    if h.err != None then Stream([], h.err.value) else Unzip(inflate, br, h.pos)
  }

  /** A header that is accepted starts with the two magic bytes and the one for DEFLATE; ten bytes that do
      not are refused. */
  lemma MagicNeeded(br: bytes, p: nat)
    requires p <= |br|
    ensures HeaderSkipped(br, p).err == None ==> At(br, p, [0x1f, 0x8b, 0x08])
    ensures p + 10 <= |br| && !At(br, p, [0x1f, 0x8b, 0x08]) ==> HeaderSkipped(br, p) == Moved(p + 10, Some(GzipHeader))
  {
    if p + 10 <= |br| {
      assert br[p..p + 3] == [br[p], br[p + 1], br[p + 2]];
    }
  }

  lemma TrailerSkipped(inflate: Inflate, br: bytes, q: nat)
    requires q <= |br|
    ensures var r := Discard(br, q, 8);
      && q <= r.pos <= |br| && (r.err == None ==> q + 8 <= r.pos)
      && UnzipNext(inflate, br, q) == if r.err.Some? then Stream([], r.err.value) else UnzipFrom(inflate, br, r.pos)
  {
    hide UnzipFrom;
  }

  /** The reader of a gzip file. The limited ring buffer behind it is its bytes and a position. */
  class Reader {
    const inflate: Inflate
    const br: bytes
    var pos: nat
    /** What the decompressor has still to hand out of the current member, and how it then ends. */
    var plain: bytes
    var pend: Error

    ghost predicate Valid()
      reads this
    {
      pos <= |br|
    }

    /** What the reader has still to deliver. */
    ghost function Left(): Stream
      requires Valid()
      reads this
    {
      if pend != EOF then Stream(plain, pend) else
      Prepend(plain, UnzipNext(inflate, br, pos))
    }

    constructor (inflate: Inflate, br: bytes)
      ensures this.inflate == inflate && this.br == br
      ensures Valid() && pos == 0 && plain == []
    {
      this.inflate, this.br := inflate, br;
      pos, plain, pend := 0, [], EOF;
    }

    method SkipHeader() returns (err: Option<Error>)
      requires Valid()
      modifies this
      ensures var r := HeaderSkipped(br, old(pos));
        && Valid() && err == r.err && pos == r.pos + (if err == None then Used(inflate, br, r.pos) else 0)
        && (err == None ==> plain == inflate(br[r.pos..]).content && pend == inflate(br[r.pos..]).end)
      ensures UnzipFrom(inflate, br, old(pos)) == if err == None then Left() else Stream([], err.value)
      ensures err == None ==> old(pos) + 10 <= pos && At(br, old(pos), [0x1f, 0x8b, 0x08])
      ensures old(pos) + 10 <= |br| && !At(br, old(pos), [0x1f, 0x8b, 0x08]) ==> err == Some(GzipHeader)
    {
      MagicNeeded(br, pos);
      var r := HeaderSkipped(br, pos);
      pos, err := r.pos, r.err;
      if err == None {
        var d := inflate(br[pos..]);
        plain, pend := d.content, d.end;
        pos := pos + Used(inflate, br, pos);
      }
    }

    /** The decompressor's Read: at most limit bytes, as many as it likes, but not none when there are
        some; its end comes with the last bytes or on the next call. */
    method Decompress(limit: nat) returns (out: bytes, err: Option<Error>)
      requires Valid()
      modifies this`plain
      ensures out + plain == old(plain) && |out| <= limit
      ensures err == None || (err == Some(pend) && plain == [])
      ensures err == None && limit > 0 ==> out != []
    {
      var k: nat :| k <= limit && k <= |plain| && (limit > 0 && plain != [] ==> k > 0);
      out, err := plain[..k], None;
      plain := plain[k..];
      if plain == [] {
        if out == [] {
          err := Some(pend);
        } else if * {
          err := Some(pend);
        }
      }
    }

    /** Read, with the loop over members that hold nothing. */
    method Read(limit: nat) returns (out: bytes, err: Option<Error>)
      requires Valid()
      modifies this
      ensures Valid() && |out| <= limit
      ensures err == None ==> Stream(out + Left().data, Left().end) == old(Left())
      ensures err == None && limit > 0 ==> out != []
      ensures err != None ==> Stream(out, err.value) == old(Left())
    {
      hide UnzipNext, UnzipFrom, HeaderSkipped, Used, Discard;
      out, err := [], None;
      assert [] + Left().data == Left().data;
      while out == []
        invariant Valid() && |out| <= limit && err == None
        invariant Stream(out + Left().data, Left().end) == old(Left())
        decreases out == [], |br| - pos
      {
        ghost var before := Left();
        ghost var was := plain;
        assert before == old(Left());
        out, err := Decompress(limit);
        assert before.data == out + Left().data && before.end == Left().end by {
          assert was == out + plain;
        }
        if err != Some(EOF) {
          return;
        }
        var r := Discard(br, pos, 8);
        ghost var next := UnzipNext(inflate, br, pos);
        assert before == Stream(out + next.data, next.end) by { assert [] + next.data == next.data; }
        TrailerSkipped(inflate, br, pos);
        pos := r.pos;
        err := r.err;
        if err != None {
          return;
        }
        err := SkipHeader();
        if err != None {
          return;
        }
      }
    }

    /** io.ReadAll over buffers of any sizes. */
    method ReadAll(sizes: nat -> nat) returns (data: bytes, end: Error)
      requires Valid() && forall k :: sizes(k) > 0
      modifies this
      ensures Stream(data, end) == old(Left())
    {
      data := [];
      var turn := 0;
      while true
        invariant Valid() && Stream(data + Left().data, Left().end) == old(Left())
        decreases |Left().data|
      {
        var out, err := Read(sizes(turn));
        data, turn := data + out, turn + 1;
        if err != None {
          end := err.value;
          return;
        }
      }
    }
  }

  /** A member header as section 2.3 of RFC 1952 lays it out. */
  datatype Header = Header(text: bool, mtime: bytes, xfl: byte, os: byte, extra: Option<bytes>,
                           name: Option<bytes>, comment: Option<bytes>, crc: Option<bytes>)

  predicate ValidHeader(h: Header) {
    && |h.mtime| == 4
    && (h.extra.Some? ==> |h.extra.value| < 0x1_0000)
    && (h.name.Some? ==> 0 !in h.name.value)
    && (h.comment.Some? ==> 0 !in h.comment.value)
    && (h.crc.Some? ==> |h.crc.value| == 2)
  }

  function FlagByte(h: Header): byte {
    (if h.text then 1 else 0) + (if h.crc.Some? then 2 else 0) + (if h.extra.Some? then 4 else 0)
    + (if h.name.Some? then 8 else 0) + (if h.comment.Some? then 16 else 0)
  }

  function ExtraField(extra: Option<bytes>): bytes {
    if extra.None? then [] else [|extra.value| % 256, (|extra.value| / 256) % 256] + extra.value
  }

  function StringField(text: Option<bytes>): bytes {
    if text.None? then [] else text.value + [0]
  }

  function CrcField(crc: Option<bytes>): bytes {
    if crc.None? then [] else crc.value
  }

  function FixedFields(h: Header): bytes {
    [0x1f, 0x8b, 0x08, FlagByte(h)] + h.mtime + [h.xfl, h.os]
  }

  function OptionalFields(h: Header): bytes {
    ExtraField(h.extra) + StringField(h.name) + StringField(h.comment) + CrcField(h.crc)
  }

  function EncHeader(h: Header): bytes {
    FixedFields(h) + OptionalFields(h)
  }

  /** A member: its header, its compressed blocks with what they hold, and its trailer. */
  datatype Member = Member(header: Header, deflated: bytes, content: bytes, trailer: bytes)

  /** The blocks give back the content and mark their own end, whatever follows them. */
  ghost predicate ValidMember(inflate: Inflate, m: Member) {
    && ValidHeader(m.header) && |m.trailer| == 8
    && forall rest: bytes :: inflate(m.deflated + rest) == Inflated(m.content, |m.deflated|, EOF)
  }

  function EncMember(m: Member): bytes {
    EncHeader(m.header) + m.deflated + m.trailer
  }

  function EncMembers(ms: seq<Member>): bytes {
    if ms == [] then [] else EncMember(ms[0]) + EncMembers(ms[1..])
  }

  function Contents(ms: seq<Member>): bytes {
    if ms == [] then [] else ms[0].content + Contents(ms[1..])
  }

  lemma {:induction false} SkipsString(br: bytes, p: nat, text: bytes)
    requires 0 !in text && At(br, p, text + [0])
    ensures SkipNullTerminated(br, p) == Moved(p + |text| + 1, None)
    decreases text
  {
    var e := text + [0];
    assert br[p] == br[p..p + |e|][0] == e[0];
    if text != [] {
      assert e == [text[0]] + (text[1..] + [0]);
      AtConcat(br, p, [text[0]], text[1..] + [0]);
      SkipsString(br, p + 1, text[1..]);
    }
  }

  /** The flags that announce the optional fields. */
  predicate Announces(flg: byte, h: Header) {
    && (Flag(flg, FLAG_EXTRA) <==> h.extra.Some?)
    && (Flag(flg, FLAG_NAME) <==> h.name.Some?)
    && (Flag(flg, FLAG_COMMENT) <==> h.comment.Some?)
    && (Flag(flg, FLAG_HDR_CRC) <==> h.crc.Some?)
  }

  lemma SkipsExtra(br: bytes, p: nat, flg: byte, extra: Option<bytes>)
    requires Flag(flg, FLAG_EXTRA) <==> extra.Some?
    requires extra.Some? ==> |extra.value| < 0x1_0000
    requires At(br, p, ExtraField(extra))
    ensures SkipExtra(br, p, flg) == Moved(p + |ExtraField(extra)|, None)
  {
    if extra.Some? {
      var e := ExtraField(extra);
      assert br[p] == br[p..p + |e|][0] && br[p + 1] == br[p..p + |e|][1];
    }
  }

  lemma SkipsField(br: bytes, p: nat, flg: byte, text: Option<bytes>, mask: nat)
    requires mask > 0 && (Flag(flg, mask) <==> text.Some?)
    requires (text.Some? ==> 0 !in text.value) && At(br, p, StringField(text))
    ensures SkipString(br, p, flg, mask) == Moved(p + |StringField(text)|, None)
  {
    if text.Some? {
      SkipsString(br, p, text.value);
    }
  }

  lemma {:induction false} SkipsFields(br: bytes, p: nat, flg: byte, h: Header)
    requires ValidHeader(h) && Announces(flg, h) && At(br, p, OptionalFields(h))
    ensures FieldsSkipped(br, p, flg) == Moved(p + |OptionalFields(h)|, None)
  {
    var e, n, c := ExtraField(h.extra), StringField(h.name), StringField(h.comment);
    hide ExtraField, StringField, SkipExtra, SkipString;
    AtConcat(br, p, e + n + c, CrcField(h.crc));
    AtConcat(br, p, e + n, c);
    AtConcat(br, p, e, n);
    SkipsExtra(br, p, flg, h.extra);
    SkipsField(br, p + |e|, flg, h.name, FLAG_NAME);
    SkipsField(br, p + |e| + |n|, flg, h.comment, FLAG_COMMENT);
  }

  lemma FixedBytes(br: bytes, p: nat, h: Header)
    requires |h.mtime| == 4 && At(br, p, FixedFields(h))
    ensures p + 10 <= |br| && br[p] == 0x1f && br[p + 1] == 0x8b && br[p + 2] == 8 && br[p + 3] == FlagByte(h)
  {
    var f := br[p..p + 10];
    assert f == FixedFields(h);
    assert br[p] == f[0] && br[p + 1] == f[1] && br[p + 2] == f[2] && br[p + 3] == f[3];
  }

  /** skipHeader stops at the first compressed byte, whatever optional fields the header has. */
  lemma {:induction false} SkipsHeader(br: bytes, p: nat, h: Header)
    requires ValidHeader(h) && At(br, p, EncHeader(h))
    ensures HeaderSkipped(br, p) == Moved(p + |EncHeader(h)|, None)
  {
    var flg := FlagByte(h);
    assert |FixedFields(h)| == 10;
    AnnouncesAll(h);
    hide FieldsSkipped, FixedFields, OptionalFields, Announces, At, FlagByte;
    AtConcat(br, p, FixedFields(h), OptionalFields(h));
    FixedBytes(br, p, h);
    SkipsFields(br, p + 10, flg, h);
  }

  lemma AnnouncesAll(h: Header)
    ensures Announces(FlagByte(h), h)
  {
  }

  lemma FindsExtra(br: bytes, p: nat, flg: byte) returns (extra: Option<bytes>)
    requires p <= |br| && SkipExtra(br, p, flg).err == None
    ensures (Flag(flg, 4) <==> extra.Some?) && (extra.Some? ==> |extra.value| < 0x1_0000)
    ensures At(br, p, ExtraField(extra)) && SkipExtra(br, p, flg).pos == p + |ExtraField(extra)|
  {
    extra := None;
    if Flag(flg, 4) {
      var high: nat := br[p + 1];
      var n := 256 * high + br[p];
      hide Flag;
      extra := Some(br[p + 2..p + 2 + n]);
      ExtraAt(br, p, n);
    }
  }

  lemma ExtraAt(br: bytes, p: nat, n: nat)
    requires p + 2 + n <= |br| && n % 256 == br[p] && n / 256 == br[p + 1]
    ensures At(br, p, ExtraField(Some(br[p + 2..p + 2 + n])))
  {
    var size, data := br[p..p + 2], br[p + 2..p + 2 + n];
    assert size == [n % 256, (n / 256) % 256];
    assert ExtraField(Some(data)) == size + data;
    hide ExtraField;
    AtConcat(br, p, size, data);
  }

  lemma {:induction false} FindsText(br: bytes, p: nat) returns (text: bytes)
    requires p <= |br| && SkipNullTerminated(br, p).err == None
    ensures 0 !in text && At(br, p, text + [0]) && SkipNullTerminated(br, p).pos == p + |text| + 1
    decreases |br| - p
  {
    if br[p] == 0 {
      text := [];
      assert br[p..p + 1] == [0];
    } else {
      var more := FindsText(br, p + 1);
      text := [br[p]] + more;
      assert br[p..p + 1] == [br[p]] && text + [0] == [br[p]] + (more + [0]);
      AtConcat(br, p, [br[p]], more + [0]);
    }
  }

  lemma FindsString(br: bytes, p: nat, flg: byte, mask: nat) returns (text: Option<bytes>)
    requires p <= |br| && mask > 0 && SkipString(br, p, flg, mask).err == None
    ensures (Flag(flg, mask) <==> text.Some?) && (text.Some? ==> 0 !in text.value)
    ensures At(br, p, StringField(text)) && SkipString(br, p, flg, mask).pos == p + |StringField(text)|
  {
    if Flag(flg, mask) {
      var found := FindsText(br, p);
      text := Some(found);
    } else {
      text := None;
    }
  }

  /** A header stands at p; the three reserved bits of its flags may have any value. */
  predicate HeaderAt(br: bytes, p: nat, h: Header) {
    && p + 10 <= |br| && br[p..p + 3] == [0x1f, 0x8b, 0x08] && br[p + 3] % 32 == FlagByte(h)
    && br[p + 4..p + 8] == h.mtime && br[p + 8] == h.xfl && br[p + 9] == h.os
    && At(br, p + 10, OptionalFields(h))
  }

  /** The fields that are skipped are those the flags announce. */
  lemma {:induction false} FindsFields(br: bytes, p: nat, flg: byte) returns (h: Header)
    requires p <= |br| && FieldsSkipped(br, p, flg).err == None
    ensures ValidHeader(h)
    ensures flg % 32 == FlagByte(h) && At(br, p, OptionalFields(h))
    ensures FieldsSkipped(br, p, flg).pos == p + |OptionalFields(h)|
  {
    hide SkipExtra, SkipString, SkipCrc, At, ExtraField, StringField, CrcField, Flag;
    var extra := FindsExtra(br, p, flg);
    var p1 := p + |ExtraField(extra)|;
    var name := FindsString(br, p1, flg, FLAG_NAME);
    var p2 := p1 + |StringField(name)|;
    var comment := FindsString(br, p2, flg, FLAG_COMMENT);
    var p3 := p2 + |StringField(comment)|;
    var crc := FindsCrc(br, p3, flg);
    FlagBits(flg);
    h := Header(Flag(flg, 1), [0, 0, 0, 0], 0, 0, extra, name, comment, crc);
    AtConcat(br, p, ExtraField(extra), StringField(name));
    AtConcat(br, p, ExtraField(extra) + StringField(name), StringField(comment));
    AtConcat(br, p, ExtraField(extra) + StringField(name) + StringField(comment), CrcField(crc));
  }

  lemma FindsCrc(br: bytes, p: nat, flg: byte) returns (crc: Option<bytes>)
    requires p <= |br| && SkipCrc(br, p, flg).err == None
    ensures (Flag(flg, 2) <==> crc.Some?) && (crc.Some? ==> |crc.value| == 2)
    ensures At(br, p, CrcField(crc)) && SkipCrc(br, p, flg).pos == p + |CrcField(crc)|
  {
    crc := if Flag(flg, 2) then Some(br[p..p + 2]) else None;
  }

  /** The low five bits are the five flags. */
  lemma FlagBits(flg: byte)
    ensures flg % 32 == (if Flag(flg, 1) then 1 else 0) + (if Flag(flg, 2) then 2 else 0)
      + (if Flag(flg, 4) then 4 else 0) + (if Flag(flg, 8) then 8 else 0) + (if Flag(flg, 16) then 16 else 0)
  {
    var f2, f4, f8, f16 := flg / 2, flg / 4, flg / 8, flg / 16;
    assert f4 == f2 / 2 && f8 == f4 / 2 && f16 == f8 / 2 && flg / 32 == f16 / 2;
  }

  lemma {:induction false} AnnouncesFlags(flg: byte, h: Header)
    requires flg % 32 == FlagByte(h)
    ensures Announces(flg, h)
  {
    FlagBits(flg);
    hide Flag;
  }

  /** skipHeader accepts exactly the headers of RFC 1952, but for the reserved flags, which it does not look
      at, and stops right behind the header. */
  lemma {:induction false} HeaderExact(br: bytes, p: nat, q: nat)
    requires p <= |br|
    ensures HeaderSkipped(br, p) == Moved(q, None)
       <==> exists h :: ValidHeader(h) && HeaderAt(br, p, h) && q == p + 10 + |OptionalFields(h)|
  {
    MagicNeeded(br, p);
    hide FieldsSkipped, OptionalFields, FlagByte;
    if HeaderSkipped(br, p) == Moved(q, None) {
      var h := FindsFields(br, p + 10, br[p + 3]);
      h := FixedOf(br, p, h);
    }
    forall h | ValidHeader(h) && HeaderAt(br, p, h) && q == p + 10 + |OptionalFields(h)|
      ensures HeaderSkipped(br, p) == Moved(q, None)
    {
      AnnouncesFlags(br[p + 3], h);
      SkipsFields(br, p + 10, br[p + 3], h);
      assert br[p] == br[p..p + 3][0] && br[p + 1] == br[p..p + 3][1] && br[p + 2] == br[p..p + 3][2];
    }
  }

  /** The fixed fields at p, with the optional ones of h. */
  lemma FixedOf(br: bytes, p: nat, h: Header) returns (full: Header)
    requires p + 10 <= |br| && At(br, p, [0x1f, 0x8b, 0x08]) && br[p + 3] % 32 == FlagByte(h)
    requires At(br, p + 10, OptionalFields(h)) && ValidHeader(h)
    ensures ValidHeader(full) && HeaderAt(br, p, full) && OptionalFields(full) == OptionalFields(h)
  {
    full := h.(mtime := br[p + 4..p + 8], xfl := br[p + 8], os := br[p + 9]);
  }

  lemma InflatesMember(inflate: Inflate, br: bytes, p: nat, m: Member)
    requires ValidMember(inflate, m) && At(br, p, m.deflated)
    ensures inflate(br[p..]) == Inflated(m.content, |m.deflated|, EOF)
    ensures Used(inflate, br, p) == |m.deflated|
  {
    assert br[p..] == m.deflated + br[p + |m.deflated|..];
  }

  /** Where the parts of a member stand. */
  lemma MemberAt(br: bytes, p: nat, m: Member)
    requires At(br, p, EncMember(m))
    ensures At(br, p, EncHeader(m.header))
    ensures At(br, p + |EncHeader(m.header)|, m.deflated)
  {
    AtConcat(br, p, EncHeader(m.header) + m.deflated, m.trailer);
    AtConcat(br, p, EncHeader(m.header), m.deflated);
  }

  lemma FirstMember(br: bytes, p: nat, ms: seq<Member>)
    requires ms != [] && At(br, p, EncMembers(ms))
    ensures |EncMembers(ms)| == |EncMember(ms[0])| + |EncMembers(ms[1..])|
    ensures At(br, p, EncMember(ms[0])) && At(br, p + |EncMember(ms[0])|, EncMembers(ms[1..]))
  {
    hide EncMember, At;
    AtConcat(br, p, EncMember(ms[0]), EncMembers(ms[1..]));
  }

  lemma {:induction false} DeliversMember(inflate: Inflate, br: bytes, p: nat, m: Member, next: nat, rest: Stream)
    requires ValidMember(inflate, m) && At(br, p, EncMember(m)) && next == p + |EncMember(m)|
    requires UnzipFrom(inflate, br, next) == rest
    ensures UnzipFrom(inflate, br, p) == Prepend(m.content, rest)
  {
    MemberAt(br, p, m);
    SkipsHeader(br, p, m.header);
    var start := p + |EncHeader(m.header)|;
    InflatesMember(inflate, br, start, m);
    assert next == start + |m.deflated| + 8;
    UnzipSteps(inflate, br, p, start, next);
  }

  /** From a header to the data, over the data to the trailer, and over the trailer. */
  lemma {:induction false} UnzipSteps(inflate: Inflate, br: bytes, p: nat, start: nat, next: nat)
    requires p <= start && start + 8 <= next <= |br| && HeaderSkipped(br, p) == Moved(start, None)
    requires inflate(br[start..]).end == EOF && inflate(br[start..]).used == next - 8 - start
    ensures UnzipFrom(inflate, br, p) == Prepend(inflate(br[start..]).content, UnzipFrom(inflate, br, next))
  {
    hide HeaderSkipped;
    var q := next - 8;
    assert Used(inflate, br, start) == q - start;
    assert Discard(br, q, 8) == Moved(next, None);
    assert UnzipNext(inflate, br, q) == UnzipFrom(inflate, br, next);
  }

  lemma {:induction false} PrependAll(a: bytes, b: bytes, rest: Stream)
    ensures Prepend(a, Prepend(b, rest)) == Prepend(a + b, rest)
  {
    Assoc(a, b, rest.data);
  }

  /** From the start of any member, the reader delivers the contents of that member and of all behind
      it, empty ones included, and goes on with what follows. */
  lemma {:induction false} UnzipsOn(inflate: Inflate, br: bytes, p: nat, ms: seq<Member>)
    requires forall k :: 0 <= k < |ms| ==> ValidMember(inflate, ms[k])
    requires At(br, p, EncMembers(ms))
    ensures UnzipFrom(inflate, br, p) == Prepend(Contents(ms), UnzipFrom(inflate, br, p + |EncMembers(ms)|))
    decreases ms
  {
    hide UnzipFrom, EncMember, ValidMember;
    var end := UnzipFrom(inflate, br, p + |EncMembers(ms)|);
    if ms == [] {
      assert [] + end.data == end.data;
    } else {
      FirstMember(br, p, ms);
      var next := p + |EncMember(ms[0])|;
      UnzipsOn(inflate, br, next, ms[1..]);
      DeliversMember(inflate, br, p, ms[0], next, Prepend(Contents(ms[1..]), end));
      PrependAll(ms[0].content, Contents(ms[1..]), end);
    }
  }

  /** What the reader makes of a member's place that holds no header, or only a part of one. */
  lemma {:induction false} NoMember(inflate: Inflate, br: bytes, q: nat)
    requires q <= |br| && (q + 10 <= |br| ==> !At(br, q, [0x1f, 0x8b, 0x08]))
    ensures UnzipFrom(inflate, br, q)
         == Stream([], if q == |br| then EOF else if q + 10 <= |br| then GzipHeader else UnexpectedEOF)
  {
    MagicNeeded(br, q);
    hide Unzip, At;
  }

  lemma PrependNothing(content: bytes, end: Error)
    ensures Prepend(content, Stream([], end)) == Stream(content, end)
  {
  }

  /** At the end of the file it reports just that. */
  lemma {:induction false} UnzipsMembers(inflate: Inflate, br: bytes, p: nat, ms: seq<Member>)
    requires forall k :: 0 <= k < |ms| ==> ValidMember(inflate, ms[k])
    requires p <= |br| && br[p..] == EncMembers(ms)
    ensures UnzipFrom(inflate, br, p) == Stream(Contents(ms), EOF)
  {
    hide UnzipFrom, EncMembers, ValidMember, Prepend, Contents;
    UnzipsOn(inflate, br, p, ms);
    NoMember(inflate, br, |br|);
    PrependNothing(Contents(ms), EOF);
  }

  /** A member whose data break off ends the reading in the decompressor's error, behind all it made of them. */
  lemma {:induction false} UnzipsThenBreaks(inflate: Inflate, br: bytes, p: nat, ms: seq<Member>, h: Header,
                                            rest: bytes)
    requires forall k :: 0 <= k < |ms| ==> ValidMember(inflate, ms[k])
    requires p <= |br| && br[p..] == EncMembers(ms) + (EncHeader(h) + rest) && ValidHeader(h)
    requires inflate(rest).end != EOF
    ensures UnzipFrom(inflate, br, p) == Stream(Contents(ms) + inflate(rest).content, inflate(rest).end)
  {
    hide EncMembers, ValidMember, EncHeader, HeaderSkipped, UnzipNext, ValidHeader;
    var q := p + |EncMembers(ms)|;
    StandsAt(br, p, EncMembers(ms), EncHeader(h) + rest);
    StandsAt(br, q, EncHeader(h), rest);
    UnzipsOn(inflate, br, p, ms);
    SkipsHeader(br, q, h);
  }

  lemma StandsAt(br: bytes, p: nat, a: bytes, rest: bytes)
    requires p <= |br| && br[p..] == a + rest
    ensures At(br, p, a) && p + |a| <= |br| && br[p + |a|..] == rest
  {
    var e := br[p..];
    assert e[..|a|] == a && e[|a|..] == rest;
  }

  lemma Behind(br: bytes, p: nat, a: bytes, rest: bytes)
    requires p <= |br| && br[p..] == a + rest
    ensures At(br, p, a) && p + |a| + |rest| == |br|
    ensures |rest| >= 10 && rest[..3] != [0x1f, 0x8b, 0x08] ==> !At(br, p + |a|, [0x1f, 0x8b, 0x08])
  {
    var e, q := br[p..], p + |a|;
    assert e[..|a|] == a && e[|a|..] == rest;
    if |rest| >= 10 {
      assert br[q..q + 3] == rest[..3];
    }
  }

  /** Anything else behind the members ends the reading in an error, once their contents are delivered:
      fewer than ten bytes are a header cut off, more than that no header. */
  lemma {:induction false} UnzipsThenRefuses(inflate: Inflate, br: bytes, p: nat, ms: seq<Member>, rest: bytes)
    requires forall k :: 0 <= k < |ms| ==> ValidMember(inflate, ms[k])
    requires p <= |br| && br[p..] == EncMembers(ms) + rest && rest != []
    requires |rest| >= 10 ==> rest[..3] != [0x1f, 0x8b, 0x08]
    ensures UnzipFrom(inflate, br, p) == Stream(Contents(ms), if |rest| >= 10 then GzipHeader else UnexpectedEOF)
  {
    hide UnzipFrom, EncMembers, ValidMember, Prepend, Contents, At;
    Behind(br, p, EncMembers(ms), rest);
    UnzipsOn(inflate, br, p, ms);
    NoMember(inflate, br, p + |EncMembers(ms)|);
    PrependNothing(Contents(ms), if |rest| >= 10 then GzipHeader else UnexpectedEOF);
  }
}
