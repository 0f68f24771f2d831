/** The requests of the "Event Modes" and "Grammar" sections of the Fluentd Forward Protocol
    Specification v1, in any MessagePack widths, and what a server owes for them. */
module Grammar {
  import opened Bytes
  import opened Results
  import opened Integers
  import opened Timestamps
  import opened Wires
  import opened Gunzip
  import opened Transport

  /** A request: the array head with its length bytes, and its items. The two packed forms carry the
      head and length bytes of the payload, and the entries the payload spells. */
  datatype Request =
    | Message(head: byte, len: bytes, tag: Wire, time: Wire, record: Wire)
    | Batch(head: byte, len: bytes, tag: Wire, entries: Wire, option: Option<Wire>)
    | Packed(head: byte, len: bytes, tag: Wire, binHead: byte, binLen: bytes, events: seq<Wire>, option: Option<Wire>)
    | Compressed(head: byte, len: bytes, tag: Wire, binHead: byte, binLen: bytes, members: seq<Member>,
                 events: seq<Wire>, option: Option<Wire>)

  function OptionItem(option: Option<Wire>): seq<Wire> {
    if option.None? then [] else [option.value]
  }

  /** The request as a MessagePack value. */
  function AsWire(r: Request): Wire {
    match r
    case Message(h, l, tag, time, record) => Node(h, l, [tag, time, record])
    case Batch(h, l, tag, entries, option) => Node(h, l, [tag, entries] + OptionItem(option))
    case Packed(h, l, tag, bh, bl, events, option) =>
      Node(h, l, [tag, Leaf(bh, bl, EncAll(events))] + OptionItem(option))
    case Compressed(h, l, tag, bh, bl, members, _, option) =>
      Node(h, l, [tag, Leaf(bh, bl, EncMembers(members))] + OptionItem(option))
  }

  predicate IsTag(w: Wire) {
    IsStr(w) && MIN_TAG_LEN <= |w.body| <= MAX_TAG_LEN
  }

  /** An integer or a fixed-size extension such as EventTime. */
  predicate IsTime(w: Wire) {
    w.Leaf? && (IsIntHead(w.head) || IsFixExtHead(w.head))
  }

  predicate IsEvent(w: Wire) {
    IsArray(w) && |w.items| == 2 && IsTime(w.items[0]) && IsMap(w.items[1])
  }

  predicate AllEvents(ws: seq<Wire>) {
    forall k :: 0 <= k < |ws| ==> IsEvent(ws[k])
  }

  /** Pairs with string keys. The value of "chunk" is a string in the protocol; any scalar is acknowledged. */
  predicate OptionPairs(items: seq<Wire>)
    decreases items
  {
    |items| >= 2 ==>
      && IsStr(items[0])
      && (items[0].body == CHUNK ==> items[1].Leaf?)
      && OptionPairs(items[2..])
  }

  predicate IsOption(w: Wire) {
    IsMap(w) && OptionPairs(w.items)
  }

  ghost predicate Valid(inflate: Inflate, r: Request) {
    && Plain(AsWire(r)) && IsArray(AsWire(r)) && IsTag(r.tag)
    && match r
       case Message(_, _, _, time, record) => IsTime(time) && IsMap(record)
       case Batch(_, _, _, entries, option) =>
         IsArray(entries) && AllEvents(entries.items) && (option.Some? ==> IsOption(option.value))
       case Packed(_, _, _, bh, _, events, option) =>
         && IsBinHead(bh) && events != [] && AllEvents(events) && AllPlain(events)
         && (option.Some? ==> IsOption(option.value))
       case Compressed(_, _, _, bh, _, members, events, option) =>
         && IsBinHead(bh) && members != [] && AllEvents(events) && AllPlain(events)
         && (forall k :: 0 <= k < |members| ==> ValidMember(inflate, members[k]))
         && Contents(members) == EncAll(events)
         && (option.Some? ==> IsOption(option.value))
  }

  function EncRequests(rs: seq<Request>): bytes {
    if rs == [] then [] else Enc(AsWire(rs[0])) + EncRequests(rs[1..])
  }

  /** A number of seconds as Go's int64. */
  function Seconds(n: int): int64 {
    ToInt64(n % 0x1_0000_0000_0000_0000)
  }

  /** The time a value stands for: an integer is seconds, and the "EventTime Ext Format" section of the
      protocol has 32-bit seconds and nanoseconds behind a type byte of 0. Of other extensions, which are no
      times of the protocol, it is what the server makes. */
  function TimeOwed(time: Wire): Time
    requires time.Leaf?
  {
    var h, body := time.head, time.body;
    if h <= 0x7f then UnixTime(h, 0)
    else if h >= 0xe0 then UnixTime(h - 0x100, 0)
    else if 0xcc <= h <= 0xcf then UnixTime(Seconds(UintOf(body)), 0)
    else if 0xd0 <= h <= 0xd3 then UnixTime(Seconds(IntOf(body)), 0)
    else if h == 0xd7 && |body| == 9 && body[0] == 0x00 then UnixTime(Seconds(IntOf(body[1..5])), IntOf(body[5..9]))
    else ReadTimeUnsafe(h, body)
  }

  /** The server's unchecked reader gives that time. */
  lemma {:induction false} ReadsTime(time: Wire)
    requires WellFormed(time) && IsTime(time)
    ensures ReadTimeUnsafe(time.head, time.body) == TimeOwed(time)
  {
    var h, body := time.head, time.body;
    if 0xcc <= h <= 0xd3 {
      WordBounds(body);
      PowValues();
      SecondsFit(if h <= 0xcf then UintOf(body) else IntOf(body));
    } else if h == 0xd7 && body[0] == 0x00 {
      WordBounds(body[1..5]);
      PowValues();
      SecondsFit(IntOf(body[1..5]));
    }
  }

  lemma SecondsFit(n: int)
    requires -0x8000_0000_0000_0000 <= n < 0x1_0000_0000_0000_0000
    ensures Seconds(n) == if n < 0x8000_0000_0000_0000 then n else n - 0x1_0000_0000_0000_0000
  {
  }

  /** The event of a tag, a time and a record. */
  function EventOf(tag: bytes, time: Wire, record: Wire): Event
    requires time.Leaf? && record.Node?
  {
    Event(tag, TimeOwed(time), |record.items| / 2, EncAll(record.items))
  }

  function EntriesOut(tag: bytes, events: seq<Wire>): seq<Output>
    requires AllEvents(events)
  {
    if events == [] then []
    else [Delivered(EventOf(tag, events[0].items[0], events[0].items[1]))] + EntriesOut(tag, events[1..])
  }

  /** The chunks of an option map, in order. */
  function PairAcks(items: seq<Wire>): seq<Output>
    requires OptionPairs(items)
    decreases items
  {
    if |items| < 2 then []
    else (if items[0].body == CHUNK then [Acked(items[1].body)] else []) + PairAcks(items[2..])
  }

  function OptionAcks(option: Option<Wire>): seq<Output>
    requires option.Some? ==> IsOption(option.value)
  {
    if option.None? then [] else PairAcks(option.value.items)
  }

  /** What a request leads to: its events in order, then the acknowledgements of its chunks. */
  ghost function Outputs(inflate: Inflate, r: Request): seq<Output>
    requires Valid(inflate, r)
  {
    match r
    case Message(_, _, tag, time, record) => [Delivered(EventOf(tag.body, time, record))]
    case Batch(_, _, tag, entries, option) => EntriesOut(tag.body, entries.items) + OptionAcks(option)
    case Packed(_, _, tag, _, _, events, option) => EntriesOut(tag.body, events) + OptionAcks(option)
    case Compressed(_, _, tag, _, _, _, events, option) => EntriesOut(tag.body, events) + OptionAcks(option)
  }

  ghost predicate AllValid(inflate: Inflate, rs: seq<Request>) {
    forall k :: 0 <= k < |rs| ==> Valid(inflate, rs[k])
  }

  ghost function AllOutputs(inflate: Inflate, rs: seq<Request>): seq<Output>
    requires AllValid(inflate, rs)
  {
    if rs == [] then [] else Outputs(inflate, rs[0]) + AllOutputs(inflate, rs[1..])
  }
}
