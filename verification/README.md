# Verification of fluentlog's wire format, decoder and delivery pipeline

fluentlog ships log events over the Fluent Forward protocol. This project models, in Dafny 4.11, the four parts of it
that have to fit together, and proves what they promise each other:

* **Codec** (`bytes`, `types`, `integer`, `timestamp`, `strings`, `value`, `iterator`): the MessagePack printers and
  parsers of `pkg/msgpack`, against an independent definition of MessagePack values in `wire.dfy`.
* **Decoder** (`transport`, `transport_phase`, `gunzip`, `lookahead`, `grammar`, `decoder`, `decoder_limits`, `cutoff`,
  `refusals`, `session`): the four modes of `forward/transport` that re-enter each other over two cursors and a gzip
  reader. The grammar of requests and what a server owes for them are defined apart from the code in `grammar.dfy`;
  how the reading of anything else ends is in `cutoff.dfy` and `refusals.dfy`.
* **Delivery** (`dirbuffer`, `worker`, `instance`, `pipeline`, `delivery`, `progress`, `order_limits`): producers, the
  bounded queue, the worker, the two-file fallback on disk, Close and new starts.
* **The link** (`record`, `readback`, `logentry`, `client`, `route`, `endtoend`): how a log call becomes an entry, what
  its bytes read back as, how it reaches the server directly or in a batch, and that the server sees the same event
  either way.

Objects whose methods update fields are classes here (`Iterator`, `TransportPhase`, the gzip `Reader`, `DirBuffer`,
`Instance`, `Logger`, `Writer`, `Lookup`), and each of their methods is proved equal to a function on the state; the
theorems are about those functions. The goroutines are a transition system (`Pipelines.Step`): a run is any list of
actions, so every interleaving of producers, loggers, worker and Close is covered, and every call of the client ends as
one likes: it succeeds, or it fails after any number of its messages have reached the peer.

The pipeline is generic in the message. `Instances.Instance` works on bytes and carries the worker of the pipeline on
whole buffers as its ghost `model`; `EndToEnd` takes the pipeline on the buffers that log builds.

The theorems to read first are `Decoder.DecodesRequests`, `CutOffs.CutRequest`, `Refusals.RefusesRequest`,
`EndToEnd.ServerSeesQueueOrder`, `EndToEnd.RoutesMeet`, `Deliveries.NothingLost`, `OrderLimits.OrderExact`,
`Progress.CloseEnds`, `LogEntries.LogReads` and `ReadBack.ArgsRead`.

`dafny verify dfyconfig.toml` checks everything.

## What the model takes as given

* A connection or file is its bytes and how it ends. A short read yields EOF when nothing is left and an unexpected end
  otherwise; a read that fails leaves the position where it was. A limited reader is the next n bytes, and the outer
  cursor stands behind them from the moment the nested one is opened.
* DEFLATE is a function from the bytes ahead to the content, the bytes used and the end (`Gunzip.Inflate`); a member is
  valid when that function gives back its content. A payload cut short ends like a stream at its end.
* Whether the server's ack callback succeeds is a parameter; the round trips ask that it does, and `FaultyOption` says
  what happens when it does not.
* Strings and slices are byte sequences, `int` has 64 bits, a float is its four or eight bytes, and a slice expression
  out of bounds is an outcome of its own (`Read.Panic`, or no entry at all from `LogEntries.Log`). Slices other than the
  arguments of a log call have no spare capacity.
* What user code or the runtime makes (formatted text, JSON, appended text, the lines of a stack, the pairs of a
  `KeyValueAppender`, which counts them as it says) is a parameter. A stack has one to fifteen lines.
* A fallback file is smaller than 4 GiB when it is sent (`EndToEnd.Gzipped`), so that its length fits its header.
* Operations on fallback files succeed, except opening a read file that does not exist.
* In `b.B[x] += appendArgs(b, ...)` the count byte is read behind the call, as the compiler orders it.

## Where the code and its documentation differ

The model follows the code.

* The Forward specification lets a packed payload be a str (docs/forward-protocol-specification.md); the decoder
  refuses it (`StrPayloadRefused`). An empty packed payload reads as the end of the connection (`PackedExact`).
* A connection that closes inside a request is told from one that closes between requests only where the request's own
  items are cut (`CutRequest`): behind a whole entry of a batch (`CutEntries`), a whole event of a packed payload
  (`CutPayload`) or the first byte of a longer array head (`CutInHead`) it reads as a plain end of the connection.
* A batch of four items is read as one of two, and what follows as requests (`AnnouncedExact`).
* skipHeader does not look at the reserved flags, for which RFC 1952 asks a decompressor to give an error
  (`HeaderExact`).
* A request of message mode with an option is decoded exactly if its record is empty and, unless it is the last
  request, the option's last token has no payload (`EventWithOptionExact`).
* A flush that retries can send the batch of an empty file (`RetrySendsEmpty`, and exactly when, `FlushFillsExact`),
  which the server takes for the end of the connection (`EmptyBatchEnds`).
* ext 8, 16 and 32 are measured one byte short (`SkipScalarExact`).
* The 64-bit timestamp has its seconds in the high bits, opposite to the MessagePack specification: the bytes agree for
  three times only (`Ts64Standard`, `Ts64Differs`). The code reads back what it writes (`TimestampExact`).
* A tag is not bounded by the protocol or by `NewInstance`, but the server refuses one of no or of more than 64 bytes
  (`TagRefused`, `LongTagRefused`).
* Several length fields are read as signed (`BinaryExact`, `ArrayHeaderExact`, `MapHeaderExact`).
* `write_behavior.go` says that a full queue makes Fallback write to disk; the code blocks, as with Block
  (`FullQueueBlocks`).
* After a failed batch the files stay exchanged, and the retry within the same flush reads the other one. Order can
  change (`FailureReorders`), and a flush can end the fallback mode over a file that holds messages, even one whose
  first batch succeeded (`SuccessLeaves`); when exactly it empties the fallback is `FlushEmpties`. Nothing is lost
  (`NothingLost`). Order is kept while batches succeed and failed writes have no effect (`WireOrder`); in any other run
  it is kept exactly as long as every call meets a condition on the state before it (`OrderExact`).
* The pair count is one byte (`LoggedExact`), and fields whose count has wrapped to zero are passed over.

## Model

| member | source | states |
|---|---|---|
| `Types.Lookup.constructor` | pkg/msgpack/types/types.go:50-228 | the tables that init fills range by range give, for every head byte, exactly what `Get` says of it |
| `Iterators.TableAgrees` | pkg/msgpack/types/types.go:50-228 | on every head byte but 0xc1 the table's type, length width and count agree with the MessagePack formats; ext 8/16/32 count one byte (the type) less |
| `Integers.IntRoundTrip` | pkg/msgpack/integer.go:111-160 | `ReadInt` inverts `AppendInt` on every int64, anywhere in a buffer, and consumes the whole encoding |
| `Integers.UintRoundTrip` | pkg/msgpack/integer.go:164-205 | `ReadUint` inverts `AppendUint` on every uint64 |
| `Integers.IntCanonical` | pkg/msgpack/integer.go:14-160 | nothing `ReadInt` accepts for a value is shorter than what `AppendInt` writes for it |
| `Integers.UintCanonical` | pkg/msgpack/integer.go:74-205 | the same for `ReadUint` and `AppendUint` |
| `Integers.UnsafeIntAgrees` | pkg/msgpack/integer.go:208-230 | whenever `ReadInt` succeeds, the unchecked reader at int64 gives the same value on the payload slice |
| `Integers.UnsafeUintAgrees` | pkg/msgpack/integer.go:208-230 | at uint64 it gives the value `ReadUint` gives, and modulo 2^64 the one `ReadInt` gives |
| `Integers.UintStandard` | pkg/msgpack/integer.go:164-205 | what `AppendUint` writes is one of the unsigned formats of the MessagePack specification and spells the number |
| `Integers.IntStandard` | pkg/msgpack/integer.go:111-160 | the same for `AppendInt` and the signed formats |
| `Timestamps.TimestampExact` | pkg/msgpack/timestamp.go:43-261 | `ReadTimestamp` gives back what `AppendTimestamp` wrote, and its end, if and only if the time is in the format's range |
| `Timestamps.Ts64Standard` | pkg/msgpack/timestamp.go:78-86 | for seconds of 34 bits, AppendTimestamp writes the 64-bit layout of the MessagePack specification if and only if the time is one of three |
| `Timestamps.Ts64Differs` | pkg/msgpack/timestamp.go:78-86 | an input for which it does not: one second after the epoch |
| `Timestamps.TimestampHeads` | pkg/msgpack/timestamp.go:43-135 | head, type byte and size of each of the extension formats |
| `Timestamps.UnsafeTimeAgrees` | pkg/msgpack/timestamp.go:263-315 | outside ext 8 the unchecked reader agrees with the checked one wherever that succeeds |
| `Strings.StringExact` | pkg/msgpack/string.go:15-79 | `ReadString` inverts `AppendString` if and only if the string is shorter than 2^32 bytes |
| `Strings.BinaryExact` | pkg/msgpack/binary.go:12-69 | `ReadBinary` inverts `AppendBinary` if and only if the length is in [0,127], [256,32767] or [65536,2^31-1] |
| `Strings.AppendStringDynamic` | pkg/msgpack/string.go:125-179 | reserving, the overlapping shift to the left and the patched header give byte for byte what `AppendString` gives, behind an unchanged prefix |
| `Strings.AppendStringUnknownLength` | pkg/msgpack/string.go:104-120 | the result is dst, a 32-bit header with the payload's length, and the payload |
| `Strings.Str32At` | pkg/msgpack/string.go:33-120 | behind such a header `ReadString` reads the payload if and only if it is shorter than 2^32 bytes |
| `Strings.AppendStringMax255` | pkg/msgpack/string.go:183-201 | the result is dst, an 8-bit header and at most the first 255 bytes |
| `Strings.Max255Reads` | pkg/msgpack/string.go:33-201 | `ReadString` gives back those first 255 bytes |
| `Strings.AppendBinaryUnknownLength` | pkg/msgpack/binary.go:83-100 | the same for a binary |
| `Values.ArrayHeaderExact` | pkg/msgpack/array.go:7-47 | `ReadArrayHeader` inverts `AppendArrayHeader` if and only if the sign bit of the count field is clear |
| `Values.MapHeaderExact` | pkg/msgpack/map.go:7-47 | the same for maps |
| `Values.HeadersStandard` | pkg/msgpack/array.go:7-25 | below 2^32 the headers are heads of the standard whose length spells the number of items, or of pairs |
| `Values.Array` | pkg/msgpack/value.go:37-70 | the loop that re-slices the value yields what `ArrayUpTo` says to a consumer that stops at any value, or fails as it does |
| `Values.ArrayPrefix` | pkg/msgpack/value.go:37-70 | a consumer that stops sees the first values of those it would have seen |
| `Values.ArrayWalkersAgree` | pkg/msgpack/value.go:37-70 | on an array of scalars without ext 8/16/32 and with clear sign bits, `Value.Array` yields exactly the encodings that the iterator's Next and Skip traverse |
| `Values.MapWalkersAgree` | pkg/msgpack/value.go:72-111 | the same for `Value.Map`, keys and values in turn |
| `Iterators.Iterator.Next` | pkg/msgpack/iter.go:50-84 | the object's fields after Next are those of `NextToken` |
| `Iterators.Iterator.Skip` | pkg/msgpack/iter.go:197-220 | the object after Skip, on any bytes, is `Skipped` of the object before; it terminates although counts go up to 2^32 |
| `Iterators.SkipConsumes` | pkg/msgpack/iter.go:50-220 | Next and Skip move the cursor from the start of any nested value without ext 8/16/32 to exactly its end |
| `Iterators.SkipScalarExact` | pkg/msgpack/iter.go:50-220 | for a scalar they do so if and only if it is not ext 8, ext 16 or ext 32 |
| `Wires.EncUnique` | docs/msgpack-specification.md:94-493 | no two values share an encoding, even with other bytes behind them |
| `Gunzip.Reader.SkipHeader` | internal/gzip/gunzip.go:114-171 | a header that is accepted starts with 0x1f, 0x8b, 8, and ten bytes that do not are refused with the header error; the reader then delivers what `UnzipFrom` says from that place on |
| `Gunzip.Reader.Read` | internal/gzip/gunzip.go:85-106 | each Read hands out the next part of what the file delivers, skips members that hold nothing, and ends with the error the file ends with |
| `Gunzip.Reader.ReadAll` | internal/gzip/gunzip.go:85-106 | reading with buffers of any sizes gives `Left`, everything the file delivers |
| `Gunzip.SkipsHeader` | internal/gzip/gunzip.go:114-189 | a header of section 2.3 of RFC 1952, with any of its optional fields, is skipped to the first compressed byte |
| `Gunzip.HeaderExact` | internal/gzip/gunzip.go:114-189 | skipHeader accepts bytes and stops at a position if and only if a header of section 2.3 of RFC 1952, its reserved flags aside, ends there |
| `Gunzip.UnzipsMembers` | internal/gzip/gunzip.go:85-106 | any concatenation of members (section 2.2 of RFC 1952), empty ones included, delivers the concatenated contents and then EOF |
| `Gunzip.UnzipsThenRefuses` | internal/gzip/gunzip.go:85-124 | valid members followed by anything else deliver exactly their contents and then the header error, or, of fewer than ten bytes, an unexpected end |
| `Gunzip.UnzipsThenBreaks` | internal/gzip/gunzip.go:85-106 | valid members followed by one whose data break off deliver their contents, then what the decompressor made of those data, and then its error |
| `Transport.NextOrderly` | forward/transport/transport_phase.go:35-51 | Next never answers "already in", keeps a packed mode current exactly while its iterator lives, and with each event consumes bytes of the payload or of the connection |
| `TransportPhases.TransportPhase.Next` | forward/transport/transport_phase.go:35-37 | the mutually recursive methods, on their own fields and both cursors, do what `Transport.Next` says, of which `DecodesRequests`, `CutRequest` and `RefusesRequest` say what it comes to, and terminate |
| `TransportPhases.TransportPhase.ChangeMode` | forward/transport/transport_phase.go:39-51 | leaving a mode, with its options, and going on in the next one |
| `TransportPhases.TransportPhase.HandleOptions` | forward/transport/transport_phase.go:53-83 | the loop over option pairs acknowledges each chunk and skips other values, as the specification function does |
| `TransportPhases.TransportPhase.MessageNext` | forward/transport/message_mode.go:37-114 | head, tag bounds and choice of mode, with the errors that `Refusal` lists |
| `TransportPhases.TransportPhase.ForwardNext` | forward/transport/forward_mode.go:39-72 | countdown of the entries and return to message mode |
| `TransportPhases.TransportPhase.PackedNext` | forward/transport/packed_forward_mode.go:41-73 | entries of the nested cursor and return to message mode at its end |
| `TransportPhases.TransportPhase.CompNext` | forward/transport/compressed_packed_forward_mode.go:49-81 | the same over the decompressed payload |
| `TransportPhases.TransportPhase.Leave` | forward/transport/packed_forward_mode.go:76-85 | the nested iterator is dropped before the options are read |
| `Sessions.Serve` | forward/server_session_bench_test.go:106-114 | the reading loop over the objects puts out exactly what `Run` says |
| `Decoder.DecodesRequests` | forward/transport/transport_phase.go:35-83 | on the bytes of any list of valid requests in any mix of modes and widths, Next and Skip deliver exactly their events in order, acknowledge every chunk once, behind its own events and before any later one, and then report EOF |
| `CutOffs.CutRequest` | forward/transport/transport_phase.go:53-107 | a connection that closes behind any valid requests, the head of one more and its first k items, more being due, ends in an unexpected end; what has gone out is what the whole requests owe, and of a batch that lacks only its option its events |
| `CutOffs.CutEntries` | forward/transport/forward_mode.go:46-66 | cut off between the entries of an array it delivers the whole ones and reads as a plain end; inside the next entry, behind its head or its time, as an unexpected one |
| `CutOffs.CutPayload` | forward/transport/packed_forward_mode.go:41-85 | cut off inside a packed payload behind some events it delivers these, and reads as a plain end unless an option was announced |
| `Refusals.RefusesRequest` | forward/transport/message_mode.go:37-114 | behind any valid requests, a value that is no array, has the wrong number of items, tag, second item, record or payload ends the reading with the error of the first of these, and nothing of it goes out |
| `Refusals.ValidNotRefused` | forward/transport/message_mode.go:37-114 | no valid request is among these values |
| `Refusals.EntryStepExact` | forward/transport/forward_mode.go:46-66 | in each batch mode Next returns the event of a value that stands for an entry, or the error of its array, count, time or record, exactly as `EntryRefusal` says |
| `Refusals.EntriesBreak` | forward/transport/compressed_packed_forward_mode.go:49-60 | where connection or decompressor fail between two entries, Next fails with that error |
| `Refusals.CutInHead` | forward/transport/message_mode.go:40-42 | a connection that closes inside the length of an array head: a plain end behind the head byte, an error behind a byte of the length |
| `Refusals.NoOptionRefused` | forward/transport/transport_phase.go:53-56 | a batch whose announced option is no map delivers its events and is refused |
| `Refusals.FaultyOption` | forward/transport/transport_phase.go:53-83 | an option map that breaks off, has a key that is no string, or a chunk the callback refuses, behind any pairs in order: the events are delivered, the chunks before the fault acknowledged, and the reading ends in that error |
| `Grammar.ReadsTime` | pkg/msgpack/timestamp.go:263-315 | of an integer or an EventTime the server reads the seconds and nanoseconds its bytes spell |
| `DecoderLimits.PackedExact` | forward/transport/gzip.go:5-20 | a packed request is entered if and only if it holds an event; an empty one reads as the end of the connection |
| `DecoderLimits.AnnouncedExact` | forward/transport/message_mode.go:76-77 | a batch announces an option if and only if it has three items |
| `DecoderLimits.StrPayloadRefused` | forward/transport/message_mode.go:66-96 | a payload spelt as a str, which the Forward specification allows, is refused |
| `DecoderLimits.TagRefused` | forward/transport/message_mode.go:51-63 | a request whose tag is outside the server's bounds is refused for that reason, whatever else it holds |
| `DecoderLimits.EventWithOptionExact` | forward/transport/message_mode.go:101-111 | a message with an option is decoded, its event delivered and the next request read from its start, if and only if its record is empty and either the option's last token has no payload or nothing follows; Next reports no error if and only if the record is empty |
| `DecoderLimits.EventWithOptionOverruns` | forward/transport/message_mode.go:101-111 | behind an empty record, skipping the record passes over as many of the following bytes as that token has, and the event's record is these bytes |
| `DecoderLimits.EventWithChunkOverruns` | forward/transport/message_mode.go:101-111 | so behind a lone chunk, which has been acknowledged, the next request loses as many bytes as the chunk has |
| `DirBuffers.DirBuffer.Write` | fallback/dir_buffer.go:112-121 | the content grows by what is written, and the state is that of `Written` |
| `DirBuffers.DirBuffer.HasData` | fallback/dir_buffer.go:123-170 | merges or exchanges the files as `Checked` says and keeps everything they hold |
| `DirBuffers.DirBuffer.Reader` | fallback/dir_buffer.go:182-219 | hands the exchanged read file to the callback, with writes of others in between, and truncates it only when the callback succeeds |
| `DirBuffers.DirBuffer.Close` | fallback/dir_buffer.go:222-235 | finishes the open member and loses nothing |
| `DirBuffers.CheckedGathers` | fallback/dir_buffer.go:123-170 | afterwards the write file holds everything, former write file first, and the answer says whether there is anything |
| `DirBuffers.RecoveryDelivers` | fallback/dir_buffer.go:123-205 | from any two files, HasData and one successful Reader hand out all of them and leave nothing |
| `DirBuffers.BufferCorrect` | fallback/dir_buffer.go:112-219 | over any sequence of writes, readers (also with writes inside their callbacks, also failing) and new starts, what was written is what was delivered and what is held; without failing callbacks it is delivered in order |
| `DirBuffers.FailureReorders` | fallback/dir_buffer.go:182-219 | a failed callback leaves the files exchanged: a later entry overtakes an earlier one |
| `OrderLimits.DoOrderExact` | fallback/dir_buffer.go:112-219 | an operation on the buffer keeps the order of what is delivered and held if and only if it does not exchange the files or their contents commute |
| `OrderLimits.CommuteExact` | fallback/dir_buffer.go:182-219 | which, of different messages, they do if and only if one of them is empty |
| `Workers.SendConserves` | instance.go:284-318 | a sent message is with the peer, in the fallback or, without one, lost, exactly once, and once more if a failed call reached the peer |
| `Workers.FlushConserves` | instance.go:320-346 | however its three client calls end, a flush loses nothing, and doubles exactly the messages of a failed batch that reached the peer |
| `Workers.FlushOutcome` | instance.go:320-346 | when a flush ends the fallback mode, and when it reports no error, each if and only if |
| `Workers.FlushLeaves` | instance.go:320-346 | what the files hold when a flush has ended the fallback mode, in each of the cases, from any state |
| `Workers.FlushEmpties` | instance.go:320-346 | a flush that ends the fallback mode has emptied the fallback if and only if its first batch succeeded and the other file was empty, or it did not, and what it held was empty and, of a client that cannot reconnect, the other file too |
| `Workers.TidyFlushEmpties` | instance.go:329-345 | from a worker that has everything in its write file: if and only if its first batch succeeded |
| `Workers.SuccessLeaves` | instance.go:320-346 | an input: a failed write, a flush whose batch and reconnect fail, another message; the next batch succeeds and ends the fallback mode over the first message |
| `Workers.RetryEmpties` | instance.go:329-345 | an input: without the other message the first reader finds no file, and the retry delivers everything |
| `Workers.SendInOrder` | instance.go:284-318 | from a worker whose read file is empty and that uses its fallback whenever it holds something, a message, written directly, or to the fallback after a write without effect, comes next in the stream that the peer has and will have |
| `Workers.FlushInOrder` | instance.go:320-346 | from such a worker, one successful batch empties the fallback, ends its mode and keeps that stream |
| `Workers.RestartDelivers` | instance.go:238-244 | from any two files, the start of the worker and one successful batch deliver all of them |
| `OrderLimits.SendOrderExact` | instance.go:284-318 | sendToCli puts its message behind everything sent and held if and only if it goes to the fallback without having reached the peer, or to the peer while what is held commutes with it |
| `OrderLimits.FlushOrderExact` | instance.go:320-346 | a flush, however its calls end, keeps the order if and only if `FlushKeeps` holds of the state before it |
| `OrderLimits.FlushFillsExact` | instance.go:320-346 | a flush sends the batch of an empty file if and only if its first reader finds an empty file nobody writes, or it retries and the other file is empty |
| `OrderLimits.RetrySendsEmpty` | instance.go:329-345 | an input that does: after a failed batch the retry sends nothing, ends the fallback mode and leaves everything in the file |
| `Instances.StrSizeExact` | instance.go:356-369 | strSize is the size AppendString takes, for every tag |
| `Instances.NewInstance` | instance.go:53-87 | refused exactly for a Fallback behaviour without a fallback or without a client that can write batches |
| `Instances.Instance.SendToCli` | instance.go:284-301 | on bytes, the direct write, the change to the fallback and its two writes do what `Send` says on messages |
| `Instances.Instance.SendToFallbackCli` | instance.go:303-318 | the two writes put exactly the entry of two items behind what the fallback holds |
| `Instances.Instance.FlushFallbackToCli` | instance.go:320-346 | the branches of the flush do what `Flush` says |
| `Instances.Instance.MaybeSetFallback` | instance.go:348-354 | the mode after a start says whether the files hold data |
| `Instances.MappedChecked` | fallback/dir_buffer.go:123-170 | HasData on the bytes of whole messages is HasData on the messages |
| `Pipelines.RunsFifo` | instance.go:213-228 | in every run messages leave the queue as a prefix of the order they entered it, the queue keeps its bound, and Block and Fallback drop none |
| `Pipelines.DropsWhenFull` | instance.go:213-228 | a drop happens only in a Loose instance whose queue holds exactly as many messages as it can |
| `Pipelines.FullQueueBlocks` | instance.go:213-228 | a submitted message makes its producer wait if and only if the queue is full and the instance is not Loose |
| `Pipelines.RunsBlocked` | instance.go:213-228 | in every run a producer that waits goes on waiting while the queue has no room |
| `Pipelines.RunsOwned` | instance.go:104-318 | in every run each buffer is in exactly one of pool, producer, queue, worker and loggers, and is put back once for each time it was got |
| `Deliveries.RunsConserved` | instance.go:232-346 | in every run, with any ends of the client's calls, closes and new starts, every message taken is accounted for exactly, doubled only by failed calls that reached the peer |
| `Deliveries.NothingLost` | instance.go:284-346 | with a fallback every message that entered the running instance's queue or was taken by an earlier one, and all that the files held at first, is with the peer, in the files, in hand or queued; and all that had entered an earlier one's queue when its Close began was taken by it |
| `Deliveries.WireOrder` | instance.go:232-354 | if batches succeed and failed writes have no effect, the peer has a prefix of the dequeue order over any changes of mode and lives, and outside the fallback mode both files are empty |
| `OrderLimits.OrderExact` | instance.go:232-354 | in any run of a fallback instance, whatever its client's calls do, the peer's messages, the files and the hand are at every moment the dequeue order if and only if every call meets its condition on the state before it |
| `Deliveries.CloseDrains` | instance.go:112-127 | when Close is through, every message enqueued before it began has been passed on, nothing is in hand, and nothing but a new start touches client or files |
| `Deliveries.DrainProgress` | instance.go:268-281 | while draining the worker always has a step, and each step of worker, producers and Close lowers the load |
| `Deliveries.DrainEnds` | instance.go:268-281 | so no run takes more such steps than that before the worker exits |
| `Progress.CloseEnds` | instance.go:112-283 | from wherever a run stands once Close has begun, at most 2n + 6 steps of worker and Close, each enabled at its turn, bring Close to its end, with n messages queued; every message enqueued before Close began has then been passed on |
| `Progress.CloseDelivers` | instance.go:112-127 | whatever follows the call of Close in the same life, when it is through everything enqueued at the call has been taken |
| `Progress.QueueFirst` | instance.go:252-267 | a worker about to look at a queue that is not empty sends no batch and does nothing else before the message at its head is sent |
| `Progress.WaitEnds` | instance.go:213-228 | before the drain, at most 3n + 2 steps of the worker let a producer that waits go on |
| `Progress.CatchesUpAnytime` | instance.go:252-346 | from any moment of a clean run before the drain, at most 3n + 3 steps of the worker bring the peer all the files held at first and all enqueued since, in order, and end the fallback mode |
| `Deliveries.RestartCatchesUp` | instance.go:112-146 | after Close, a new start and one successful batch, the peer has every message that was taken, among them all enqueued before Close began |
| `Records.AppendKeyValue` | append_key_value.go:10-95 | the pair of the key and the value of its type's encoding, or the pairs of a KeyValueAppender, and their number |
| `Records.AppendArgs` | append_args.go:5-23 | the pairs of the argument list behind dst, and their number modulo 256 |
| `ReadBack.ArgReads` | append_key_value.go:10-90 | what is written for an argument is read back as it: by `ReadInt`, `ReadUint` and `ReadString`, as a bin token with the data, as 0xc3 if and only if it is true, or as the head of a float's size and its bytes |
| `ReadBack.EveryArgs` | append_args.go:5-23 | every argument list is made of keys with values, values without a key, empty strings and perhaps a key at the end |
| `ReadBack.ArgsRead` | append_args.go:5-23 | and the bytes written for one read back as just these: each key and then its value, an empty key before a value without one, nothing for the rest |
| `LogEntries.Logger.With` | logger.go:118-133 | the new logger has the inherited pairs and then its own; without arguments it has none |
| `LogEntries.ChainInherits` | logger.go:118-133 | along a chain of With calls the pairs stand outermost first; a call without arguments drops those before it |
| `LogEntries.AppendStackTrace` | append_stack_trace.go:25-58 | the key and an array of at most 15 lines, its count patched in behind them |
| `LogEntries.Log` | instance.go:138-193 | the bytes returned are those of the entry with its patched count byte and say what `EntryReads` lists, or there are none, where the format takes more arguments than the slice has capacity |
| `LogEntries.LogReads` | instance.go:138-193 | those bytes read back, one behind the other: the tag, the time, the count, "@id", "pri" and "message" with the id, the severity and the message, formatted or not, the inherited pairs, those of the arguments behind the format's, and last "stackTrace" with the lines, cut to 255 bytes, if and only if the severity is at most the threshold |
| `LogEntries.LoggedExact` | instance.go:152-189 | that entry is the valid encoding of all the call's pairs, standard, inherited, own and stack trace in this order, if and only if they are at most 255 |
| `Clients.Writer.WriteBinaryReader` | pkg/msgpack/writer.go:45-68 | header and data go out in order, as far as the connection takes them and the reader delivers them, and what then stands in the buffer |
| `Clients.WriteBatch` | forward/client.go:142-163 | what goes out is the framed batch, behind what a failed batch has left in the buffer, or with an error the part of it the connection took; and what then stands in the buffer |
| `Routes.FramesBatch` | forward/client.go:142-163 | the frame is the encoding of a CompressedPackedForward request with the option compressed: gzip |
| `Routes.StripsTag` | instance.go:303-318 | what the fallback gets for a logged entry is the encoding of its event of two items |
| `Routes.MemberBytes` | instance.go:303-318 | a gzip member of a fallback file holds exactly its messages' events |
| `Routes.LoggedEvent` | instance.go:138-193 | the event of a logged call has its tag and all its pairs in order, and its time if and only if that has 32-bit seconds |
| `Routes.ServerDelivers` | forward/transport/compressed_packed_forward_mode.go:34-95 | of any mixture of direct messages and batches the server delivers the messages in the order the peer received them |
| `EndToEnd.Recover` | instance.go:284-345 | the bytes the client puts on the wire, buffers as they are and stripped, gzipped and framed files, are the encodings of requests that carry the messages |
| `EndToEnd.RoutesMeet` | forward/client.go:142-163 | the bytes of buffers written one after the other and the framed file of the same buffers, stripped, in any number of members, are decoded to the same events |
| `EndToEnd.ServerReads` | forward/transport/transport_phase.go:35-83 | of the bytes of any mixture of buffers and framed files the server delivers the messages in the order the peer received them |
| `EndToEnd.ServersRead` | forward/transport/transport_phase.go:24-83 | split over any number of connections, they deliver the same events in the same order |
| `EndToEnd.CallsEvents` | instance.go:138-193 | the events owed for the buffers of log calls are the calls' tags, times as an EventTime carries them, and pairs |
| `EndToEnd.ServerSeesQueueOrder` | instance.go:232-354 | over a whole run of producers, worker, fallback and new starts on the buffers of log calls, the server makes of the client's bytes, over any number of connections, a prefix of the calls' events in the queue's order, and all of them outside the fallback mode |
| `EndToEnd.EmptyBatchEnds` | forward/transport/message_mode.go:79-92 | the batch of an empty file reads as the end of the connection, whatever follows it |
| `EndToEnd.LongTagRefused` | forward/transport/message_mode.go:51-63 | messages and batches of an instance whose tag has more than 64 bytes are refused |

## Left out

- The ring buffer, the object pools and hexid: bytes, sets of buffer numbers and a parameter stand for them.
- Flush, SetManualFlush, Rewind and zero-copy aliasing: decoded values are values.
- TCP, TLS, heartbeat, dialing, deadlines, the server's accept loop and the handshake. A reconnect is an outcome.
- Deadline errors, behind which the example server goes on reading: the model's loop ends at the first error.
- The slog adapter and `metrics`: an adapter that may write no value at all, and a special case of the argument pairs.
- Float conversion, countFmtArgs, text formatting, `FileBuffer`, benchmarks.
- What the server makes of a message or batch that reaches it only in part (how many whole messages reached the peer is
  an outcome, and `Clients.WriteBatch` gives the bytes); partial writes of fallback files and crashes inside a gzip member; disk errors.
- TransportPhases.TransportPhase.CompNext: a decompressor that fails in the middle of a member ends the run
  (`UnzipsThenBreaks`, `EntriesBreak`); which events came before is stated by the refinement to `Run`, not by the grammar.
- Decoder.DecodesRequests: is about valid requests; what ends the reading of others is in `Refusals` and `CutOffs`,
  and what happens behind the first error is not stated. A message with an option and nested ext 8/16/32 are outside its
  grammar, because the code does not decode them; `EventWithOptionExact` and `SkipScalarExact` give the exact limits.
- CutOffs.CutRequest: cuts at the end of whole items. Inside a record the event has been returned already, and the
  model's consumer does not look at the error of its Skip.
- Values.ArrayWalkersAgree: containers inside are left out, because `BytesLen` does not count their bodies.
- Deliveries.WireOrder: is one direction; `OrderExact` is the exact condition, on the order at every moment of a run.
- Values.Array: a cut item is a panic; in Go the slice may reach into the capacity behind the value. The same holds of
  the ext 8 branch of `Timestamps.ReadTimestamp`.
- Progress.CloseEnds: gives the steps that end a Close; that the worker's `select`, while others keep it busy, at last
  picks the close signal is the scheduler's part.
- Records.AppendKeyValue: a `KeyValueAppender` whose count is not the number of pairs it appends.
- Instances.Instance.SendToCli: the buffer goes back to the pool as a count; where buffers are is in `Pipelines`.
