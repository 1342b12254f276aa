# An AMQP 1.0 client, modelled and proved in Dafny

This project models the parts of a Go client for AMQP 1.0 (OASIS AMQP 1.0, Parts 1 to 3) in which
mistakes are hard to see: the flow control and settlement protocols of sessions and links, the
fragmentation and reassembly of messages and of the byte stream, the wire codec, and the allocation
of handles and channels. `dafny verify dfyconfig.toml` checks everything.

## How it is built

| file | what it models |
|---|---|
| `Bytes`, `Values` | octets, big-endian numbers, arithmetic modulo 2^32; AMQP values, type codes, field tables |
| `Buffer` | the cursor buffer, a class |
| `Encode`, `Encoder` | what `Marshal` writes, as functions; the writers on a buffer, with sizes filled in afterwards |
| `Decode`, `Decoder` | what the readers return, as total functions; the readers on a shared cursor |
| `Panics` | when the decoder panics |
| `Arrays`, `RoundTrip` | decoding inverts encoding, for arrays, values, composites and typed targets |
| `Spelling`, `Soundness` | every spelling of a value is read, in literal octets; what is read is well typed |
| `Utf8`, `Octets` | which strings can be encoded; frames and messages octet by octet |
| `Message`, `Frames`, `Wire` | message sections, performatives, frames; their loops on buffers |
| `FrameReader` | `readFrame` over a stream that arrives in pieces |
| `Transfer`, `Sending`, `FrameSize`, `EndToEnd` | `send` against `muxReceive`; what the settle mode does; the size of transfer frames; the way of a message from one to the other |
| `SessionWindows` | two sessions and their windows |
| `LinkCredit`, `Creditor` | a sender and an automatically crediting receiver; the creditor and the mux arms |
| `Settlement`, `Batcher`, `InFlight` | settlement maps, disposition batches, waiters |
| `Bitmap`, `Handles` | the allocator and the registries above it; the detach handshake |

Code that changes state is modelled by classes and methods with loops, each proved against a function
on values; the theorems are about those functions. A protocol is a state machine whose steps are the
arms of the mux `select` statements. Its state is the code's state, 32-bit counters included. The same
steps on unbounded integers are a second instance of the same functions (`exact`), and every run of
the code is shown to be a run on unbounded integers reduced modulo 2^32, which is how absence of
wrap-around is stated. Each direction between two parties is a channel that keeps its order.

What the network delivers, timers, contexts, the scheduling of goroutines and the order of Go's map
iteration are inputs of the model: read sizes, event sequences, timer expiries, a number of transfers
that are accepted before a context ends, an entry list in iteration order. Floats are bit patterns, a
time is its milliseconds, a UUID its 16 octets. A wait channel is its number.

## What turned out different from what one would expect

- A frame in progress waits for eight buffered octets even when its body is shorter. A last frame with
  fewer than eight octets after its header is not returned if a read ends inside its body; an `end` frame
  that arrives as header and body is an example (`EndIsWithheld`). And what arrives together with a read error is
  dropped, complete frames included. Reading is independent of the pieces in all other cases (`ChunkIndependence`).
- The data offset of a frame is checked but not used: an extended header is read as the beginning of the body
  (`OffsetIgnored`).
- The allowance of 66 octets for the header of a transfer frame is exact for tags of up to 27 octets.
  Longer tags, up to the allowed 32, fit in front of a full payload exactly when the numbers are short
  enough (`FramesFit`, `TagBound`, `LongTagOverflows`).
- Signed arrays test only the upper bound for their short form, and arrays of strings, symbols and
  binaries are decoded only when two octets are there for each element. Both conditions are exact in
  `NumbersRoundTrip` and `BlobsRoundTrip`; the second depends on what follows the array, so that two empty strings are
  refused at the end of a buffer and read elsewhere (`EmptyStringsNeedRoom`). It is carried through all nested values,
  composites, performatives and messages as an if-and-only-if (`Roomy`). Reserved descriptors never come back as
  described values (`ReservedDescriptor`).
- A composite of a known type is recognised by the last octet of its descriptor, whatever the other seven are
  (`HighOctetsIgnored`); one of unknown type by all of them.
- A time to live is written as 32 bits of milliseconds without a check: 50 days come back as less than seven hours. It
  is kept if and only if it is a whole number of milliseconds from 0 to below 2^32 (`TtlKeptIff`, `LongTtlIsCut`).
- Keys of a map that differ when it is encoded may be equal once decoded, such as a string and a symbol, or an `int`
  and an `int64` in annotations. Then the later value is kept under the one key. Every map is read back as what such
  stores leave of its entries (`MapRoundTrip`), which is all of them if and only if the decoded keys are different
  (`MapKeptIff`, `CollidingKeys`).
- Decoding panics when it stores a map key that Go cannot hash: annotation maps do not check their keys, and the
  check of other maps does not look into described values (`PanicIff`, `BinaryAnnotationKey`, `DescribedListKey`).
  Parsing a frame body has that third outcome too, and `readFrame` passes it on.
- A disposition that covers a delivery before its last transfer, or that is not settled, makes the session
  ignore all later ones for it. As long as its id is used for nothing else and its link is not detached in between, a
  sender gets a state if and only if the first disposition since the first transfer comes after the last one and is
  settled. In every run, ids that come up again after 2^32 deliveries included, it gets the state of the next answer for
  the id under which its channel is registered, unless another channel is registered there first (`SettledIff`,
  `SingleSettledIff`, `DeliveryPlace`). `QuietInSend` says when the senders leave an id alone.
- A detach in the middle of a delivery makes the session register its channel under id 0 (`RegisteredIff`). Its
  sender gets no state then, as long as no delivery has id 0 (`SettledIff`). Ids start with 1, but 0 comes after 2^32-1,
  and then the detached sender can get the state that is meant for delivery 0 (`OrphanTakesState`).
- A send that is stopped between its first and its last transfer makes the receiver refuse the next delivery
  (`StoppedSend`).
- The loops over a range of delivery ids do not end if the range ends in 2^32-1 (`RangeEnds`).
- A transfer to a handle that is not attached uses the session window and is not answered by a flow. A window
  can be used up in this way; it comes back with a flow that is sent for another reason. Being blocked has an exact
  condition (`BlockedIff`, `UnattachedBlocks`).
- The batch timer is not stopped by an early flush. It repeats a batch exactly when it fires without one (`OnceIff`,
  `StaleTimerRepeats`). A timer may expire at any time while it runs; the value it leaves in its channel stays there
  when the timer is set again, as in the Go version that the module asks for (go.mod). Repeated coverage is harmless
  for the order of first coverage (`BatchingRefines`), also when the application submits a delivery twice. Emptying
  the channel after a full batch never blocks (`NeverBlocks`).
- A batch whose ids wrap around is sent as a range whose last id is before its first. Read as this client reads
  ranges, from the first id up to the last, it covers nothing; a peer that compares ids as sequence numbers may read
  it differently. No submission is lost, in the client's reading, if this does not happen, and only then as long as no
  delivery is submitted twice (`CoveredIff`, `WrappedBatchIsLost`).
- A drain discards credit that was issued and not yet sent (`CreditConserved`, `DrainStopsCredit`).
- Settling a message does not wake the mux of an idle receiver. Without credit it stays idle, until the application
  receives again, exactly if it had none and more than half of its maximum was unsettled when the mux last looked
  (`StallIff`).
- Settling first, the credit does not count the messages in the queue, so that the receiver's mux can be kept waiting by
  a full queue, which is exactly when the application is as many messages behind as the maximum credit (`RoomIff`). With
  the default maximum of 1, the second message does (`SecondMessageWaits`).
- Registering a delivery a second time while a caller waits for it loses that waiter, and nothing else does
  (`LostIff`).
- A message without any section is encoded as nothing, and `send` hands over no transfer for it
  (`FragmentsShape`). The peer chooses the maximum frame size (conn.go:900-902). At 66 the loop of `send` makes no
  progress, and below that it panics (`SendEndsIff`), which is why `Send` requires more.

## Model

| member | source | states |
|---|---|---|
| ByteBuffer.Buffer.Next | internal/buffer/buffer.go:18-28 | what is returned followed by what stays unread is what was unread; all that is left when too much is asked for |
| ByteBuffer.Buffer.Reclaim | internal/buffer/buffer.go:41-46 | moving the unread octets to the front does not change them |
| ByteBuffer.Buffer.ReadByte | internal/buffer/buffer.go:52-60 | the octet at the cursor, or nothing and an unmoved cursor |
| ByteBuffer.Buffer.ReadUint | internal/buffer/buffer.go:70-98 | the big-endian number at the cursor, by a loop proved against its value |
| ByteBuffer.Buffer.AppendUint | internal/buffer/buffer.go:150-177 | appends the low-order octets of any integer, most significant first |
| ByteBuffer.Buffer.ReadFromOnce | internal/buffer/buffer.go:100-117 | what arrives, with an error or without, is added after the unread octets |
| Bytes.NumBE | internal/buffer/buffer.go:80-98 | reading a big-endian number inverts writing it, for every width |
| Bytes.SignedBE | internal/encoding/encode.go:198-222 | the same for two's complement |
| Encoder.Marshal | internal/encoding/encode.go:18-196 | succeeds exactly for encodable values, then appends exactly the encoding; otherwise has only appended |
| Encoder.MarshalItems | internal/encoding/types.go:2069-2097 | a list is written element by element and its size filled in afterwards |
| Encoder.MarshalMap | internal/encoding/encode.go:407-521 | a map is written with both placeholders filled in; too many entries are an error |
| Encoder.FillList | internal/encoding/encode.go:338-341 | overwriting the placeholder turns what was written into the compound of its elements, and nothing before it changes |
| Encoder.FillMap | internal/encoding/encode.go:511-518 | the same for the size and the count of a map |
| Encoder.MarshalComposite | internal/encoding/encode.go:287-344 | nulls up to the last field that is set, nothing after it, or just the empty list |
| Encoder.MarshalDescribed | internal/encoding/types.go:941-948 | descriptor and value after the octet 0 |
| Encoder.WriteVar | internal/encoding/encode.go:354-405 | the short form below 256 octets, the long one below 2^32-1, else an error |
| Encoder.WriteText | internal/encoding/encode.go:354-380 | strings must be valid UTF-8 |
| Encoder.WriteUnsigned | internal/encoding/encode.go:224-258 | the shortest form of an unsigned number |
| Encoder.WriteSigned | internal/encoding/encode.go:198-222 | the one-octet form exactly from -128 to 127 |
| Encoder.WriteArrayHeader | internal/encoding/encode.go:529-570 | the narrow header exactly when size and prefix fit one octet |
| Encoder.FitsNarrow | internal/encoding/types.go:1257-1268 | the scan finds whether no element exceeds the one-octet maximum |
| Encoder.WriteNumbers | internal/encoding/types.go:1164-1190 | header and elements of an array of numbers in the form chosen by the scan |
| Encoder.WriteBlobs | internal/encoding/types.go:1688-1720 | header and prefixed elements; an invalid string writes nothing |
| Decode.ReadAny | internal/encoding/decode.go:482-581 | on every input: the mutual recursion ends on the remaining octets, with a value, an error or a panic; a success consumes at least one octet and stays in the buffer |
| Decode.ReadItems | internal/encoding/types.go:2099-2126 | as many values as the header announced, and the cursor stays in the buffer |
| Decode.ReadEntries | internal/encoding/types.go:784-814 | the cursor does not go back, whether the entries end in a map, an error or a panic |
| Decode.ReadFieldsOf | internal/encoding/decode.go:237-284 | one value for every field of the table |
| Decode.ReadComposite | internal/encoding/decode.go:718-831 | defined on every octet string that starts a described value, consuming at least one octet |
| Decode.Unmarshal | internal/encoding/decode.go:36-231 | defined for every target type and input, consuming at least one octet |
| Panics.PanicIff | internal/encoding/types.go:472-494 | a reader panics if and only if a chain of its calls leads to a map entry whose key Go cannot hash; otherwise it returns |
| Panics.CrashStep | internal/encoding/decode.go:482-831 | one call panics if and only if it stores such a key or makes a call that panics, and its calls are smaller |
| Panics.BinaryAnnotationKey | internal/encoding/types.go:472-494 | an annotation with a binary key makes the decoder panic; the same map of unknown type is refused |
| Panics.DescribedListKey | internal/encoding/types.go:801-810 | a described list as a key passes the check for slices and maps and panics |
| Decoder.ReadAny | internal/encoding/decode.go:482-581 | the reader on the shared cursor ends as the function does, in a value, an error or a panic; the cursor never goes back or leaves the buffer |
| Decoder.ReadList | internal/encoding/types.go:2099-2126 | the element loop against its recursive specification |
| Decoder.ReadMap | internal/encoding/decode.go:1108-1149 | header check and entry loop |
| Decoder.ReadEntries | internal/encoding/types.go:784-814 | the entry loop, with overwriting keys, keys that are refused and keys that cannot be hashed |
| Decoder.ReadComposite | internal/encoding/decode.go:718-831 | the descriptor decides between composite, error and described value |
| Decoder.ReadFieldsOf | internal/encoding/decode.go:237-284 | present fields are read, the null handler runs for the others |
| Decoder.Unmarshal | internal/encoding/decode.go:36-231 | the typed readers, nulls included |
| Decoder.ReadArray | internal/encoding/decode.go:628-716 | the element constructor selects the array reader |
| Decoder.ReadElems | internal/encoding/types.go:1192-1253 | the element loop over the slice of a fixed-width array |
| Decoder.ReadChunks | internal/encoding/types.go:1722-1779 | the element loop of a variable-width array, with all its errors |
| Decoder.ReadSized | internal/encoding/decode.go:375-412 | constructor, size check and count of compounds and arrays |
| Decoder.ReadScalar | internal/encoding/decode.go:848-1106 | every scalar constructor, and the error for an unknown one |
| Arrays.NumbersRoundTrip | internal/encoding/types.go:1164-1514 | an array of numbers comes back if and only if it is unsigned, has an element above 127, or none below -128 (for 32 and 64 bits); always the right length |
| Arrays.BlobsRoundTrip | internal/encoding/types.go:1688-1959 | an array of strings, symbols or binaries comes back exactly when two octets per element are there, otherwise decoding is an error |
| RoundTrip.AnyRoundTrip | internal/encoding/decode.go:482-831 | reading inverts writing for every nested value, anywhere in a buffer, if and only if the arrays of strings in it find two octets per element there, and is an error otherwise; entries whose keys are equal once decoded become one |
| RoundTrip.CodecRoundTrip | internal/encoding/encode.go:18-521 | the same with any suffix, which is left untouched |
| RoundTrip.EmptyStringsNeedRoom | internal/encoding/types.go:1722-1779 | an instance: an array of two empty strings is an error exactly at the end of a buffer |
| RoundTrip.Unambiguous | internal/encoding/encode.go:18-521 | a stream whose first value can be read starts with the encoding of no other value |
| RoundTrip.ReservedDescriptor | internal/encoding/decode.go:746-831 | a described value with a reserved descriptor is never restored as such |
| RoundTrip.ListRoundTrip | internal/encoding/types.go:2069-2126 | lists, with the same condition |
| RoundTrip.MapRoundTrip | internal/encoding/types.go:780-877 | maps with any, string, symbol and annotation keys, equal ones included: what is read is the stores of all decoded entries, in order |
| RoundTrip.MapKeptIff | internal/encoding/types.go:472-494 | a map comes back entry for entry if and only if its keys are different once decoded |
| RoundTrip.CollidingKeys | internal/encoding/types.go:784-814 | an instance: a string and the equal symbol become one key with the later value |
| Values.PutAllKeeps | internal/encoding/types.go:784-814 | storing entries in a map keeps all of them if and only if each key is new, by Go's equality of keys |
| Values.FloatKeys | internal/encoding/types.go:784-814 | instances: the two zeros are one key, and a NaN is never the same key |
| RoundTrip.DescribedRoundTrip | internal/encoding/types.go:941-965 | described values whose descriptor is not reserved, with the same condition |
| RoundTrip.FieldsOfRoundTrip | internal/encoding/decode.go:237-284 | for every field table and all omissions: present fields are restored, omitted ones are null, interior or cut off, and exactly the suffix is left, with the same condition |
| RoundTrip.UnmarshalRoundTrip | internal/encoding/decode.go:36-231 | decoding into a target of the value's own type, maps with equal keys included |
| Spelling.SpellingAny | internal/encoding/decode.go:482-831 | every way of writing a value, with any width of sizes, counts, numbers, descriptors and array elements, is read as that value, anywhere in a buffer; the octets are literal |
| Spelling.SpellingCodec | internal/encoding/decode.go:482-831 | the same with any suffix, which is left untouched |
| Spelling.SpellingFieldsOf | internal/encoding/decode.go:237-373 | every spelling of a composite, in list0, list8 or list32 form, is read into its table, for every table |
| Spelling.SpellingTyped | internal/encoding/decode.go:36-231 | every spelling is read into every target that accepts its type: strings for symbols and the reverse, any unsigned number for milliseconds, one symbol for an array |
| Spelling.ShortList | internal/encoding/decode.go:344-355 | an instance: a list8 of one ubyte |
| Spelling.EncIsSpelling | internal/encoding/encode.go:18-521 | what the encoder writes is a spelling of the value |
| Spelling.AtomShortest | internal/encoding/encode.go:198-258 | and, for primitive values, a shortest one |
| Soundness.AnyTyped | internal/encoding/decode.go:482-831 | on every input, what is read is well typed: composites agree with their tables, and map keys can be hashed |
| Soundness.UnmarshalTyped | internal/encoding/decode.go:36-231 | on every input, a target gets null or a value of its own type |
| Soundness.FieldsOfTyped | internal/encoding/decode.go:237-284 | no composite is read without a required field, or with a field of another type |
| Soundness.KnownConstructor | internal/encoding/decode.go:492-580 | no other constructors than those of the type system are read |
| Soundness.SizeChecked | internal/encoding/decode.go:333-412 | nothing is read whose announced size is not there |
| Soundness.HighOctetsIgnored | internal/encoding/decode.go:307-331 | of a wide descriptor only the last octet counts where the type is known |
| Soundness.HeaderChecked | internal/encoding/decode.go:241-256 | fields are read only behind the right descriptor and within the table |
| Utf8.StringEncodableIff | internal/encoding/encode.go:354-380 | a string can be encoded if and only if it is the UTF-8 form of Unicode scalar values, in at most 2^32-2 octets |
| MessageCodec.MessageRoundTrip | message.go:151-313 | `Message.Unmarshal` inverts `Message.Marshal` if and only if the arrays of strings have room; an empty user id is not written, a time to live is cut, and annotations with equal keys once decoded become one |
| MessageCodec.TtlKeptIff | internal/encoding/types.go:763-774 | the time to live is kept if and only if it is a whole number of milliseconds from 0 to below 2^32 |
| MessageCodec.LongTtlIsCut | internal/encoding/types.go:765-768 | an instance: 50 days become 25032.704 seconds |
| MessageCodec.SectionsRoundTrip | message.go:235-313 | any list of sections is read back section by section, with the same condition |
| Wire.MarshalMessage | message.go:151-227 | the section loop writes exactly the encoding, or reports a part that cannot be encoded |
| Wire.UnmarshalMessage | message.go:235-313 | the loop reads until the buffer is used up, or ends in the first error or panic |
| Wire.WriteFrame | conn.go:681-706 | the frame is written, with its size, exactly when it can be encoded and is within the peer's limit |
| Wire.TransferEncodable | sender.go:123-133 | every transfer of `send` can be encoded: only its size can make `writeFrame` refuse it |
| Frames.BodyRoundTrip | internal/frames/frames.go:1114-1157 | transfer, flow, disposition and begin are restored if and only if the arrays of strings have room, and are malformed otherwise; the payload of a transfer is exactly what follows its fields |
| Octets.FlowOctets | internal/frames/frames.go:894-908 | the octets of every flow with its last field set, in the order of the standard |
| Octets.TransferOctets | internal/frames/frames.go:1114-1134 | the same for a transfer, then its payload |
| Octets.DispositionOctets | internal/frames/frames.go:1223-1232 | the same for a disposition |
| Octets.BeginOctets | internal/frames/frames.go:512-523 | the same for a begin |
| Octets.ParseSpelled | internal/frames/parsing.go:70-130 | a performative in any spelling is parsed into its fields |
| Octets.RequiredFields | internal/frames/frames.go:910-924 | on every input, no performative is parsed without its required fields |
| Octets.MessageOctets | message.go:151-227 | the sections of every message, in order, each behind its descriptor |
| Octets.MessageHeaderOctets | message.go:336-344 | the octets of the fields of a message header |
| Octets.MessageSpelled | message.go:235-313 | a message in any spelling is read section by section as what it means |
| FrameReader.ParseHeader | internal/frames/parsing.go:44-67 | size, offset and channel of a header, consuming eight octets, or none with fewer |
| FrameReader.Conn.Pass | conn.go:558-603 | one pass of the loop of `readFrame`, keep-alives, errors and panics of the body parser included |
| FrameReader.Conn.ReadFrame | conn.go:527-605 | the whole loop over reads of any size; resetting and reclaiming the buffer make no difference, and the octets of a failing read are buffered and left there |
| FrameReader.Conn.ReadFrames | conn.go:439-522 | all frames until the first error |
| FrameReader.ReadAllIs | conn.go:527-605 | for every buffer and all coming reads: the frames of the whole stream, or those before a withheld last frame |
| FrameReader.StreamStart | internal/frames/parsing.go:44-67 | size, offset and channel from their octets, and which headers and bodies end the stream with which error |
| FrameReader.OffsetIgnored | conn.go:566-589 | a data offset above 2 does not move the body |
| FrameReader.ChunkIndependence | conn.go:527-605 | reading in pieces equals reading the stream at once if and only if no read ends inside a short last frame and the octets that come with a read error do not complete anything |
| FrameReader.EndIsWithheld | conn.go:558-561 | a split `end` frame is not returned, the same octets in one piece are |
| Transfer.Sender.Send | sender.go:87-164 | each refusal exactly when it is due; exactly the transfers of the delivery, or a prefix when it is stopped; the next number and tag on the first one only; none settled but the last, and that exactly in mode settled, or in mode mixed when the message asks for it |
| Transfer.Sender.SendPieces | sender.go:132-161 | the loop that rewrites one frame for each piece of the buffer |
| Transfer.FragmentsShape | sender.go:123-161 | the payloads are the message, all but the last are full, and only the last lacks the more flag |
| Transfer.SendEndsIff | sender.go:105-133 | the loop ends if and only if there is nothing to send or the peer's maximum frame size is above 66; at 66 it makes no progress, below it panics |
| Sending.ModeDecides | sender.go:109-146 | a delivery that is settled by its mode has its channel closed by the writer and gets no state; any other waits for the answer, in every run of the session |
| Sending.SendSpans | sender.go:132-161 | the transfers of `send` are a delivery in the sense of `SettledIff`, whatever is in between |
| Sending.ConsecutiveIDs | sender.go:113 | deliveries of a session are numbered consecutively, and differ when fewer than 2^32 apart |
| Transfer.Receiver.Identify | receiver.go:703-770 | which transfers are refused and what a first one leaves behind |
| Transfer.Receiver.MuxReceive | receiver.go:702-830 | the new state and the error for every transfer |
| Transfer.Receiver.Finish | receiver.go:797-829 | decoding, queueing and counting of a complete message |
| Transfer.ReassemblyInvariant | receiver.go:702-830 | whatever is accepted: the queued messages are exactly the completed groups of transfers, one credit each, and the buffer holds the group in progress |
| Transfer.RefusedIff | receiver.go:702-803 | after every run of accepted transfers, the next one is refused exactly if it does not fit its group, takes the group over the limit, or completes what cannot be decoded |
| Transfer.GroupsSound | receiver.go:702-790 | over every such run, no group, complete or in progress, is over the limit or mixes deliveries |
| Transfer.UnsettledRun | receiver.go:808-810 | settling second, exactly the tags of the completed groups become unsettled |
| Transfer.DetachedPush | receiver.go:811-817 | a detach before the queue has room is reported exactly for what would have completed a message, and nothing is counted |
| Transfer.FragmentRoundTrip | sender.go:109-163 | the transfers of a message become one delivery with the same number, tag, format, flag and content, for one credit, and the receiver is idle again |
| Transfer.StoppedSend | sender.go:148-152 | a stopped send makes the receiver refuse the next delivery on the link if and only if some, but not all, of its transfers were sent |
| FrameSize.FrameLength | internal/frames/frames.go:1114-1134 | the exact size of a transfer frame from handle, number, tag, format and flags |
| FrameSize.FramesFit | sender.go:88-133 | all frames of a delivery pass the size check if and only if the first one does |
| FrameSize.TagBound | sender.go:88-92 | tags up to 27 octets always fit; longer ones before a full payload exactly when the first header is at most 66 octets |
| FrameSize.LongTagOverflows | conn.go:693-697 | a 32-octet tag with wide numbers is 5 octets over |
| EndToEnd.StreamRoundTrip | internal/frames/parsing.go:133-158 | every sequence of frames is read back from its stream |
| EndToEnd.AnyChunking | conn.go:527-605 | the same however the stream is cut into reads |
| EndToEnd.FramesArrive | internal/frames/parsing.go:70-130 | performatives of a session survive the wire in order |
| EndToEnd.MessagesArrive | receiver.go:702-830 | messages sent one after the other are received in order, once each |
| EndToEnd.Delivered | sender.go:87-164 | from `send` to the receiver's queue, across other frames and any cutting of the stream |
| EndToEnd.FragmentsFitWire | sender.go:88-133 | transfers that pass the size check are fit for the wire |
| SessionWindows.WindowSafety | session.go:374-385 | in every state two sessions reach: next id plus window is the last limit received, window plus transfers under way is at most the receiver's window, and the ids agree |
| SessionWindows.ExactRun | session.go:262-277 | every run is the run on unbounded integers, reduced: no window computation wraps |
| SessionWindows.ReceiveKeeps | session.go:354-472 | receiving keeps both directions; limits never go back |
| SessionWindows.SendKeeps | session.go:502-553 | sending keeps both directions |
| SessionWindows.NoDeadlock | session.go:460-472 | with attached links, a side with nothing under way may send and has more than half of the window |
| SessionWindows.BlockedIff | session.go:430-472 | in every run, with nothing under way, the window is what is left of the last advertisement: a side is blocked if and only if the other has received exactly its window of transfers since then |
| SessionWindows.UnattachedBlocks | session.go:443-446 | a transfer to an unattached link can block the sender, until a flow is sent for another reason |
| SessionWindows.AnsweredIff | session.go:399-472 | in every run, one flow answers exactly a flow with echo, and a transfer to an attached link that brings those since the last such answer to half of the window; it reports the counts of transfers received and sent and the configured windows |
| SessionWindows.Reported | session.go:544-553 | every other flow that is sent reports the same |
| SessionWindows.RemoteWindow | session.go:374-442 | in every run, flows under way report the configured windows, and the remote outgoing window is what is left of the peer's |
| SessionWindows.MaySendIff | session.go:271-277 | in every run, a transfer may be sent exactly below the last limit received and with an outgoing window |
| SessionWindows.Session.TxTransfer | session.go:502-543 | the transfer arm, enabled only with window |
| SessionWindows.Session.TxFlow | session.go:544-553 | a link's flow gets the session's fields |
| SessionWindows.Session.RxTransfer | session.go:430-472 | counting, and the flow when half of the window is used |
| SessionWindows.Session.RxFlow | session.go:354-409 | the ids and windows after a flow from any peer, in 32 bits, the missing id, and the echo |
| LinkCredit.CreditSafety | sender.go:294-325 | in every state: delivery count plus credit is the last limit on both sides, the counts agree, and the sender's credit with the messages under way is covered by the receiver's |
| LinkCredit.ReceiverAccounting | receiver.go:549-571 | credit plus unsettled messages is at most the maximum, pending credit does not wrap, issuing never fails, a message finds credit and, settling second, room |
| LinkCredit.FlowIff | receiver.go:549-571 | in every run, a pass of the mux makes a flow exactly when at least half of the maximum, and at least 1, was neither credit nor unsettled, and it brings the credit to all that was not unsettled |
| LinkCredit.StallIff | receiver.go:549-589 | in every run, an idle receiver has no credit exactly when it had none and more than half of the maximum, or all of it, was unsettled when the mux last looked; with at most half it never stalls |
| LinkCredit.ExactRun | sender.go:354-363 | every run is the run on unbounded integers, reduced |
| LinkCredit.TransferKeeps | receiver.go:808-827 | a completed message moves one unit from the credit to the unsettled, also inside the wait of `muxFlow` |
| LinkCredit.AppKeeps | receiver.go:381-398 | settling in between only frees credit |
| LinkCredit.RoomIff | receiver.go:808-817 | in every state, a message that arrives waits for room in the queue if and only if the application is the maximum credit behind, which never happens when settling second |
| LinkCredit.SecondMessageWaits | receiver.go:549-571 | an instance: settling first with a maximum credit of 1, the second message waits |
| LinkCredit.LimitOrder | receiver.go:599-641 | the sender's limit never passes the receiver's |
| Creditor.Creditor.IssueCredit | creditor.go:100-112 | refused while draining or above the maximum, else added |
| Creditor.Creditor.FlowBits | creditor.go:45-69 | a drain without credit, the new credit, or nothing; and a reset |
| Creditor.Creditor.StartDrain | creditor.go:72-96 | one drain at a time |
| Creditor.Creditor.FinishDrain | creditor.go:28-36 | the drain in progress is ended |
| Creditor.DrainsKept | creditor.go:28-96 | in every history each wait channel is closed at most once, and all but the current one are closed |
| Creditor.CreditConserved | creditor.go:45-112 | credit issued is credit sent, discarded by drains, or still to be added |
| Creditor.DrainStopsCredit | creditor.go:45-112 | in every history, no flow sets credit while a drain is in progress, and what was issued before goes with the drain's flow |
| Creditor.DrainLasts | creditor.go:72-112 | a drain goes on until it is ended, and from its flow on nothing is added |
| Creditor.FlowIs | creditor.go:45-112 | in every history, from the events alone: the first flow after an accepted drain has the drain flag and no other does; else the flow sets the current credit plus what was issued since the last one |
| Creditor.SenderLink.TakeTransfer | sender.go:294-312 | the mux holds the transfer that it has taken, which it does only with credit |
| Creditor.SenderLink.PutTransfer | sender.go:314-325 | only the last transfer of a message counts |
| Creditor.SenderLink.HandleFlow | sender.go:354-382 | the credit of a flow in 32 bits, with and without a delivery count, the echo, and the crash on a missing credit |
| Creditor.ReceiverLink.ComputePending | receiver.go:549-553 | the pending credit in 32 bits against half of the maximum |
| Creditor.ReceiverLink.IssuePending | receiver.go:553-562 | the creditor's answer decides whether the mux goes on |
| Creditor.ReceiverLink.MakeFlow | receiver.go:599-623 | the credit changes before the flow waits to be sent |
| Creditor.ReceiverLink.PassFlow | receiver.go:626-630 | the flow that was made is the one that is sent |
| Creditor.ReceiverLink.ReceiveTransfer | receiver.go:808-827 | a completed message is queued, recorded as unsettled and counted |
| Settlement.OnePlace | session.go:314-344 | in every run with new channels, a wait channel is in at most one place and closed at most once |
| Settlement.Ownership | session.go:502-533 | in every such run it is in exactly one place, unless another transfer was registered under its id, and then in none |
| Settlement.RegisteredIff | session.go:502-530 | a channel is registered under the id of its delivery's own first transfer if and only if the link was not detached in between; else under id 0 |
| Settlement.DeliveryPlace | session.go:314-344 | in every run with new channels: the channel waits under the id of its last transfer, or is closed with the state of the next answer for that id, or is displaced; settled by the sender it is with its frame until that is written |
| Settlement.AgreesRun | session.go:502-533 | in every run, the maps hold for each id what its own transfers and dispositions say, whatever happens to the others |
| Settlement.SettledIff | session.go:320-344 | in every run with new channels, the sender gets a state exactly when the next answer for the id of its channel has it; with the id to itself and no detach, exactly when the first disposition since the first transfer comes after the last and is settled; after a detach never, unless a delivery has id 0 |
| Settlement.SingleSettledIff | session.go:320-344 | the same for a delivery of one transfer |
| Settlement.QuietInSend | sender.go:109-161 | deliveries of `send` have their ids to themselves if the id is not 0, not started again, and not in progress on another link at the start |
| Settlement.QuietSingle | sender.go:109-161 | the same for a delivery of one transfer |
| Settlement.OrphanTakesState | session.go:474-530 | an instance: a detached sender gets the state meant for the delivery with id 0 |
| Settlement.DetachLosesDelivery | session.go:474-488 | an instance: a detach in mid-delivery moves the channel to id 0 |
| Settlement.DisposeIsVisits | session.go:314-344 | a disposition is the visits to its range |
| Settlement.RangeEnds | session.go:320 | the range loop ends if and only if the range does not end in the largest id |
| Settlement.Session.TxTransfer | session.go:502-533 | the maps and the frame's channel after a transfer |
| Settlement.Session.RxDisposition | session.go:314-344 | the range loop against its specification |
| Settlement.Session.RxDetach | session.go:474-488 | the session forgets the delivery that the link is in the middle of, and nothing else |
| Settlement.Session.FrameWritten | conn.go:644-648 | the writer closes the channel that a frame still has |
| Batcher.BatchingRefines | receiver.go:243-325 | for every history, repeated submissions included: first coverage by frames, then the pending batch, are the submissions in order of their first; nothing else is covered; the pending batch is shorter than the batch size |
| Batcher.OnceIff | receiver.go:312-319 | each submission, repeated ones included, is covered or pending exactly once, in order, if and only if the timer never fires without a batch |
| Batcher.CoveredIff | receiver.go:268-299 | every submission is covered or pending if no accepted id 0 joins a batch that ends in 2^32-1; and only if, when ids are submitted once (a lost id that is submitted again may be covered then) |
| Batcher.NeverBlocks | receiver.go:301-307 | in every history, while a batch is started its timer is running or has left a value, so emptying the channel after a full batch never blocks |
| Batcher.SentIs | receiver.go:264-319 | in every history, from the events alone: which frames each event sends; a batch is not sent before it is full, separated or timed out |
| Batcher.TimerIs | receiver.go:288-319 | in every history, when the timer runs and when its channel holds a value |
| Batcher.StaleTimerRepeats | receiver.go:268-284 | an instance: a flushed batch is sent again by its timer |
| Batcher.WrappedBatchIsLost | receiver.go:268-299 | an instance: a batch whose ids wrap around is sent as a range that is empty as this client reads ranges |
| Batcher.DispositionBatcher.Handle | receiver.go:264-309 | one submission, in all its branches, with the timer |
| Batcher.DispositionBatcher.TimerFired | receiver.go:312-319 | what the timer sends; a timer that expires before it is stopped leaves its value |
| InFlight.SentOnce | receiver.go:835-885 | in every history a wait channel gets at most one value |
| InFlight.RemovedExactly | receiver.go:854-876 | a ranged removal signals and removes exactly the registered ids of the range |
| InFlight.LostIff | receiver.go:840-852 | a waiter is left without a value for good if and only if its delivery was registered again while it waited |
| InFlight.Waiters.AddWaiter | receiver.go:840-852 | a new channel is registered |
| InFlight.Waiters.Remove | receiver.go:854-876 | the range loop against its specification |
| InFlight.Waiters.Clear | receiver.go:878-885 | every remaining waiter is signalled once, in any order, and the map is empty |
| Bitmap.Bitmap.Add | internal/bitmap/bitmap.go:22-37 | inserts the number into the set, if it is within the maximum |
| Bitmap.Bitmap.Remove | internal/bitmap/bitmap.go:42-53 | removes the number from the set |
| Bitmap.Bitmap.Next | internal/bitmap/bitmap.go:61-96 | takes the least free number, fails if and only if there is none, and stays within 32 bits |
| Bitmap.FullIff | internal/bitmap/bitmap.go:63-67 | a word is all ones if and only if each of its bits is set |
| Bitmap.SetBit | internal/bitmap/bitmap.go:36 | setting a bit changes no other |
| Bitmap.ClearBit | internal/bitmap/bitmap.go:52 | clearing a bit changes no other |
| Handles.Session.AllocateHandle | session.go:564-584 | the least free handle for a new name, errors for a used name and a full session; allocated bits are the registered handles |
| Handles.Session.DeallocateHandle | session.go:586-593 | name and handle are free again; the registry stays consistent if and only if the link was registered with that handle, or neither was in use |
| Handles.Conn.NewSession | conn.go:413-427 | the least free channel, or none; allocated bits are the registered channels |
| Handles.Conn.DeleteSession | conn.go:429-435 | the channel is free again |
| Handles.MuxDetach | link.go:253-354 | when the handshake ends, which transfers are passed on, and that the handle is released exactly when both closing detaches are exchanged or the session is done, and the context has not ended |
| Handles.DetachLink | link.go:253-270 | until then the handle stays taken |

## Left out

- Dialing, TLS, SASL, protocol headers, keep-alive timers, open and close of connections: a nearly linear sequence of steps with no hard property.
- Frames.BodyRoundTrip: covers transfer, flow, disposition and begin, the performatives of the protocols modelled here; open, attach, detach, end, close and the SASL bodies are further tables for the same composite law (`FieldsOfRoundTrip`).
- EndToEnd.FramesArrive: about the same four performatives.
- EndToEnd.Delivered: the frames interleaved with the messages are those four performatives.
- MessageCodec.MessageRoundTrip: annotation keys are strings, symbols or 64-bit integers, as the code requires; a key of type `int` is the 64-bit integer it is written as.
- Transfer.Receiver.MuxReceive: the same as `Finish`.
- Transfer.Receiver.Finish: a message at which decoding panics counts as one that cannot be decoded; what is left in the buffer of a message that cannot be decoded is not stated, because the link is detached then.
- Transfer.Sender.Send: requires a peer maximum frame size above 66; the loop of the code does not end or panics otherwise (`SendEndsIff`).
- Transfer.Sender.SendPieces: the same.
- Settlement.Session.RxDisposition: requires a range that does not end in 2^32-1, because the loop of the code does not end for it (`RangeEnds`).
- InFlight.Waiters.Remove: the same.
- ByteBuffer.Buffer.ReadFromOnce: how the slice grows and how much one read may take is not modelled; what arrives is an input, and the error it may come with is the caller's (`FrameReader.Conn.ReadFrame`).
- `Sender.Send` waiting for the confirmation of a transfer; `Settlement` has that side.
- LinkCredit.ReceiverAccounting: a mux that waits for room in the queue is one that has not yet taken the transfer, and transfers have different tags.
- Handles.Session.DeallocateHandle: closing the link's frame channel is not part of the model.
- Session.mux: ends of sessions, attach frames and the routing of dispositions to links; the code stores local handles but looks links up by remote handles, so that routing is right only where the two agree.
- Echo replies of links: they bypass the session and carry no session fields; the two-party models have no echo at link level.
- Manual credit and drain in the two-party model: a drain flow carries no credit and moves the limit back; `Creditor` has drain on its own.
- Errors of sending a disposition: a frame counts as sent when it is handed over.
- Liveness beyond `NoDeadlock`, fairness, goroutine leaks.
- Slices that share memory and reuse capacity: buffers hold sequences.
