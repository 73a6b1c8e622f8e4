# h2 in Dafny

A model of the hard parts of h2, an HTTP/2 implementation: header compression (RFC 7541), header
blocks cut into frames, and flow control and scheduling of streams (sections 5.2 and 6.9 of RFC
9113). Objects that the source updates in place are classes here, and their methods are proved
against functions on values; what the source promises is then proved about those functions, or is an
invariant of the class.

`dafny verify dfyconfig.toml` checks everything.

## How the modules fit together

**Header compression.** `bits` and `words` hold octets, bit strings and machine words. `integers`
and `strings` are the two primitive encodings. `huffman_code` is the reference: a prefix code, its
encoder and the bit-at-a-time decoder. `huffman_encoder`, `huffman_fast_table`, `huffman_trie` and
`huffman_decoder` are the register loops, the two generated tables and the word-buffered decoder,
all proved equal to the reference for every complete prefix code whose words have 5 to 30 bits and
whose EOS is all ones. `dynamic_table` is the table as a plain list, newest entry first, with a
linear search. `encoder_table` is the robin-hood index with same-name chains over it; its method
`Index` equals the linear search. `robin_hood`, `robin_hood_growth`, `robin_hood_steps` and
`table_state` carry that proof, and `references` says what the search amounts to. `header_blocks`
and `fields` say what a block of headers is when written and when read; `encoder` and `decoder` are
the classes that do so. `round_trip` and `hpack_connection` join them: over any run of resizes and
header lists, all headers arrive and the two tables stay equal. `never_indexed` is about the mark of
sensitive fields, `raw_literals` about strings that other encoders write, `wire_examples` has a few
encodings written out.

**Frames.** `header_frames` cuts a block into HEADERS and CONTINUATION frames, `framed_read` puts
them together again while decoding each part as far as it goes, `reassembly` proves that this is the
same as decoding the whole block when that succeeds, `fragments` what it is when not, and
`frame_order` which frames can make up a block.

**Sending.** `flow_control` is the 32-bit arithmetic of windows, `stream_state` the state machine of
section 5.1 of RFC 9113. `send_streams` says what holds of each stream: its share of the connection
window, its queue, and which queues it has to be in. `prioritize` is the class whose every method
keeps that invariant; the lemmas at its end read the main results off it. `idle_stream` is a run
that shows the limit of one of them, `send_turns` is about the order in which streams send. `counts`
counts open streams, `store` and `frame_buffer` are the intrusive lists.

**Receiving.** `receive_windows` has the arithmetic of a window whose octets have been received and
not yet released, `recv_streams` and `recv` the class built on it.

**Both ends.** `flow_protocol` joins one sender and one receiver by two channels that keep frames in
order. An event is anything that may happen at either end, in any order. `flow_safety` proves that
no sequence of events leads to a failure. The sender there may send whatever `PopFrame` may send,
and the receiver judges as the class `Recv` does; `flow_links` proves both.

## What turned out false

- **Counts of open streams are not always exact.** A stream that is to be reset with NO_ERROR
  while its next DATA frame has no capacity is not in the send queue. If the peer resets it now, it
  is removed while still counted, and its place is never given back (`Counts.CountLost` is such a
  run). `Counts.Transition` says exactly when this happens: to a closed stream that nothing holds
  on to any more and that is counted and still scheduled to be reset. If no such stream was
  removed, `Counts.Tally` gives equality.
- **Counts need not end at zero.** The same streams stay counted when the connection ends, even if
  none was lost before (`Counts.EofLeavesCount`). `RecvEof` gives the exact number for each side, and
  `Counts.EndsAtZero` says when that is zero.
- **A closed stream can be short of its data while there is capacity for it**, once more than
  2^32 - 1 octets were buffered at a time, because a request is capped there
  (`IdleStream.RequestTooSmall` is such a run). For every stream for which `send_data` never went
  beyond that, `Prioritize.NothingIdle` has the plain statement, and `Prioritize.IdleExactly` says in
  which states it fails for the others.
- **A block that arrives in fragments may be accepted although the whole block would not be.** Each
  fragment may change the table size before its first field, and one that asks for more octets is
  taken to be incomplete; but a literal with an empty name asks for more whatever follows it, and
  may have left the buffer by then, so that it is dropped without an error
  (`Fragments.LateUpdateAccepted`, `Fragments.NamelessAccepted`). `Fragments.FragmentsJudged` says for
  all blocks and all ways to cut them that there is no other difference, and exactly when there is
  this one.
- The case `len > window_size` in `pop_frame` cannot occur: what a stream has been assigned never
  exceeds its window. It is not part of the model.

## Model

| member | source | states |
|---|---|---|
| `Integers.EncodeInt` | src/hpack/encoder.rs:304-333 | what the loop appends is the prefix integer of section 5.1 of RFC 7541 |
| `Integers.DecodeInt` | src/hpack/decoder.rs:400-457 | the loop, with its octet limit, computes the same as reading the integer recursively; every error included |
| `Integers.IntRoundTrip` | src/hpack/decoder.rs:400-457 | for every prefix size, a number comes back if it is below 2^N - 1 + 2^28 and is an overflow otherwise |
| `Integers.VarintInverse` | src/hpack/decoder.rs:425-457 | the same for the octets after the prefix, wherever the decoder stands |
| `Integers.ReadIntTruncated` | src/hpack/decoder.rs:400-457 | an integer cut short asks for more; otherwise the cut makes no difference |
| `HuffmanCode.HuffmanRoundTrip` | src/hpack/huffman/decode.rs:226-247 | the bit-at-a-time decoder inverts the encoder on every octet string, for every prefix code of the stated shape |
| `HuffmanEncoder.Encode` | src/hpack/huffman/encode.rs:5-41 | the 64-bit register loop appends the code words, padded with ones |
| `HuffmanDecoder.Decode` | src/hpack/huffman/decode.rs:133-206 | on every input the word-buffered decoder returns what the bit-at-a-time reference returns, success or error; writes stay inside `len * 8 / 5 + 1` |
| `HuffmanDecoder.DecodeCodeSlow` | src/hpack/huffman/decode.rs:100-131 | the slow path finds the code word that starts the register, or fails exactly when none is wholly buffered |
| `HuffmanDecoder.LoadWord` | src/hpack/huffman/decode.rs:133-206 | reading eight octets at once leaves a register full of input, early copies included |
| `HuffmanDecoder.FastStep` | src/hpack/huffman/decode.rs:133-206 | one lookup of twelve bits decodes one or two symbols as the reference does, and always has room to write two |
| `HuffmanDecoder.SlowIsComplete` | src/hpack/huffman/decode.rs:133-206 | when the slow path fails with enough bits buffered, so does the reference decoder |
| `HuffmanDecoder.RoomForTwo` | src/hpack/huffman/decode.rs:133-206 | why the second write of the fast path stays inside the reservation |
| `HuffmanFastTable.BuildFastTable` | src/hpack/huffman/decode.rs:41-92 | every entry of the table names the symbols and bit counts that greedy prefix matching gives for its twelve bits |
| `HuffmanFastTable.FillPrefix` | src/hpack/huffman/decode.rs:41-92 | the filling loop sets the entries that start with a bit string, and no other |
| `HuffmanFastTable.PrefixRange` | src/hpack/huffman/decode.rs:41-92 | the indices that start with a code word are one contiguous range |
| `HuffmanTrie.DecodingTables` | util/genhuff/src/main.rs:40-86 | the generator fails exactly for a code that needs more than 128 tables; otherwise walking its result is greedy prefix matching, EOS is rejected and no entry is empty |
| `HuffmanTrie.LeafFree` | util/genhuff/src/main.rs:40-86 | the generator never writes a leaf over another entry |
| `HuffmanTrie.WalkFinds` | util/genhuff/src/main.rs:40-86 | from every node of a finished trie a walk finds the code word the input starts with |
| `HuffmanTrie.NoEmptyEntry` | util/genhuff/src/main.rs:40-86 | a complete code leaves no entry unfilled |
| `Strings.EncodeStr` | src/hpack/encoder.rs:256-302 | encoding behind a one-octet placeholder and shifting in place gives the length and then the Huffman form |
| `Strings.ShiftForward` | src/hpack/encoder.rs:276-300 | the shifting loop moves the encoded octets behind a longer header without overwriting any |
| `Strings.TryDecodeString` | src/hpack/decoder.rs:313-355 | finds the string and its end, or the error, that reading the octets in order gives; nothing is consumed |
| `Strings.StrRoundTrip` | src/hpack/decoder.rs:313-355 | a string comes back exactly if its encoding is shorter than 127 + 2^28 octets; longer ones are refused as overflow |
| `Strings.ReadStrTruncated` | src/hpack/decoder.rs:313-355 | a string cut short asks for more; otherwise the cut makes no difference |
| `Headers.StaticAgrees` | src/hpack/table.rs:672-761 | the encoder's static lookup agrees with the decoder's static table (src/hpack/decoder.rs:628-836) for every header |
| `Headers.SkippedIsStatic` | src/hpack/header.rs:189-207 | headers that are never given an entry always have a static name |
| `DynamicTable.IndexKeepsSound` | src/hpack/table.rs:134-345 | whatever header is indexed, entries stay unique, never sensitive, and within the size limit |
| `DynamicTable.EvictTwice` | src/hpack/table.rs:347-376 | two resizes evict what the smaller one alone evicts |
| `RobinHood.ProbeMeets` | src/hpack/table.rs:160-203 | a robin-hood probe may stop where it does: every entry with the hash has been passed |
| `RobinHood.ProbeDistanceIs` | src/hpack/table.rs:658-660 | the masked wrapping subtraction is the distance on the ring |
| `RobinHood.PushedContents` | src/hpack/table.rs:312-335 | forward shifting adds exactly the new entry |
| `RobinHood.PulledContents` | src/hpack/table.rs:427-446 | backward shifting removes exactly the entry at the hole |
| `RobinHoodGrowth.NewHome` | src/hpack/table.rs:464-519 | on doubling, an entry's home stays or moves to the other half |
| `RobinHoodGrowth.PlaceOrdered` | src/hpack/table.rs:498-519 | reinserting in ring order keeps the robin-hood order |
| `TableState.WantedPops` | src/hpack/table.rs:378-425 | evicting the oldest entry replaces its place in the index by its same-name successor's |
| `TableState.WantedPushes` | src/hpack/table.rs:205-345 | adding an entry changes the index only if its name is new |
| `TableState.SuccessorFresh` | src/hpack/table.rs:378-425 | that successor was not in the index before and has the same hash |
| `EncoderTable.Table.Index` | src/hpack/table.rs:134-345 | on every reachable index the answer and the new contents are those of a linear search of the list of entries, with counter wrap, eviction, shifting and growth |
| `EncoderTable.Table.IndexDynamic` | src/hpack/table.rs:160-203 | the probe loop ends and finds the oldest entry of the name, or none |
| `EncoderTable.Table.IndexOccupied` | src/hpack/table.rs:205-264 | following the chain finds an equal entry iff there is one, else the newest of the name; a new entry is linked unless its chain was evicted on the way |
| `EncoderTable.Table.IndexVacant` | src/hpack/table.rs:266-335 | inserts for a name without entries, shifting the run |
| `EncoderTable.Table.Evict` | src/hpack/table.rs:378-425 | drops exactly the oldest entry and keeps index and chains right |
| `EncoderTable.Table.RemovePhaseTwo` | src/hpack/table.rs:427-446 | the shifting loop ends and closes the hole |
| `EncoderTable.Table.Resize` | src/hpack/table.rs:347-376 | keeps the newest entries that fit, all of them |
| `EncoderTable.Table.Grow` | src/hpack/table.rs:464-496 | doubling the index keeps every entry once and in order |
| `EncoderTable.Table.ReserveOne` | src/hpack/table.rs:448-462 | afterwards a gap exists, so the next probe ends |
| `HeaderBlocks.UpdatesSuffice` | src/hpack/encoder.rs:68-98 | after any number of size changes, the at most two updates written leave contents and maximum as applying every change in order (section 4.2 of RFC 7541) |
| `HeaderBlocks.UpdatesAreAsked` | src/hpack/encoder.rs:139-153 | only sizes that were asked for are written |
| `HeaderBlocks.IndexResolves` | src/hpack/table.rs:121-132 | an index that was returned names a slot that is there, even after the insertion evicted others |
| `HpackEncoder.Encoder.Encode` | src/hpack/encoder.rs:101-222 | what is appended is the block of the specification, nameless repeats and sensitive values included; the table is then that of the specification |
| `HpackEncoder.Encoder.UpdateMaxSize` | src/hpack/encoder.rs:68-98 | what is remembered of the sizes asked for |
| `HpackEncoder.Encoder.EncodeSizeUpdates` | src/hpack/encoder.rs:139-153 | writes and carries out what is pending |
| `HpackDecoder.Decoder.Decode` | src/hpack/decoder.rs:177-260 | headers, result, table and unread octets are those of decoding representation by representation |
| `HpackDecoder.Table.Insert` | src/hpack/decoder.rs:534-545 | the deque with its running size is the list with oldest entries evicted |
| `HpackDecoder.Table.SetMaxSize` | src/hpack/decoder.rs:547-551 | keeps the newest entries that fit |
| `RoundTrip.IndexMeans` | src/hpack/encoder.rs:155-193 | the reference picked for a header names entries that say what the header is |
| `RoundTrip.HeaderComesBack` | src/hpack/decoder.rs:177-311 | whatever index was picked, decoding gives the header and keeps the tables equal |
| `RoundTrip.LinesComeBack` | src/hpack/decoder.rs:177-311 | a whole list comes back in order, nameless repeats with their name |
| `RoundTrip.BlockComesBack` | src/hpack/test/fuzz.rs:127-180 | one block, size updates included: exactly the headers, nothing left over, equal tables |
| `HpackConnection.ConnectionRoundTrip` | src/hpack/test/fuzz.rs:127-180 | for every sequence of resizes and header lists every list arrives, and after each block both ends hold the same entries and maximum |
| `HpackConnection.ExchangeKeepsStep` | src/hpack/test/fuzz.rs:127-180 | one block keeps the two ends in step |
| `HpackConnection.ExchangeAll` | src/hpack/test/fuzz.rs:127-180 | the same run on the two classes themselves |
| `HeaderFrames.EncodeBlock` | src/frame/headers.rs:649-709 | patching length and flag after the fact gives a well-formed frame with as much of the block as fits, and the rest |
| `HeaderFrames.SendBlock` | src/codec/framed_write.rs:199-221 | HEADERS and CONTINUATION frames, each within the frame size, END_HEADERS on the last only |
| `HeaderFrames.FragmentsConcat` | src/frame/headers.rs:649-709 | the fragments put together are the block |
| `HeaderFrames.SentParses` | src/frame/headers.rs:649-709 | each frame sent parses back as its fragment |
| `HeaderFrames.OctetsParse` | src/frame/headers.rs:649-709 | the nine octets of a frame head parse back |
| `Reassembly.StepTruncated` | src/hpack/decoder.rs:198-257 | a representation cut anywhere asks for more and changes nothing |
| `Reassembly.DecodingResumes` | src/hpack/decoder.rs:198-257 | decoding a part and then what it left together with the rest is decoding the whole |
| `Reassembly.BlockReassembles` | src/codec/framed_read.rs:310-403 | however a block is cut into HEADERS and CONTINUATION frames, the same headers and table come out as from the whole block, if that decodes and the limit on frames is kept |
| `FramedRead.FrameDecoder.DecodeFrame` | src/codec/framed_read.rs:151-403 | one frame has the effect the specification says, errors and the pending block included |
| `FramedRead.EnoughFrames` | src/codec/framed_read.rs:106-112 | a block no longer than the header-list limit never needs more frames than are allowed |
| `FramedRead.SendAndReceive` | src/codec/framed_read.rs:310-403 | a real encoder, the split frames and a real decoder: the headers arrive and both ends stay in step |
| `FlowControl.ExactInc` | src/proto/streams/flow_control.rs:113-133 | a window update is refused exactly when the window would exceed 2^31 - 1 |
| `FlowControl.ExactSend` | src/proto/streams/flow_control.rs:170-194 | within the window the 32-bit arithmetic is exact |
| `Prioritize.CapacityBounded` | src/proto/streams/prioritize.rs:225-506 | connection window = unassigned + sum assigned to streams + that of removed streams; each stream's share is within its window, its request and the connection's window |
| `Prioritize.NothingIdle` | src/proto/streams/prioritize.rs:370-506 | while capacity is unassigned, no open stream short of its request, nor closed one short of its data, has room in its window, as long as it never had more than 2^32 - 1 octets buffered |
| `Prioritize.DataInOrder` | src/proto/streams/prioritize.rs:145-222 | sent, in the codec and queued data of a stream make up what was given to it, in order; the buffered count is exact; once END_STREAM is out no data is left, and all that was given has been sent unless some was dropped |
| `Prioritize.NothingForgotten` | src/proto/streams/prioritize.rs:112-142 | a ready stream whose first frame is not blocked is queued for sending, unless the rest of a frame of its is in the codec, which `ReclaimFrame` puts back; none is queued for sending and opening at once |
| `Prioritize.Prioritizer.TryAssignCapacity` | src/proto/streams/prioritize.rs:410-506 | gives no more than asked for and the windows allow; a stream still short waits, and only once nothing is left |
| `Prioritize.Prioritizer.AssignConnectionCapacity` | src/proto/streams/prioritize.rs:370-408 | the loop ends with all capacity handed out or nobody waiting; streams are served in the order in which they wait, and no other changes |
| `Prioritize.Prioritizer.ReserveCapacity` | src/proto/streams/prioritize.rs:225-284 | the request becomes buffered + asked (capped at 2^32 - 1; a closed stream only lowers it), excess goes to others, nobody else loses |
| `Prioritize.Prioritizer.SendData` | src/proto/streams/prioritize.rs:145-222 | errors as in the source; otherwise the payload joins the stream's data, and the request becomes what is buffered, as far as 32 bits allow, or stays larger while more may come |
| `Prioritize.Prioritizer.PopFrame` | src/proto/streams/prioritize.rs:703-901 | ends; the frame is that of the first stream in the queue that can send, all before it being stuck; a stream with more to send goes to the end; DATA fits the frame size, the stream's window and the connection's, continues what was sent before, and END_STREAM means all was sent |
| `Prioritize.Prioritizer.PopOne` | src/proto/streams/prioritize.rs:716-901 | one round: exactly which frame the first stream in the queue sends, what that leaves of the stream, of the frame and of the queue; or why it sends none, and then one waiting frame or stream is fewer |
| `Prioritize.Prioritizer.SendChunk` | src/proto/streams/prioritize.rs:757-838 | splits the first frame at the windows and the frame size; both windows shrink by what is sent |
| `Prioritize.Prioritizer.OpenNext` | src/proto/streams/prioritize.rs:903-925 | the stream that waited longest is opened ahead of all others |
| `Prioritize.Prioritizer.BufferPending` | src/proto/streams/prioritize.rs:508-558 | the loop ends; the connection window shrinks by exactly the data sent; complete means nothing waits |
| `Prioritize.Prioritizer.ReclaimFrame` | src/proto/streams/prioritize.rs:599-665 | what is left of a written frame returns to the front of its stream's queue, exactly when there is something left and the stream was not cleared meanwhile; the stream is queued if it has capacity |
| `Prioritize.Prioritizer.ClearQueue` | src/proto/streams/prioritize.rs:667-684 | the stream's frames are gone and its data in the codec will not come back |
| `Prioritize.Prioritizer.ReclaimAllCapacity` | src/proto/streams/prioritize.rs:330-341 | all the stream's capacity goes to others |
| `Prioritize.Prioritizer.ReclaimReservedCapacity` | src/proto/streams/prioritize.rs:343-358 | capacity beyond the buffered data goes to others |
| `Prioritize.Prioritizer.RecvStreamWindowUpdate` | src/proto/streams/prioritize.rs:286-313 | ignored for finished streams, refused iff the window would overflow, otherwise the stream gets what it can |
| `Prioritize.Prioritizer.RecvConnectionWindowUpdate` | src/proto/streams/prioritize.rs:315-328 | refused iff the window would overflow, otherwise handed out |
| `Prioritize.Prioritizer.LowerWindows` | src/proto/streams/send.rs:533-602 | every linked stream that may send loses the difference, excess capacity is handed out again; fails only if a window leaves its range |
| `Prioritize.Prioritizer.LowerWindow` | src/proto/streams/send.rs:539-590 | one stream: window lowered exactly, assigned capacity cut to it |
| `Prioritize.Prioritizer.RaiseWindows` | src/proto/streams/send.rs:603-611 | every linked stream that may send gains the difference; fails only if a window leaves its range |
| `Prioritize.Prioritizer.SendHeaders` | src/proto/streams/send.rs:125-170 | state, queue and the wait to be opened, or the error with nothing changed |
| `Prioritize.Prioritizer.SendTrailers` | src/proto/streams/send.rs:312-345 | trailers end the stream behind its data and give up unused capacity |
| `Prioritize.Prioritizer.SendReset` | src/proto/streams/send.rs:203-277 | a reset drops what is queued, except for a stream still waiting to be opened, and frees its capacity |
| `Prioritize.Prioritizer.ScheduleImplicitReset` | src/proto/streams/send.rs:279-295 | data queued before stays, the stream is scheduled and gives up unused capacity |
| `Prioritize.Prioritizer.HandleError` | src/proto/streams/send.rs:487-496 | nothing queued, nothing requested, nothing assigned; other streams at most gain |
| `Prioritize.Prioritizer.RecvReset` | src/proto/streams/streams.rs:677-728 | refused for a stream that is not open yet, with nothing changed; otherwise state as for RST_STREAM, then as for an error |
| `Prioritize.Prioritizer.TransitionAfter` | src/proto/streams/counts.rs:297-332 | what is unlinked or removed from the store; capacity of removed streams is kept account of |
| `Counts.Counts.Tally` | src/proto/streams/counts.rs:196-222 | each counter is the number of counted streams of its side, plus those removed while counted |
| `Counts.Counts.Transition` | src/proto/streams/counts.rs:281-332 | exactly when a stream begins to linger, and when a closed one is uncounted, unlinked, removed, or lost to the count |
| `Counts.Counts.TransitionAfter` | src/proto/streams/counts.rs:297-332 | the same for the second half; no assertion on a counter can fail |
| `Counts.Counts.IncNumRecvStreams` | src/proto/streams/counts.rs:196-204 | within its limit, the receive count grows with the stream marked |
| `Counts.Counts.DecNumStreams` | src/proto/streams/counts.rs:344-356 | the assertion on the counter holds |
| `Counts.Counts.Expire` | src/proto/streams/recv.rs:1047-1061 | a lingering stream expires; the counter of lingering streams is only ever too high |
| `Counts.Counts.RecvEof` | src/proto/streams/streams.rs:937-971 | iterating over the id map while streams leave it, then draining every queue: each counter ends at the streams lost before plus those abandoned, that is counted and to be reset but not waiting to send that |
| `Counts.CountLost` | src/proto/streams/streams.rs:1700-1719 | a run from an idle stream: the server answers early, drops the stream while its data is blocked, the peer resets it, and it is gone but still counted |
| `Counts.SwapRemoved` | src/proto/streams/store.rs:144-175 | removing by swapping keeps the id map an enumeration of linked streams |
| `Store.Queue.Push` | src/proto/streams/store.rs:259-297 | the intrusive list is a duplicate-free FIFO with exactly the flagged streams; pushing appends, once; queues of other links are untouched |
| `Store.Queue.PushFront` | src/proto/streams/store.rs:299-334 | the same at the front |
| `Store.Queue.Pop` | src/proto/streams/store.rs:336-358 | takes the first off; its key resolves and the assertions hold |
| `Store.Queue.PopIf` | src/proto/streams/store.rs:364-377 | the same, if the first is wanted |
| `Store.Streams.Insert` | src/proto/streams/store.rs:104-115 | a new stream is in no queue and disturbs none |
| `Store.Streams.Remove` | src/proto/streams/store.rs:402-411 | removing a stream that is in no queue leaves no queue with a dangling key |
| `Store.PushedBack` | src/proto/streams/store.rs:259-297 | the links after a push spell out the longer list |
| `Store.PoppedFront` | src/proto/streams/store.rs:336-358 | the links after a pop spell out the shorter list |
| `FrameBuffer.Deque.PushBack` | src/proto/streams/buffer.rs:47-62 | appends to one list; every list in other slots of the shared slab stays |
| `FrameBuffer.Deque.PushFront` | src/proto/streams/buffer.rs:64-79 | the same at the front |
| `FrameBuffer.Deque.PopFront` | src/proto/streams/buffer.rs:81-99 | takes the first value off; its slot is free again |
| `ReceiveWindows.ConnectionConsumes` | src/proto/streams/recv.rs:799-815 | octets are refused iff they exceed the advertised window; otherwise available + in flight is unchanged |
| `ReceiveWindows.ConnectionRetargets` | src/proto/streams/recv.rs:534-571 | any target is taken exactly; the assertion on a negative window cannot fire |
| `ReceiveWindows.ConnectionAnnounces` | src/proto/streams/recv.rs:1122-1149 | the `expect` on the connection update cannot fire |
| `ReceiveWindows.StreamResizes` | src/proto/streams/recv.rs:573-641 | settings are applied exactly, up and down: no overflow branch can be taken |
| `ReceiveWindows.StreamAnnounces` | src/proto/streams/flow_control.rs:93-108 | the subtraction in `unclaimed_capacity` and the stream update are exact |
| `Recv.Recv.ConnectionBounded` | src/proto/streams/recv.rs:442-571 | available + in flight = target; in flight covers all streams; in flight + advertised never exceeds the largest target |
| `Recv.Recv.StreamBounded` | src/proto/streams/recv.rs:573-641 | for a linked stream: advertised <= available, available + in flight <= initial window, and settings and updates cannot fail |
| `Recv.Recv.RecvData` | src/proto/streams/recv.rs:651-781 | the checks in their order, what each outcome charges to connection and stream, and the payload queued behind what waits; a stream error gives the octets back (src/proto/streams/streams.rs:665-672) |
| `Recv.Recv.ConsumeConnectionWindow` | src/proto/streams/recv.rs:799-815 | refused iff the window is too small |
| `Recv.Recv.IgnoreData` | src/proto/streams/recv.rs:783-797 | only the advertised window shrinks |
| `Recv.Recv.ReleaseCapacity` | src/proto/streams/recv.rs:465-497 | too much is refused with nothing changed; otherwise connection and stream both get it back and the stream is queued if an update is due |
| `Recv.Recv.ClearRecvBuffer` | src/proto/streams/recv.rs:957-982 | the saturating, capped loop releases min(buffered, still held) |
| `Recv.Recv.StopReading` | src/proto/streams/streams.rs:1584-1593 | the same, and no more data will be held |
| `Recv.Recv.ReleaseClosedCapacity` | src/proto/streams/recv.rs:500-519 | everything the stream holds returns to the connection |
| `Recv.Recv.SetTargetConnectionWindow` | src/proto/streams/recv.rs:534-571 | available becomes target - in flight |
| `Recv.Recv.ApplyLocalSettings` | src/proto/streams/recv.rs:573-641 | every linked stream, and no other, moves by the difference; it cannot fail |
| `Recv.Recv.SendConnectionWindowUpdate` | src/proto/streams/recv.rs:1122-1149 | an update goes out iff it makes up half of what the peer has left and the codec has room; it levels the window, and the peer is well informed afterwards |
| `Recv.Recv.SendStreamWindowUpdates` | src/proto/streams/recv.rs:1152-1205 | a prefix of the queue has its turn; the updates sent are exactly those due, and the peer is well informed of each receiving stream that had its turn |
| `Recv.Recv.PollData` | src/proto/streams/recv.rs:1211-1237 | payload is delivered in the order it was buffered |
| `Recv.Recv.Insert` | src/proto/streams/stream.rs:146-199 | a new stream starts with the initial window |
| `Recv.Recv.Unlink` | src/proto/streams/store.rs:416-419 | settings no longer reach the stream; its windows stay exact |
| `Recv.Recv.Remove` | src/proto/streams/store.rs:402-411 | what a removed stream still holds is all that in flight can exceed the sum by |
| `FlowSafety.NoRunFails` | src/proto/streams/recv.rs:690-702 | in no run does a receiver find more data than it allowed, does a window overflow on either side, or does a frame come where it must not |
| `FlowSafety.CreditConserved` | src/proto/streams/recv.rs:799-815 | in every state of every run the advertised connection window is the sender's plus updates and data under way |
| `FlowSafety.RunSafe` | src/proto/streams/prioritize.rs:784-832 | the invariant behind it holds in every run |
| `FlowSafety.SendDataSafe` | src/proto/streams/prioritize.rs:784-832 | sending within both windows keeps it |
| `FlowSafety.ReadDataSafe` | src/proto/streams/recv.rs:690-730 | reading DATA cannot fail and keeps it, for open, closed and unread streams |
| `FlowSafety.AckSettingsSafe` | src/proto/settings.rs:123-150 | acknowledging settings before applying them keeps it, and no window leaves its range |
| `FlowSafety.ReadAckSafe` | src/proto/settings.rs:36-80 | applying local settings on the acknowledgement keeps it |
| `FlowSafety.ReadStreamUpdateSafe` | src/proto/streams/send.rs:441-465 | a stream update never overflows the sender's window |
| `FlowSafety.UpdateStreamSafe` | src/proto/streams/recv.rs:1183-1202 | announcing a stream update keeps it |
| `FlowSafety.Larger` | src/proto/streams/recv.rs:690-702 | a larger window accepts all that a smaller one accepts |
| `Prioritize.IdleExactly` | src/proto/streams/prioritize.rs:410-506 | with capacity left, a stream that is short and has room is left without exactly if it is closed and its request is used up before its data is |
| `IdleStream.RequestTooSmall` | src/proto/streams/prioritize.rs:145-222 | a run, through `send_data`, the send loop and window updates, after which a closed stream is short of its data while it and the connection have room: more was buffered than a request can express |
| `Counts.Counts.EnqueueResetExpiration` | src/proto/streams/recv.rs:1030-1045 | a locally reset stream lingers if it does not yet and there is room |
| `Counts.EndsAtZero` | src/proto/streams/streams.rs:937-971 | that is zero for a side exactly if none was lost and every counted stream of that side that is to be reset waits to send |
| `Counts.Counts.Drain` | src/proto/streams/streams.rs:1864-1867 | emptying one of the six queues keeps the others, ends with it empty, and loses no count but of abandoned streams |
| `Counts.EofLeavesCount` | src/proto/streams/streams.rs:937-971 | a run with nothing lost before in which a counter is one after the end of the connection |
| `Fragments.FragmentsJudged` | src/codec/framed_read.rs:310-403 | if the fragments of a block are accepted, the whole block gives the same headers and table, or is refused: exactly when the table size changes after a field, or else when it comes to a literal with an empty name |
| `Fragments.LateUpdateAccepted` | src/hpack/decoder.rs:198-257 | a field and then a size update, cut between the two: accepted in fragments, refused whole |
| `Fragments.NamelessAccepted` | src/codec/framed_read.rs:310-403 | a literal with an empty name and then a field, cut between the two: the fragments give the field alone, the whole block is refused |
| `Fragments.EmptyNameAsks` | src/hpack/header.rs:64-103 | a header asks for more octets exactly if its name is empty |
| `Fragments.NamelessAsks` | src/hpack/decoder.rs:285-311 | a literal with an empty name asks for more, whatever octets follow it |
| `Fragments.TakenNameless` | src/hpack/decoder.rs:285-311 | only such a literal is taken from the buffer before it asks for more |
| `Fragments.StepExtended` | src/hpack/decoder.rs:198-257 | what follows a representation makes no difference to it |
| `SenderLink.PoppedIsSent` | src/proto/streams/prioritize.rs:784-832 | a DATA frame that `PopFrame` returns is one that the sender of the two-party model may send |
| `SenderLink.PopOneIsStep` | src/proto/streams/prioritize.rs:784-832 | and sending it leaves both with the same windows |
| `ReceiverLink.SameVerdict` | src/proto/streams/recv.rs:651-781 | `RecvData` refuses a frame for want of window exactly when reading it fails in the two-party model, and charges the connection alike |
| `ReceiverLink.NeverTooMuch` | src/proto/streams/recv.rs:690-702 | in no run of the two-party model does `RecvData` refuse a frame for want of window |
| `HuffmanCode.ValidCodeExists` | src/hpack/huffman/decode.rs:226-247 | the assumptions on the code can be met |
| `RawLiterals.RawStrReads` | src/hpack/decoder.rs:313-355 | a string that is not Huffman coded is returned unchanged if it is shorter than 127 + 2^28 octets, and refused as overflow otherwise |
| `RawLiterals.RawLiteralReads` | src/hpack/decoder.rs:285-311 | a literal with such strings, of any of the three kinds, with a new or an old name, gives exactly that name and value, and enters the table exactly if it says so |
| `RawLiterals.RawBlockReads` | src/hpack/decoder.rs:177-260 | and so does a whole block of them |
| `References.PresentIsIndexed` | src/hpack/table.rs:134-264 | a field that is in the combined table is referred to by an index of it: always if static and with a value, else if its value may be indexed and it takes at most three quarters of the table |
| `References.NamedIsReferred` | src/hpack/table.rs:134-345 | a name that is in the table is referred to, except by a header that is too large for the table and has no static name |
| `References.NewestName` | src/hpack/table.rs:205-264 | a name from the dynamic part is that of the newest entry, and taken only if there is no static one, or for a sensitive field |
| `References.EnteredExactly` | src/hpack/table.rs:134-345 | exactly which headers are entered in the table |
| `References.AgainIsIndexed` | src/hpack/encoder.rs:155-193 | the same header again, not sensitive and within those bounds, is just an index |
| `NeverIndexed.HeaderKind` | src/hpack/encoder.rs:155-193 | a header is written as never indexed exactly if it is sensitive and not just an index |
| `NeverIndexed.NamelessKind` | src/hpack/encoder.rs:196-222 | one more value for a name is never indexed exactly if it is sensitive |
| `NeverIndexed.SensitiveLinesMarked` | src/hpack/encoder.rs:101-153 | in a whole block, read back representation by representation, the never-indexed ones are exactly those of sensitive lines that are not just an index |
| `FlowControl.UnclaimedExactly` | src/proto/streams/flow_control.rs:93-108 | an update is due exactly if it would be at least half of what the peer has left |
| `FlowControl.NoneDue` | src/proto/streams/flow_control.rs:93-108 | while none is due the peer knows of more than two thirds of what is available, and of something if there is anything |
| `Recv.TurnInforms` | src/proto/streams/recv.rs:1152-1205 | the same for a stream after its turn to send an update |
| `Recv.JudgedByLength` | src/proto/streams/recv.rs:704-729 | a frame of a message of announced length is taken exactly if it fits, and the last only if nothing is missing |
| `RecvStreams.ContentLengthKept` | src/proto/streams/stream.rs:338-359 | over any frames: taken while they are no more than announced, complete exactly if they are just that |
| `SendTurns.MovesUp` | src/proto/streams/prioritize.rs:716-901 | in any run, a stream at place i of the send queue has its turn after at most i turns of others and of streams opened meanwhile |
| `SendTurns.NobodyTwice` | src/proto/streams/prioritize.rs:889-895 | no stream has two turns while another that was waiting has had none |
| `Prioritize.LongestWaitingFirst` | src/proto/streams/prioritize.rs:370-408 | who gets capacity leaves nobody wanting who has waited longer |
| `FlowSafety.StreamCreditConserved` | src/proto/streams/recv.rs:690-776 | in every state of every run the advertised window of a stream that is open at both ends and read is the sender's plus its updates and data under way, up to settings being acknowledged |
| `FrameOrder.OnlyWholeBlocks` | src/codec/framed_read.rs:310-403 | a header list only comes of HEADERS and CONTINUATION frames of one stream with nothing in between, END_HEADERS on the last only, and no more without it than allowed |
| `DynamicTable.InsertExactly` | src/hpack/table.rs:337-376 | a new entry leaves exactly the newest entries that fit beside it; one too large leaves none (section 4.4 of RFC 7541) |
| `DynamicTable.EvictsNoMore` | src/hpack/table.rs:347-376 | one more entry than is kept would not fit |
| `StreamState.SendOpenSides` | src/proto/streams/state.rs:95-134 | HEADERS can be sent exactly while none were, and leave the other side |
| `StreamState.RecvOpenSides` | src/proto/streams/state.rs:138-208 | they can be received exactly while none were but informational ones, and leave the other side |
| `StreamState.CloseSides` | src/proto/streams/state.rs:236-254 | the end of one side leaves the other |
| `StreamState.SidesMean` | src/proto/streams/state.rs:402-451 | what the predicates on states say about the two sides |
| `StreamState.FailuresRemember` | src/proto/streams/state.rs:261-333 | a reset or failure does not forget whether the peer had finished |
| `WireExamples.IntegerExamples` | src/hpack/encoder.rs:304-333 | the integers of appendix C.1 of RFC 7541 |
| `WireExamples.LiteralExamples` | src/hpack/decoder.rs:285-311 | the literals of appendices C.2.1 and C.2.3 of RFC 7541 |
| `WireExamples.IndexExample` | src/hpack/encoder.rs:345-351 | `:method: GET` is the octet 0x82 |
| `WireExamples.HeadExample` | src/frame/headers.rs:649-709 | the octets of a frame head |

## Left out

- Prioritize.Prioritizer.ReserveCapacity: for streams whose HEADERS have been sent; capacity reserved earlier can be assigned to a stream that cannot use it yet.
- Prioritize.Prioritizer.BufferPending: the codec is a number of frames it still takes; when a written frame comes back is decided by its length only.
- Counts.Counts.Transition: what happens to a stream is any change of the fields that counts do not go by, and perhaps the beginning of lingering.
- Counts.Counts.RecvEof: what failing does to capacity and windows is in `Prioritizer.HandleError`, not here.
- Store.Streams.Insert: the id map is part of `Counts`, not of the store.
- Store.Streams.Remove: the id map is part of `Counts`, not of the store.
- FramedRead.FrameDecoder.DecodeFrame: frames other than HEADERS and CONTINUATION have no effect, and there is no limit on the size of a header list.
- Prioritize.Prioritizer.RecvReset: the limit on resets of streams that wait to be accepted.
- Prioritize.Prioritizer.LowerWindows: windows after an error, which ends the connection.
- Prioritize.Prioritizer.RaiseWindows: the other windows after an error, which ends the connection.
- FlowSafety.NoRunFails: DATA after END_STREAM and frames on streams that the peer reset are not told apart from other data; the sender may send more than it would.
- Recv.Recv.RecvData: the budget for small DATA frames is not part of the model.
- HpackConnection.ConnectionRoundTrip: for strings within the integer bound and tables small enough for every index to be.
- 64-bit registers are lists of 64 bits; sizes and lengths in memory are unbounded below 2^64. Virtual indices of the encoder's table do wrap.
- The Huffman code is a parameter; the trie of `src/hpack/huffman/table.rs` is built by the generator's algorithm instead of being copied.
- The hash of a header name is an arbitrary function.
- Parsing of methods, paths, status codes and header names is a parameter of the decoder: which fields it accepts.
- Limits on the size of header lists, malformed messages, padding and priority fields of HEADERS frames.
- Server push, GOAWAY, informational responses, and the public API.
- Input and output, wakers, locks, tracing and time: a reset stream may expire at any moment, and the codec takes as many frames as the caller says.
- The store, the counters and the prioritizer share the streams of the source. Here each class has its own record of a stream, with the fields it reads and writes; queues in `Prioritizer` and `Recv` are lists of keys with a flag in each member, which is what `Store.Queue` implements with links.
- Windows are values with update functions, assigned back to the stream they belong to.
- In `Recv`, the order of the id map after a stream was unlinked; nothing depends on it. `Counts` keeps the order.
- The connection error that ends a run: after one, nothing is claimed.
