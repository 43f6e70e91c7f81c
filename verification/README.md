# Chrontabulator's segment store, verified

Chrontabulator records UDP packets into segments on a raw block device. This
project models the daemon that does it and proves what its users rely on: that
a recording reads back as exactly what was captured, that a crash between any
two writes loses no finalized segment, that every packet and every outstanding
write is accounted for, and that the two readers and the admin bridge agree
with all of it. Where the program does not keep a documented promise, the exact
condition under which it does is proved instead.

## How it is put together

| file | what it holds |
|---|---|
| `Bytes`, `Record`, `RecordLayout` | machine integers, struct layouts, and record.h byte for byte; where each field lies for whoever reads the disk |
| `Packet`, `FrameLayout`, `PacketBuilder` | frame format, parser and checksums; a built frame as any receiver checks it; the in-place builder and checksum loops |
| `Device`, `Readers`, `ReaderOutcomes`, `SegmentReader` | the block device; both readers as functions; what they make of any disk at all; their loops over `io_buf` |
| `Capture` | the capture write path as functions on its state |
| `CaptureInvariant`, `CaptureRuns`, `CaptureDisk`, `SegmentData` | what every event of a recording keeps, in memory and on the device |
| `CaptureTheorems`, `CaptureArrivals`, `CaptureFates` | what follows for whole recordings; what the log is made of, down to the frames; what becomes of chunks, the last buffer and the stop reason, by the events alone |
| `CaptureLimits`, `CaptureWitness` | where the write path's promises stop, for every answer of the device; runs that reach each of those situations |
| `Tuning` | chunk rounding and the live setters |
| `Store` | the whole daemon as a state machine over the device: claim, capture, finalize, delete, format, tuning, crash |
| `StoreInvariant`, `StoreSteps` | the system invariant, and that every step keeps it |
| `StoreTheorems`, `StoreOperations` | crash safety, readback, the admin operations |
| `StoreRequests` | what each request and each completion changes, what its block says to a reader, and when a step meets a hazard |
| `StoreLimits`, `StoreSlots`, `StoreOverlap` | where their promises stop: finalizes, deletes, TOC slots claimed again, segments that overlap |
| `StoreArrivals` | from the network to the reader: the packets taken in are what the finalized segment reads back |
| `StoreReachability` | a run from a freshly formatted device to the starting point of the round trip, so that it is about something |
| `WriteBuffers`, `HandlerSteps`, `Context` | `struct app_context_t` as a class: the handlers that update it in place, proved against `Capture` and `Store` |
| `AdminBridge`, `AdminLedger`, `AdminService` | the request/response slot shared by the web thread and the reactor; that the daemon answers each request once, and with which code; both together: an answer of 0 is true, and success is answered 0 |

The imperative program and the state machine meet in two methods:
`Context.AppContext.Handle` carries out any event of the capture path exactly
as `Capture` describes it, and `Context.AppContext.MetaWriteComplete` does the
same for any completed metadata write and `Store`. The theorems are about the
functions, for every run of the state machine.

A recording is followed by a history that the program does not have: the log of
all records appended, the chunks handed off with their records, and which chunks
were written, lost or still outstanding. A data write may scribble on its target
range at any time while it is outstanding (`Store.Step.Scribble`); when it
completes successfully the range holds what the buffer holds at that moment. A
metadata write may land wholly, not at all, or, for the multi-block zeroing of a
format, in any part.

## What is assumed of the surroundings

- A single-block metadata write is atomic, a successful completion means that the
  block is durable, and no completion is delivered inside the call that submits.
  A metadata write that cannot be submitted is treated as one that failed.
- The block size is at least 112 bytes (the TOC entry), device offsets fit 64
  bits, and a write unit is whole blocks and divides 2 MiB.
- `rte_get_tsc_hz` is positive.
- Runs of the write path meet three conditions, recorded as history flags, under
  which the theorems hold: no data write is refused other than by -ENOMEM; a
  second buffer never needs the one wait entry; a waiting buffer is not handed off
  again. What happens without the first and the third is proved in
  `CaptureLimits`, and `CaptureWitness` shows that it does happen.
- Runs of the daemon meet two more: a finalize does not begin while an admin
  request is using `io_buf` (both build their block there), and there is no crash
  between a finalize whose header write has not reached the device and the next
  header write that does. What such a crash costs, and when it costs nothing, is
  proved in `StoreLimits`.
- Each critical section of the admin request's mutex is one step; a fulfil that no
  request asked for comes only while no call owns the slot or reads from it, and
  it is proved that this is exactly what is needed.
- A TOC slot number in a delete request is below 4096, and a chunk that a reader
  really reads is not larger than `io_buf`.

## Where code and documentation disagree

The code is followed.

- `src/record.h:152-158` promises that no two segments share a slot even across a
  crash. A restarted daemon claims the slot that block 0 names, and that slot
  already holds an entry exactly if block 0 lags behind the claims whose entries
  have landed (`StoreSlots.ClaimedSlotIsReusedIff`): after a crash between a claim's
  two writes, but also after an idle daemon crashes whose last claim lost its
  header write (`StoreSlots.HalfClaimIsReused`), and without any crash when a
  claim's entry write is reported failed although it landed
  (`StoreSlots.ClaimTakesUsedIff`). No data is at stake: the slot never holds a
  finalized segment.
- `src/record.h:152-158` makes `next_segment_id` the next slot to claim, so that
  finalized and deleted entries lie below it. Deleting the open slot of a claim
  whose header write failed leaves a deleted entry at `next_segment_id`
  (`StoreLimits.TombstoneRun`). It is empty too (`StoreLimits.TombstoneIsEmpty`).
- `src/main.c:525-538` relies on the target a buffer was given when handed off. A
  stop that finds the current buffer waiting for a retry hands it off a second time
  and so moves its target (`CaptureLimits.WaitingTargetIsFixedIff`). In the run of
  `CaptureWitness.RetargetedIsReachable` every completion succeeds and by the
  history nothing is lost, while the place of the only record's chunk is never
  written. The theorems about runs exclude it through the third condition above.
- `src/chrono_ctx.h:41-58` presents the last stop reason as why the recording
  stopped. A later stop request or failed write overwrites it; the exact condition
  is `CaptureTheorems.ReasonSurvivesIff`.
- `src/main.c:1527-1530` says that a failed header write at finalize puts data at
  risk. It does exactly if the segment holds data, the header has not reached the
  device and the entry has (`StoreLimits.FinalizeIsSafeIff`); a write reported
  failed may have reached it.
- `src/record.h:166-176` calls `next_data_block` the first free block. A hand-off
  that is refused as the fifth failure with nothing else pending finalizes before
  next_write_block has moved, so the finalized entry reaches a chunk past the mark
  and the next segment is placed inside it, without any crash
  (`StoreOverlap.NextSegmentOverlaps`).
- `README.md:206-208` says that a record carries the sender's sequence number. The
  code numbers the records of a segment itself, from 0. The two agree exactly where
  the sender's number is the count of packets recorded before
  (`CaptureArrivals.NumberIsSendersIff`), so up to the first packet dropped
  (`CaptureArrivals.NumbersAgreeUntilDrop`).
- `src/common.h:14-25` gives the IP total length as covering the whole packet.
  The builder cuts it to 16 bits without a check (`Packet.IpLengthField`); the
  parser never reads it.
- `src/main.c:241-245` says that the chunk size stays within its bounds. Rounding
  up leaves them when the write unit does not divide the maximum
  (`Tuning.RoundStaysWithinIff`).

## Model

| member | source | states |
|---|---|---|
| Record.HeaderRoundTrip | src/record.h:47-53 | a record header written anywhere in a chunk is found there again: magic, sequence number, tsc and length |
| Record.VolumeRoundTrip | src/record.h:129-182 | a volume header in a zero-padded block decodes to itself |
| Record.EntryRoundTrip | src/record.h:190-246 | a TOC entry, alignment gaps included, in a zero-padded block decodes to itself |
| Record.ZeroBlockIsFree | src/record.h:75-80 | a zero-filled TOC block is a free slot to every reader |
| RecordLayout.RecordBytes | src/record.h:6-53 | an encoded record is the text "CHRREC1 ", then at bytes 8, 16 and 24 its number, tsc and length, least significant byte first, four zero bytes and the payload |
| RecordLayout.RecordHeaderLayout | src/record.h:47-53 | on any bytes, the header read at any offset is the numbers at its bytes 0, 8, 16 and 24 |
| RecordLayout.VolumeLayout | src/record.h:129-182 | on any block, the volume header read is the numbers at bytes 0, 8, 12, 16, 20, 24, 32, 40 and 48 |
| RecordLayout.EntryLayout | src/record.h:190-246 | on any block, the TOC entry read is the numbers at bytes 0 to 104, with the gaps at 36, 92 and 108 skipped |
| RecordLayout.EntryGaps | src/record.h:190-246 | and the gaps are written as zeros |
| RecordLayout.BlocksArePadded | src/record.h:184-189 | and so is everything in block 0 behind byte 56, the reserved words included, and in a TOC block behind byte 112 |
| RecordLayout.SlotMeans | src/chrono_admin.c:20-34 | on any block, a slot is free unless it begins with "CHRSEG1 " and its state is not 0; state 2 is finalized, 3 deleted, any other open |
| RecordLayout.ValidVolumeMeans | src/main.c:233-239 | block 0 is accepted exactly if it begins with "CHRVOL2 " and version 2 |
| Packet.Ipv4ChecksumVerifies | src/common.c:52-63 | the header of every built frame, checksum included, sums to all ones (RFC 791 section 3.1, RFC 1071) |
| Packet.UdpChecksumVerifies | src/common.c:65-95 | pseudo-header and segment, odd lengths included, sum to all ones, the checksum sent is never 0, and 32 bits are enough for every 16-bit length (RFC 768, Fields) |
| Packet.Fold | src/common.c:60-61 | the carry fold ends, keeps the value modulo 65535 and is 0 only for 0 |
| Packet.IpLengthField | src/common.c:131-134 | the IP total length is true exactly for frames of at most 14 + 65535 bytes |
| Packet.PacketRoundTrip | src/common.c:97-207 | a built frame parses to its port, sequence number and zero-padded payload if and only if its UDP length fits 16 bits |
| Packet.ParsesIffCarries | src/common.c:170-207 | on any bytes, a frame is parsed exactly if it carries an IPv4 UDP datagram inside its length, and then to that datagram's port, sequence number and payload |
| FrameLayout.EveryField | src/common.c:97-168 | every field of a built frame lies where Ethernet II, IPv4 without options and UDP have it: both addresses of both layers, both ports, lengths, protocol, TTL 64, no fragment |
| FrameLayout.BodyLayout | src/common.c:153-163 | behind the UDP header come the sequence number, most significant byte first, if there is one, the payload, and zeros |
| FrameLayout.Sum16IsWords | src/common.c:53-59 | the summing loop adds up the 16-bit words of its range, a last odd byte completed by a zero |
| FrameLayout.ChecksumsHold | src/common.c:52-95 | a receiver that adds up the words of the IPv4 header, or of addresses, protocol 17, UDP length and segment, gets a positive multiple of 65535, and the UDP checksum is not 0 |
| PacketBuilder.PutBe16 | src/common.c:11-16 | exactly two bytes of the buffer change, to the big-endian field |
| PacketBuilder.PutBe32 | src/common.c:18-25 | exactly four bytes of the buffer change, to the big-endian field |
| PacketBuilder.PutBe64 | src/common.c:27-32 | exactly eight bytes of the buffer change, to the big-endian field |
| PacketBuilder.AddWords | src/common.c:53-59 | the summing loop adds the big-endian words of the range, a last odd byte as a high byte |
| PacketBuilder.FoldAndInvert | src/common.c:60-62 | the folding loop ends in the complement of the folded sum |
| PacketBuilder.ComputeIpChecksum | src/common.c:52-63 | the loops over the buffer give the header checksum that verifies |
| PacketBuilder.ComputeUdpChecksum | src/common.c:72-95 | the loops over the buffer give the UDP checksum that verifies, never 0 |
| PacketBuilder.BuildPacket | src/common.c:97-168 | refuses exactly what does not fit and then changes nothing, the 32-bit sum of the lengths included; otherwise the buffer holds the frame and every byte behind it is untouched |
| Readers.WalkChunk | src/main.c:1003-1025 | on any bytes the walk ends inside the chunk with at most the records wanted; an overrun means too few |
| Readers.DumpFrom | src/main.c:990-1060 | on any disk the dump ends, and it succeeds if and only if it has printed every record asked for |
| Readers.PageChunk | src/chrono_admin.c:302-360 | on any bytes the page walk ends inside the chunk, and it moves exactly if it passes a record |
| Readers.PageIsSlice | src/chrono_admin.c:287-463 | whenever a segment dumps, each page is records [offset, min(offset + k, total)) of that dump, with the right total and has_more, where k is the limit asked for if it is from 1 to 2000 and 500 otherwise |
| Readers.PagesConcatenate | src/chrono_admin.c:379-409 | following has_more from any offset gives the rest of what the dump prints |
| Readers.PageIsExact | src/chrono_admin.c:302-376 | on arbitrary disk bytes a page is an error or holds exactly the records asked for, by the same rule for k, with the matching has_more |
| Readers.DumpWritten | src/main.c:1003-1045 | chunks laid out as the writer does dump to their records in order, from any chunk on and for any number |
| ReaderOutcomes.DumpOutcomes | src/main.c:1079-1153 | which slot has which outcome: an unreadable block, a free slot, an open segment, an empty one, and otherwise a dump with the stored chunk size, 0 meaning the reading process's own |
| ReaderOutcomes.PageOutcomes | src/chrono_admin.c:411-464 | the same for a page: -EIO, -ENOENT, -EAGAIN, and an empty last page from the end on |
| ReaderOutcomes.WalkFindsAll | src/main.c:1003-1025 | on any bytes the walk of a chunk finds exactly the records that lie there one after the other, and reports an overrun exactly if the next header's record leaves the chunk |
| ReaderOutcomes.ChunkReadIff | src/main.c:1048-1060 | a chunk can be read exactly if it is whole blocks inside the device |
| ReaderOutcomes.DumpFindsAll | src/main.c:990-1060 | on any disk the dump prints the records found chunk after chunk, and stops short only at an overrun, an unreadable chunk or one that does not begin with a record |
| ReaderOutcomes.PageIsDumpOfIts | src/chrono_admin.c:302-463 | on any disk a page fails exactly if the dump of its records up to the end of the page fails, and otherwise it is the end of that dump |
| SegmentReader.Reader.FillChunk | src/main.c:1048-1060 | `io_buf` holds the chunk, or the read is refused because it is not whole blocks inside the device |
| SegmentReader.Reader.DumpChunk | src/main.c:1003-1025 | the loop over `io_buf` prints the walk of the chunk |
| SegmentReader.Reader.DumpChunks | src/main.c:1026-1060 | chunk after chunk, the dump prints and ends as the dump function says |
| SegmentReader.Reader.DumpSegment | src/main.c:1079-1153 | the dump of a segment, errors included, with the chunk size of its own entry |
| SegmentReader.Reader.PageOneChunk | src/chrono_admin.c:302-360 | the loop over `io_buf` collects the page's part of the chunk |
| SegmentReader.Reader.PageChunks | src/chrono_admin.c:362-409 | chunk after chunk until the page is full or the segment ends |
| SegmentReader.Reader.PageSegment | src/chrono_admin.c:411-464 | the page of a segment, errors included; PageIsSlice, PageIsExact and PageIsDumpOfIts say how many records that is |
| Capture.RetryFlush | src/main.c:518-572 | whatever the device answers, no buffer is left misshapen and no stop, record or hazard is forgotten |
| Capture.FlushBuffer | src/main.c:578-638 | afterwards the current buffer is empty or in flight, whatever the device answers |
| Capture.StopRecording | src/main.c:1598-1614 | afterwards the recording is stopping, and no count or buffer bound is disturbed |
| Capture.BeginSegment | src/main.c:1634-1658 | all 32 buffers are empty and out of flight again, whatever the earlier state, their bytes untouched |
| CaptureInvariant.PadTwice | src/main.c:605-615 | handing a buffer off a second time changes no byte of it |
| CaptureInvariant.FlushCases | src/main.c:578-618 | a hand-off with room is accepted or waits: it is never abandoned |
| CaptureInvariant.FlushKeepsBody | src/main.c:605-618 | a hand-off, first or repeated by a stop, keeps every clause of the write path's invariant |
| CaptureInvariant.AppendKeeps | src/main.c:764-788 | appending a record keeps the invariant |
| CaptureInvariant.NextBufferKeeps | src/main.c:745-746 | moving round-robin to the next buffer keeps the invariant and stays inside the buffers in use |
| CaptureInvariant.OneWritePerBuffer | src/main.c:696-714 | before a stop a buffer has at most one write outstanding, and none while it waits |
| CaptureInvariant.StopKeeps | src/main.c:1598-1614 | a stop keeps the invariant and starts the finalize chain exactly if nothing is pending |
| CaptureInvariant.NoteKeeps | src/main.c:475-490 | a write failure keeps the invariant; at the fifth in a row the recording is stopping |
| CaptureInvariant.CompleteKeeps | src/main.c:492-516 | a completion, successful or not, keeps the invariant, also when it causes the stop |
| CaptureRuns.RetryHasRoom | src/main.c:539-551 | the abandon branch is unreachable: a target fixed by flush_buffer stays inside the device |
| CaptureRuns.RetryKeeps | src/main.c:518-572 | a late retry keeps the invariant, and one refused with -ENOMEM again changes nothing |
| CaptureRuns.OursCounts | src/main.c:693-799 | a packet for the capture port raises exactly one of the two counters, and is logged next in line exactly if it is the record counter |
| CaptureRuns.PollCounts | src/main.c:640-803 | over a burst the counters rise together by the number of such packets taken in |
| CaptureRuns.BeginIsSound | src/main.c:1634-1658 | a claim starts a recording in a state that satisfies the invariant |
| CaptureRuns.NextKeeps | src/main.c:492-803 | every event of a recording keeps the invariant |
| CaptureRuns.RunKeeps | src/main.c:492-803 | the invariant holds after every run: bursts, completions in any order, late retries, stops |
| CaptureRuns.NextFrozen | src/main.c:670-674 | once a recording is stopping, no event hands anything off, counts anything or changes a byte of a buffer |
| CaptureDisk.NextCover | src/main.c:492-638 | every chunk handed off is written, lost or still outstanding, and no chunk is both written and outstanding |
| SegmentData.ScribbleKeepsData | src/main.c:605-618 | whatever an outstanding write does to its own range, chunks already written stay as they are |
| SegmentData.LandedIsChunk | src/main.c:605-618 | a successful write leaves exactly the zero-padded chunk fixed at hand-off, at the block fixed at hand-off |
| SegmentData.CompleteData | src/main.c:492-516 | after a successful completion that chunk, and all earlier ones, are on the device |
| SegmentData.OtherEventData | src/main.c:492-803 | no other event of the recording unsettles what is on the device |
| SegmentData.DrainedSegment | src/main.c:1598-1614 | stopped, drained and with nothing lost, the chunks on the device are the log, at consecutive places |
| CaptureTheorems.Placement | src/main.c:586-618 | chunk i goes to start + i * buf_size_blocks, inside the device, apart from every other chunk; outstanding and waiting writes are for their chunk's place |
| CaptureTheorems.BuffersAreStable | src/main.c:696-714 | over any run, from hand-off to completion, a wait for a late retry and the retry included, the buffer that carries a chunk holds the same bytes, the zero-padded chunk |
| CaptureTheorems.Accounting | src/main.c:614-617 | pending_writes is the writes submitted or waiting, never negative, and finalize has started once exactly if the segment is stopping with none |
| CaptureTheorems.RecordsAreAccountedFor | src/main.c:597-602 | record_count is the records in durable chunks, in flight, in failed chunks, and in the buffer being filled or dropped last |
| CaptureTheorems.WholeRecording | src/main.c:475-803 | the same over every run from a claim, with the limit, the outstanding writes and the single finalize |
| CaptureTheorems.LimitHolds | src/main.c:790-799 | with a nonzero limit the record count never passes it, and reaching it stops the recording |
| CaptureTheorems.FailuresAreTheStreak | src/main.c:502-511 | over any run the failure counter is the number of failed completions since the last success |
| CaptureTheorems.FiveFailuresStop | src/main.c:475-490 | five failed completions with no success between them mean that the recording is stopping |
| CaptureTheorems.StopHandsOffAtMostOne | src/main.c:1605-1608 | a stop hands off at most the one final buffer |
| CaptureTheorems.NothingAfterTheStop | src/main.c:670-674 | from the stop to the next claim no run hands off or records anything |
| CaptureTheorems.StopReasonIsTrue | src/chrono_ctx.h:41-58 | whichever event stops a recording leaves the reason that belongs to it: the limit reached, the device full, five failures, or the user; a retry stops none |
| CaptureTheorems.ReasonFollowsEvents | src/chrono_admin.c:570-579 | over any run from the stop to the next claim the reason is that of the last event that overwrites it: a user's stop, or a failed completion that is the fifth in a row or later |
| CaptureTheorems.ReasonSurvivesIff | src/main.c:475-490 | a count-limit or disk-full reason is still there after a run exactly if no such event came |
| CaptureTheorems.BuiltFrameIsOurs | src/main.c:676-692 | a frame from the builder for the capture port is recorded with its zero-padded payload |
| CaptureArrivals.RecordedIff | src/main.c:693-760 | whatever the device answers, a packet is recorded exactly if it finds room: in the current buffer, or in the next one when the current one is full and may be handed off |
| CaptureArrivals.OursIffCaptured | src/main.c:648-692 | a payload is the recording's exactly if no responder took the frame and it carries an IPv4 UDP datagram with that payload addressed to the capture port |
| CaptureArrivals.FrameCountsIff | src/main.c:648-692 | a frame is counted, as a record or as dropped, exactly if it carries such a datagram and the recording is on; any other frame changes nothing |
| CaptureArrivals.PacketStopsIff | src/main.c:722-799 | whatever the device answers, a packet stops the recording exactly if it is the record that reaches the count limit, or does not fit the buffer while no further chunk fits the device |
| CaptureArrivals.RunTook | src/main.c:640-803 | over any run, whatever arrives and whatever the device answers, the log grows by exactly the records of the packets that found room, in the order of arrival and numbered on, and every other packet taken in is counted as dropped |
| CaptureArrivals.RunOffered | src/main.c:640-803 | a run takes in, in order and from the first on, exactly the datagrams for the capture port among its frames, in terms of what the frames carry; all of them as long as the recording has not stopped |
| CaptureArrivals.EveryRecordWasCarried | src/main.c:764-788 | over any run, every record appended is the payload of a datagram for the capture port that some frame of the run carried, with the tsc of its burst |
| CaptureArrivals.NumberIsSendersIff | src/main.c:764-788 | the record of a packet carries its sender's number exactly if that is the number of packets recorded before it |
| CaptureArrivals.NumbersAgreeUntilDrop | src/main.c:764-788 | with a sender that counts from 0 the numbers agree exactly up to the first packet dropped |
| CaptureArrivals.NothingDropped | src/main.c:764-788 | if no packet was dropped, record k is packet k, for every k |
| CaptureFates.FatesFollowCompletions | src/main.c:492-516 | over any run, written are exactly the chunks whose write succeeded and lost exactly those whose write failed; records of the last buffer are dropped only if no further chunk fits the device; a stop reason comes only with a stop |
| CaptureFates.CompletionFreesBuffer | src/main.c:492-516 | whatever is reported and whatever the device answers to the stop it may cause, a completion frees exactly its own buffer, and touches of the others at most the current one and only if it stops the recording |
| CaptureFates.WholeRecordingStops | src/main.c:475-490 | from the claim on there is no stop reason before the stop, the failure counter is the streak of failed completions, and five in a row have stopped the recording |
| CaptureFates.HealthyDeviceLosesNothing | src/main.c:492-638 | from the claim on, a recording loses nothing if every write succeeded and another chunk still fits the device |
| CaptureLimits.RefusedRetryFinalizesTwiceIff | src/main.c:562-571 | whatever the device answers after refusing a retry, the finalize chain starts more than once exactly if this is the fifth failure, alone pending, and the stop it causes has nothing to flush or is refused too; it starts three times exactly in the latter case |
| CaptureLimits.RefusedHandOffFinalizesIff | src/main.c:562-618 | a refused hand-off finalizes, twice and before next_write_block has moved, exactly if it is the fifth failure and alone pending |
| CaptureLimits.RefusedFinalFlushFinalizesTwiceIff | src/main.c:1598-1614 | a stop of whatever origin, for every answer, finalizes twice exactly if there was something to flush, nothing else was pending and the write is refused |
| CaptureLimits.RefusedLimitStopFinalizesTwiceIff | src/main.c:790-799 | the same for the record that reaches the count limit: exactly if nothing was pending, there is room and the write is refused |
| CaptureLimits.CompletionFinalizesOnce | src/main.c:492-516 | a completion never starts the chain twice, whatever the device answers to the final flush it may cause |
| CaptureLimits.StopHazardIff | src/main.c:1598-1614 | what a caller can check before a stop to know that it meets no refusal, no second waiter and no repeated hand-off |
| CaptureLimits.WaitingTargetIsFixedIff | src/main.c:556-618 | a stop, also the one made inside a failing completion, leaves a waiting buffer's target alone, whatever the device answers, exactly unless that buffer is the current one and is flushed |
| CaptureLimits.StopKeepsInvIff | src/main.c:1598-1614 | a stop whose final write is taken, or queued while nothing waits, keeps the whole invariant exactly unless it hands the waiting buffer off again |
| CaptureLimits.RetargetedChunkIsAbandoned | src/main.c:556-618 | in that case, whatever the device answers then and later, no run writes the buffer's first chunk or anything else to its place |
| CaptureWitness.RefusedStopIsReachable | src/main.c:1598-1614 | a run from a claim that ends in the refused final flush and two finalizes |
| CaptureWitness.RefusedLimitStopIsReachable | src/main.c:790-799 | the same for the count limit |
| CaptureWitness.FiveRefusalsAreReachable | src/main.c:562-618 | a run after which the next refused hand-off finalizes twice, below the block it was given |
| CaptureWitness.RefusedRetryIsReachable | src/main.c:562-571 | a run after which a refused retry finalizes twice with one buffer, and three times with several if the next write is refused too |
| CaptureWitness.RetargetedIsReachable | src/main.c:556-618 | a run in which a stop hands a waiting buffer off again: it finalizes once, every completion succeeds, nothing counts as lost, and the first chunk's place is never written |
| Tuning.Clamp | src/main.c:249-252 | the clamped request lies within the bounds and is the request itself if that does |
| Tuning.RoundIsLeast | src/main.c:246-255 | the chunk size is the least multiple of the write unit at or above the clamped request |
| Tuning.RoundIsIdempotent | src/main.c:246-255 | rounding a rounded size changes nothing |
| Tuning.RoundStaysWithinIff | src/main.c:241-255 | every request stays within the bounds if and only if the write unit divides the maximum |
| Tuning.WithChunkKeepsConfig | src/main.c:1915-1926 | after a change buf_size_blocks times the block size is buf_size again |
| StoreInvariant.CrashSafeApart | src/record.h:107-118 | on a crash-safe disk no two finalized or deleted entries share a block, tombstones of open slots included, and all their blocks lie below the high-water mark |
| StoreInvariant.MarkDeletedDecodes | src/chrono_admin.c:515-518 | overwriting the state field changes the decoded state to DELETED and no other field |
| StoreSteps.CaptureKeeps | src/main.c:492-803 | a capture event, with its data write landing, keeps the system invariant |
| StoreSteps.ScribbleKeeps | src/main.c:552-555 | so does whatever an outstanding data write does to its range |
| StoreSteps.ClaimTocKeeps | src/main.c:1669-1696 | so does the TOC write of a claim, landed or not |
| StoreSteps.ClaimHeaderKeeps | src/main.c:1616-1667 | so does the header write of a claim: recording begins above everything finalized |
| StoreSteps.FinHeaderKeeps | src/main.c:1517-1574 | so does the header write of a finalize, landed or not |
| StoreSteps.FinTocKeeps | src/main.c:1488-1515 | so does the TOC write of a finalize: the new segment is apart from all others |
| StoreSteps.FmtZeroKeeps | src/main.c:1817-1870 | so does each piece of a format's zeroing, in any part |
| StoreSteps.FmtHeaderKeeps | src/main.c:1768-1812 | so does the header write of a format |
| StoreSteps.DeleteKeeps | src/chrono_admin.c:480-521 | so does a delete, also beside a recording |
| StoreSteps.EveryCrashPointIsSafe | src/main.c:423-426 | at any moment, with any part of the metadata write in flight landed, the disk alone satisfies what a restart relies on |
| StoreSteps.ReloadIsSound | src/main.c:2069-2098 | a restart from such a disk is a sound idle daemon |
| StoreSteps.DoKeeps | src/main.c:1488-1965 | every step of the daemon keeps the system invariant |
| StoreTheorems.RunKeepsSystem | src/main.c:1488-1965 | so does every run |
| StoreTheorems.FreshIsSound | src/main.c:1401-1452 | a daemon started on a freshly formatted device is sound |
| StoreTheorems.CrashSafetyOverRuns | src/record.h:107-118 | from a fresh device, after any run and at any crash point, no two finalized or deleted segments share a block, all their blocks lie below the high-water mark, everything ever finalized has its id below next_segment_id, and a restart accepts the header |
| StoreTheorems.DoSparesSealed | src/record.h:166-176 | no step but a format's changes a finalized segment's data or entry, other than to mark it deleted |
| StoreTheorems.RunSparesSealed | src/record.h:107-118 | nor does any run without a format, through claims, captures, finalizes and crashes |
| StoreTheorems.IntactReads | src/main.c:1134-1152 | a finalized segment dumps to its log whatever chunk size the reading process uses itself |
| StoreTheorems.FinalizedIsIntact | src/main.c:1517-1574 | when the finalize's TOC entry lands and nothing was lost, the segment on the disk is exactly the log |
| StoreTheorems.FinalEntryIsTrue | src/record.h:200-228 | the finalized entry tells the truth about the log: its length, the packets dropped, its first and last tsc, the blocks its chunks take, their size, and when it was claimed; for its end clock and tsc rate see StoreRequests.EntryTellsTheTime |
| StoreTheorems.CaptureToReadback | src/main.c:640-803 | from there on, over any run without a format, the dump is exactly the captured records in order numbered from 0, and the pages of any size concatenate to the same |
| StoreArrivals.RunIsCaptureRun | src/main.c:1488-1965 | while a segment is open, only capture events change the capture state, so the daemon's run is a run of the capture path |
| StoreArrivals.LogSinceClaim | src/main.c:640-803 | at any moment of a recording the log is the records of the packets offered since the claim that found room, in order, and the others are in the dropped count |
| StoreArrivals.RecordsSinceClaim | src/main.c:640-803 | every record of an open segment is the payload of a datagram for the capture port that came in since its claim |
| StoreArrivals.PacketsToReadback | src/main.c:640-1060 | after any recording that lost nothing on its way to the device, and any later run without a format, dump and pages give exactly one record for each datagram for the capture port that found room, in the order of arrival, with its payload and tsc; and each record is the payload of such a datagram that arrived |
| StoreArrivals.HealthyDeviceReadsBack | src/main.c:492-1060 | the same for every recording whose writes succeeded on a device that did not fill up: nothing but what the events show is assumed |
| StoreReachability.FreshCanRecord | src/main.c:2069-2098 | a daemon started on a freshly formatted device with room for a chunk is one that can record |
| StoreReachability.FreshDeviceRecords | src/main.c:640-803 | so from a fresh device a run reaches the premises of the round trip with the packet sent |
| StoreReachability.OnePacketCanBeRecorded | src/main.c:640-803 | from any idle daemon with a free slot and room for a chunk, one packet can be recorded and finalized without loss, so the premises of the round trip are met by a run |
| StoreOperations.DeleteChangesOneState | src/chrono_admin.c:490-539 | a delete changes one slot's state and nothing else on the disk, and never the slot being recorded |
| StoreOperations.DeleteKeepsReadback | src/chrono_admin.c:425-463 | every finalized segment, the deleted one included, dumps and pages as before |
| StoreOperations.DeleteIsIdempotent | src/chrono_admin.c:510-513 | deleting a deleted segment writes nothing |
| StoreOperations.RecordedSegmentIsNotDeleted | src/chrono_admin.c:528-532 | a delete of the segment being recorded is refused |
| StoreOperations.FormatCoversTocOnce | src/main.c:1839-1894 | a format ends after writing zeros over every TOC block exactly once, then the header once and last, and no data block |
| StoreOperations.HeaderWaitsForToc | src/main.c:1846-1849 | the header is reset only when the whole TOC on the disk is zero |
| StoreOperations.FormatStep | src/main.c:1768-1837 | the live volume changes only once the new header is durable; until then block 0 and the data area are untouched |
| StoreOperations.BusyKeepsConfig | src/chrono_admin.c:602-642 | from the claim to the end of the finalize no request changes the configuration |
| StoreOperations.ChunkSizeIsConsistent | src/chrono_admin.c:602-628 | whatever tuning requests come meanwhile, the open segment's entry records the chunk size in use and cur_buf stays below write_buf_count |
| StoreOperations.FinalChunkSize | src/main.c:1535-1563 | the finalized entry, rebuilt from scratch, has the chunk size, start block and start time of the claim |
| StoreRequests.StartRequest | src/chrono_admin.c:545-568 | a start while recording changes nothing; any other sets the port and the limit that were given, keeps the ones omitted and every other setting, and claims exactly if a port is known and the TOC is not full: the next slot, from the high-water mark on, with an open entry under way that says so and has the time of the request |
| StoreRequests.ClaimEntryCompletes | src/main.c:1669-1696 | a claim's entry write ends the claim if it failed; otherwise next_segment_id rises by one and a header with it is under way |
| StoreRequests.ClaimHeaderCompletes | src/main.c:1616-1667 | a claim's header write ends the claim if it failed; otherwise the recording is on, every count and the reason reset, all 32 buffers empty, the first chunk at the segment's start |
| StoreRequests.FinalizeStarts | src/main.c:1576-1592 | a capture event touches nothing but the capture state, except that the one that finalizes puts a header under way whose high-water mark lies behind the last chunk |
| StoreRequests.FinalEntryGoesOut | src/main.c:1517-1574 | whatever is reported of a finalize's header write, the entry that goes out next has the segment's id, state 2, place, length, chunk size, counts, time stamps, the claim's clock, and the tsc rate and clock of this moment |
| StoreRequests.FinalEntryCompletes | src/main.c:1488-1515 | whatever is reported of that entry's write, the recording is over and nothing else changes |
| StoreRequests.EntryTellsTheTime | src/main.c:1517-1743 | over any run from an accepted start to the landing of the final entry, the entry in the claimed slot has the start request's clock as its start, and the clock and tsc rate of the finalize as its end and rate |
| StoreRequests.IdleStopRequest | src/chrono_admin.c:570-576 | a stop with no segment open changes nothing |
| StoreRequests.FormatRequest | src/main.c:1872-1894 | a format is refused while recording; otherwise a fresh volume with the time of the request is staged and zeros go to block 1 first |
| StoreRequests.FormatEnds | src/main.c:1768-1837 | a format that fails leaves the daemon as it was; one that succeeds resets ids, high-water mark, place and counts and nothing else |
| StoreRequests.DeleteRequest | src/chrono_admin.c:523-539 | a delete of the segment being recorded is refused, any other reads its slot first |
| StoreRequests.DeleteReads | src/chrono_admin.c:490-521 | a failed read, a free slot and a deleted one end it with nothing written; any other entry goes out again with state 3 and every other byte as read |
| StoreRequests.BuffersRequest | src/main.c:1903-1913 | the number of buffers is refused while busy and outside 1 to 32, and otherwise the one setting that changes |
| StoreRequests.WireSeqRequest | src/main.c:1928-1934 | the packet format is refused while busy, and otherwise the one setting that changes |
| StoreRequests.ChunkRequest | src/main.c:1915-1926 | the chunk size is refused while busy and outside 4096 bytes to 2 MiB, and otherwise becomes the least number of whole write units that holds the request; nothing else changes |
| StoreRequests.Restarts | src/main.c:2069-2098 | after a crash the daemon knows its command line and what block 0 says, and nothing is under way |
| StoreRequests.HazardIff | src/main.c:518-572 | when exactly a step meets one of the circumstances that the theorems about runs exclude |
| StoreRequests.LagIff | src/main.c:1527-1530 | the header lags exactly from a finalize's header write that did not reach the device to the next header write that does |
| StoreLimits.FinalizeIsSafeIff | src/main.c:1517-1574 | whatever is reported of a finalize's header write and whatever has landed of its two writes, the disk is safe for a restart exactly if the segment holds no data, the header has landed or the entry has not |
| StoreLimits.NextSegmentAfterFinalize | src/main.c:1527-1561 | a daemon restarted from that disk places its next segment behind the finalized one exactly if the header has landed, otherwise on top of it |
| StoreLimits.DeleteKeepsIdsBelowIff | src/chrono_admin.c:515-518 | a delete keeps all finalized and deleted ids below next_segment_id exactly if the slot's own id was |
| StoreLimits.TombstoneIsEmpty | src/record.h:93-104 | an open slot that is deleted reads as deleted, with no blocks and no records, and does not pass for a segment that was finalized |
| StoreLimits.TombstoneRun | src/main.c:1616-1628 | the run that breaks that invariant: claim, lose the header write, delete the open slot |
| StoreSlots.UsedSlotsAreFirst | src/record.h:152-158 | over every run without a format, crashes included, the slots that hold an entry are the first ones, as many as the claims' entries that have landed |
| StoreSlots.ClaimTakesUsedIff | src/main.c:1701-1743 | a claim takes the next slot, which already holds an entry exactly if an earlier claim's entry has landed there |
| StoreSlots.ClaimedSlotIsReusedIff | src/record.h:152-158 | from a fresh device, at every crash point of every run without a format, the restarted daemon's first claim takes a slot that holds an entry exactly if block 0 lags behind the claims' entries that have landed, and never a finalized one |
| StoreSlots.FirstCrashReusesIff | src/record.h:152-158 | at the first crash that is so exactly if a claim's entry has just landed without its header, or the latest claim's header write has failed and no header write since has landed |
| StoreSlots.HalfClaimIsReused | src/main.c:1616-1628 | a run in which an idle daemon crashes and claims the same slot again |
| StoreOverlap.NextSegmentOverlaps | src/main.c:562-618 | after a refused hand-off that is the fifth failure, alone pending, the finalized entry reaches a chunk past the high-water mark and the next segment starts inside it |
| AdminBridge.AdminRequest.constructor | src/chrono_admin.c:89-109 | the slot starts free |
| AdminBridge.AdminRequest.TryAccept | src/chrono_admin.c:135-147 | a call is accepted exactly if the slot is free, and a refused one leaves it alone |
| AdminBridge.AdminRequest.Settle | src/chrono_admin.c:154-164 | an unanswered slot is given up and stays busy; an answered one is freed |
| AdminBridge.AdminRequest.Fulfill | src/chrono_admin.c:111-127 | an answer to a slot given up frees it; otherwise it marks the call done |
| AdminBridge.StepKeepsConsistent | src/chrono_admin.c:111-165 | every critical section of either thread keeps slot, web thread and the one outstanding request consistent |
| AdminBridge.BridgeIsHonest | src/chrono_admin.c:111-165 | that holds in every interleaving, timeouts included |
| AdminBridge.HonestFromStart | src/chrono_admin.c:129-165 | from the start, a call that returns 0 carries its own request's rc, and at most one dispatch is outstanding |
| AdminBridge.SlotRecovers | src/chrono_admin.c:117-122 | between calls the slot is busy exactly while a late handler is still running |
| AdminBridge.CallReturns | src/chrono_admin.c:129-165 | a call is refused exactly while an earlier call's handler still runs, gives up exactly if its own request is unanswered when the wait ends, and otherwise returns its own request's answer |
| AdminBridge.ForeignHarmlessIff | src/main.c:1508-1514 | a fulfil no request asked for is harmless exactly while no call owns the slot or reads from it |
| AdminBridge.ForeignAnswersTheCall | src/main.c:1508-1514 | otherwise it ends the waiting call with a return code of its own |
| AdminLedger.StepBalances | src/main.c:1508-1934 | each step of the daemon answers exactly the request it owes or accepts, and the only answer owed to nobody is the end of a finalize no request asked for |
| AdminLedger.EveryRequestIsAnsweredOnce | src/chrono_admin.c:653-699 | over every run each accepted request is answered exactly once or is the one still owed, and the other answers are as many as the self-started finalizes |
| AdminLedger.HandlersKeepTheBridge | src/chrono_admin.c:111-127 | every step of the daemon is a possible move of the bridge, ends exactly its running request, and disturbs it exactly at the end of a self-started finalize |
| AdminLedger.StartAnswers | src/chrono_admin.c:545-568 | a start is answered -EALREADY exactly while recording, -EINVAL exactly without a port, -ENOSPC exactly with a full TOC, and is owed an answer exactly if its claim has begun |
| AdminLedger.CompletionAnswers | src/main.c:1488-1837 | a completion answers exactly if it leaves no write under way, 0 for a successful one and -EIO for a failed one |
| AdminLedger.DeleteAnswers | src/chrono_admin.c:523-539 | a delete is answered at once exactly for the segment being recorded, with -EBUSY |
| AdminLedger.DeleteReadAnswers | src/chrono_admin.c:490-521 | after the read: -EIO if it failed, -ENOENT for a free slot, 0 for one already deleted, otherwise nothing yet |
| AdminLedger.StopAnswers | src/chrono_admin.c:570-579 | a stop is answered at once exactly with no segment open, with -EALREADY |
| AdminLedger.FormatAnswers | src/chrono_admin.c:586-594 | a format is answered at once exactly while recording, with -EBUSY |
| AdminLedger.SettingAnswers | src/chrono_admin.c:602-642 | a setting is answered at once: -EBUSY while busy, else -EINVAL out of range, else 0 |
| AdminService.ZeroIsTrue | src/chrono_admin.c:490-642 | when the daemon answers 0, a start is recording in the next slot with the options given and every other setting as when it was accepted, a stop has left its segment FINALIZED on the disk, a delete its slot DELETED, a format an empty TOC under a fresh header, and a setting is in force with every other one unchanged |
| AdminService.ZeroIff | src/chrono_admin.c:490-642 | what succeeds is answered 0: a start exactly if the recording asked for has begun, a stop, format and delete exactly if their last write was reported successful or nothing was left to delete, a setting exactly if it was free to change and in range |
| AdminService.RunKeepsService | src/chrono_admin.c:111-165 | in every interleaving of web thread and daemon the bridge, what the daemon owes and what each request asked for agree; that a request comes only when none is owed follows |
| AdminService.ZeroMeansDone | src/chrono_admin.c:129-165 | so a call that returns 0 was answered for its own request, at a moment when the daemon had done what it asks for, measured against its state when it accepted it |
| AdminService.NothingIsOwed | src/chrono_admin.c:117-122 | with nothing outstanding in the bridge the daemon owes nothing |
| AdminService.OneCall | src/chrono_admin.c:129-165 | a run in which a call is posted, accepted, answered with 0 and read |
| WriteBuffers.WriteBuf.constructor | src/main.c:2026-2033 | a buffer starts zeroed and empty |
| WriteBuffers.WriteBuf.PadTo | src/main.c:605-612 | zeroes exactly the bytes from `used` to the chunk size |
| WriteBuffers.WriteBuf.AppendRecord | src/main.c:768-786 | puts the encoded record behind what is there and touches no other byte |
| Context.AppContext.constructor | src/main.c:2019-2098 | 32 separate zeroed buffers, and the rest of the state rebuilt from block 0 |
| Context.AppContext.FinalizeSegment | src/main.c:1576-1592 | the high-water mark moves and the header write starts, as the state machine does |
| Context.AppContext.RetryFlush | src/main.c:518-572 | in place, does what the state machine's retry does, with the finalizes it may cause |
| Context.AppContext.FlushBuffer | src/main.c:578-638 | in place, does what the state machine's hand-off does |
| Context.AppContext.NoteWriteFailure | src/main.c:475-490 | in place, does what the state machine's breaker does |
| Context.AppContext.StopRecording | src/main.c:1598-1614 | in place, does what the state machine's stop does |
| Context.AppContext.WriteComplete | src/main.c:492-516 | in place, does what the state machine's completion does |
| Context.AppContext.RetryFires | src/main.c:557-561 | in place, does what the state machine's late retry does |
| Context.AppContext.StopRequest | src/chrono_admin.c:570-579 | in place, does what the state machine's stop request does |
| Context.AppContext.CaptureOurs | src/main.c:693-799 | in place, does what the state machine does with a packet, and leaves the burst exactly when it does |
| Context.AppContext.CaptureFrame | src/main.c:648-692 | in place, does what the state machine does with a frame; FrameCountsIff and OursIffCaptured say which frames that concerns |
| Context.AppContext.CapturePoll | src/main.c:640-803 | the burst loop, left early by a stop, does what the state machine does with the whole burst |
| Context.AppContext.RecordingStart | src/chrono_admin.c:545-568 | in place, does what the state machine's start request does, refusals included; StartRequest says what that is |
| Context.AppContext.ClaimSegmentStart | src/main.c:1701-1743 | the open entry goes to the slot of the next id, or nothing changes if the TOC is full |
| Context.AppContext.ClaimTocWriteComplete | src/main.c:1669-1696 | in place, does what the state machine's first claim completion does |
| Context.AppContext.ResetBuffers | src/main.c:1640-1643 | the loop empties all 32 buffers and keeps their bytes |
| Context.AppContext.ClaimHeaderWriteComplete | src/main.c:1616-1667 | in place, does what the state machine's second claim completion does |
| Context.AppContext.FinalizeHeaderWriteComplete | src/main.c:1517-1574 | in place, does what the state machine's first finalize completion does; FinalEntryGoesOut says what it writes |
| Context.AppContext.FinalizeTocWriteComplete | src/main.c:1488-1515 | in place, does what the state machine's second finalize completion does |
| Context.AppContext.ZeroTocChunk | src/main.c:1839-1870 | in place, issues the state machine's next piece of zeroing or the header write |
| Context.AppContext.QuickFormat | src/main.c:1872-1894 | in place, does what the state machine's format request does |
| Context.AppContext.ZeroTocChunkWriteComplete | src/main.c:1817-1837 | in place, does what the state machine's zeroing completion does |
| Context.AppContext.FormatHeaderWriteComplete | src/main.c:1768-1795 | in place, does what the state machine's format completion does |
| Context.AppContext.SegmentDelete | src/chrono_admin.c:523-539 | in place, does what the state machine's delete request does |
| Context.AppContext.DeleteReadComplete | src/chrono_admin.c:490-521 | in place, does what the state machine's delete does, overwriting the entry in `io_buf` |
| Context.AppContext.SetWriteChunk | src/main.c:1915-1926 | in place, does what the state machine's chunk size request does, refusals included |
| Context.AppContext.SetWriteBuffers | src/main.c:1903-1913 | in place, does what the state machine's buffer count request does, refusals included |
| Context.AppContext.SetWireHasSeq | src/main.c:1928-1934 | in place, does what the state machine's packet format request does |
| Context.AppContext.Handle | src/main.c:492-803 | whatever event the capture path gets, the object does exactly what the state machine does |
| Context.AppContext.MetaWriteComplete | src/main.c:1488-1894 | and so for the completion of any metadata write |
| Context.RoundUp | src/main.c:246-255 | the branches of the rounding give the least multiple characterized above |
| Context.OverwriteState | src/chrono_admin.c:515 | exactly the state field of the block changes |

## Left out

- PacketBuilder.BuildPacket: excludes one case, a 32-bit sum of header and payload lengths that wraps around and then passes the size check; the source would copy past its buffer there.
- PacketBuilder.ComputeUdpChecksum: takes the segment length as a 32-bit value, as the source does; the checksum is proved valid for lengths that fit the 16-bit field.
- CaptureTheorems.ReasonSurvivesIff: is about runs in which no data write is refused outright; a refusal also counts as a failure.
- SegmentReader.Reader.DumpSegment: if records are to be read and the first chunk can be, that chunk must fit `io_buf`; the source does not check it, and the read would overflow.
- SegmentReader.Reader.PageSegment: the same as the dump.
- AdminLedger.EveryRequestIsAnsweredOnce: leaves out the two read requests (segments list, segment records) and the local IP setter, which do not change the daemon's state, and runs with a signal or a crash, after which nobody waits.
- AdminService.ZeroMeansDone: the same, and it assumes like HonestFromStart that a finalize nobody asked for does not end while a call owns the slot.
- AdminLedger.StepBalances: a write that cannot be submitted counts as one that failed, with -EIO for its return code.
- AdminBridge.HonestFromStart: assumes that fulfils no request asked for come only while the slot is idle; ForeignHarmlessIff shows that this is needed.
- StoreTheorems.CrashSafetyOverRuns: holds for runs without a crash between a finalize whose header has not reached the device and the next header that does; FinalizeIsSafeIff says what is lost there.
- StoreOverlap.NextSegmentOverlaps: follows one finalize chain; the second one that starts at the same moment would write the same entry again.
- StoreSlots.ClaimedSlotIsReusedIff: is about runs without a format, which empties the slots.
- StoreOperations.FormatStep: a segment finalized before a format is gone after it, as intended, so RunSparesSealed is about runs without one.
- Context.AppContext.Handle: the device's answers are parameters of the event, and the bookkeeping of the log travels in ghost state.
- The command-line capture chain (`begin_shutdown`, `claim_segment_start`, `finalize_segment_and_stop`) and `--init`: the same shape as the daemon's; only the result of `--init` is modelled, as the fresh device.
- The race of an admin TOC request with a finalize that the daemon starts itself: both use `io_buf`; runs in which they meet are excluded.
- Shutdown by a signal after the stop it causes: the process ends instead of answering.
- The segments list, response texts (JSON, hexadecimal payloads, wall-clock and relative times) and the 1 MB response buffer: a page is modelled as a sequence of records.
- `--repair-chunk-bytes`, the superblock of format version 1, the counters and mirror atomics that are only displayed.
- ARP and ping replies (`src/net_responder.c`): a frame they take is an input of the model.
- NIC and device bring-up, memory allocation, mbuf handling and option parsing: calls into other libraries.
- Packets of a burst behind the one that stops the recording: they are not taken in and not counted, as in the source.
- Request parameters that the web thread overwrites before the busy check: fixed for the life of a request.
