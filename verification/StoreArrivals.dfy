/** From the network to the reader: what a recording takes in is what its
    finalized segment reads back. */
module StoreArrivals {
  import opened Bytes
  import opened Record
  import opened Device
  import opened Readers
  import opened Capture
  import opened CaptureInvariant
  import opened CaptureRuns
  import opened CaptureArrivals
  import opened CaptureFates
  import opened SegmentData
  import opened Tuning
  import opened Store
  import opened StoreInvariant
  import opened StoreSteps
  import opened StoreTheorems

  /** A run during all of which a segment is open. */
  ghost predicate StaysRecording(y: Sys, ts: seq<Step>)
    requires IsRun(y, ts)
    decreases |ts|
  {
    y.m.cap.recording && (ts == [] || StaysRecording(Do(y, ts[0]), ts[1..]))
  }

  /** The capture path's share of a run. */
  function CaptureEvents(ts: seq<Step>): seq<Event> {
    if ts == [] then []
    else (match ts[0]
          case Capture(e) => [e]
          case _ => []) + CaptureEvents(ts[1..])
  }

  lemma RecordingShape(y: Sys)
    requires SysInv(y) && y.m.cap.recording
    ensures Shape(y.m.cap)
  {
    assert Inv(y.m.cap);
  }

  /** While a segment is open, only capture events change the capture state. */
  lemma OnlyEventsCapture(y: Sys, t: Step)
    requires SysInv(y) && Possible(y, t) && y.m.cap.recording && Do(y, t).m.cap.recording
    ensures match t
            case Capture(e) => Shape(y.m.cap) && Enabled(y.m.cap, e) && Do(y, t).m.cap == Next(y.m.cap, e)
            case _ => Do(y, t).m.cap == y.m.cap
  {
    hide OnDisk;
    hide Slot;
    hide DecodeVolume;
    hide VolumeBlock;
    hide EntryBlock;
    hide RoundWriteChunk;
    hide MarkDeleted;
    hide Inv;
    hide Shape;
    hide Next;
  }

  /** So the daemon's run is a run of the capture path. */
  lemma {:induction false} RunIsCaptureRun(y: Sys, ts: seq<Step>)
    requires SysInv(y) && IsRun(y, ts) && NoHazard(After(y, ts).f) && StaysRecording(y, ts)
    ensures Shape(y.m.cap) && Run(y.m.cap, CaptureEvents(ts)) == Some(After(y, ts).m.cap)
    decreases |ts|
  {
    RecordingShape(y);
    hide SysInv;
    hide Possible;
    hide Do;
    hide NoHazard;
    hide Shape;
    hide Next;
    if ts != [] {
      var y1 := Do(y, ts[0]);
      FlagsStickInRun(y1, ts[1..]);
      DoKeeps(y, ts[0]);
      OnlyEventsCapture(y, ts[0]);
      RunIsCaptureRun(y1, ts[1..]);
      if ts[0].Capture? {
        assert CaptureEvents(ts)[1..] == CaptureEvents(ts[1..]);
      } else {
        assert CaptureEvents(ts) == CaptureEvents(ts[1..]);
      }
    }
  }

  lemma BeginEmpty(c: Cap)
    requires Allocated(c)
    ensures var s := BeginSegment(c); s.recordCount == 0 && s.dropped == 0 && s.h.log == []
  {
  }

  /** A run from the claim of a segment on, while it is open. */
  ghost predicate SinceClaim(c: Cap, y: Sys, ts: seq<Step>) {
    && Allocated(c) && y.m.cap == BeginSegment(c)
    && SysInv(y) && IsRun(y, ts) && NoHazard(After(y, ts).f) && StaysRecording(y, ts)
  }

  /** The packets it takes in. */
  ghost function TakenIn(c: Cap, y: Sys, ts: seq<Step>): seq<Arrival>
    requires SinceClaim(c, y, ts)
  {
    RunIsCaptureRun(y, ts);
    RunArrivals(y.m.cap, CaptureEvents(ts))
  }

  /** What a recording has logged since its claim. */
  lemma LogSinceClaim(c: Cap, y: Sys, ts: seq<Step>)
    requires SinceClaim(c, y, ts)
    ensures var xs := TakenIn(c, y, ts);
            var z := After(y, ts).m.cap;
            && z.h.log == Records(0, xs) && z.dropped == |xs| - KeptCount(xs)
            && PickedFrom(y.m.cap.cfg, CaptureEvents(ts), Offered(y.m.cap.cfg, CaptureEvents(ts)))
            && Offers(xs) <= Offered(y.m.cap.cfg, CaptureEvents(ts))
            && (!z.stopping ==> Offers(xs) == Offered(y.m.cap.cfg, CaptureEvents(ts)))
  {
    RunIsCaptureRun(y, ts);
    BeginEmpty(c);
    assert y.m.cap.recording;
    hide SysInv;
    hide Shape;
    hide BeginSegment;
    hide Run;
    hide PickedFrom;
    RunTook(y.m.cap, CaptureEvents(ts));
    RunOffered(y.m.cap, CaptureEvents(ts));
  }

  /** Each of its records is the payload of a datagram for the capture port that came
      in since the claim. */
  lemma RecordsSinceClaim(c: Cap, y: Sys, ts: seq<Step>, k: nat)
    requires SinceClaim(c, y, ts) && k < |After(y, ts).m.cap.h.log|
    ensures WasCarried(y.m.cap.cfg, CaptureEvents(ts), After(y, ts).m.cap.h.log[k])
  {
    RunIsCaptureRun(y, ts);
    BeginEmpty(c);
    hide SysInv;
    hide Shape;
    hide BeginSegment;
    hide Run;
    hide WasCarried;
    EveryRecordWasCarried(y.m.cap, CaptureEvents(ts), k);
  }

  /** The segment's final entry lands, and the daemon runs on without a format. */
  ghost predicate GoesOn(z: Sys, ok: bool, mask: set<nat>, now: Clock, us: seq<Step>) {
    && Possible(z, MetaDone(ok, mask, now)) && 0 in mask
    && z.m.meta.Some? && z.m.meta.value.cb.FinToc?
    && IsRun(Do(z, MetaDone(ok, mask, now)), us)
    && NoHazard(After(Do(z, MetaDone(ok, mask, now)), us).f)
    && forall k :: 0 <= k < |us| ==> !us[k].FormatStart?
  }

  ghost function DiskThen(z: Sys, ok: bool, mask: set<nat>, now: Clock, us: seq<Step>): Disk
    requires GoesOn(z, ok, mask, now, us)
  {
    After(Do(z, MetaDone(ok, mask, now)), us).d
  }

  /** From disk `d`, the dump and the pages of any size give one record for each
      datagram for the capture port that was offered before the stop and found room,
      in the order of arrival, with its payload and tsc, numbered from 0; every other
      such datagram is in the dropped count. */
  ghost predicate ReadsBack(c: Cap, y: Sys, ts: seq<Step>, d: Disk, bufSize: nat, limit: nat)
    requires SinceClaim(c, y, ts)
  {
    var z := After(y, ts);
    var xs := TakenIn(c, y, ts);
    var offered := Offered(y.m.cap.cfg, CaptureEvents(ts));
    && PickedFrom(y.m.cap.cfg, CaptureEvents(ts), offered) && Offers(xs) <= offered
    && z.m.cap.dropped == |xs| - KeptCount(xs)
    && DumpSegment(d, z.m.cap.cfg.bs, z.m.segId, bufSize) == Dumped(Dump(Records(0, xs), true))
    && PageSegment(d, z.m.cap.cfg.bs, z.m.segId, bufSize, 0, limit).Page?
    && AllPages(d, z.m.cap.cfg.bs, z.m.segId, bufSize, 0, limit) == Records(0, xs)
  }

  /** Packets in, records out. Take any run of the daemon from a claim to the end
      of that segment's finalize, with nothing lost on the way to the device; let
      the TOC entry land and the daemon run on without a format, crashes and the
      segment's deletion included. Then the segment reads back what came in, and each
      record is the payload of a datagram for the capture port that arrived. */
  lemma PacketsToReadback(c: Cap, y: Sys, ts: seq<Step>, ok: bool, mask: set<nat>, now: Clock,
                          us: seq<Step>, bufSize: nat, limit: nat)
    requires SinceClaim(c, y, ts) && Lossless(After(y, ts).m.cap.h)
    requires GoesOn(After(y, ts), ok, mask, now, us)
    ensures ReadsBack(c, y, ts, DiskThen(After(y, ts), ok, mask, now, us), bufSize, limit)
    ensures forall k :: 0 <= k < |Records(0, TakenIn(c, y, ts))| ==>
              WasCarried(y.m.cap.cfg, CaptureEvents(ts), Records(0, TakenIn(c, y, ts))[k])
  {
    hide SinceClaim;
    hide GoesOn;
    hide TakenIn;
    hide ReadsBack;
    hide WasCarried;
    hide Lossless;
    hide DiskThen;
    ReadbackOf(c, y, ts, ok, mask, now, us, bufSize, limit);
    AllWereCarried(c, y, ts);
  }

  lemma AllWereCarried(c: Cap, y: Sys, ts: seq<Step>)
    requires SinceClaim(c, y, ts)
    ensures forall k :: 0 <= k < |Records(0, TakenIn(c, y, ts))| ==>
              WasCarried(y.m.cap.cfg, CaptureEvents(ts), Records(0, TakenIn(c, y, ts))[k])
  {
    hide IsRun;
    hide After;
    hide StaysRecording;
    hide SysInv;
    hide BeginSegment;
    hide NoHazard;
    hide TakenIn;
    hide WasCarried;
    hide PickedFrom;
    LogSinceClaim(c, y, ts);
    var log := After(y, ts).m.cap.h.log;
    forall k | 0 <= k < |log| ensures WasCarried(y.m.cap.cfg, CaptureEvents(ts), log[k]) {
      RecordsSinceClaim(c, y, ts, k);
    }
  }

  lemma ReadbackOf(c: Cap, y: Sys, ts: seq<Step>, ok: bool, mask: set<nat>, now: Clock,
                   us: seq<Step>, bufSize: nat, limit: nat)
    requires SinceClaim(c, y, ts) && Lossless(After(y, ts).m.cap.h)
    requires GoesOn(After(y, ts), ok, mask, now, us)
    ensures ReadsBack(c, y, ts, DiskThen(After(y, ts), ok, mask, now, us), bufSize, limit)
  {
    hide IsRun;
    hide After;
    hide StaysRecording;
    hide SysInv;
    hide Possible;
    hide Do;
    hide BeginSegment;
    hide NoHazard;
    hide Lossless;
    hide DumpSegment;
    hide PageSegment;
    hide AllPages;
    hide TakenIn;
    hide PickedFrom;
    LogSinceClaim(c, y, ts);
    RunKeepsSystem(y, ts);
    CaptureToReadback(After(y, ts), ok, mask, now, us, bufSize, limit);
  }

  // ---- on a device that works ----

  /** No write of the run failed, and there is room for another chunk at its end. */
  ghost predicate Healthy(c: Cap, y: Sys, ts: seq<Step>)
    requires SinceClaim(c, y, ts)
  {
    && (forall k :: 0 <= k < |ts| && ts[k].Capture? && ts[k].e.Complete? ==> ts[k].e.ok)
    && var z := After(y, ts).m.cap; z.next + z.cfg.bufBlocks <= z.cfg.numBlocks
  }

  lemma {:induction false} HealthyEvents(ts: seq<Step>)
    requires forall k :: 0 <= k < |ts| && ts[k].Capture? && ts[k].e.Complete? ==> ts[k].e.ok
    ensures ChunksDone(CaptureEvents(ts), false) == {}
    decreases |ts|
  {
    if ts != [] {
      assert forall k :: 0 <= k < |ts[1..]| ==> ts[1..][k] == ts[k + 1];
      HealthyEvents(ts[1..]);
      if ts[0].Capture? {
        assert CaptureEvents(ts)[1..] == CaptureEvents(ts[1..]);
      } else {
        assert CaptureEvents(ts) == CaptureEvents(ts[1..]);
      }
    }
  }

  lemma BeginPlain(c: Cap, y: Sys)
    requires Allocated(c) && y.m.cap == BeginSegment(c) && SysInv(y)
    ensures Inv(y.m.cap) && TailOk(y.m.cap) && y.m.cap.h.lost == {}
  {
    assert y.m.cap.recording;
    assert Inv(y.m.cap);
    hide SysInv;
    hide Inv;
  }

  /** Then the recording has lost nothing. */
  lemma HealthyIsLossless(c: Cap, y: Sys, ts: seq<Step>)
    requires SinceClaim(c, y, ts) && Healthy(c, y, ts) && After(y, ts).m.cap.recording
    ensures Lossless(After(y, ts).m.cap.h)
  {
    RunIsCaptureRun(y, ts);
    BeginPlain(c, y);
    RunKeepsSystem(y, ts);
    NoCaptureHazard(After(y, ts));
    HealthyEvents(ts);
    hide SysInv;
    hide Inv;
    hide BeginSegment;
    hide Run;
    hide Shape;
    FatesFollowCompletions(y.m.cap, CaptureEvents(ts));
  }

  lemma NoCaptureHazard(y: Sys)
    requires SysInv(y) && y.m.cap.recording
    ensures !Hazard(y.m.cap.h)
  {
  }

  /** So on a device whose writes succeed and that does not fill up, what was sent to
      the capture port and found a buffer is what the readers give back. */
  lemma HealthyDeviceReadsBack(c: Cap, y: Sys, ts: seq<Step>, ok: bool, mask: set<nat>, now: Clock,
                               us: seq<Step>, bufSize: nat, limit: nat)
    requires SinceClaim(c, y, ts) && Healthy(c, y, ts) && GoesOn(After(y, ts), ok, mask, now, us)
    ensures ReadsBack(c, y, ts, DiskThen(After(y, ts), ok, mask, now, us), bufSize, limit)
  {
    EndsRecording(c, y, ts);
    hide SinceClaim;
    hide Healthy;
    hide GoesOn;
    hide TakenIn;
    hide ReadsBack;
    hide DiskThen;
    hide Lossless;
    HealthyIsLossless(c, y, ts);
    ReadbackOf(c, y, ts, ok, mask, now, us, bufSize, limit);
  }

  lemma EndsRecording(c: Cap, y: Sys, ts: seq<Step>)
    requires SinceClaim(c, y, ts)
    ensures After(y, ts).m.cap.recording
  {
    hide SysInv;
    hide BeginSegment;
    hide NoHazard;
    hide Possible;
    hide Do;
    StaysOpen(y, ts);
  }

  lemma {:induction false} StaysOpen(y: Sys, ts: seq<Step>)
    requires IsRun(y, ts) && StaysRecording(y, ts)
    ensures After(y, ts).m.cap.recording
    decreases |ts|
  {
    hide Possible;
    hide Do;
    if ts != [] {
      StaysOpen(Do(y, ts[0]), ts[1..]);
    }
  }
}
