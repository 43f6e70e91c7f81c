/** Which TOC slots hold an entry, and when a claim takes one that does. */
module StoreSlots {
  import opened Bytes
  import opened Record
  import opened Device
  import opened Capture
  import opened CaptureInvariant
  import opened CaptureRuns
  import opened Tuning
  import opened Store
  import opened StoreInvariant
  import opened StoreSteps
  import opened StoreTheorems
  import opened StoreLimits

  // ---- the slots in use are the first ones ----

  /** The slot holds an entry: of an open, a finalized or a deleted segment. */
  predicate Used(d: Disk, j: nat) {
    j < TOC_SLOT_COUNT && Classify(Slot(d, j)) != NotFound
  }

  ghost predicate UsedBelow(d: Disk, n: nat) {
    n <= TOC_SLOT_COUNT && forall j: nat :: j < TOC_SLOT_COUNT ==> (Used(d, j) <==> j < n)
  }

  /** The slots in use once some of the metadata write in flight has landed: one
      more if it is a claim's entry in a slot that was free. */
  function TopLanded(m: Daemon, mask: set<nat>, n: nat): nat {
    if m.meta.Some? && m.meta.value.cb.ClaimToc? && 0 in mask && m.segId >= n then m.segId + 1 else n
  }

  function TopAfter(y: Sys, t: Step, n: nat): nat {
    match t
    case MetaDone(_, mask, _) => TopLanded(y.m, mask, n)
    case Crash(mask, _) => TopLanded(y.m, mask, n)
    case _ => n
  }

  /** How many slots hold an entry after a run, counted from the claims' entry
      writes that have landed. */
  ghost function TopOf(y: Sys, ts: seq<Step>, n: nat): nat
    requires IsRun(y, ts)
    decreases |ts|
  {
    if ts == [] then n else TopOf(Do(y, ts[0]), ts[1..], TopAfter(y, ts[0], n))
  }

  ghost predicate SlotsOk(y: Sys, n: nat) {
    UsedBelow(y.d, n) && y.m.nextSeg <= n
  }

  lemma SameSlotsUsed(d: Disk, d': Disk, n: nat)
    requires UsedBelow(d, n) && forall j: nat :: j < TOC_SLOT_COUNT ==> Slot(d', j) == Slot(d, j)
    ensures UsedBelow(d', n)
  {
    hide Slot;
    assert forall j: nat :: j < TOC_SLOT_COUNT ==> (Used(d', j) <==> Used(d, j));
  }

  /** One slot is rewritten with an entry: a used one, or the first free one. */
  lemma OneSlotUsed(d: Disk, d': Disk, k: nat, n: nat)
    requires UsedBelow(d, n) && k <= n && k < TOC_SLOT_COUNT && Used(d', k)
    requires forall j: nat :: j < TOC_SLOT_COUNT && j != k ==> Slot(d', j) == Slot(d, j)
    ensures UsedBelow(d', if k >= n then k + 1 else n)
  {
    hide Slot;
    assert forall j: nat :: j < TOC_SLOT_COUNT && j != k ==> (Used(d', j) <==> Used(d, j));
  }

  lemma ClaimLands(y: Sys, mask: set<nat>, n: nat)
    requires SysInv(y) && SlotsOk(y, n) && y.m.meta.Some? && y.m.meta.value.cb.ClaimToc?
    ensures UsedBelow(Landing(y, mask).d, TopLanded(y.m, mask, n))
    ensures y.m.segId == y.m.nextSeg
  {
    ClaimTocDisk(y, mask);
    assert y.m.segId == y.m.nextSeg < TOC_SLOT_COUNT;
    hide SysInv;
    hide Slot;
    hide Landing;
    if 0 in mask {
      OneSlotUsed(y.d, Landing(y, mask).d, y.m.segId, n);
    }
  }

  lemma EntryLandsUsed(y: Sys, mask: set<nat>, n: nat)
    requires SysInv(y) && SlotsOk(y, n) && y.m.meta.Some? && y.m.meta.value.cb.FinToc?
    ensures UsedBelow(Landing(y, mask).d, n)
  {
    OpenSlotUsed(y);
    hide SysInv;
    hide Slot;
    hide Landing;
    if 0 in mask {
      EntryLands(y, mask);
      OneSlotUsed(y.d, Landing(y, mask).d, y.m.segId, n);
    } else {
      EntryLost(y, mask);
    }
  }

  lemma OpenSlotUsed(y: Sys)
    requires SysInv(y) && y.m.meta.Some? && y.m.meta.value.cb.FinToc?
    ensures Used(y.d, y.m.segId)
  {
    SegmentHasSlot(y);
    hide OnDisk;
    hide Inv;
    hide Slot;
  }

  lemma DeleteLandsUsed(y: Sys, mask: set<nat>, n: nat)
    requires SysInv(y) && SlotsOk(y, n) && y.m.meta.Some? && y.m.meta.value.cb.DeleteWrite?
    ensures UsedBelow(Landing(y, mask).d, n)
  {
    DeleteDisk(y, mask);
    var k := y.m.meta.value.block - TOC_START;
    DeleteTarget(y);
    hide SysInv;
    hide Slot;
    hide Landing;
    assert Used(y.d, k) && Used(Landing(y, mask).d, k);
    OneSlotUsed(y.d, Landing(y, mask).d, k, n);
  }

  lemma LandingUsed(y: Sys, mask: set<nat>, n: nat)
    requires SysInv(y) && SlotsOk(y, n) && y.m.meta.Some? && !Formatting(y.m)
    ensures UsedBelow(Landing(y, mask).d, TopLanded(y.m, mask, n))
  {
    hide SysInv;
    hide Landing;
    hide UsedBelow;
    match y.m.meta.value.cb {
      case ClaimToc => ClaimLands(y, mask, n);
      case ClaimHeader =>
        LiveHeaderDisk(y, mask);
        SameSlotsUsed(y.d, Landing(y, mask).d, n);
      case FinHeader =>
        LiveHeaderDisk(y, mask);
        SameSlotsUsed(y.d, Landing(y, mask).d, n);
      case FinToc => EntryLandsUsed(y, mask, n);
      case DeleteWrite => DeleteLandsUsed(y, mask, n);
    }
  }

  lemma CrashUsed(y: Sys, mask: set<nat>, n: nat)
    requires SysInv(y) && SlotsOk(y, n) && !Formatting(y.m)
    ensures UsedBelow(CrashDisk(y, mask), TopLanded(y.m, mask, n))
  {
    hide SysInv;
    hide UsedBelow;
    if y.m.meta.Some? {
      LandingUsed(y, mask, n);
    }
  }

  lemma TopGrows(m: Daemon, mask: set<nat>, n: nat)
    ensures n <= TopLanded(m, mask, n)
  {
  }

  lemma MetaSlots(y: Sys, ok: bool, mask: set<nat>, now: Clock, n: nat)
    requires SysInv(y) && SlotsOk(y, n) && !Formatting(y.m) && Possible(y, MetaDone(ok, mask, now))
    ensures SlotsOk(Do(y, MetaDone(ok, mask, now)), TopLanded(y.m, mask, n))
  {
    LandingUsed(y, mask, n);
    MetaHasBlock(y);
    if y.m.meta.value.cb.ClaimToc? {
      ClaimLands(y, mask, n);
    }
    hide SysInv;
    hide UsedBelow;
    hide VolumeBlock;
    hide EntryBlock;
    hide MemoryOk;
  }

  lemma CrashSlots(y: Sys, mask: set<nat>, restart: Config, n: nat)
    requires SysInv(y) && SlotsOk(y, n) && !Formatting(y.m) && Possible(y, Crash(mask, restart))
    ensures SlotsOk(Do(y, Crash(mask, restart)), TopLanded(y.m, mask, n))
  {
    CrashUsed(y, mask, n);
    IdAfterCrash(y, mask);
    assert Header0(y.d).nextSegmentId <= y.m.nextSeg;
    hide SysInv;
    hide UsedBelow;
    hide DecodeVolume;
    DiskStaysFormed(y.d, y.m, mask);
    TopGrows(y.m, mask, n);
  }

  lemma DataSlots(y: Sys, d': Disk, n: nat)
    requires SlotsOk(y, n) && SameToc(y.d, d')
    ensures UsedBelow(d', n)
  {
    hide UsedBelow;
    SameTocReads(y.d, d');
    SameSlotsUsed(y.d, d', n);
  }

  lemma CaptureSlots(y: Sys, e: Event, n: nat)
    requires SysInv(y) && SlotsOk(y, n) && Possible(y, Capture(e))
    ensures SlotsOk(Do(y, Capture(e)), n)
  {
    CaptureLands(y, e);
    hide SysInv;
    hide MemoryOk;
    hide Next;
    hide DiskAfter;
    hide UsedBelow;
    hide SameToc;
    hide VolumeBlock;
    DataSlots(y, DiskAfter(y, e), n);
  }

  lemma ScribbleSlots(y: Sys, io: Io, blocks: seq<Block>, n: nat)
    requires SysInv(y) && SlotsOk(y, n) && Possible(y, Scribble(io, blocks))
    ensures SlotsOk(Do(y, Scribble(io, blocks)), n)
  {
    ScribbleIsData(y, io, blocks);
    hide SysInv;
    hide MemoryOk;
    hide Write;
    hide UsedBelow;
    hide SameToc;
    DataSlots(y, Write(y.d, io.target, blocks), n);
  }

  lemma ScribbleIsData(y: Sys, io: Io, blocks: seq<Block>)
    requires SysInv(y) && Possible(y, Scribble(io, blocks))
    ensures io.target + |blocks| <= |y.d| && SameToc(y.d, Write(y.d, io.target, blocks))
  {
    ScribbleInside(y, io, blocks);
    assert DATA_START <= y.m.cap.start && DiskOk(y.d, y.m.cap.cfg);
    hide SysInv;
    DataWriteSameToc(y.d, io.target, blocks, y.m.cap.cfg.bs);
  }

  lemma OtherSlots(y: Sys, t: Step, n: nat)
    requires SlotsOk(y, n) && Possible(y, t)
    requires !t.Capture? && !t.Scribble? && !t.MetaDone? && !t.Crash?
    ensures SlotsOk(Do(y, t), n)
  {
    hide UsedBelow;
    hide MemoryOk;
    hide VolumeBlock;
    hide EntryBlock;
    hide MarkDeleted;
    hide DecodeEntry;
  }

  lemma StepSlots(y: Sys, t: Step, n: nat)
    requires SysInv(y) && SlotsOk(y, n) && !Formatting(y.m) && Possible(y, t)
    ensures SlotsOk(Do(y, t), TopAfter(y, t, n))
  {
    hide SysInv;
    hide SlotsOk;
    hide Possible;
    hide Do;
    match t {
      case Capture(e) => CaptureSlots(y, e, n);
      case Scribble(io, blocks) => ScribbleSlots(y, io, blocks, n);
      case MetaDone(ok, mask, now) => MetaSlots(y, ok, mask, now, n);
      case Crash(mask, restart) => CrashSlots(y, mask, restart, n);
      case _ => OtherSlots(y, t, n);
    }
  }

  /** Over every run without a format, crashes included, the slots that hold an
      entry are the first ones, as many as the claims' entries that have landed. */
  lemma {:induction false} UsedSlotsAreFirst(y: Sys, ts: seq<Step>, n: nat)
    requires SysInv(y) && IsRun(y, ts) && NoHazard(After(y, ts).f)
    requires !Formatting(y.m) && forall k :: 0 <= k < |ts| ==> !ts[k].FormatStart?
    requires SlotsOk(y, n)
    ensures SlotsOk(After(y, ts), TopOf(y, ts, n)) && !Formatting(After(y, ts).m)
    decreases |ts|
  {
    hide SysInv;
    hide Possible;
    hide Do;
    hide NoHazard;
    hide Formatting;
    hide SlotsOk;
    hide TopAfter;
    if ts != [] {
      var y1 := Do(y, ts[0]);
      FlagsStickInRun(y1, ts[1..]);
      DoKeeps(y, ts[0]);
      StepSlots(y, ts[0], n);
      NoFormatStarts(y, ts[0]);
      UsedSlotsAreFirst(y1, ts[1..], TopAfter(y, ts[0], n));
    }
  }

  lemma FreshHasNone(m: Daemon, d: Disk, c: Config, sec: u64)
    requires Allocated(m.cap) && ConfigOk(c) && Fresh(d, c, sec)
    ensures |d| > 0 && |d[0]| >= VOLUME_BYTES
    ensures SlotsOk(Sys(Reload(m, d, c), d, NO_FLAGS), 0)
  {
    FreshIsSound(m, d, c, sec);
    VolumeFits(c.bs, 0, DATA_START, sec);
    hide SysInv;
    hide VolumeBlock;
    hide FitsVolume;
    HeaderReadsBack(d, VolumeFor(c.bs, 0, DATA_START, sec), c.bs);
    hide DecodeVolume;
    hide DecodeEntry;
    hide Zeros;
    forall j: nat | j < TOC_SLOT_COUNT ensures !Used(d, j) {
      assert d[TOC_START + j] == Zeros(c.bs);
      ZeroBlockIsFree(c.bs);
    }
  }

  // ---- the slot a restart claims ----

  predicate HeaderLands(m: Daemon, mask: set<nat>) {
    m.meta.Some? && (m.meta.value.cb.ClaimHeader? || m.meta.value.cb.FinHeader?) && 0 in mask
  }

  /** next_segment_id as a restart finds it. */
  function IdOnDisk(y: Sys, mask: set<nat>): nat {
    if HeaderLands(y.m, mask) then y.m.nextSeg else Header0(y.d).nextSegmentId
  }

  lemma IdAfterCrash(y: Sys, mask: set<nat>)
    requires SysInv(y) && !Formatting(y.m)
    ensures Header0(CrashDisk(y, mask)).nextSegmentId == IdOnDisk(y, mask)
    ensures IdOnDisk(y, mask) <= y.m.nextSeg <= TOC_SLOT_COUNT
  {
    assert Header0(y.d).nextSegmentId <= y.m.nextSeg <= TOC_SLOT_COUNT;
    hide SysInv;
    hide DecodeVolume;
    hide VolumeBlock;
    hide Landing;
    hide Slot;
    if y.m.meta.Some? {
      assert CrashDisk(y, mask) == Landing(y, mask).d by { LandingIs(y, mask); }
      match y.m.meta.value.cb {
        case ClaimToc => ClaimTocDisk(y, mask);
        case ClaimHeader => LiveHeaderDisk(y, mask);
        case FinHeader => LiveHeaderDisk(y, mask);
        case FinToc =>
          if 0 in mask {
            EntryLands(y, mask);
          } else {
            EntryLost(y, mask);
          }
        case DeleteWrite => DeleteKeepsHeader(y, mask);
      }
    }
  }

  lemma LandingIs(y: Sys, mask: set<nat>)
    requires y.m.meta.Some?
    ensures CrashDisk(y, mask) == Landing(y, mask).d
  {
  }

  lemma DeleteKeepsHeader(y: Sys, mask: set<nat>)
    requires SysInv(y) && y.m.meta.Some? && y.m.meta.value.cb.DeleteWrite?
    ensures Header0(Landing(y, mask).d) == Header0(y.d)
  {
    DeleteDisk(y, mask);
    assert DiskOk(y.d, y.m.cap.cfg) by { DiskIsOk(y); }
    assert Landing(y, mask).d[0] == y.d[0];
    hide SysInv;
    hide DecodeVolume;
  }

  /** A crash, a restart, and the first request to record. */
  function Restarted(y: Sys, mask: set<nat>, restart: Config, port: u16, now: Clock): Daemon
    requires Possible(y, Crash(mask, restart))
  {
    RecordingStart(Do(y, Crash(mask, restart)).m, port, None, now)
  }

  /** It claims the slot and the place that block 0 names. */
  lemma ReloadedStart(y: Sys, mask: set<nat>, restart: Config, port: u16, now: Clock)
    requires Possible(y, Crash(mask, restart)) && port != 0
    requires Header0(CrashDisk(y, mask)).nextSegmentId < TOC_SLOT_COUNT
    ensures var m := Restarted(y, mask, restart, port, now);
            var v := Header0(CrashDisk(y, mask));
            m.claiming && m.segId == v.nextSegmentId && m.cap.start == v.nextDataBlock
  {
    hide DecodeVolume;
    hide EntryBlock;
    DiskStaysFormed(y.d, y.m, mask);
  }

  /** A claim's slot is the next one, and it is taken over from an earlier claim
      exactly if one with that number or a later one has left its entry there. */
  lemma ClaimTakesUsedIff(y: Sys, n: nat, port: u16, limit: Option<u64>, now: Clock)
    requires SlotsOk(y, n) && Possible(y, Start(port, limit, now)) && y.m.meta.None?
    requires !y.m.cap.recording && (port != 0 || y.m.cap.cfg.port != 0) && y.m.nextSeg < TOC_SLOT_COUNT
    ensures var m := Do(y, Start(port, limit, now)).m;
            m.claiming && m.segId == y.m.nextSeg && (Used(y.d, m.segId) <==> y.m.nextSeg < n)
  {
    hide MemoryOk;
    hide EntryBlock;
    hide Slot;
  }

  /** "Two segments never alias the same slot, even across a crash", exactly, from
      a fresh device on, at every crash point of every run without a format: the
      restarted daemon's first claim takes the slot that block 0 names, and that
      slot already holds an entry exactly if block 0 lags behind the claims whose
      entries have landed. It never holds a finalized one. */
  lemma ClaimedSlotIsReusedIff(m: Daemon, d: Disk, c: Config, sec: u64, ts: seq<Step>,
                               mask: set<nat>, restart: Config, port: u16, now: Clock)
    requires Allocated(m.cap) && ConfigOk(c) && Fresh(d, c, sec)
    requires |d| > 0 && |d[0]| >= VOLUME_BYTES
    requires IsRun(Sys(Reload(m, d, c), d, NO_FLAGS), ts)
    requires forall k :: 0 <= k < |ts| ==> !ts[k].FormatStart?
    requires var y := After(Sys(Reload(m, d, c), d, NO_FLAGS), ts);
             && NoHazard(y.f) && Possible(y, Crash(mask, restart)) && port != 0
             && IdOnDisk(y, mask) < TOC_SLOT_COUNT
    ensures var y := After(Sys(Reload(m, d, c), d, NO_FLAGS), ts);
            var r := Restarted(y, mask, restart, port, now);
            var n := TopLanded(y.m, mask, TopOf(Sys(Reload(m, d, c), d, NO_FLAGS), ts, 0));
            && r.claiming && r.segId == IdOnDisk(y, mask)
            && (Used(CrashDisk(y, mask), r.segId) <==> IdOnDisk(y, mask) < n)
            && !SealedAt(CrashDisk(y, mask), r.segId)
  {
    hide SysInv;
    hide Fresh;
    hide Reload;
    hide SlotsOk;
    hide Formatting;
    hide Possible;
    hide Restarted;
    hide Used;
    hide SealedAt;
    hide TopLanded;
    hide IdOnDisk;
    hide NoHazard;
    hide CrashDisk;
    FreshStart(m, d, c, sec);
    var y0 := Sys(Reload(m, d, c), d, NO_FLAGS);
    UsedSlotsAreFirst(y0, ts, 0);
    RunKeepsSystem(y0, ts);
    ReusedAtCrash(After(y0, ts), TopOf(y0, ts, 0), mask, restart, port, now);
  }

  lemma FreshStart(m: Daemon, d: Disk, c: Config, sec: u64)
    requires Allocated(m.cap) && ConfigOk(c) && Fresh(d, c, sec)
    ensures |d| > 0 && |d[0]| >= VOLUME_BYTES
    ensures var y := Sys(Reload(m, d, c), d, NO_FLAGS);
            SysInv(y) && SlotsOk(y, 0) && !Formatting(y.m)
  {
    hide SysInv;
    hide SlotsOk;
    hide Fresh;
    FreshIsSound(m, d, c, sec);
    FreshHasNone(m, d, c, sec);
  }

  lemma ReusedAtCrash(y: Sys, n: nat, mask: set<nat>, restart: Config, port: u16, now: Clock)
    requires SysInv(y) && SlotsOk(y, n) && !Formatting(y.m) && Possible(y, Crash(mask, restart))
    requires port != 0 && IdOnDisk(y, mask) < TOC_SLOT_COUNT
    ensures var r := Restarted(y, mask, restart, port, now);
            && r.claiming && r.segId == IdOnDisk(y, mask)
            && (Used(CrashDisk(y, mask), r.segId) <==> IdOnDisk(y, mask) < TopLanded(y.m, mask, n))
            && !SealedAt(CrashDisk(y, mask), r.segId)
  {
    CrashUsed(y, mask, n);
    IdAfterCrash(y, mask);
    NextIsNotSealed(y, mask);
    hide SysInv;
    hide Do;
    hide CrashDisk;
    ReloadedStart(y, mask, restart, port, now);
    hide Slot;
    hide Restarted;
  }

  lemma NextIsNotSealed(y: Sys, mask: set<nat>)
    requires SysInv(y)
    ensures !SealedAt(CrashDisk(y, mask), Header0(CrashDisk(y, mask)).nextSegmentId)
  {
    hide InFlightMeta;
    hide InRecording;
    hide DecodeVolume;
    hide Slot;
    if y.m.meta.Some? {
      LandingKeepsDisk(y, mask);
      LandingIs(y, mask);
    }
  }

  // ---- the same without earlier crashes ----

  /** Neither a crash, nor a claim whose entry write is reported failed although
      it has landed. */
  predicate Orderly(y: Sys, t: Step) {
    && !t.Crash? && !t.FormatStart?
    && (t.MetaDone? && !t.ok && y.m.meta.Some? && y.m.meta.value.cb.ClaimToc? ==> 0 !in t.mask)
  }

  ghost predicate OrderlyRun(y: Sys, ts: seq<Step>)
    requires IsRun(y, ts)
    decreases |ts|
  {
    ts == [] || (Orderly(y, ts[0]) && OrderlyRun(Do(y, ts[0]), ts[1..]))
  }

  lemma OrderlyTop(y: Sys, t: Step)
    requires SysInv(y) && Possible(y, t) && Orderly(y, t) && !Formatting(y.m)
    ensures Do(y, t).m.nextSeg == TopAfter(y, t, y.m.nextSeg)
  {
    if t.MetaDone? {
      OrderlyMeta(y, t.ok, t.mask, t.now);
    } else {
      OrderlyOther(y, t);
    }
    hide SysInv;
    hide Possible;
    hide Do;
    hide TopAfter;
  }

  lemma OrderlyMeta(y: Sys, ok: bool, mask: set<nat>, now: Clock)
    requires SysInv(y) && Possible(y, MetaDone(ok, mask, now)) && Orderly(y, MetaDone(ok, mask, now)) && !Formatting(y.m)
    ensures Do(y, MetaDone(ok, mask, now)).m.nextSeg == TopLanded(y.m, mask, y.m.nextSeg)
  {
    assert y.m.meta.value.cb.ClaimToc? ==> y.m.segId == y.m.nextSeg;
    MetaHasBlock(y);
    hide SysInv;
    hide MemoryOk;
    hide VolumeBlock;
    hide EntryBlock;
    hide Applied;
  }

  lemma OrderlyOther(y: Sys, t: Step)
    requires Possible(y, t) && Orderly(y, t) && !t.MetaDone?
    ensures Do(y, t).m.nextSeg == y.m.nextSeg
  {
    hide MemoryOk;
    hide VolumeBlock;
    hide EntryBlock;
    hide MarkDeleted;
    hide DecodeEntry;
    hide Next;
    hide Shape;
    hide DiskAfter;
    hide RoundWriteChunk;
  }

  /** In such a run the daemon's own next_segment_id counts the slots in use. */
  lemma {:induction false} OrderlyTops(y: Sys, ts: seq<Step>)
    requires SysInv(y) && IsRun(y, ts) && OrderlyRun(y, ts) && NoHazard(After(y, ts).f) && !Formatting(y.m)
    ensures TopOf(y, ts, y.m.nextSeg) == After(y, ts).m.nextSeg
    decreases |ts|
  {
    hide SysInv;
    hide Possible;
    hide Do;
    hide NoHazard;
    hide Formatting;
    hide TopAfter;
    if ts != [] {
      var y1 := Do(y, ts[0]);
      FlagsStickInRun(y1, ts[1..]);
      DoKeeps(y, ts[0]);
      OrderlyTop(y, ts[0]);
      NoFormatStarts(y, ts[0]);
      hide Orderly;
      OrderlyTops(y1, ts[1..]);
    }
  }

  /** So at the first crash of an orderly run the slot is taken over exactly if the
      entry of the claim under way has landed but its header write has not, or the
      header write of the latest claim has failed, and no header write since has
      landed. */
  lemma FirstCrashReusesIff(y: Sys, ts: seq<Step>, mask: set<nat>, restart: Config, port: u16, now: Clock)
    requires SysInv(y) && SlotsOk(y, y.m.nextSeg) && !Formatting(y.m)
    requires IsRun(y, ts) && OrderlyRun(y, ts) && NoHazard(After(y, ts).f)
    requires forall k :: 0 <= k < |ts| ==> !ts[k].FormatStart?
    requires var z := After(y, ts);
             Possible(z, Crash(mask, restart)) && port != 0 && IdOnDisk(z, mask) < TOC_SLOT_COUNT
    ensures var z := After(y, ts);
            var r := Restarted(z, mask, restart, port, now);
            && r.claiming
            && (Used(CrashDisk(z, mask), r.segId) <==>
                  || (z.m.meta.Some? && z.m.meta.value.cb.ClaimToc? && 0 in mask)
                  || (Header0(z.d).nextSegmentId < z.m.nextSeg && !HeaderLands(z.m, mask)))
  {
    UsedSlotsAreFirst(y, ts, y.m.nextSeg);
    OrderlyTops(y, ts);
    RunKeepsSystem(y, ts);
    var z := After(y, ts);
    assert z.m.meta.Some? && z.m.meta.value.cb.ClaimToc? ==> z.m.segId == z.m.nextSeg;
    assert Header0(z.d).nextSegmentId <= z.m.nextSeg;
    hide SysInv;
    hide Possible;
    hide Do;
    hide SlotsOk;
    hide Used;
    hide Restarted;
    ReusedAtCrash(z, z.m.nextSeg, mask, restart, port, now);
  }

  lemma {:induction false} RunKeepsDevice(y: Sys, ts: seq<Step>)
    requires IsRun(y, ts) && forall k :: 0 <= k < |ts| ==> !ts[k].Crash?
    ensures After(y, ts).m.cap.cfg.bs == y.m.cap.cfg.bs && After(y, ts).m.cap.cfg.numBlocks == y.m.cap.cfg.numBlocks
    decreases |ts|
  {
    hide Possible;
    hide Do;
    if ts != [] {
      StepKeepsDevice(y, ts[0]);
      RunKeepsDevice(Do(y, ts[0]), ts[1..]);
    }
  }

  lemma StepKeepsDevice(y: Sys, t: Step)
    requires Possible(y, t)
    ensures var c := Do(y, t).m.cap.cfg; c.bs == y.m.cap.cfg.bs && c.numBlocks == y.m.cap.cfg.numBlocks
  {
    hide VolumeBlock;
    hide EntryBlock;
    hide DecodeVolume;
    hide DecodeEntry;
    hide MarkDeleted;
    hide RoundWriteChunk;
    hide DiskAfter;
    hide MemoryOk;
    match t {
      case Capture(e) =>
        hide Next;
        NextGrows(y.m.cap, e);
      case _ =>
    }
  }

  /** A run that ends there with no write in flight: the claim's entry lands, its
      header write fails, and the daemon crashes while idle. */
  lemma HalfClaimIsReused(y: Sys, port: u16, restart: Config, now: Clock)
    requires Idling(y) && port != 0 && Header0(y.d).nextSegmentId == y.m.nextSeg
    requires ConfigOk(restart) && restart.bs == y.m.cap.cfg.bs && restart.numBlocks == y.m.cap.cfg.numBlocks
    ensures IsRun(y, HalfClaim(port))
    ensures var z := After(y, HalfClaim(port));
            && z.m.meta.None? && Possible(z, Crash({}, restart))
            && var r := Restarted(z, {}, restart, port, now);
               r.claiming && r.segId == y.m.nextSeg && Classify(Slot(CrashDisk(z, {}), r.segId)) == Open
  {
    ClaimFailsHalfway(y, port);
    RunKeepsDevice(y, HalfClaim(port));
    hide SysInv;
    hide Slot;
    hide IsRun;
    hide After;
    hide Possible;
    var z := After(y, HalfClaim(port));
    CanCrash(z, restart);
    ReloadedStart(z, {}, restart, port, now);
    hide Restarted;
  }

  lemma CanCrash(y: Sys, restart: Config)
    requires SysInv(y) && ConfigOk(restart)
    requires restart.bs == y.m.cap.cfg.bs && restart.numBlocks == y.m.cap.cfg.numBlocks
    ensures Possible(y, Crash({}, restart))
  {
    InvIsPossible(y);
    assert DiskOk(y.d, y.m.cap.cfg) by { DiskIsOk(y); }
    hide SysInv;
    hide MemoryOk;
  }
}
