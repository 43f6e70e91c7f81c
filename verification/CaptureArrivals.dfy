/** What the log is made of: the packets for the capture port, in the order in
    which they arrive, less exactly those for which no buffer is free. */
module CaptureArrivals {
  import opened Bytes
  import opened Record
  import Packet
  import opened Capture
  import opened CaptureRuns
  import opened CaptureLimits

  // ---- which frames are captured ----

  /** A frame is for the recording if no responder took it and it carries an IPv4 UDP
      datagram addressed to the capture port; `p` is that datagram. */
  ghost predicate Captures(c: Config, rx: Rx, p: Packet.Parsed) {
    && !rx.handled && p.dstPort == c.port
    && exists udp: nat :: Packet.Carries(rx.bytes, c.withSeq, udp, p)
  }

  ghost predicate ForUs(c: Config, rx: Rx) {
    exists p :: Captures(c, rx, p)
  }

  lemma CapturesIff(c: Config, rx: Rx, p: Packet.Parsed)
    ensures Captures(c, rx, p) <==> !rx.handled && p.dstPort == c.port && Packet.Parse(rx.bytes, c.withSeq) == Some(p)
  {
    hide Packet.Carries;
    hide Packet.Parse;
    Packet.ParsesIffCarries(rx.bytes, c.withSeq, p);
  }

  /** The recording keeps a payload exactly if it is that of such a frame. */
  lemma OursIffCaptured(c: Config, rx: Rx, payload: seq<byte>)
    ensures OursIn(c, rx) == Some(payload) <==> exists p :: Captures(c, rx, p) && p.payload == payload
  {
    hide Packet.Parse;
    hide Captures;
    if OursIn(c, rx) == Some(payload) {
      CapturesIff(c, rx, Packet.Parse(rx.bytes, c.withSeq).value);
    }
    if p :| Captures(c, rx, p) && p.payload == payload {
      CapturesIff(c, rx, p);
    }
  }

  /** A packet for the capture port, with the number its sender gave it, 0 on a
      wire without numbers. */
  datatype Offer = Offer(tsc: nat, wire: nat, payload: seq<byte>)

  /** One that met a running recording, and whether a buffer could take it. */
  datatype Arrival = Arrival(offer: Offer, kept: bool)

  /** Whether a packet finds room: in the current buffer, or in the next one when
      the current one is full and may be handed off. With a single buffer in use
      the next one is the same, and free again only if its write is refused. */
  predicate FindsRoom(s: Cap, size: nat, refused: bool)
    requires Shape(s)
  {
    && !s.bufs[s.cur].inFlight
    && (|| s.bufs[s.cur].used + size <= s.cfg.bufSize
        || (&& s.next + s.cfg.bufBlocks <= s.cfg.numBlocks && size <= s.cfg.bufSize
            && var n := (s.cur + 1) % s.cfg.bufCount;
               if n == s.cur then refused else !s.bufs[n].inFlight))
  }

  function WireNumber(c: Config, rx: Rx): nat {
    match Packet.Parse(rx.bytes, c.withSeq)
    case None => 0
    case Some(p) => p.seqNo
  }

  function ArrivalOf(s: Cap, tsc: nat, payload: seq<byte>, rx: Rx): Arrival
    requires Shape(s)
  {
    Arrival(Offer(tsc, WireNumber(s.cfg, rx), payload),
            FindsRoom(s, 32 + |payload|, FirstRc(rx.flushRcs) == Rejected))
  }

  function ArrivalsOf(s: Cap, tsc: nat, burst: seq<Rx>): seq<Arrival>
    requires Shape(s)
    decreases |burst|
  {
    if burst == [] || s.stopping || !s.recording then []
    else
      var p := CaptureFrame(s, tsc, burst[0]);
      (match OursIn(s.cfg, burst[0])
       case None => []
       case Some(payload) => [ArrivalOf(s, tsc, payload, burst[0])])
      + (if p.stop then [] else ArrivalsOf(p.s, tsc, burst[1..]))
  }

  function EventArrivals(s: Cap, e: Event): seq<Arrival>
    requires Shape(s)
  {
    match e
    case Poll(tsc, burst) => ArrivalsOf(s, tsc, burst)
    case _ => []
  }

  /** Everything a run takes in. */
  function RunArrivals(s: Cap, es: seq<Event>): seq<Arrival>
    requires Shape(s) && Run(s, es).Some?
    decreases |es|
  {
    if es == [] then [] else EventArrivals(s, es[0]) + RunArrivals(Next(s, es[0]), es[1..])
  }

  function KeptCount(xs: seq<Arrival>): (n: nat)
    ensures n <= |xs|
  {
    if xs == [] then 0 else (if xs[0].kept then 1 else 0) + KeptCount(xs[1..])
  }

  /** The records of the packets that found room, numbered from n. */
  function Records(n: nat, xs: seq<Arrival>): seq<Record>
    decreases |xs|
  {
    if xs == [] then []
    else if xs[0].kept
    then [Record(n, xs[0].offer.tsc, xs[0].offer.payload)] + Records(n + 1, xs[1..])
    else Records(n, xs[1..])
  }

  lemma {:induction false} KeptConcat(n: nat, xs: seq<Arrival>, ys: seq<Arrival>)
    ensures KeptCount(xs + ys) == KeptCount(xs) + KeptCount(ys)
    ensures Records(n, xs + ys) == Records(n, xs) + Records(n + KeptCount(xs), ys)
    decreases |xs|
  {
    if xs == [] {
      assert xs + ys == ys;
    } else {
      assert (xs + ys)[0] == xs[0] && (xs + ys)[1..] == xs[1..] + ys;
      KeptConcat(if xs[0].kept then n + 1 else n, xs[1..], ys);
    }
  }

  /** `r` is `s` with these arrivals recorded or dropped, one by one. */
  ghost predicate Took(s: Cap, r: Cap, xs: seq<Arrival>) {
    && r.recordCount == s.recordCount + KeptCount(xs)
    && r.dropped == s.dropped + |xs| - KeptCount(xs)
    && r.h.log == s.h.log + Records(s.recordCount, xs)
  }

  lemma TookThen(s: Cap, t: Cap, r: Cap, xs: seq<Arrival>, ys: seq<Arrival>)
    requires Took(s, t, xs) && Took(t, r, ys)
    ensures Took(s, r, xs + ys)
  {
    KeptConcat(s.recordCount, xs, ys);
  }

  lemma TookNothing(s: Cap, r: Cap)
    requires r.recordCount == s.recordCount && r.dropped == s.dropped && r.h.log == s.h.log
    ensures Took(s, r, [])
  {
  }

  // ---- one packet ----

  /** A failure noted while the current buffer is empty leaves the buffers alone. */
  lemma NoteOnEmpty(s: Cap, rcs: seq<Rc>)
    requires Shape(s) && s.bufs[s.cur].used == 0
    ensures NoteWriteFailure(s, rcs).bufs == s.bufs
  {
    hide NoteWriteFailure;
    hide StopRecording;
    hide Keeps;
    if s.stopping {
      NoteWhileStopping(s, rcs);
    } else if s.failures + 1 < WRITE_FAILURE_THRESHOLD {
      EarlyFailure(s, rcs);
    } else {
      FifthFailure(s, rcs);
      FifthIsAlike(s);
      EmptyStop(FifthNoted(s), rcs);
    }
  }

  /** The buffers after a full one was handed off, for every answer. */
  lemma FlushedBuffers(s: Cap, rcs: seq<Rc>)
    requires Shape(s) && !NothingToFlush(s)
    ensures var r := FlushBuffer(s, rcs);
            && |r.bufs| == |s.bufs|
            && (forall i :: 0 <= i < |s.bufs| && i != s.cur ==> r.bufs[i] == s.bufs[i])
            && (r.bufs[s.cur].inFlight <==> FirstRc(rcs) != Rejected)
  {
    hide Keeps;
    hide FlushBuffer;
    hide NoteWriteFailure;
    if FirstRc(rcs) == Rejected {
      FlushRefused(s, rcs);
      RefusedHandOffFacts(s);
      hide RefusedHandOff;
      NoteOnEmpty(RefusedHandOff(s), LaterRcs(rcs));
    } else {
      FlushSubmits(s, rcs);
      hide Pad;
    }
  }

  /** A packet for the capture port is recorded exactly if it finds room, whatever
      the device answers. */
  lemma RecordedIff(s: Cap, tsc: nat, payload: seq<byte>, rx: Rx)
    requires Shape(s)
    ensures CaptureOurs(s, tsc, payload, rx).s.recordCount > s.recordCount
       <==> ArrivalOf(s, tsc, payload, rx).kept
  {
    hide FlushBuffer;
    hide StopRecording;
    hide AppendAndCheckLimit;
    hide Grows;
    var b := s.bufs[s.cur];
    var size := RECORD_HDR + |payload|;
    if b.inFlight {
    } else if b.used + size <= s.cfg.bufSize {
      AppendRecords(s, tsc, payload, rx.stopRcs);
    } else if RoomFor(s.cfg, s.next) {
      FlushKeepsCounts(s, rx.flushRcs);
      var t := NextBuffer(FlushBuffer(s, rx.flushRcs));
      if !t.bufs[t.cur].inFlight && size <= t.cfg.bufSize {
        AppendRecords(t, tsc, payload, rx.stopRcs);
      }
      if size <= s.cfg.bufSize {
        FlushedBuffers(s, rx.flushRcs);
      }
    }
  }

  /** Whatever the device answers, a packet stops the recording exactly if it is the
      record that reaches the count limit, or does not fit the current buffer while
      no further chunk fits the device. */
  lemma PacketStopsIff(s: Cap, tsc: nat, payload: seq<byte>, rx: Rx)
    requires Shape(s)
    ensures var b := s.bufs[s.cur];
            var limit := s.cfg.countLimit;
            CaptureOurs(s, tsc, payload, rx).stop
            <==> || (ArrivalOf(s, tsc, payload, rx).kept && limit != 0 && s.recordCount + 1 >= limit)
                 || (&& !b.inFlight && b.used + 32 + |payload| > s.cfg.bufSize
                     && s.next + s.cfg.bufBlocks > s.cfg.numBlocks)
  {
    hide FlushBuffer;
    hide StopRecording;
    hide AppendAndCheckLimit;
    hide Grows;
    var b := s.bufs[s.cur];
    var size := RECORD_HDR + |payload|;
    if b.inFlight {
    } else if b.used + size <= s.cfg.bufSize {
      AppendStopsIff(s, tsc, payload, rx.stopRcs);
    } else if RoomFor(s.cfg, s.next) {
      FlushKeepsCounts(s, rx.flushRcs);
      var t := NextBuffer(FlushBuffer(s, rx.flushRcs));
      if !t.bufs[t.cur].inFlight && size <= t.cfg.bufSize {
        AppendStopsIff(t, tsc, payload, rx.stopRcs);
      }
      if size <= s.cfg.bufSize {
        FlushedBuffers(s, rx.flushRcs);
      }
    }
  }

  lemma AppendStopsIff(s: Cap, tsc: nat, payload: seq<byte>, rcs: seq<Rc>)
    requires Shape(s) && s.bufs[s.cur].used + RECORD_HDR + |payload| <= s.cfg.bufSize
    ensures AppendAndCheckLimit(s, tsc, payload, rcs).stop
       <==> s.cfg.countLimit != 0 && s.recordCount + 1 >= s.cfg.countLimit
  {
    hide StopRecording;
    hide Grows;
    hide Encode;
    hide Stored;
  }

  /** A frame that meets a running recording is counted, as a record or as dropped,
      exactly if it carries a datagram for the capture port; any other frame, and any
      frame once the recording is over, changes nothing. */
  lemma FrameCountsIff(s: Cap, tsc: nat, rx: Rx)
    requires Shape(s)
    ensures var p := CaptureFrame(s, tsc, rx);
            if s.recording && !s.stopping && ForUs(s.cfg, rx)
            then p.s.recordCount + p.s.dropped == s.recordCount + s.dropped + 1
            else p == PollStep(s, false)
  {
    hide CaptureOurs;
    hide OursIn;
    hide ForUs;
    OfferIff(s.cfg, tsc, rx, Offer(0, 0, []));
    if OursIn(s.cfg, rx).Some? {
      OursCounts(s, tsc, OursIn(s.cfg, rx).value, rx);
    }
  }

  lemma FlushKeepsCounts(s: Cap, rcs: seq<Rc>)
    requires Shape(s)
    ensures var r := FlushBuffer(s, rcs);
            r.recordCount == s.recordCount && r.dropped == s.dropped && r.cfg == s.cfg && r.cur == s.cur
  {
    hide FlushBuffer;
  }

  lemma AppendRecords(s: Cap, tsc: nat, payload: seq<byte>, rcs: seq<Rc>)
    requires Shape(s) && s.bufs[s.cur].used + RECORD_HDR + |payload| <= s.cfg.bufSize
    ensures AppendAndCheckLimit(s, tsc, payload, rcs).s.recordCount == s.recordCount + 1
  {
    hide StopRecording;
    hide Grows;
    hide Encode;
    hide Stored;
  }

  lemma OursTook(s: Cap, tsc: nat, payload: seq<byte>, rx: Rx)
    requires Shape(s)
    ensures Took(s, CaptureOurs(s, tsc, payload, rx).s, [ArrivalOf(s, tsc, payload, rx)])
  {
    OursCounts(s, tsc, payload, rx);
    RecordedIff(s, tsc, payload, rx);
    hide CaptureOurs;
    hide ArrivalOf;
    hide Grows;
    ArrivalIs(s, tsc, payload, rx);
    OneArrival(s.recordCount, ArrivalOf(s, tsc, payload, rx));
  }

  lemma OneArrival(n: nat, x: Arrival)
    ensures KeptCount([x]) == (if x.kept then 1 else 0)
    ensures Records(n, [x]) == if x.kept then [Record(n, x.offer.tsc, x.offer.payload)] else []
  {
    assert [x][1..] == [];
  }

  lemma ArrivalIs(s: Cap, tsc: nat, payload: seq<byte>, rx: Rx)
    requires Shape(s)
    ensures ArrivalOf(s, tsc, payload, rx).offer == Offer(tsc, WireNumber(s.cfg, rx), payload)
  {
  }

  // ---- bursts and runs ----

  /** A recording that is over or not begun takes nothing in. */
  lemma {:induction false} PollWhileClosed(s: Cap, tsc: nat, burst: seq<Rx>)
    requires Shape(s) && (s.stopping || !s.recording)
    ensures CapturePoll(s, tsc, burst) == s
    decreases |burst|
  {
    if burst != [] {
      PollWhileClosed(s, tsc, burst[1..]);
    }
  }

  lemma {:induction false} BurstTook(s: Cap, tsc: nat, burst: seq<Rx>)
    requires Shape(s)
    ensures Took(s, CapturePoll(s, tsc, burst), ArrivalsOf(s, tsc, burst))
    decreases |burst|
  {
    hide CaptureOurs;
    hide Took;
    hide ArrivalOf;
    hide OursIn;
    if s.stopping || !s.recording {
      PollWhileClosed(s, tsc, burst);
      TookNothing(s, s);
    } else if burst == [] {
      TookNothing(s, s);
    } else {
      var p := CaptureFrame(s, tsc, burst[0]);
      var first := FrameArrivals(s, tsc, burst[0]);
      FrameTook(s, tsc, burst[0]);
      if p.stop {
        assert ArrivalsOf(s, tsc, burst) == first;
      } else {
        BurstTook(p.s, tsc, burst[1..]);
        TookThen(s, p.s, CapturePoll(p.s, tsc, burst[1..]), first, ArrivalsOf(p.s, tsc, burst[1..]));
      }
    }
  }

  function FrameArrivals(s: Cap, tsc: nat, rx: Rx): seq<Arrival>
    requires Shape(s)
  {
    match OursIn(s.cfg, rx)
    case None => []
    case Some(payload) => [ArrivalOf(s, tsc, payload, rx)]
  }

  lemma FrameTook(s: Cap, tsc: nat, rx: Rx)
    requires Shape(s) && s.recording && !s.stopping
    ensures Took(s, CaptureFrame(s, tsc, rx).s, FrameArrivals(s, tsc, rx))
  {
    hide CaptureOurs;
    hide Took;
    hide ArrivalOf;
    hide OursIn;
    match OursIn(s.cfg, rx) {
      case None => TookNothing(s, s);
      case Some(payload) => OursTook(s, tsc, payload, rx);
    }
  }

  lemma OtherTook(s: Cap, e: Event)
    requires Shape(s) && Enabled(s, e) && !e.Poll?
    ensures var r := Next(s, e);
            r.recordCount == s.recordCount && r.dropped == s.dropped && r.h.log == s.h.log
  {
    hide NoteWriteFailure;
    hide StopRecording;
    hide RetryFlush;
  }

  /** Over any run, whatever arrives and whatever the device does: the records
      appended are exactly those of the packets that found room, in the order of
      arrival and numbered on from record_count, and every other packet that met
      the recording was counted as dropped. */
  lemma {:induction false} RunTook(s: Cap, es: seq<Event>)
    requires Shape(s) && Run(s, es).Some?
    ensures Took(s, Run(s, es).value, RunArrivals(s, es))
    decreases |es|
  {
    hide Took;
    hide ArrivalsOf;
    hide CapturePoll;
    hide WriteComplete;
    hide RetryFires;
    hide StopRequest;
    if es == [] {
      TookNothing(s, s);
    } else {
      var t := Next(s, es[0]);
      if es[0].Poll? {
        BurstTook(s, es[0].tsc, es[0].burst);
      } else {
        OtherTook(s, es[0]);
        TookNothing(s, t);
      }
      RunTook(t, es[1..]);
      TookThen(s, t, Run(t, es[1..]).value, EventArrivals(s, es[0]), RunArrivals(t, es[1..]));
    }
  }

  // ---- what was offered ----

  /** The packets for the capture port among the frames of a burst. */
  function OfferedIn(c: Config, tsc: nat, burst: seq<Rx>): seq<Offer> {
    if burst == [] then []
    else
      (match OursIn(c, burst[0])
       case None => []
       case Some(payload) => [Offer(tsc, WireNumber(c, burst[0]), payload)])
      + OfferedIn(c, tsc, burst[1..])
  }

  /** `os` are the datagrams for the capture port among these frames, in order, each
      with its payload and its sender's number. */
  ghost predicate Picked(c: Config, tsc: nat, burst: seq<Rx>, os: seq<Offer>)
    decreases |burst|
  {
    if burst == [] then os == []
    else if ForUs(c, burst[0]) then os != [] && IsOffer(c, tsc, burst[0], os[0]) && Picked(c, tsc, burst[1..], os[1..])
    else Picked(c, tsc, burst[1..], os)
  }

  ghost predicate IsOffer(c: Config, tsc: nat, rx: Rx, o: Offer) {
    exists p :: Captures(c, rx, p) && o == Offer(tsc, p.seqNo, p.payload)
  }

  lemma OfferIff(c: Config, tsc: nat, rx: Rx, o: Offer)
    ensures ForUs(c, rx) <==> OursIn(c, rx).Some?
    ensures IsOffer(c, tsc, rx, o) <==> OursIn(c, rx).Some? && o == Offer(tsc, WireNumber(c, rx), OursIn(c, rx).value)
  {
    hide Packet.Parse;
    hide Captures;
    var q := Packet.Parse(rx.bytes, c.withSeq);
    if q.Some? {
      CapturesIff(c, rx, q.value);
    }
    forall p ensures Captures(c, rx, p) <==> !rx.handled && p.dstPort == c.port && q == Some(p) {
      CapturesIff(c, rx, p);
    }
  }

  /** The offers of a burst are its datagrams for the capture port, no other frame's
      and none left out. */
  lemma {:induction false} OfferedIsPicked(c: Config, tsc: nat, burst: seq<Rx>, os: seq<Offer>)
    ensures Picked(c, tsc, burst, os) <==> os == OfferedIn(c, tsc, burst)
    decreases |burst|
  {
    hide ForUs;
    hide IsOffer;
    hide OursIn;
    hide WireNumber;
    if burst != [] {
      if OursIn(c, burst[0]).Some? {
        if os != [] {
          OfferIff(c, tsc, burst[0], os[0]);
          OfferedIsPicked(c, tsc, burst[1..], os[1..]);
          assert os == [os[0]] + os[1..];
        } else {
          OfferIff(c, tsc, burst[0], Offer(0, 0, []));
        }
      } else {
        OfferIff(c, tsc, burst[0], Offer(0, 0, []));
        OfferedIsPicked(c, tsc, burst[1..], os);
      }
    }
  }

  function OfferedBy(c: Config, e: Event): seq<Offer> {
    match e
    case Poll(tsc, burst) => OfferedIn(c, tsc, burst)
    case _ => []
  }

  function Offered(c: Config, es: seq<Event>): seq<Offer> {
    if es == [] then [] else OfferedBy(c, es[0]) + Offered(c, es[1..])
  }

  /** The same for the bursts of a run, in order. */
  ghost predicate PickedFrom(c: Config, es: seq<Event>, os: seq<Offer>)
    decreases |es|
  {
    if es == [] then os == []
    else if !es[0].Poll? then PickedFrom(c, es[1..], os)
    else exists n :: 0 <= n <= |os| && Picked(c, es[0].tsc, es[0].burst, os[..n]) && PickedFrom(c, es[1..], os[n..])
  }

  lemma {:induction false} OfferedIsPickedFrom(c: Config, es: seq<Event>, os: seq<Offer>)
    ensures PickedFrom(c, es, os) <==> os == Offered(c, es)
    decreases |es|
  {
    hide Picked;
    hide OfferedIn;
    if es != [] {
      if !es[0].Poll? {
        OfferedIsPickedFrom(c, es[1..], os);
      } else {
        var first, rest := OfferedIn(c, es[0].tsc, es[0].burst), Offered(c, es[1..]);
        if PickedFrom(c, es, os) {
          var n :| 0 <= n <= |os| && Picked(c, es[0].tsc, es[0].burst, os[..n]) && PickedFrom(c, es[1..], os[n..]);
          OfferedIsPicked(c, es[0].tsc, es[0].burst, os[..n]);
          OfferedIsPickedFrom(c, es[1..], os[n..]);
          assert os == os[..n] + os[n..];
        }
        if os == first + rest {
          OfferedIsPicked(c, es[0].tsc, es[0].burst, os[..|first|]);
          OfferedIsPickedFrom(c, es[1..], os[|first|..]);
          assert os[..|first|] == first && os[|first|..] == rest;
        }
      }
    }
  }

  function Offers(xs: seq<Arrival>): (r: seq<Offer>)
    ensures |r| == |xs|
    ensures forall k :: 0 <= k < |xs| ==> r[k] == xs[k].offer
  {
    if xs == [] then [] else [xs[0].offer] + Offers(xs[1..])
  }

  lemma OffersConcat(xs: seq<Arrival>, ys: seq<Arrival>)
    ensures Offers(xs + ys) == Offers(xs) + Offers(ys)
  {
  }

  /** A burst takes in the packets offered, from the first on, until it stops the
      recording. */
  lemma {:induction false} BurstOffered(s: Cap, tsc: nat, burst: seq<Rx>)
    requires Shape(s)
    ensures Offers(ArrivalsOf(s, tsc, burst)) <= OfferedIn(s.cfg, tsc, burst)
    ensures s.recording && !CapturePoll(s, tsc, burst).stopping ==>
              Offers(ArrivalsOf(s, tsc, burst)) == OfferedIn(s.cfg, tsc, burst)
    decreases |burst|
  {
    hide CaptureOurs;
    hide ArrivalOf;
    hide OursIn;
    if s.stopping || !s.recording {
      PollWhileClosed(s, tsc, burst);
    } else if burst != [] {
      var p := CaptureFrame(s, tsc, burst[0]);
      FrameGoesOn(s, tsc, burst[0]);
      var first := FrameArrivals(s, tsc, burst[0]);
      FrameOffered(s, tsc, burst[0]);
      if p.stop {
        assert ArrivalsOf(s, tsc, burst) == first;
        assert CapturePoll(s, tsc, burst) == p.s;
      } else {
        BurstOffered(p.s, tsc, burst[1..]);
        OffersConcat(first, ArrivalsOf(p.s, tsc, burst[1..]));
        assert ArrivalsOf(s, tsc, burst) == first + ArrivalsOf(p.s, tsc, burst[1..]);
      }
    }
  }

  lemma FrameOffered(s: Cap, tsc: nat, rx: Rx)
    requires Shape(s)
    ensures Offers(FrameArrivals(s, tsc, rx))
         == match OursIn(s.cfg, rx) case None => [] case Some(payload) => [Offer(tsc, WireNumber(s.cfg, rx), payload)]
  {
    hide OursIn;
    match OursIn(s.cfg, rx) {
      case None =>
      case Some(payload) => ArrivalIs(s, tsc, payload, rx);
    }
    hide ArrivalOf;
  }

  /** A frame ends a burst only by stopping the recording. */
  lemma FrameGoesOn(s: Cap, tsc: nat, rx: Rx)
    requires Shape(s)
    ensures var p := CaptureFrame(s, tsc, rx);
            && (p.stop ==> p.s.stopping) && p.s.recording == s.recording && p.s.cfg == s.cfg
            && (s.stopping ==> p.s.stopping)
  {
    hide CaptureOurs;
    hide OursIn;
    if !s.stopping && s.recording && OursIn(s.cfg, rx).Some? {
      OursCounts(s, tsc, OursIn(s.cfg, rx).value, rx);
      OursStops(s, tsc, OursIn(s.cfg, rx).value, rx);
    }
  }

  lemma OursStops(s: Cap, tsc: nat, payload: seq<byte>, rx: Rx)
    requires Shape(s)
    ensures CaptureOurs(s, tsc, payload, rx).stop ==> CaptureOurs(s, tsc, payload, rx).s.stopping
  {
    hide FlushBuffer;
    hide StopRecording;
    hide Append;
    hide Grows;
    var b := s.bufs[s.cur];
    var size := RECORD_HDR + |payload|;
    if !b.inFlight && b.used + size <= s.cfg.bufSize {
      LimitStops(s, tsc, payload, rx.stopRcs);
    } else if !b.inFlight && RoomFor(s.cfg, s.next) {
      var t := NextBuffer(FlushBuffer(s, rx.flushRcs));
      if !t.bufs[t.cur].inFlight && size <= t.cfg.bufSize {
        LimitStops(t, tsc, payload, rx.stopRcs);
      }
    }
    hide AppendAndCheckLimit;
  }

  lemma LimitStops(s: Cap, tsc: nat, payload: seq<byte>, rcs: seq<Rc>)
    requires Shape(s) && s.bufs[s.cur].used + RECORD_HDR + |payload| <= s.cfg.bufSize
    ensures var p := AppendAndCheckLimit(s, tsc, payload, rcs); p.stop ==> p.s.stopping
  {
    hide StopRecording;
    hide Append;
  }

  lemma EventOffered(s: Cap, e: Event)
    requires Shape(s) && Enabled(s, e)
    ensures Offers(EventArrivals(s, e)) <= OfferedBy(s.cfg, e)
    ensures s.recording && !Next(s, e).stopping ==> Offers(EventArrivals(s, e)) == OfferedBy(s.cfg, e)
  {
    hide ArrivalsOf;
    hide OfferedIn;
    hide CapturePoll;
    hide WriteComplete;
    hide RetryFires;
    hide StopRequest;
    if e.Poll? {
      BurstOffered(s, e.tsc, e.burst);
    }
  }

  lemma PrefixJoin(a: seq<Offer>, whole: seq<Offer>, b: seq<Offer>, rest: seq<Offer>)
    requires a <= whole && b <= rest && (a != whole ==> b == [])
    ensures a + b <= whole + rest
  {
  }

  /** The recording goes on as configured, unless it stops. */
  lemma NextStays(s: Cap, e: Event)
    requires Shape(s) && Enabled(s, e)
    ensures var t := Next(s, e); t.cfg == s.cfg && t.recording == s.recording
  {
    hide Next;
    NextGrows(s, e);
  }

  lemma RunStaysStopped(s: Cap, es: seq<Event>)
    requires Shape(s) && Run(s, es).Some?
    ensures s.stopping ==> Run(s, es).value.stopping
  {
    hide Run;
    RunGrows(s, es);
  }

  /** A run takes in the datagrams for the capture port among its frames, from the
      first on and in order; all of them as long as the recording has not stopped. */
  lemma RunOffered(s: Cap, es: seq<Event>)
    requires Shape(s) && Run(s, es).Some?
    ensures PickedFrom(s.cfg, es, Offered(s.cfg, es))
    ensures Offers(RunArrivals(s, es)) <= Offered(s.cfg, es)
    ensures s.recording && !Run(s, es).value.stopping ==> Offers(RunArrivals(s, es)) == Offered(s.cfg, es)
  {
    hide PickedFrom;
    hide Run;
    hide Shape;
    OfferedIsPickedFrom(s.cfg, es, Offered(s.cfg, es));
    RunTakesOffered(s, es);
  }

  lemma {:induction false} RunTakesOffered(s: Cap, es: seq<Event>)
    requires Shape(s) && Run(s, es).Some?
    ensures Offers(RunArrivals(s, es)) <= Offered(s.cfg, es)
    ensures s.recording && !Run(s, es).value.stopping ==> Offers(RunArrivals(s, es)) == Offered(s.cfg, es)
    decreases |es|
  {
    hide Next;
    hide EventArrivals;
    hide OfferedBy;
    hide Shape;
    hide Offers;
    if es == [] {
      NoOffers();
    } else {
      var t := Next(s, es[0]);
      NextStays(s, es[0]);
      RunStaysStopped(t, es[1..]);
      EventOffered(s, es[0]);
      RunTakesOffered(t, es[1..]);
      OffersConcat(EventArrivals(s, es[0]), RunArrivals(t, es[1..]));
      if t.stopping || !s.recording {
        ClosedTakesNothing(t, es[1..]);
        NoOffers();
      }
      PrefixJoin(Offers(EventArrivals(s, es[0])), OfferedBy(s.cfg, es[0]),
                 Offers(RunArrivals(t, es[1..])), Offered(s.cfg, es[1..]));
    }
  }

  lemma NoOffers()
    ensures Offers([]) == []
  {
  }

  lemma {:induction false} ClosedTakesNothing(s: Cap, es: seq<Event>)
    requires Shape(s) && Run(s, es).Some? && (s.stopping || !s.recording)
    ensures RunArrivals(s, es) == []
    decreases |es|
  {
    hide Next;
    if es != [] {
      NextGrows(s, es[0]);
      ClosedTakesNothing(Next(s, es[0]), es[1..]);
    }
  }

  /** When nothing was dropped, every packet that met the recording is in the log. */
  lemma {:induction false} NothingDropped(n: nat, xs: seq<Arrival>)
    requires KeptCount(xs) == |xs|
    ensures |Records(n, xs)| == |xs|
    ensures forall k :: 0 <= k < |xs| ==>
              Records(n, xs)[k] == Record(n + k, xs[k].offer.tsc, xs[k].offer.payload)
    decreases |xs|
  {
    if xs != [] {
      NothingDropped(n + 1, xs[1..]);
    }
  }

  // ---- every record was on the wire ----

  /** Some frame of the run for the capture port carried this record's payload, and
      came with its tsc. */
  ghost predicate WasCarried(c: Config, es: seq<Event>, r: Record) {
    exists i, j, p ::
      && 0 <= i < |es| && es[i].Poll? && 0 <= j < |es[i].burst|
      && Captures(c, es[i].burst[j], p) && p.payload == r.payload && es[i].tsc == r.tsc
  }

  /** Every record a run appends is the payload of a datagram for the capture port
      that arrived in the run. Nothing else is ever logged. */
  lemma EveryRecordWasCarried(s: Cap, es: seq<Event>, k: nat)
    requires Shape(s) && Run(s, es).Some?
    requires |s.h.log| <= k < |Run(s, es).value.h.log|
    ensures WasCarried(s.cfg, es, Run(s, es).value.h.log[k])
  {
    hide Run;
    hide Shape;
    hide RunArrivals;
    hide Offered;
    hide WasCarried;
    RunTook(s, es);
    RunTakesOffered(s, es);
    var xs := RunArrivals(s, es);
    var i := RecordHasArrival(s.recordCount, xs, k - |s.h.log|);
    assert Offers(xs)[i] == xs[i].offer;
    var o := Offered(s.cfg, es)[i];
    OfferHasFrame(s.cfg, es, i);
    CarriedToo(s.cfg, es, o, Run(s, es).value.h.log[k]);
  }

  lemma CarriedToo(c: Config, es: seq<Event>, o: Offer, r: Record)
    requires WasCarried(c, es, Record(0, o.tsc, o.payload)) && r.tsc == o.tsc && r.payload == o.payload
    ensures WasCarried(c, es, r)
  {
    hide Captures;
  }

  lemma {:induction false} RecordHasArrival(n: nat, xs: seq<Arrival>, k: nat) returns (i: nat)
    requires k < |Records(n, xs)|
    ensures i < |xs| && Records(n, xs)[k] == Record(n + k, xs[i].offer.tsc, xs[i].offer.payload)
    decreases |xs|
  {
    if xs[0].kept && k == 0 {
      i := 0;
    } else if xs[0].kept {
      i := RecordHasArrival(n + 1, xs[1..], k - 1);
      i := i + 1;
    } else {
      i := RecordHasArrival(n, xs[1..], k);
      i := i + 1;
    }
  }

  lemma {:induction false} OfferHasFrame(c: Config, es: seq<Event>, k: nat)
    requires k < |Offered(c, es)|
    ensures var o := Offered(c, es)[k]; WasCarried(c, es, Record(0, o.tsc, o.payload))
    decreases |es|
  {
    hide Captures;
    hide OfferedIn;
    var o := Offered(c, es)[k];
    var r := Record(0, o.tsc, o.payload);
    var n := |OfferedBy(c, es[0])|;
    if k < n {
      var j, p := OfferOfBurst(c, es[0].tsc, es[0].burst, k);
      assert Captures(c, es[0].burst[j], p) && p.payload == r.payload && es[0].tsc == r.tsc;
    } else {
      OfferHasFrame(c, es[1..], k - n);
      assert Offered(c, es[1..])[k - n] == o;
      var i, j, p :| && 0 <= i < |es[1..]| && es[1..][i].Poll? && 0 <= j < |es[1..][i].burst|
                     && Captures(c, es[1..][i].burst[j], p) && p.payload == r.payload && es[1..][i].tsc == r.tsc;
      assert es[i + 1] == es[1..][i];
      assert Captures(c, es[i + 1].burst[j], p);
    }
  }

  lemma {:induction false} OfferOfBurst(c: Config, tsc: nat, burst: seq<Rx>, k: nat) returns (j: nat, p: Packet.Parsed)
    requires k < |OfferedIn(c, tsc, burst)|
    ensures j < |burst| && Captures(c, burst[j], p)
    ensures OfferedIn(c, tsc, burst)[k] == Offer(tsc, p.seqNo, p.payload)
    decreases |burst|
  {
    hide Captures;
    hide OursIn;
    hide WireNumber;
    var n := if OursIn(c, burst[0]).Some? then 1 else 0;
    if k < n {
      OfferIff(c, tsc, burst[0], OfferedIn(c, tsc, burst)[k]);
      j := 0;
      p :| Captures(c, burst[0], p) && OfferedIn(c, tsc, burst)[k] == Offer(tsc, p.seqNo, p.payload);
    } else {
      j, p := OfferOfBurst(c, tsc, burst[1..], k - n);
      j := j + 1;
    }
  }

  // ---- whose numbers ----

  /** Where a kept packet ends up in the log. */
  lemma {:induction false} RecordOfArrival(n: nat, xs: seq<Arrival>, i: nat)
    requires i < |xs| && xs[i].kept
    ensures KeptCount(xs[..i]) < |Records(n, xs)|
    ensures Records(n, xs)[KeptCount(xs[..i])]
         == Record(n + KeptCount(xs[..i]), xs[i].offer.tsc, xs[i].offer.payload)
    decreases |xs|
  {
    if i == 0 {
      assert xs[..0] == [];
    } else {
      RecordOfArrival(if xs[0].kept then n + 1 else n, xs[1..], i - 1);
      assert xs[..i][1..] == xs[1..][..i - 1];
    }
  }

  /** The recorder numbers the records itself. The record of a packet carries the
      number the sender gave it exactly if that is the number of packets recorded
      before it. */
  lemma NumberIsSendersIff(xs: seq<Arrival>, i: nat)
    requires i < |xs| && xs[i].kept
    ensures KeptCount(xs[..i]) < |Records(0, xs)|
    ensures Records(0, xs)[KeptCount(xs[..i])].seqNo == xs[i].offer.wire
       <==> xs[i].offer.wire == KeptCount(xs[..i])
  {
    RecordOfArrival(0, xs, i);
  }

  /** So with a sender that counts from 0 and no packet lost on its way, the numbers
      agree exactly up to the first packet that is dropped. */
  lemma NumbersAgreeUntilDrop(xs: seq<Arrival>, i: nat)
    requires i < |xs| && xs[i].kept
    requires forall k :: 0 <= k < |xs| ==> xs[k].offer.wire == k
    ensures KeptCount(xs[..i]) < |Records(0, xs)|
    ensures Records(0, xs)[KeptCount(xs[..i])].seqNo == xs[i].offer.wire
       <==> forall k :: 0 <= k < i ==> xs[k].kept
  {
    RecordOfArrival(0, xs, i);
    AllKeptIff(xs[..i]);
    assert forall k :: 0 <= k < i ==> xs[..i][k] == xs[k];
  }

  lemma {:induction false} AllKeptIff(xs: seq<Arrival>)
    ensures KeptCount(xs) == |xs| <==> forall k :: 0 <= k < |xs| ==> xs[k].kept
  {
    if xs != [] {
      AllKeptIff(xs[1..]);
      assert forall k :: 1 <= k < |xs| ==> xs[k] == xs[1..][k - 1];
      assert forall k :: 0 <= k < |xs[1..]| ==> xs[1..][k] == xs[k + 1];
    }
  }
}
