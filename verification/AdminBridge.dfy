/** The one-slot request/response bridge between the web thread and the
    reactor (chrono_admin_call and chrono_admin_fulfill). Every critical
    section under the request's mutex is one step. */
module AdminBridge {
  import opened Bytes

  // ---- the slot and its critical sections ----

  datatype Slot = Slot(busy: bool, done: bool, abandoned: bool, rc: int)

  const EMPTY_SLOT := Slot(false, false, false, 0)

  function Accept(s: Slot): Slot {
    s.(busy := true, done := false, abandoned := false)
  }

  function Fulfilled(s: Slot, rc: int): Slot {
    if s.abandoned then s.(rc := rc, busy := false) else s.(rc := rc, done := true)
  }

  /** The end of the wait: give up if there is no answer yet, else free the slot. */
  function Settled(s: Slot): Slot {
    if !s.done then s.(abandoned := true) else s.(busy := false)
  }

  /** struct chrono_admin_request, its mutex and condition variable left out:
      each method is one critical section. */
  class AdminRequest {
    var busy: bool
    var done: bool
    var abandoned: bool
    var rc: int

    ghost function View(): Slot
      reads this
    {
      Slot(busy, done, abandoned, rc)
    }

    constructor ()
      ensures View() == EMPTY_SLOT
    {
      busy, done, abandoned, rc := false, false, false, 0;
    }

    /** First critical section of chrono_admin_call; false is -EBUSY. */
    method TryAccept() returns (accepted: bool)
      modifies this
      ensures accepted <==> !old(busy)
      ensures View() == if accepted then Accept(old(View())) else old(View())
    {
      if busy {
        return false;
      }
      busy := true;
      done := false;
      abandoned := false;
      accepted := true;
    }

    /** Second critical section of chrono_admin_call, entered when the wait
        ends; false is -ETIMEDOUT. */
    method Settle() returns (answered: bool)
      modifies this
      ensures answered <==> old(done)
      ensures View() == Settled(old(View()))
    {
      if !done {
        abandoned := true;
        return false;
      }
      busy := false;
      answered := true;
    }

    /** chrono_admin_fulfill. */
    method Fulfill(answer: int)
      modifies this
      ensures View() == Fulfilled(old(View()), answer)
    {
      rc := answer;
      if abandoned {
        busy := false;
        return;
      }
      done := true;
    }
  }

  // ---- both threads ----

  /** Where the web thread is: Sending lies between accepting the slot and
      posting the message, Reading between chrono_admin_call's return of 0 and
      its caller reading rc. */
  datatype Web = Away | Sending(id: nat) | Waiting(id: nat) | Reading(id: nat)

  datatype Outcome = Busy | TimedOut | Answer(rc: int)

  datatype Bridge = Bridge(
    slot: Slot,
    web: Web,
    posted: multiset<nat>,     // messages sent to the reactor, not yet dispatched
    running: multiset<nat>,    // requests dispatched, not yet fulfilled
    next: nat,                 // fresh request ids
    answers: map<nat, int>,    // the rc each request's own handler gave
    results: seq<(nat, Outcome)>) // what each call returned, in order

  datatype Event =
    | Call                      // the web thread enters chrono_admin_call
    | Post                      // spdk_thread_send_msg
    | Dispatch(id: nat)         // the reactor takes a message
    | Finish(id: nat, rc: int)  // that request's handler fulfils it
    | Foreign(rc: int)          // a fulfil no request asked for (a self-initiated finalize)
    | WaitEnds(timeout: bool)   // done was seen, or the deadline passed
    | ReadRc

  const START := Bridge(EMPTY_SLOT, Away, multiset{}, multiset{}, 0, map[], [])

  predicate Enabled(b: Bridge, e: Event) {
    match e
    case Call => b.web.Away?
    case Post => b.web.Sending?
    case Dispatch(id) => id in b.posted
    case Finish(id, _) => id in b.running
    case Foreign(_) => true
    case WaitEnds(timeout) => b.web.Waiting? && (timeout || b.slot.done)
    case ReadRc => b.web.Reading?
  }

  function Step(b: Bridge, e: Event): Bridge
    requires Enabled(b, e)
  {
    match e
    case Call =>
      if b.slot.busy then b.(results := b.results + [(b.next, Busy)], next := b.next + 1)
      else b.(slot := Accept(b.slot), web := Sending(b.next), next := b.next + 1)
    case Post => b.(posted := b.posted + multiset{b.web.id}, web := Waiting(b.web.id))
    case Dispatch(id) => b.(posted := b.posted - multiset{id}, running := b.running + multiset{id})
    case Finish(id, rc) =>
      b.(running := b.running - multiset{id}, answers := b.answers[id := rc],
         slot := Fulfilled(b.slot, rc))
    case Foreign(rc) => b.(slot := Fulfilled(b.slot, rc))
    case WaitEnds(_) =>
      if b.slot.done then b.(slot := Settled(b.slot), web := Reading(b.web.id))
      else b.(slot := Settled(b.slot), web := Away, results := b.results + [(b.web.id, TimedOut)])
    case ReadRc => b.(web := Away, results := b.results + [(b.web.id, Answer(b.slot.rc))])
  }

  /** Foreign fulfils may land only while no call owns the slot or reads from it. */
  predicate Undisturbed(b: Bridge, e: Event) {
    e.Foreign? ==> !b.slot.busy && !b.web.Reading?
  }

  function Outstanding(b: Bridge): multiset<nat> {
    b.posted + b.running
  }

  /** What is true between any two steps: the slot, the web thread and the one
      outstanding request agree. */
  ghost predicate Sound(b: Bridge) {
    && |Outstanding(b)| <= 1
    && (forall id :: id in Outstanding(b) ==> id < b.next && id !in b.answers)
    && (forall id :: id in b.answers ==> id < b.next)
    && (Outstanding(b) != multiset{} ==> b.slot.busy && !b.slot.done)
    && (match b.web
        case Away => b.slot.busy ==> b.slot.abandoned && Outstanding(b) != multiset{}
        case Sending(id) =>
          && id < b.next && id !in b.answers && Outstanding(b) == multiset{}
          && b.slot.busy && !b.slot.done && !b.slot.abandoned
        case Waiting(id) =>
          && id < b.next && b.slot.busy && !b.slot.abandoned
          && (if b.slot.done then id in b.answers && b.answers[id] == b.slot.rc
              else Outstanding(b) == multiset{id})
        case Reading(id) =>
          id in b.answers && b.answers[id] == b.slot.rc && !b.slot.busy)
  }

  /** An answered call carries its own request's rc. */
  ghost predicate Honest(b: Bridge, r: (nat, Outcome)) {
    r.1.Answer? ==> r.0 in b.answers && b.answers[r.0] == r.1.rc
  }

  ghost predicate AllHonest(b: Bridge) {
    forall k :: 0 <= k < |b.results| ==> Honest(b, b.results[k])
  }

  ghost predicate Consistent(b: Bridge) {
    Sound(b) && AllHonest(b)
  }

  lemma AtMostOne(m: multiset<nat>, x: nat)
    requires |m| <= 1 && x in m
    ensures m == multiset{x}
  {
    assert m == multiset{x} + (m - multiset{x});
  }

  lemma DispatchKeepsSound(b: Bridge, id: nat)
    requires Sound(b) && id in b.posted
    ensures Sound(Step(b, Dispatch(id)))
  {
    var b' := Step(b, Dispatch(id));
    assert Outstanding(b') == Outstanding(b);
  }

  lemma FinishKeepsSound(b: Bridge, id: nat, rc: int)
    requires Sound(b) && id in b.running
    ensures Sound(Step(b, Finish(id, rc)))
  {
    var b' := Step(b, Finish(id, rc));
    assert id in Outstanding(b);
    AtMostOne(Outstanding(b), id);
    assert Outstanding(b') == Outstanding(b) - multiset{id} == multiset{};
  }

  lemma PostKeepsSound(b: Bridge)
    requires Sound(b) && b.web.Sending?
    ensures Sound(Step(b, Post))
  {
    assert Outstanding(Step(b, Post)) == Outstanding(b) + multiset{b.web.id} == multiset{b.web.id};
  }

  lemma WebKeepsSound(b: Bridge, e: Event)
    requires Sound(b) && Enabled(b, e) && Undisturbed(b, e)
    requires e.Call? || e.WaitEnds? || e.ReadRc? || e.Foreign?
    ensures Sound(Step(b, e))
  {
    assert Outstanding(Step(b, e)) == Outstanding(b);
  }

  lemma StepKeepsHonest(b: Bridge, e: Event)
    requires Consistent(b) && Enabled(b, e)
    ensures AllHonest(Step(b, e))
  {
    match e {
      case Finish(id, rc) => FinishKeepsHonest(b, id, rc);
      case _ => NewResultsHonest(b, e);
    }
  }

  /** A handler's answer belongs to a request that had none, so no result changes. */
  lemma FinishKeepsHonest(b: Bridge, id: nat, rc: int)
    requires Consistent(b) && id in b.running
    ensures forall k :: 0 <= k < |b.results| ==> Honest(Step(b, Finish(id, rc)), b.results[k])
    ensures Step(b, Finish(id, rc)).results == b.results
  {
    assert id in Outstanding(b) && id !in b.answers;
    hide Sound;
    forall k | 0 <= k < |b.results| ensures Honest(Step(b, Finish(id, rc)), b.results[k]) {
      assert Honest(b, b.results[k]);
    }
  }

  /** Every other event leaves the answers alone, and adds at most one result. */
  lemma NewResultsHonest(b: Bridge, e: Event)
    requires Consistent(b) && Enabled(b, e) && !e.Finish?
    ensures AllHonest(Step(b, e))
  {
    var b' := Step(b, e);
    assert e.ReadRc? ==> b.web.id in b.answers && b.answers[b.web.id] == b.slot.rc;
    hide Sound;
    hide Honest;
    match e {
      case Call =>
        if b.slot.busy {
          ResultAdded(b, b', (b.next, Busy));
        } else {
          ResultsKept(b, b');
        }
      case WaitEnds(_) =>
        if b.slot.done {
          ResultsKept(b, b');
        } else {
          ResultAdded(b, b', (b.web.id, TimedOut));
        }
      case ReadRc => ResultAdded(b, b', (b.web.id, Answer(b.slot.rc)));
      case _ => ResultsKept(b, b');
    }
  }

  lemma ResultsKept(b: Bridge, b': Bridge)
    requires AllHonest(b) && b'.answers == b.answers && b'.results == b.results
    ensures AllHonest(b')
  {
    forall k | 0 <= k < |b'.results| ensures Honest(b', b'.results[k]) {
      assert Honest(b, b.results[k]);
    }
  }

  lemma ResultAdded(b: Bridge, b': Bridge, r: (nat, Outcome))
    requires AllHonest(b) && b'.answers == b.answers && b'.results == b.results + [r]
    requires r.1.Answer? ==> r.0 in b.answers && b.answers[r.0] == r.1.rc
    ensures AllHonest(b')
  {
    forall k | 0 <= k < |b'.results| ensures Honest(b', b'.results[k]) {
      if k < |b.results| {
        assert Honest(b, b.results[k]);
      }
    }
  }

  lemma StepKeepsConsistent(b: Bridge, e: Event)
    requires Consistent(b) && Enabled(b, e) && Undisturbed(b, e)
    ensures Consistent(Step(b, e))
  {
    hide Sound;
    match e {
      case Dispatch(id) => DispatchKeepsSound(b, id);
      case Finish(id, rc) => FinishKeepsSound(b, id, rc);
      case Post => PostKeepsSound(b);
      case _ => WebKeepsSound(b, e);
    }
    StepKeepsHonest(b, e);
  }

  /** A run from the start; None when some event was not possible. */
  function Run(b: Bridge, es: seq<Event>): Option<Bridge>
    decreases |es|
  {
    if es == [] then Some(b)
    else if Enabled(b, es[0]) then Run(Step(b, es[0]), es[1..]) else None
  }

  ghost predicate QuietRun(b: Bridge, es: seq<Event>)
    decreases |es|
  {
    es == [] || (Enabled(b, es[0]) && Undisturbed(b, es[0]) && QuietRun(Step(b, es[0]), es[1..]))
  }

  /** In every interleaving of both threads, timeouts included: a call that
      returns an answer returns its own request's rc, a timed-out request's late
      answer never ends up in a later call, and at most one dispatch is
      outstanding. */
  lemma {:induction false} BridgeIsHonest(b: Bridge, es: seq<Event>)
    requires Consistent(b) && QuietRun(b, es)
    ensures Run(b, es).Some? && Consistent(Run(b, es).value)
    decreases |es|
  {
    if es != [] {
      StepKeepsConsistent(b, es[0]);
      BridgeIsHonest(Step(b, es[0]), es[1..]);
    }
  }

  lemma HonestFromStart(es: seq<Event>, k: nat)
    requires QuietRun(START, es)
    ensures Run(START, es).Some?
    ensures var b := Run(START, es).value;
            && |b.posted| + |b.running| <= 1
            && (k < |b.results| && b.results[k].1.Answer? ==>
                  b.results[k].0 in b.answers && b.answers[b.results[k].0] == b.results[k].1.rc)
  {
    BridgeIsHonest(START, es);
    var b := Run(START, es).value;
    assert |Outstanding(b)| == |b.posted| + |b.running|;
    assert k < |b.results| ==> Honest(b, b.results[k]);
  }

  /** Once nothing is outstanding the slot is free again, so a timeout never
      wedges the bridge for longer than the late handler takes. */
  lemma SlotRecovers(b: Bridge)
    requires Consistent(b) && b.web.Away?
    ensures b.slot.busy <==> Outstanding(b) != multiset{}
  {
  }

  /** What a call returns. It is refused exactly while an earlier call's handler is
      still running. Its wait ends without an answer exactly if its own request has
      not been answered, and then it gives up; otherwise it reads the answer its own
      request was given. */
  lemma CallReturns(b: Bridge, timeout: bool)
    requires Consistent(b)
    ensures b.web.Away? ==>
              if Outstanding(b) != multiset{} then Step(b, Call).results == b.results + [(b.next, Busy)]
              else Step(b, Call).web == Sending(b.next) && Step(b, Call).results == b.results
    ensures Enabled(b, WaitEnds(timeout)) ==>
              var id, b' := b.web.id, Step(b, WaitEnds(timeout));
              if id in b.answers then b'.web == Reading(id) && b'.results == b.results
              else timeout && b'.web.Away? && b'.results == b.results + [(id, TimedOut)]
    ensures b.web.Reading? ==>
              && b.web.id in b.answers
              && Step(b, ReadRc).results == b.results + [(b.web.id, Answer(b.answers[b.web.id]))]
  {
    if b.web.Away? {
      SlotRecovers(b);
    }
    if b.web.Waiting? && !b.slot.done {
      assert b.web.id in Outstanding(b);
    }
  }

  /** A foreign fulfil is harmless, whatever its rc, exactly while no call owns
      the slot or is about to read rc from it. */
  lemma ForeignHarmlessIff(b: Bridge)
    requires Consistent(b)
    ensures (forall rc :: Consistent(Step(b, Foreign(rc)))) <==> !b.slot.busy && !b.web.Reading?
  {
    if !b.slot.busy && !b.web.Reading? {
      forall rc ensures Consistent(Step(b, Foreign(rc))) {
        StepKeepsConsistent(b, Foreign(rc));
      }
    } else {
      ForeignDoesHarm(b, b.slot.rc + 1);
    }
  }

  lemma ForeignDoesHarm(b: Bridge, rc: int)
    requires Consistent(b) && (b.slot.busy || b.web.Reading?) && rc != b.slot.rc
    ensures !Consistent(Step(b, Foreign(rc)))
  {
  }

  /** Such a fulfil really ends the waiting call with the wrong rc. */
  lemma ForeignAnswersTheCall(b: Bridge, rc: int)
    requires Consistent(b) && b.web.Waiting? && !b.slot.done
    ensures Run(b, [Foreign(rc), WaitEnds(false), ReadRc]).Some?
    ensures var b' := Run(b, [Foreign(rc), WaitEnds(false), ReadRc]).value;
            b'.results == b.results + [(b.web.id, Answer(rc))] && b.web.id !in b'.answers
  {
    var b1 := Step(b, Foreign(rc));
    var b2 := Step(b1, WaitEnds(false));
    var es := [Foreign(rc), WaitEnds(false), ReadRc];
    assert es[1..] == [WaitEnds(false), ReadRc] && es[1..][1..] == [ReadRc];
    assert Run(b2, [ReadRc]) == Run(Step(b2, ReadRc), []);
    assert b.web.id in Outstanding(b);
  }
}
