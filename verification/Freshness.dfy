/** What one reading of the counters rests on, and exactly when it is fresh. */
module Freshness {
  import opened Bits
  import opened Wrappers
  import opened Target
  import opened Transport
  import opened Oracles
  import Ccsds

  // ---- The event a wait is decided by --------------------------------------------------------------

  /** The first event before the deadline that is an error or passes the filter. */
  function FirstDecisive(f: Filter, pending: seq<Event>, deadline: real): (e: Option<Event>)
    ensures e.Some? ==> e.value in pending && e.value.at < deadline && Decisive(f, e.value)
  {
    var n := Rejected(f, pending, deadline);
    if n < |pending| && pending[n].at < deadline then Some(pending[n]) else None
  }

  lemma FirstDecisiveStep(f: Filter, pending: seq<Event>, deadline: real)
    requires pending != []
    ensures FirstDecisive(f, pending, deadline)
         == if pending[0].at >= deadline then None
            else if Decisive(f, pending[0]) then Some(pending[0])
            else FirstDecisive(f, pending[1..], deadline)
  {
    hide Decisive;
  }

  lemma AwaitDecisive(f: Filter, now: real, pending: seq<Event>, deadline: real)
    requires now < deadline
    ensures var a := Await(f, now, pending, deadline);
      match FirstDecisive(f, pending, deadline)
      case None => a.reply == None && a.error == None
      case Some(Datagram(_, _, data)) => a.reply == Some(Truncate(data)) && a.error == None
      case Some(Fault(_, errno)) => a.reply == None && a.error == Some(ReceiveError(errno))
  {
    AwaitDecided(f, now, pending, deadline);
  }

  /** What a drain, a request and a wait are decided by; a timeout that is not positive reads nothing. */
  function Heard(k: Link, request: Bytes, timeout: real, w: World): Option<Event> {
    var sent := SendStep(k, DrainStep(w), request);
    if timeout <= 0.0 then None else FirstDecisive(k.filter, sent.pending, sent.now + timeout)
  }

  /** The reading an event leads to. */
  function ReadingOf(e: Event): Reading {
    match e
    case Fault(_, errno) => Failed(ReceiveError(errno))
    case Datagram(_, _, data) =>
      var counters := ParseHkCounters(Truncate(data));
      if counters.None? then Unparsable else Counts(counters.value)
  }

  /**
    On any schedule a reading is decided by its own send, if refused, and otherwise by the first event,
    after the drain and before the deadline, that is an error or passes the filter.
   */
  lemma ReadingIsFirstDecisive(k: Link, hkRequest: Bytes, timeout: real, w: World)
    ensures ReadStep(k, hkRequest, timeout, w).0 == (
      match k.fates(w.sends, hkRequest).outcome
      case Refused(errno) => Failed(SendError(errno, |hkRequest|))
      case _ =>
        match Heard(k, hkRequest, timeout, w)
        case None => NoReply
        case Some(e) => ReadingOf(e))
  {
    hide Drained, Await, Passes, ParseHkCounters, Serve, FirstDecisive, Insert;
    var sent := SendStep(k, DrainStep(w), hkRequest);
    if timeout > 0.0 {
      AwaitDecisive(k.filter, sent.now, sent.pending, sent.now + timeout);
    } else {
      AwaitNoTime(k.filter, sent.now, sent.pending, sent.now + timeout);
    }
  }

  lemma AwaitNoTime(f: Filter, now: real, pending: seq<Event>, deadline: real)
    requires now >= deadline
    ensures Await(f, now, pending, deadline) == Awaited(None, None, now, pending)
  {
  }

  /** A reading aborts the run exactly when the datagram deciding it is too short to parse. */
  predicate ShortReply(k: Link, hkRequest: Bytes, timeout: real, w: World) {
    && !k.fates(w.sends, hkRequest).outcome.Refused?
    && match Heard(k, hkRequest, timeout, w)
       case Some(Datagram(_, _, data)) => |Truncate(data)| < HK_PACKET_SIZE
       case _ => false
  }

  lemma UnparsableIffShort(k: Link, hkRequest: Bytes, timeout: real, w: World)
    ensures ReadStep(k, hkRequest, timeout, w).0 == Unparsable <==> ShortReply(k, hkRequest, timeout, w)
  {
    hide ReadStep, Heard;
    ReadingIsFirstDecisive(k, hkRequest, timeout, w);
  }

  // ---- When the answer is what decides ---------------------------------------------------------------

  /** The reply filter lets the target's own housekeeping replies (APID 0) through. */
  predicate Admits(k: Link) {
    && (k.filter.host == None || k.filter.host.value == k.targetHost)
    && (k.filter.apid == None || k.filter.apid.value == 0)
  }

  /** A housekeeping request gets through, and a reply to it is back before the probe times out. */
  predicate Prompt(f: Fate, timeout: real) {
    f.outcome.Delivered? && f.outcome.reply.Some? && f.outcome.reply.value < f.took + timeout
  }

  /** The first error or passing datagram on a schedule that arrives no later than `limit`. */
  function Straggler(f: Filter, pending: seq<Event>, limit: real): (e: Option<Event>)
    ensures e.Some? ==> e.value in pending && e.value.at <= limit && Decisive(f, e.value)
    ensures e == None && Sorted(pending) ==>
      forall x :: x in pending && x.at <= limit ==> !Decisive(f, x)
  {
    if pending == [] || pending[0].at > limit then None
    else if Decisive(f, pending[0]) then Some(pending[0])
    else Straggler(f, pending[1..], limit)
  }

  /** A reply inserted into a schedule decides the wait unless a straggler arrives no later. */
  lemma {:induction false} InsertedDecides(f: Filter, pending: seq<Event>, r: Event, deadline: real)
    requires Decisive(f, r) && r.at < deadline
    ensures FirstDecisive(f, Insert(pending, r), deadline)
         == (var d := Straggler(f, pending, r.at); if d.Some? then d else Some(r))
    decreases |pending|
  {
    hide Decisive, FirstDecisive;
    FirstDecisiveStep(f, Insert(pending, r), deadline);
    if pending != [] && r.at >= pending[0].at {
      InsertedDecides(f, pending[1..], r, deadline);
      assert Insert(pending, r)[1..] == Insert(pending[1..], r);
    }
  }

  /** A reply after the deadline changes nothing. */
  lemma {:induction false} InsertedTooLate(f: Filter, pending: seq<Event>, r: Event, deadline: real)
    requires r.at >= deadline
    ensures FirstDecisive(f, Insert(pending, r), deadline) == FirstDecisive(f, pending, deadline)
    decreases |pending|
  {
    hide Decisive, FirstDecisive;
    FirstDecisiveStep(f, Insert(pending, r), deadline);
    if pending == [] {
      assert FirstDecisive(f, pending, deadline) == None;
    } else {
      FirstDecisiveStep(f, pending, deadline);
      if r.at >= pending[0].at {
        InsertedTooLate(f, pending[1..], r, deadline);
        assert Insert(pending, r)[1..] == Insert(pending[1..], r);
      }
    }
  }

  lemma HkReplyPasses(k: Link, s: TargetState)
    requires Admits(k)
    ensures Passes(k.filter, k.targetHost, s.HkReply()) && Truncate(s.HkReply()) == s.HkReply()
  {
    hide EncodePayload;
    var b := s.HkReply();
    assert Ccsds.Word(b, 0) == 0;
  }

  /** The answer of a live target to the request sent in world `w`. */
  function Answer(k: Link, w: World, delay: real): Event {
    Datagram(w.now + delay, k.targetHost, w.target.HkReply())
  }

  /** What a prompt exchange with a live target is decided by: a straggler, or the answer. */
  lemma PromptlyHeard(k: Link, timeout: real, w: World)
    requires Admits(k) && w.target.alive && timeout > 0.0 && Prompt(k.fates(w.sends, HK_REQUEST), timeout)
    ensures var delay := k.fates(w.sends, HK_REQUEST).outcome.reply.value;
      var d := Straggler(k.filter, Drained(w.now, w.pending), w.now + delay);
      Heard(k, HK_REQUEST, timeout, w) == if d.Some? then d else Some(Answer(k, w, delay))
  {
    hide Drained, Insert, FirstDecisive, Straggler, Passes, TargetState.HkReply;
    var f := k.fates(w.sends, HK_REQUEST);
    HkReplyPasses(k, w.target);
    InsertedDecides(k.filter, Drained(w.now, w.pending), Answer(k, w, f.outcome.reply.value),
                    w.now + f.took + timeout);
  }

  lemma AnswerReads(k: Link, w: World, delay: real)
    requires Admits(k)
    ensures ReadingOf(Answer(k, w, delay)) == Counts(w.target.Telemetry())
  {
    hide TargetState.HkReply, ParseHkCounters, TargetState.Telemetry, Passes;
    HkReplyPasses(k, w.target);
    HkReplyParses(w.target);
  }

  /**
    Evidence freshness, exactly: a prompt reading of a live target shows the target's present counters if
    and only if nothing left after the drain overtakes the answer, or what does reads the same.
   */
  lemma FreshIff(k: Link, timeout: real, w: World)
    requires Admits(k) && w.target.alive && timeout > 0.0 && Prompt(k.fates(w.sends, HK_REQUEST), timeout)
    ensures var d := Straggler(k.filter, Drained(w.now, w.pending),
                               w.now + k.fates(w.sends, HK_REQUEST).outcome.reply.value);
      (ReadStep(k, HK_REQUEST, timeout, w).0 == Counts(w.target.Telemetry()))
        <==> (d == None || ReadingOf(d.value) == Counts(w.target.Telemetry()))
  {
    hide ReadStep, Heard, ReadingOf, Straggler, Drained, TargetState.Telemetry;
    PromptlyHeard(k, timeout, w);
    AnswerReads(k, w, k.fates(w.sends, HK_REQUEST).outcome.reply.value);
    ReadingIsFirstDecisive(k, HK_REQUEST, timeout, w);
  }

  /** A reply from state `earlier`, in flight at the drain, is believed if and only if it does not arrive later. */
  lemma StragglerBelievedIff(k: Link, timeout: real, w: World, at: real, earlier: TargetState)
    requires Admits(k) && w.target.alive && timeout > 0.0 && Prompt(k.fates(w.sends, HK_REQUEST), timeout)
    requires w.pending == [Datagram(at, k.targetHost, earlier.HkReply())] && w.now < at
    ensures ReadStep(k, HK_REQUEST, timeout, w).0
         == Counts(if at <= w.now + k.fates(w.sends, HK_REQUEST).outcome.reply.value
                   then earlier.Telemetry() else w.target.Telemetry())
  {
    hide ReadStep, Heard, TargetState.Telemetry, TargetState.HkReply, ParseHkCounters, Passes;
    var delay := k.fates(w.sends, HK_REQUEST).outcome.reply.value;
    assert Drained(w.now, w.pending) == w.pending;
    HkReplyPasses(k, earlier);
    HkReplyParses(earlier);
    assert Straggler(k.filter, w.pending[1..], w.now + delay) == None;
    PromptlyHeard(k, timeout, w);
    AnswerReads(k, w, delay);
    ReadingIsFirstDecisive(k, HK_REQUEST, timeout, w);
  }
}
