/**
  The UDP transport over an arbitrary datagram network.

  The network is a clock, a time-ordered schedule of pending socket events (datagrams from anybody, or
  OS errors), and a target at the far end. Everything the network may decide is an input: whether the
  n-th send is refused, lost or delivered, how long it takes, and when (or whether) a reply comes back.
 */
module Transport {
  import opened Bits
  import opened Wrappers
  import opened Ccsds
  import opened Target

  type Host = string
  type Duration = r: real | r >= 0.0

  const RECV_BUFFER: nat := 65535

  datatype Event = Datagram(at: real, host: Host, data: Bytes) | Fault(at: real, errno: int)

  datatype Outcome = Refused(errno: int) | Lost | Delivered(reply: Option<Duration>)
  datatype Fate = Fate(took: Duration, outcome: Outcome)

  datatype TransportError = SendError(errno: int, packetLength: nat) | ReceiveError(errno: int)

  /** `allowed_reply_host` and `allowed_reply_apid`. */
  datatype Filter = Filter(host: Option<Host>, apid: Option<int>)

  /** What stays fixed during a run: the network's decisions, the target's kind, the transport's settings. */
  datatype Link = Link(fates: (nat, Bytes) -> Fate, targetHost: Host, expectedApid: int, buggy: bool, filter: Filter,
                       probePayload: Bytes)

  datatype World = World(
    now: real,
    pending: seq<Event>,
    sends: nat,
    target: TargetState,
    lastError: Option<TransportError>)

  function Later(a: real, b: real): real {
    if a < b then b else a
  }

  /** A datagram longer than the receive buffer is cut. */
  function Truncate(data: Bytes): Bytes {
    if |data| > RECV_BUFFER then data[..RECV_BUFFER] else data
  }

  /** The host and APID filters of `receive`. */
  predicate Passes(f: Filter, host: Host, data: Bytes) {
    && (f.host == None || f.host.value == host)
    && (f.apid == None || (|data| >= PRIMARY_HEADER_SIZE && Unpack(data).value.apid == f.apid.value))
  }

  /** An event that ends a `receive`: an OS error, or a datagram the filters let through. */
  predicate Decisive(f: Filter, e: Event) {
    e.Fault? || Passes(f, e.host, Truncate(e.data))
  }

  ghost predicate Sorted(pending: seq<Event>) {
    forall i, j :: 0 <= i < j < |pending| ==> pending[i].at <= pending[j].at
  }

  /** Queues an event behind everything that arrives no later. */
  function Insert(pending: seq<Event>, e: Event): seq<Event> {
    if pending == [] || e.at < pending[0].at then [e] + pending
    else [pending[0]] + Insert(pending[1..], e)
  }

  // ---- Specification of the four transport operations -------------------------------------------

  function SendStep(k: Link, w: World, data: Bytes): World {
    var fate := k.fates(w.sends, data);
    var sent := w.(now := w.now + fate.took, sends := w.sends + 1, lastError := None);
    match fate.outcome
    case Refused(errno) => sent.(lastError := Some(SendError(errno, |data|)))
    case Lost => sent
    case Delivered(delay) =>
      var (target, reply) := Serve(k.expectedApid, k.buggy, w.target, Truncate(data));
      sent.(target := target,
            pending := if reply.Some? && delay.Some?
                       then Insert(w.pending, Datagram(w.now + delay.value, k.targetHost, reply.value))
                       else w.pending)
  }

  datatype Awaited = Awaited(reply: Option<Bytes>, error: Option<TransportError>, now: real, pending: seq<Event>)

  /** `receive`'s loop against one fixed deadline: time passes only while waiting for the next event. */
  function Await(f: Filter, now: real, pending: seq<Event>, deadline: real): Awaited
    decreases |pending|
  {
    if now >= deadline then Awaited(None, None, now, pending)
    else if pending == [] || (pending[0].at > now && pending[0].at >= deadline) then
      Awaited(None, None, deadline, pending)
    else
      var e, rest, clock := pending[0], pending[1..], Later(now, pending[0].at);
      if e.Fault? then Awaited(None, Some(ReceiveError(e.errno)), clock, rest)
      else if Passes(f, e.host, Truncate(e.data)) then Awaited(Some(Truncate(e.data)), None, clock, rest)
      else Await(f, clock, rest, deadline)
  }

  function ReceiveStep(k: Link, w: World, timeout: real): (Option<Bytes>, World) {
    var a := Await(k.filter, w.now, w.pending, w.now + timeout);
    (a.reply, w.(now := a.now, pending := a.pending, lastError := a.error))
  }

  /** Non-blocking reads until nothing is queued or the socket reports an error. */
  function Drained(now: real, pending: seq<Event>): seq<Event> {
    if pending == [] || pending[0].at > now then pending
    else if pending[0].Fault? then pending[1..]
    else Drained(now, pending[1..])
  }

  function DrainStep(w: World): World {
    w.(pending := Drained(w.now, w.pending))
  }

  function ProbeStep(k: Link, w: World, timeout: real): (bool, World) {
    var sent := SendStep(k, DrainStep(w), k.probePayload);
    if sent.lastError.Some? then (false, sent) else
    var (reply, received) := ReceiveStep(k, sent, timeout);
    (reply.Some?, received)
  }

  // ---- The network and the transport as objects -------------------------------------------------

  datatype Received = Got(host: Host, data: Bytes) | TimedOut | OsFailure(errno: int)

  class Network {
    const fates: (nat, Bytes) -> Fate
    const targetHost: Host
    const target: MockTarget
    var now: real
    var pending: seq<Event>
    var sends: nat

    constructor (fates: (nat, Bytes) -> Fate, targetHost: Host, target: MockTarget, now: real, pending: seq<Event>)
      ensures this.fates == fates && this.targetHost == targetHost && this.target == target
      ensures this.now == now && this.pending == pending && sends == 0
    {
      this.fates, this.targetHost, this.target := fates, targetHost, target;
      this.now, this.pending, sends := now, pending, 0;
    }

    /** `sendto`; an errno means the OS refused the datagram. */
    method SendTo(data: Bytes) returns (refused: Option<int>)
      modifies this, target
      ensures now == old(now) + fates(old(sends), data).took && sends == old(sends) + 1
      ensures var outcome := fates(old(sends), data).outcome;
        var (served, reply) := Serve(target.expectedApid, target.buggy, old(target.State()), Truncate(data));
        && refused == (if outcome.Refused? then Some(outcome.errno) else None)
        && target.State() == (if outcome.Delivered? then served else old(target.State()))
        && pending == (if outcome.Delivered? && outcome.reply.Some? && reply.Some?
                       then Insert(old(pending), Datagram(old(now) + outcome.reply.value, targetHost, reply.value))
                       else old(pending))
    {
      var fate := fates(sends, data);
      var sentAt := now;
      sends := sends + 1;
      now := now + fate.took;
      match fate.outcome {
        case Refused(errno) =>
          return Some(errno);
        case Lost =>
          return None;
        case Delivered(delay) =>
          var reply := target.ServeOne(Truncate(data));
          if reply.Some? && delay.Some? {
            pending := Insert(pending, Datagram(sentAt + delay.value, targetHost, reply.value));
          }
          return None;
      }
    }

    /** `recvfrom` after `settimeout(timeout)`; a timeout of zero does not block. */
    method RecvFrom(timeout: real) returns (r: Received)
      requires timeout >= 0.0
      modifies `now, `pending
      ensures old(pending) == [] || (old(pending)[0].at > old(now) && old(pending)[0].at >= old(now) + timeout)
          ==> r == TimedOut && now == old(now) + timeout && pending == old(pending)
      ensures !(old(pending) == [] || (old(pending)[0].at > old(now) && old(pending)[0].at >= old(now) + timeout))
          ==> && now == (if old(pending)[0].at > old(now) then old(pending)[0].at else old(now))
              && pending == old(pending)[1..]
              && r == match old(pending)[0]
                      case Datagram(_, host, data) => Got(host, Truncate(data))
                      case Fault(_, errno) => OsFailure(errno)
    {
      if |pending| == 0 || (pending[0].at > now && pending[0].at >= now + timeout) {
        now := now + timeout;
        return TimedOut;
      }
      var e := pending[0];
      now, pending := Later(now, e.at), pending[1..];
      match e {
        case Datagram(_, host, data) => return Got(host, Truncate(data));
        case Fault(_, errno) => return OsFailure(errno);
      }
    }
  }

  class UDPTransport {
    const net: Network
    const filter: Filter
    const probePayload: Bytes
    var lastError: Option<TransportError>

    constructor (net: Network, filter: Filter, probePayload: Bytes)
      ensures this.net == net && this.filter == filter && this.probePayload == probePayload && lastError == None
    {
      this.net, this.filter, this.probePayload, lastError := net, filter, probePayload, None;
    }

    ghost function Channel(): Link {
      Link(net.fates, net.targetHost, net.target.expectedApid, net.target.buggy, filter, probePayload)
    }

    ghost function State(): World
      reads this, net, net.target
    {
      World(net.now, net.pending, net.sends, net.target.State(), lastError)
    }

    method Send(data: Bytes)
      modifies this, net, net.target
      ensures State() == SendStep(Channel(), old(State()), data)
      ensures lastError == match net.fates(old(net.sends), data).outcome
                           case Refused(errno) => Some(SendError(errno, |data|))
                           case _ => None
    {
      lastError := None;
      var refused := net.SendTo(data);
      if refused.Some? {
        lastError := Some(SendError(refused.value, |data|));
      }
    }

    method Receive(timeout: real) returns (reply: Option<Bytes>)
      modifies this, net
      ensures (reply, State()) == ReceiveStep(Channel(), old(State()), timeout)
      ensures reply.Some? ==> lastError == None
      ensures lastError.Some? ==> lastError.value.ReceiveError?
      ensures timeout <= 0.0 ==> reply == None && lastError == None && net.pending == old(net.pending)
    {
      lastError := None;
      var deadline := net.now + timeout;
      while true
        invariant lastError == None
        invariant net.sends == old(net.sends)
        invariant Await(filter, net.now, net.pending, deadline)
               == Await(filter, old(net.now), old(net.pending), deadline)
        decreases |net.pending|
      {
        var remaining := deadline - net.now;
        if remaining <= 0.0 {
          return None;
        }
        var received := net.RecvFrom(remaining);
        match received {
          case TimedOut =>
            return None;
          case OsFailure(errno) =>
            lastError := Some(ReceiveError(errno));
            return None;
          case Got(host, data) =>
            if filter.host.Some? && host != filter.host.value {
              continue;
            }
            if filter.apid.Some? {
              if |data| < PRIMARY_HEADER_SIZE || UnpackBits(data).value.apid != filter.apid.value {
                continue;
              }
            }
            return Some(data);
        }
      }
    }

    method DrainStaleReplies()
      modifies net
      ensures State() == DrainStep(old(State()))
    {
      while true
        invariant net.now == old(net.now) && net.sends == old(net.sends)
        invariant Drained(net.now, net.pending) == Drained(old(net.now), old(net.pending))
        decreases |net.pending|
      {
        var received := net.RecvFrom(0.0);
        if !received.Got? {
          break;
        }
      }
    }

    method Probe(timeout: real) returns (alive: bool)
      modifies this, net, net.target
      ensures (alive, State()) == ProbeStep(Channel(), old(State()), timeout)
    {
      DrainStaleReplies();
      Send(probePayload);
      if lastError.Some? {
        return false;
      }
      var reply := Receive(timeout);
      return reply.Some?;
    }
  }

  // ---- What receive returns, and when ---------------------------------------------------------------

  /** How many leading events a receive with this deadline reads and rejects. */
  function Rejected(f: Filter, pending: seq<Event>, deadline: real): (n: nat)
    ensures n <= |pending|
    ensures forall j :: 0 <= j < n ==> pending[j].at < deadline && !Decisive(f, pending[j])
    ensures n < |pending| && pending[n].at < deadline ==> Decisive(f, pending[n])
  {
    if pending == [] || pending[0].at >= deadline || Decisive(f, pending[0]) then 0
    else 1 + Rejected(f, pending[1..], deadline)
  }

  /**
    Receive is decided by one deadline fixed at the call. On a time-ordered schedule it returns the
    first decisive event arriving before the deadline, however many rejected datagrams come first, and
    otherwise times out at the deadline having read exactly the events before it. Only an OS error
    leaves an error behind.
   */
  lemma {:induction false} AwaitExact(f: Filter, now: real, pending: seq<Event>, deadline: real)
    requires Sorted(pending) && now < deadline
    ensures var n := Rejected(f, pending, deadline);
      if n < |pending| && pending[n].at < deadline then
        Await(f, now, pending, deadline) == (
          match pending[n]
          case Datagram(at, _, data) => Awaited(Some(Truncate(data)), None, Later(now, at), pending[n + 1..])
          case Fault(at, errno) => Awaited(None, Some(ReceiveError(errno)), Later(now, at), pending[n + 1..]))
      else
        && Await(f, now, pending, deadline) == Awaited(None, None, deadline, pending[n..])
        && (forall j :: n <= j < |pending| ==> pending[j].at >= deadline)
    decreases |pending|
  {
    if pending != [] && pending[0].at < deadline && !Decisive(f, pending[0]) {
      AwaitExact(f, Later(now, pending[0].at), pending[1..], deadline);
      var n := Rejected(f, pending[1..], deadline);
      assert pending[1..][n..] == pending[n + 1..];
      if n < |pending| - 1 {
        assert pending[1..][n + 1..] == pending[n + 2..];
      } else {
      }
    }
  }

  /**
    What ends a receive, in terms of the datagrams themselves. The events before the `n`-th are read and let
    go, each of them a datagram from another host than the allowed one, or too short for a header, or with
    another APID than the allowed one. The `n`-th, if it arrives before the deadline, is the first that is
    none of these: an OS error, which is recorded, or a datagram that meets both conditions, which is
    returned, cut to the receive buffer. Otherwise nothing is. The clock never goes back.
   */
  lemma ReceiveDecidedBy(f: Filter, now: real, pending: seq<Event>, deadline: real) returns (n: nat)
    requires now < deadline
    ensures n <= |pending|
    ensures forall j :: 0 <= j < n ==>
      && pending[j].Datagram? && pending[j].at < deadline
      && (|| (f.host.Some? && pending[j].host != f.host.value)
          || (f.apid.Some? && (|| |pending[j].data| < 6
                               || (256 * (pending[j].data[0] as int) + pending[j].data[1]) % 2048 != f.apid.value)))
    ensures var a := Await(f, now, pending, deadline);
      && (a.reply.Some? || a.error.Some? <==> n < |pending| && pending[n].at < deadline)
      && (a.reply.Some? ==>
            && pending[n].Datagram? && a.error == None && a.pending == pending[n + 1..]
            && (f.host.Some? ==> pending[n].host == f.host.value)
            && (f.apid.Some? ==> && |pending[n].data| >= 6
                                 && (256 * (pending[n].data[0] as int) + pending[n].data[1]) % 2048 == f.apid.value)
            && a.reply.value == (if |pending[n].data| > 65535 then pending[n].data[..65535] else pending[n].data))
      && (a.error.Some? ==>
            && pending[n].Fault? && a.error == Some(ReceiveError(pending[n].errno)) && a.pending == pending[n + 1..])
      && (a.reply == None && a.error == None ==> a.pending == pending[n..] && a.now == deadline)
      && now <= a.now <= deadline
      && (Sorted(pending) && (a.reply.Some? || a.error.Some?) ==>
            a.now == if pending[n].at > now then pending[n].at else now)
  {
    hide Decisive, Await, Truncate;
    n := Rejected(f, pending, deadline);
    AwaitDecided(f, now, pending, deadline);
    forall j | 0 <= j < |pending| ensures Decisive(f, pending[j]) <==>
      || pending[j].Fault?
      || (&& (f.host.Some? ==> pending[j].host == f.host.value)
          && (f.apid.Some? ==> && |pending[j].data| >= 6
                               && (256 * (pending[j].data[0] as int) + pending[j].data[1]) % 2048 == f.apid.value))
    {
      FilterOnOctets(f, pending[j]);
    }
    if n < |pending| && pending[n].Datagram? {
      ReceiveBuffer(pending[n].data);
    }
    if Sorted(pending) {
      AwaitExact(f, now, pending, deadline);
    }
  }

  lemma ReceiveBuffer(data: Bytes)
    ensures Truncate(data) == if |data| > 65535 then data[..65535] else data
  {
  }

  lemma {:induction false} AwaitDecided(f: Filter, now: real, pending: seq<Event>, deadline: real)
    requires now < deadline
    ensures var n := Rejected(f, pending, deadline);
      var a := Await(f, now, pending, deadline);
      && now <= a.now <= deadline
      && (if n < |pending| && pending[n].at < deadline then
            && a.pending == pending[n + 1..]
            && (match pending[n]
                case Datagram(_, _, data) => a.reply == Some(Truncate(data)) && a.error == None
                case Fault(_, errno) => a.reply == None && a.error == Some(ReceiveError(errno)))
          else a == Awaited(None, None, deadline, pending[n..]))
    decreases |pending|
  {
    hide Passes, Truncate;
    if pending != [] && pending[0].at < deadline && !Decisive(f, pending[0]) {
      AwaitDecided(f, Later(now, pending[0].at), pending[1..], deadline);
      var m := Rejected(f, pending[1..], deadline);
      assert pending[1..][m..] == pending[m + 1..];
      if m < |pending| - 1 {
        assert pending[1..][m + 1..] == pending[m + 2..];
      }
    }
  }

  /** The filter on raw octets: the APID is the low eleven bits of the first two. */
  lemma FilterOnOctets(f: Filter, e: Event)
    ensures Decisive(f, e) <==>
      || e.Fault?
      || (&& (f.host.Some? ==> e.host == f.host.value)
          && (f.apid.Some? ==> |e.data| >= 6 && (256 * (e.data[0] as int) + e.data[1]) % 2048 == f.apid.value))
  {
  }

  /** A drain that meets no error removes exactly what is queued. */
  lemma {:induction false} DrainExact(now: real, pending: seq<Event>, queued: nat)
    requires queued <= |pending|
    requires forall i :: 0 <= i < queued ==> pending[i].at <= now && pending[i].Datagram?
    requires queued < |pending| ==> pending[queued].at > now
    ensures Drained(now, pending) == pending[queued..]
  {
    if queued > 0 {
      DrainExact(now, pending[1..], queued - 1);
      assert pending[1..][queued - 1..] == pending[queued..];
    }
  }

  /** A drain stops at the first queued error and leaves everything behind it. */
  lemma {:induction false} DrainStopsAtFault(now: real, pending: seq<Event>, fault: nat)
    requires fault < |pending| && pending[fault].Fault? && pending[fault].at <= now
    requires forall i :: 0 <= i < fault ==> pending[i].at <= now && pending[i].Datagram?
    ensures Drained(now, pending) == pending[fault + 1..]
  {
    if fault > 0 {
      DrainStopsAtFault(now, pending[1..], fault - 1);
      assert pending[1..][fault..] == pending[fault + 1..];
    }
  }

  lemma {:induction false} InsertMembers(pending: seq<Event>, e: Event, x: Event)
    ensures x in Insert(pending, e) <==> x == e || x in pending
  {
    if pending != [] && e.at >= pending[0].at {
      InsertMembers(pending[1..], e, x);
    }
  }

  lemma {:induction false} InsertKeepsOrder(pending: seq<Event>, e: Event)
    requires Sorted(pending)
    ensures Sorted(Insert(pending, e)) && |Insert(pending, e)| == |pending| + 1
  {
    if pending != [] && e.at >= pending[0].at {
      InsertKeepsOrder(pending[1..], e);
      var tail := Insert(pending[1..], e);
      forall i | 0 <= i < |tail| ensures pending[0].at <= tail[i].at {
        InsertMembers(pending[1..], e, tail[i]);
      }
    }
  }
}
