/** Two drivers, each holding a peer record for the other, exchange packets over an unreliable network.
    Both directions of replication are runs of the link, so what is proved of runs holds of drivers. */
module Refinement {
  import opened Words
  import opened Records
  import opened WireFormat
  import opened Transmitting
  import opened Driving
  import L = Link

  /** `a` is machine A's record of its peer B, and `b` the converse; `toA` and `toB` are the packets ever sent
      to each; `preparedA` and `preparedB` the snapshots each scanned, by the sequence they were sent under. */
  datatype World = World(
    a: Peer, b: Peer, toA: set<Packet>, toB: set<Packet>,
    preparedA: map<U32, seq<Record>>, preparedB: map<U32, seq<Record>>)

  const START: World := World(NEW_PEER, NEW_PEER, {}, {}, map[], map[])

  datatype Action =
    | Serves(now: U32, wanted: bool, accepted: bool)
    | Hears(packet: Packet, now: U32, wanted: bool, building: U16 -> bool)
    | Prepares(current: seq<Record>, seqno: U32, now: U32)
    | ChangesMind
    | Ticks(authorized: bool, dpid: U32, now: U32, paused: bool)

  datatype Event = AtA(action: Action) | AtB(action: Action)

  function Flip(w: World): World {
    World(w.b, w.a, w.toB, w.toA, w.preparedB, w.preparedA)
  }

  /** What one action at A does; an action that is not possible does nothing. */
  ghost function Act(w: World, action: Action): World {
    match action
    case Serves(now, wanted, accepted) =>
      if !RoundOk(w.a) || !Due(w.a, now, wanted) then w
      else if !accepted then w.(a := Rewound(w.a, now, wanted))
      else var s := Serve(w.a, now, wanted); w.(a := s.peer, toB := w.toB + {s.packet})
    case Hears(packet, now, wanted, building) =>
      if packet in w.toA then w.(a := Heard(w.a, packet, now, wanted, building)) else w
    case Prepares(current, seqno, now) =>
      if Eligible(w.a) && Starts(w.a.tx, current) && seqno != 0 && seqno !in w.preparedA && Snapshot(current)
      then w.(a := PrepareOne(w.a, current, seqno, now), preparedA := w.preparedA[seqno := current])
      else w
    case ChangesMind => w.(a := w.a.(ackDue := true))
    case Ticks(authorized, dpid, now, paused) => w.(a := Ticked(w.a, authorized, dpid, now, paused))
  }

  ghost function Happens(w: World, e: Event): World {
    match e
    case AtA(action) => Act(w, action)
    case AtB(action) => Flip(Act(Flip(w), action))
  }

  ghost function History(w: World, events: seq<Event>): World
    decreases |events|
  {
    if events == [] then w else History(Happens(w, events[0]), events[1..])
  }

  /** Some run of the two drivers leads to w. */
  ghost predicate Reached(w: World) {
    exists events :: History(START, events) == w
  }

  lemma {:induction false} HistoryThen(w: World, events: seq<Event>, e: Event)
    ensures History(w, events + [e]) == Happens(History(w, events), e)
    decreases |events|
  {
    if |events| == 0 {
      assert events + [e] == [e] && [e][1..] == [];
      assert History(Happens(w, e), []) == Happens(w, e);
    } else {
      assert (events + [e])[1..] == events[1..] + [e];
      HistoryThen(Happens(w, events[0]), events[1..], e);
    }
  }

  lemma ReachedThen(w: World, e: Event)
    requires Reached(w)
    ensures Reached(Happens(w, e))
  {
    var events :| History(START, events) == w;
    HistoryThen(START, events, e);
  }

  /** The two machines may change names. */
  function Mirror(e: Event): Event {
    match e
    case AtA(action) => AtB(action)
    case AtB(action) => AtA(action)
  }

  lemma {:induction false} HistoryFlips(events: seq<Event>) returns (flipped: seq<Event>)
    ensures History(START, flipped) == Flip(History(START, events))
    decreases |events|
  {
    flipped := [];
    if |events| > 0 {
      var front, last := events[..|events| - 1], events[|events| - 1];
      var before := HistoryFlips(front);
      flipped := before + [Mirror(last)];
      HistoryThen(START, front, last);
      HistoryThen(START, before, Mirror(last));
      assert front + [last] == events;
    }
  }

  lemma ReachedFlips(w: World)
    requires Reached(w)
    ensures Reached(Flip(w))
  {
    var events :| History(START, events) == w;
    var flipped := HistoryFlips(events);
  }

  // ---- The link behind two peers

  /** Transmitters that agree but for where in a finished round they stand. */
  predicate SameTx(t: Tx, u: Tx) {
    t.(nextChunk := 0) == u.(nextChunk := 0) && L.NextIndex(t) == L.NextIndex(u)
  }

  ghost predicate Sees(s: L.State, sender: Peer, receiver: Peer) {
    SameTx(s.tx, sender.tx) && s.subscribed == sender.subscribed && s.rx == receiver.rx
  }

  ghost predicate NetworkSeen(s: L.State, toSender: set<Packet>, toReceiver: set<Packet>) {
    && (forall p :: p in toReceiver && p.kind != INTEREST ==> p in s.toReceiver)
    && (forall p :: p in toSender && p.kind == INTEREST ==> p in s.toTransmitter)
  }

  ghost predicate HistorySeen(s: L.State, prepared: map<U32, seq<Record>>) {
    forall q :: q in s.history ==> q in prepared && s.history[q].target == prepared[q]
  }

  /** s is a reachable state of the link from A to B. */
  ghost predicate Mirrors(s: L.State, w: World) {
    && L.Reachable(s)
    && Sees(s, w.a, w.b) && NetworkSeen(s, w.toA, w.toB) && HistorySeen(s, w.preparedA)
  }

  ghost predicate Mirrored(w: World) {
    PeerOk(w.a) && PeerOk(w.b) && (exists s :: Mirrors(s, w)) && (exists s :: Mirrors(s, Flip(w)))
  }

  // ---- A as sender

  lemma SenderServes(s: L.State, w: World, now: U32, wanted: bool, accepted: bool) returns (t: L.State)
    requires Mirrors(s, w) && PeerOk(w.a)
    ensures Mirrors(t, Act(w, Serves(now, wanted, accepted)))
  {
    t := s;
    if Due(w.a, now, wanted) && accepted && !ControlDue(w.a, now, wanted) {
      t := L.Perform(s, L.SendChunk);
      L.PerformReaches(s, L.SendChunk);
    }
  }

  lemma SenderHears(s: L.State, w: World, p: Packet, now: U32, wanted: bool, building: U16 -> bool) returns (t: L.State)
    requires Mirrors(s, w)
    ensures Mirrors(t, Act(w, Hears(p, now, wanted, building)))
  {
    t := s;
    if p in w.toA && p.kind == INTEREST {
      t := L.Perform(s, L.DeliverControl(p));
      L.PerformReaches(s, L.DeliverControl(p));
    }
  }

  lemma SenderPrepares(s: L.State, w: World, current: seq<Record>, seqno: U32, now: U32) returns (t: L.State)
    requires Mirrors(s, w)
    ensures Mirrors(t, Act(w, Prepares(current, seqno, now)))
  {
    t := s;
    if Eligible(w.a) && Starts(w.a.tx, current) && seqno != 0 && seqno !in w.preparedA && Snapshot(current) {
      t := L.Perform(s, L.Scan(current, seqno));
      L.PerformReaches(s, L.Scan(current, seqno));
      assert seqno !in s.history;
    }
  }

  lemma SenderTicks(s: L.State, w: World, authorized: bool, dpid: U32, now: U32, paused: bool) returns (t: L.State)
    requires Mirrors(s, w)
    ensures Mirrors(t, Act(w, Ticks(authorized, dpid, now, paused)))
  {
    t := s;
    if !authorized || w.a.dpid != dpid {
      t := L.Perform(s, L.ResetTransmitter);
      L.PerformReaches(s, L.ResetTransmitter);
    } else if w.a.subscribed && Sub32(now, w.a.interestAt) >= LEASE_MS {
      t := L.Perform(s, L.LeaseExpires);
      L.PerformReaches(s, L.LeaseExpires);
    }
  }

  // ---- A as receiver

  lemma ReceiverServes(s: L.State, w: World, now: U32, wanted: bool, accepted: bool) returns (t: L.State)
    requires Mirrors(s, Flip(w)) && PeerOk(w.a)
    ensures Mirrors(t, Flip(Act(w, Serves(now, wanted, accepted))))
  {
    t := s;
    if Due(w.a, now, wanted) && accepted && ControlDue(w.a, now, wanted) {
      t := L.Perform(s, L.SendControl(wanted, w.a.subscribed));
      L.PerformReaches(s, L.SendControl(wanted, w.a.subscribed));
    }
  }

  lemma ReceiverHears(s: L.State, w: World, p: Packet, now: U32, wanted: bool, building: U16 -> bool) returns (t: L.State)
    requires Mirrors(s, Flip(w))
    ensures Mirrors(t, Flip(Act(w, Hears(p, now, wanted, building))))
  {
    t := s;
    if p in w.toA && p.kind != INTEREST && wanted && Known(p, building) {
      t := L.Perform(s, L.DeliverData(p));
      L.PerformReaches(s, L.DeliverData(p));
    }
  }

  lemma ReceiverTicks(s: L.State, w: World, authorized: bool, dpid: U32, now: U32, paused: bool) returns (t: L.State)
    requires Mirrors(s, Flip(w))
    ensures Mirrors(t, Flip(Act(w, Ticks(authorized, dpid, now, paused))))
  {
    t := s;
    if Ticked(w.a, authorized, dpid, now, paused).rx != w.a.rx {
      t := L.Perform(s, L.ResetReceiver);
      L.PerformReaches(s, L.ResetReceiver);
    }
  }

  // ---- Every action, every run

  lemma PeerStaysOk(w: World, action: Action)
    requires PeerOk(w.a)
    ensures PeerOk(Act(w, action).a)
    ensures Act(w, action).b == w.b
  {
    hide Heard, Ticked, PrepareOne, Serve, Rewound, Due;
    match action {
      case Serves(now, wanted, _) =>
        if Due(w.a, now, wanted) {
          ServeIsRewindThenNote(w.a, now, wanted);
        }
      case Hears(packet, now, wanted, building) => HeardOk(w.a, packet, now, wanted, building);
      case Prepares(current, seqno, now) => PrepareOneOk(w.a, current, seqno, now);
      case Ticks(authorized, dpid, now, paused) => TickedOk(w.a, authorized, dpid, now, paused);
      case ChangesMind =>
    }
  }

  lemma ActKeepsMirrored(w: World, action: Action)
    requires Mirrored(w)
    ensures Mirrored(Act(w, action))
  {
    hide Act, Mirrors;
    var s :| Mirrors(s, w);
    var u :| Mirrors(u, Flip(w));
    PeerStaysOk(w, action);
    match action {
      case Serves(now, wanted, accepted) =>
        var s' := SenderServes(s, w, now, wanted, accepted);
        var u' := ReceiverServes(u, w, now, wanted, accepted);
      case Hears(p, now, wanted, building) =>
        var s' := SenderHears(s, w, p, now, wanted, building);
        var u' := ReceiverHears(u, w, p, now, wanted, building);
      case Prepares(current, seqno, now) =>
        var s' := SenderPrepares(s, w, current, seqno, now);
        ReceiverPrepares(u, w, current, seqno, now);
      case ChangesMind =>
        MindChanged(s, u, w);
      case Ticks(authorized, dpid, now, paused) =>
        var s' := SenderTicks(s, w, authorized, dpid, now, paused);
        var u' := ReceiverTicks(u, w, authorized, dpid, now, paused);
    }
  }

  lemma MindChanged(s: L.State, u: L.State, w: World)
    requires Mirrors(s, w) && Mirrors(u, Flip(w))
    ensures Mirrors(s, Act(w, ChangesMind)) && Mirrors(u, Flip(Act(w, ChangesMind)))
  {
  }

  lemma ReceiverPrepares(s: L.State, w: World, current: seq<Record>, seqno: U32, now: U32)
    requires Mirrors(s, Flip(w))
    ensures Mirrors(s, Flip(Act(w, Prepares(current, seqno, now))))
  {
  }

  lemma {:induction false} HistoryMirrored(w: World, events: seq<Event>)
    requires Mirrored(w)
    ensures Mirrored(History(w, events))
    decreases |events|
  {
    if events != [] {
      var next := Happens(w, events[0]);
      match events[0] {
        case AtA(action) => ActKeepsMirrored(w, action);
        case AtB(action) =>
          assert Flip(Flip(w)) == w;
          ActKeepsMirrored(Flip(w), action);
          assert Flip(Flip(Act(Flip(w), action))) == Act(Flip(w), action);
      }
      HistoryMirrored(next, events[1..]);
    }
  }

  lemma StartMirrored()
    ensures Mirrored(START)
  {
    assert L.Run(L.INITIAL, []) == L.INITIAL;
    assert Mirrors(L.INITIAL, START) && Flip(START) == START;
  }

  /** Every chunk that ever reached the network carries a sequence that A's scans were prepared under. */
  lemma DataIsPrepared(w: World)
    requires Reached(w)
    ensures forall p :: p in w.toB && p.kind != INTEREST ==> p.sequence in w.preparedA
  {
    var events :| History(START, events) == w;
    StartMirrored();
    HistoryMirrored(START, events);
    var s :| Mirrors(s, w);
    L.ReachableInv(s);
  }

  /** What a peer displays is the snapshot that the other side scanned under the displayed sequence. */
  predicate Displays(receiver: Peer, prepared: map<U32, seq<Record>>) {
    if receiver.rx.sequence == 0 then receiver.rx.records == []
    else receiver.rx.sequence in prepared && receiver.rx.records == prepared[receiver.rx.sequence]
  }

  /** Two drivers, any interleaving of their ticks, scans, sends (successful or not) and packet arrivals, any
      loss, duplication and reordering, in both directions at once: neither ever displays anything but a
      snapshot that the other one scanned, in full. */
  lemma DriversDisplaySnapshots(events: seq<Event>)
    ensures var w := History(START, events);
      Displays(w.b, w.preparedA) && Displays(w.a, w.preparedB)
  {
    StartMirrored();
    HistoryMirrored(START, events);
    var w := History(START, events);
    var s :| Mirrors(s, w);
    var u :| Mirrors(u, Flip(w));
    L.ReachableInv(s);
    L.ReachableInv(u);
  }
}
