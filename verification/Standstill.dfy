/** How two drivers get to the deadlock of the protocol by themselves, and that they stay there. */
module Standstill {
  import opened Words
  import opened Records
  import opened WireFormat
  import opened Transmitting
  import opened Receiving
  import opened Chunking
  import opened Driving
  import opened Refinement
  import L = Link
  import C = Convergence

  // ---- Getting to know each other

  /** Nothing is due to a calm peer at time zero but chunks. */
  predicate Calm(p: Peer) {
    p.dpid != 0 && p.subscribed && p.known && p.sentControl && p.controlAt == 0 && !p.ackDue && PeerOk(p)
  }

  /** Each learns who the other is, and B asks for A's queue. */
  lemma FirstRequest() returns (w: World)
    ensures Reached(w) && w.a == NEW_PEER.(dpid := 1) && w.b == NEW_PEER.(dpid := 2, sentControl := true)
    ensures w.toA == {L.ControlPacket(NEW_RX, true, false)} && w.toB == {} && w.preparedA == w.preparedB == map[]
  {
    assert Reached(START) by { assert History(START, []) == START; }
    var w1 := Happens(START, AtA(Ticks(true, 1, 0, true)));
    ReachedThen(START, AtA(Ticks(true, 1, 0, true)));
    var w2 := Happens(w1, AtB(Ticks(true, 2, 0, true)));
    ReachedThen(w1, AtB(Ticks(true, 2, 0, true)));
    w := Happens(w2, AtB(Serves(0, true, true)));
    ReachedThen(w2, AtB(Serves(0, true, true)));
  }

  /** A hears that, and asks for B's queue. */
  lemma SecondRequest() returns (w: World)
    ensures Reached(w) && w.a == NEW_PEER.(dpid := 1, known := true, subscribed := true, sentControl := true)
    ensures w.b == NEW_PEER.(dpid := 2, sentControl := true)
    ensures w.toB == {L.ControlPacket(NEW_RX, true, true)} && w.preparedA == w.preparedB == map[]
  {
    var w1 := FirstRequest();
    var e := AtA(Hears(L.ControlPacket(NEW_RX, true, false), 0, true, (u: U16) => true));
    var w2 := Happens(w1, e);
    ReachedThen(w1, e);
    assert w2.a == NEW_PEER.(dpid := 1, known := true, subscribed := true);
    w := Happens(w2, AtA(Serves(0, true, true)));
    ReachedThen(w2, AtA(Serves(0, true, true)));
  }

  /** Both are subscribed and calm. */
  lemma Introduction() returns (w: World)
    ensures Reached(w) && Calm(w.a) && Calm(w.b) && w.a.tx == w.b.tx == NEW_TX && w.b.rx == NEW_RX && w.preparedA == map[]
  {
    var w1 := SecondRequest();
    var e := AtB(Hears(L.ControlPacket(NEW_RX, true, true), 0, true, (u: U16) => true));
    var w2 := Happens(w1, e);
    ReachedThen(w1, e);
    assert w2.b == NEW_PEER.(dpid := 2, known := true, subscribed := true);
    w := Happens(w2, AtB(Serves(0, true, true)));
    ReachedThen(w2, AtB(Serves(0, true, true)));
  }

  // ---- One transaction from A to B

  /** A sends its remaining chunks. */
  lemma {:induction false} SendsChunks(w: World) returns (r: World)
    requires Reached(w) && Calm(w.a) && w.a.tx.active
    ensures var n := ChunkCount(w.a.tx.operations);
      && Reached(r) && Calm(r.a) && r.a.tx == w.a.tx.(nextChunk := n) && r.a.dpid == w.a.dpid
      && r == w.(a := r.a, toB := r.toB) && w.toB <= r.toB
      && forall i :: w.a.tx.nextChunk <= i < n ==> ChunkPacket(InFlight(w.a.tx), w.a.tx.sequence, L.ID, i) in r.toB
    decreases ChunkCount(w.a.tx.operations) - w.a.tx.nextChunk
  {
    r := w;
    if w.a.tx.nextChunk < ChunkCount(w.a.tx.operations) {
      var e := AtA(Serves(0, true, true));
      ReachedThen(w, e);
      var next := Happens(w, e);
      assert next.a.tx == w.a.tx.(nextChunk := w.a.tx.nextChunk + 1);
      assert InFlight(next.a.tx) == InFlight(w.a.tx);
      r := SendsChunks(next);
    }
  }

  /** A packet that moves the receiver on is acknowledged. */
  lemma ProgressIsAcknowledged(rx: SizedRx, p: Packet)
    ensures AcceptPacket(rx, p).rx.sequence != rx.sequence ==> AcceptPacket(rx, p).ack
  {
  }

  /** B hears data packets, one after the other. */
  lemma {:induction false} HearsData(w: World, packets: seq<Packet>) returns (r: World)
    requires Reached(w) && PeerOk(w.b)
    requires forall p :: p in packets ==> p in w.toB && Envelope(p, L.ID) && p.kind != INTEREST
    ensures Reached(r) && r == w.(b := r.b)
    ensures r.b == w.b.(rx := Deliver(w.b.rx, packets), ackDue := r.b.ackDue, heardAt := r.b.heardAt, known := r.b.known)
    ensures (w.b.ackDue ==> r.b.ackDue) && (w.b.known ==> r.b.known)
    ensures r.b.rx.sequence != w.b.rx.sequence ==> r.b.ackDue
    decreases |packets|
  {
    r := w;
    if |packets| > 0 {
      var p := packets[0];
      var buildings := (u: U16) => true;
      var e := AtB(Hears(p, 0, true, buildings));
      ReachedThen(w, e);
      var next := Happens(w, e);
      ProgressIsAcknowledged(w.b.rx, p);
      assert next == w.(b := Heard(w.b, p, 0, true, buildings));
      assert next.b.rx == AcceptPacket(w.b.rx, p).rx;
      hide AcceptPacket, Heard;
      r := HearsData(next, packets[1..]);
    }
  }

  /** A's scan finds `current`, all chunks are sent, and all reach B, which then shows `current`. */
  lemma Transfers(w: World, current: seq<Record>, q: U32) returns (r: World)
    requires Reached(w) && Calm(w.a) && Calm(w.b)
    requires !w.a.tx.active && Starts(w.a.tx, current) && Snapshot(current) && Snapshot(w.a.tx.acknowledged)
    requires q != 0 && q !in w.preparedA && (w.b.rx.sequence != 0 ==> Newer(q, w.b.rx.sequence))
    requires w.b.rx.pendingSequence == 0 && !w.b.rx.needFull
    requires w.b.rx.sequence == w.a.tx.acknowledgedSequence && (w.b.rx.sequence != 0 ==> w.b.rx.records == w.a.tx.acknowledged)
    ensures Reached(r) && Calm(r.a) && Holds(r.b.rx, q, current) && r.b.ackDue
    ensures r.a.tx == Prepared(w.a.tx, current, q).(nextChunk := r.a.tx.nextChunk) && r.a.dpid == w.a.dpid
    ensures r.b == w.b.(rx := r.b.rx, ackDue := true, heardAt := r.b.heardAt)
    ensures r.toA == w.toA && r.preparedA == w.preparedA[q := current]
  {
    var e := AtA(Prepares(current, q, 0));
    ReachedThen(w, e);
    var w1 := Happens(w, e);
    assert w1.a == w.a.(tx := Prepared(w.a.tx, current, q), transactionAt := 0, roundAt := 0) && Calm(w1.a);
    var t := Choose(w.a.tx.acknowledged, w.a.tx.acknowledgedSequence, current);
    assert InFlight(w1.a.tx) == t;
    var w2 := SendsChunks(w1);
    var packets := C.ChunksInOrder(t, q, C.InOrder());
    ChosenIsSendable(w.a.tx.acknowledged, w.a.tx.acknowledgedSequence, current);
    C.OrderedChunks(t, q, C.InOrder());
    C.CoveredCompletely(t, q, C.InOrder());
    TransactionMeansTarget(w.a.tx.acknowledged, w.a.tx.acknowledgedSequence, current);
    C.Installed(w.b.rx, t, q, packets, w.a.tx.acknowledged, current);
    forall p | p in packets ensures p in w2.toB && Envelope(p, L.ID) && p.kind != INTEREST {
      assert IsChunk(p, t, q, L.ID);
    }
    r := HearsData(w2, packets);
  }

  /** B reports, and A hears it. */
  lemma Reports(w: World, wanted: bool) returns (r: World)
    requires Reached(w) && PeerOk(w.a) && PeerOk(w.b) && w.b.dpid != 0 && w.b.ackDue && !w.b.rx.needFull
    ensures Reached(r) && r.b == w.b.(ackDue := false, sentControl := true, controlAt := 0)
    ensures r.toB == w.toB && r.preparedA == w.preparedA
    ensures var p := L.ControlPacket(w.b.rx, wanted, w.b.subscribed);
      && r.a.tx == L.HearControl(w.a.tx, p) && r.a.subscribed == wanted && r.a.dpid == w.a.dpid && r.a.known
      && PeerOk(r.a) && (Calm(w.a) && wanted ==> Calm(r.a))
  {
    var serve := AtB(Serves(0, wanted, true));
    ReachedThen(w, serve);
    var w1 := Happens(w, serve);
    var p := L.ControlPacket(w.b.rx, wanted, w.b.subscribed);
    assert w1 == w.(b := w.b.(ackDue := false, sentControl := true, controlAt := 0), toA := w.toA + {p});
    var hear := AtA(Hears(p, 0, true, (u: U16) => true));
    ReachedThen(w1, hear);
    r := Happens(w1, hear);
  }

  /** Both idle and subscribed, and yet B shows something else than A believes it does. */
  predicate Stuck(w: World, before: seq<Record>, shown: seq<Record>) {
    && PeerOk(w.a) && PeerOk(w.b)
    && w.a.subscribed && w.b.subscribed && !w.a.tx.active && !w.b.tx.active && w.b.rx.pendingSequence == 0
    && w.a.tx.acknowledgedSequence != 0 && w.a.tx.acknowledged == before
    && w.b.rx.sequence != 0 && !w.b.rx.needFull && w.b.rx.records == shown
    && w.a.tx.acknowledgedSequence != w.b.rx.sequence
  }

  /** A's queue is first the one snapshot, then the other; just when B holds the second it stops asking, so
      that its last report cancels the transaction it acknowledges; then it asks again, and A's queue is the
      first once more. */
  lemma GetsStuck(before: seq<Record>, shown: seq<Record>) returns (w: World)
    requires Snapshot(before) && Snapshot(shown) && before != shown
    ensures Reached(w) && Stuck(w, before, shown)
    ensures w.b.rx.sequence == 2 && w.preparedA.Keys == {1, 2}
  {
    hide Choose, Snapshot, History, Happens;
    w := Introduction();
    w := Transfers(w, before, 1);
    w := Reports(w, true);
    w := Transfers(w, shown, 2);
    w := ChangesItsMind(w);
    w := Reports(w, false);
    w := ChangesItsMind(w);
    w := Reports(w, true);
  }

  lemma ChangesItsMind(w: World) returns (r: World)
    requires Reached(w)
    ensures Reached(r) && r == w.(b := w.b.(ackDue := true))
  {
    ReachedThen(w, AtB(ChangesMind));
    r := Happens(w, AtB(ChangesMind));
  }

  // ---- Staying there

  /** A's queue is `before` again, neither machine drops the other's slot, B does not go without news from A
      until its display is stale, and no report from before B showed anything arrives late. */
  predicate Undisturbed(w: World, e: Event, before: seq<Record>) {
    match e
    case AtA(Hears(p, _, _, _)) => p.kind == INTEREST ==> p.sequence != 0
    case AtA(Prepares(current, _, _)) => current == before
    case AtA(Ticks(authorized, dpid, _, _)) => authorized && dpid == w.a.dpid
    case AtB(Ticks(authorized, dpid, now, paused)) =>
      authorized && dpid == w.b.dpid && (paused || Sub32(now, w.b.heardAt) < STALE_MS)
    case _ => true
  }

  ghost predicate AllUndisturbed(w: World, events: seq<Event>, before: seq<Record>)
    decreases |events|
  {
    |events| > 0 ==> Undisturbed(w, events[0], before) && AllUndisturbed(Happens(w, events[0]), events[1..], before)
  }

  /** What keeps the two apart: A has nothing to send, and no chunk ever sent is newer than what B shows. */
  ghost predicate Apart(w: World, before: seq<Record>, shown: seq<Record>) {
    && PeerOk(w.a) && PeerOk(w.b)
    && !w.a.tx.active && w.a.tx.acknowledgedSequence != 0 && w.a.tx.acknowledged == before
    && w.b.rx.sequence != 0 && !w.b.rx.needFull && w.b.rx.records == shown
    && (forall p :: p in w.toB && p.kind != INTEREST ==> !Newer(p.sequence, w.b.rx.sequence))
  }

  lemma StaysApartAtA(w: World, action: Action, before: seq<Record>, shown: seq<Record>)
    requires Apart(w, before, shown) && Undisturbed(w, AtA(action), before)
    ensures Apart(Happens(w, AtA(action)), before, shown)
  {
    hide AcceptPacket, Known, Choose, Snapshot;
    PeerStaysOk(w, action);
  }

  lemma StaysApartAtB(w: World, action: Action, before: seq<Record>, shown: seq<Record>)
    requires Apart(w, before, shown) && Undisturbed(w, AtB(action), before)
    ensures Apart(Happens(w, AtB(action)), before, shown)
  {
    PeerStaysOk(Flip(w), action);
  }

  lemma {:induction false} StaysApart(w: World, events: seq<Event>, before: seq<Record>, shown: seq<Record>)
    requires Apart(w, before, shown) && AllUndisturbed(w, events, before)
    ensures Apart(History(w, events), before, shown)
    decreases |events|
  {
    if |events| > 0 {
      match events[0] {
        case AtA(action) => StaysApartAtA(w, action, before, shown);
        case AtB(action) => StaysApartAtB(w, action, before, shown);
      }
      StaysApart(Happens(w, events[0]), events[1..], before, shown);
    }
  }

  /** Some run leads to w, where both are idle and subscribed and B shows `shown`; and however the drivers
      go on with all the packets still in the network, as long as A's queue is `before` and nothing resets
      them, B never shows it. */
  ghost predicate StuckForGood(first: seq<Event>, before: seq<Record>, shown: seq<Record>) {
    var w := History(START, first);
    && Stuck(w, before, shown)
    && forall events :: AllUndisturbed(w, events, before) ==> Apart(History(w, events), before, shown)
  }

  /** For any two different snapshots two drivers get stuck by themselves, and stay so. */
  lemma DriversStayStuck(before: seq<Record>, shown: seq<Record>)
    requires Snapshot(before) && Snapshot(shown) && before != shown
    ensures exists first :: StuckForGood(first, before, shown)
  {
    var w := GetsStuck(before, shown);
    DataIsPrepared(w);
    assert Apart(w, before, shown);
    forall events | AllUndisturbed(w, events, before) ensures Apart(History(w, events), before, shown) {
      StaysApart(w, events, before, shown);
    }
    var first :| History(START, first) == w;
    assert StuckForGood(first, before, shown);
  }
}
