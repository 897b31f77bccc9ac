/** What a peer's record owes its peer over time: news is reported, a request holds for its lease, a display lasts
    until it is stale, and shows only buildings that this game knows. */
module Duties {
  import opened Words
  import opened Records
  import opened WireFormat
  import opened Diff
  import opened Transmitting
  import opened Receiving
  import opened Driving
  import opened Refinement
  import opened TickRuns
  import Link

  // ---- News is reported

  /** Data that the receiver answers makes a report due at every later time, even if queues are no longer wanted by
      then; it goes before any chunk, and carries what the receiver shows, or zero if it needs a full snapshot. */
  lemma NewsIsReported(p: Peer, packet: Packet, now: U32, building: U16 -> bool, later: U32, wish: bool)
    requires RoundOk(p) && p.dpid != 0
    requires Envelope(packet, Link.ID) && packet.kind != INTEREST && Known(packet, building) && AcceptPacket(p.rx, packet).ack
    ensures var q := Heard(p, packet, now, true, building);
      && q.known && q.heardAt == now && Due(q, later, wish)
      && var report := Serve(q, later, wish).packet;
         && report.kind == INTEREST && Link.IsControl(report)
         && (report.base % 2 == 1 <==> wish) && (report.base >= 2 <==> p.subscribed)
         && report.sequence == if q.rx.needFull then 0 else q.rx.sequence
  {
    hide AcceptPacket;
  }

  /** Data that is not answered moves nothing but the reassembly: no report falls due, and it does not count as
      news of the display. */
  lemma SilenceKeeps(p: Peer, packet: Packet, now: U32, wanted: bool, building: U16 -> bool, later: U32, wish: bool)
    requires packet.kind != INTEREST && !(wanted && Known(packet, building) && AcceptPacket(p.rx, packet).ack)
    ensures var q := Heard(p, packet, now, wanted, building);
      && q.heardAt == p.heardAt && q.known == p.known && q.dpid == p.dpid && q.subscribed == p.subscribed && q.tx == p.tx
      && (ControlDue(q, later, wish) <==> ControlDue(p, later, wish))
  {
    hide AcceptPacket;
  }

  /** When a peer that still wants queues tells of a lost base, the transmitter forgets its base, so that its next
      transaction is a full one, unless a full one is already under way, which goes on. */
  lemma LostBaseIsForgotten(p: Peer, packet: Packet, now: U32, wanted: bool, building: U16 -> bool, current: seq<Record>)
    requires Envelope(packet, Link.ID) && Link.IsControl(packet) && packet.base % 2 == 1 && packet.sequence == 0
    requires p.tx.active ==> p.tx.sequence != 0
    ensures var q := Heard(p, packet, now, wanted, building);
      if p.tx.active && p.tx.kind != DELTA then q.tx == p.tx
      else !q.tx.active && Starts(q.tx, current) && Choose(q.tx.acknowledged, q.tx.acknowledgedSequence, current).kind == FULL
  {
  }

  /** A delta on another base than what is shown is reported with sequence zero. */
  lemma RefusalIsReported(p: Peer, packet: Packet, now: U32, building: U16 -> bool, later: U32, wish: bool)
    requires RoundOk(p) && p.dpid != 0 && Envelope(packet, Link.ID) && WellFormed(packet) && Known(packet, building)
    requires packet.kind == DELTA && (p.rx.sequence != 0 ==> Newer(packet.sequence, p.rx.sequence))
    requires p.rx.needFull || p.rx.sequence == 0 || packet.base != p.rx.sequence
    ensures var q := Heard(p, packet, now, true, building);
      && Due(q, later, wish) && Serve(q, later, wish).packet.kind == INTEREST && Serve(q, later, wish).packet.sequence == 0
      && q.rx == p.rx.(needFull := true)
  {
    RefusedDelta(p.rx, packet);
    NewsIsReported(p, packet, now, building, later, wish);
    hide AcceptPacket;
  }

  /** A snapshot that a packet brings to the display, or brings again, is reported under its sequence. */
  lemma DisplayIsReported(p: Peer, packet: Packet, now: U32, building: U16 -> bool, later: U32, wish: bool)
    requires RoundOk(p) && p.dpid != 0 && Envelope(packet, Link.ID) && WellFormed(packet) && Known(packet, building)
    requires var r := AcceptPacket(p.rx, packet).rx; r.sequence == packet.sequence && !r.needFull
    ensures var q := Heard(p, packet, now, true, building);
      Due(q, later, wish) && Serve(q, later, wish).packet.kind == INTEREST && Serve(q, later, wish).packet.sequence == packet.sequence
  {
    AnsweredWhenThereIsNews(p.rx, packet);
    NewsIsReported(p, packet, now, building, later, wish);
    hide AcceptPacket;
  }

  // ---- Leases and displays

  /** The action leaves the slot to player `dpid`, and brings no report. */
  predicate Unasked(action: Action, dpid: U32) {
    match action
    case Hears(packet, _, _, _) => packet.kind != INTEREST
    case Ticks(authorized, owner, _, _) => authorized && owner == dpid
    case _ => true
  }

  /** Every tick comes before the limit has passed since then. */
  predicate AllWithin(actions: seq<Action>, since: U32, limit: U32) {
    forall i :: 0 <= i < |actions| && actions[i].Ticks? ==> Sub32(actions[i].now, since) < limit
  }

  lemma WithinNext(actions: seq<Action>, since: U32, limit: U32)
    requires |actions| > 0
    ensures var front, last := actions[..|actions| - 1], actions[|actions| - 1];
      AllWithin(actions, since, limit) <==> AllWithin(front, since, limit) && (last.Ticks? ==> Sub32(last.now, since) < limit)
  {
    assert forall i :: 0 <= i < |actions| - 1 ==> actions[i] == actions[..|actions| - 1][i];
  }

  /** A subscription holds over any actions without a further report exactly while every tick comes before the
      lease has run out since the last request; when it ends, so does the transaction in flight. */
  lemma {:induction false} LeaseHolds(w: World, actions: seq<Action>)
    requires w.a.subscribed && forall i :: 0 <= i < |actions| ==> Unasked(actions[i], w.a.dpid)
    ensures var p := Acts(w, actions).a;
      && p.dpid == w.a.dpid && p.interestAt == w.a.interestAt
      && (p.subscribed <==> AllWithin(actions, w.a.interestAt, LEASE_MS))
      && (!p.subscribed ==> !p.tx.active)
    decreases |actions|
  {
    if |actions| > 0 {
      var front, last := actions[..|actions| - 1], actions[|actions| - 1];
      WithinNext(actions, w.a.interestAt, LEASE_MS);
      LeaseHolds(w, front);
      hide Acts, AllWithin;
      LeaseStep(Acts(w, front), last);
      assert Acts(w, actions) == Act(Acts(w, front), last) by { ActsThen(w, front, last); assert front + [last] == actions; }
    }
  }

  /** Sending touches neither subscription nor display. */
  lemma ServingKeeps(p: Peer, now: U32, wanted: bool)
    ensures SameDuties(p, Rewound(p, now, wanted))
    ensures RoundOk(p) && Due(p, now, wanted) ==> SameDuties(p, Serve(p, now, wanted).peer)
  {
    hide ChunkPacket, ChunkCount, Link.ControlPacket, ControlDue;
  }

  predicate SameDuties(p: Peer, q: Peer) {
    && q.dpid == p.dpid && q.subscribed == p.subscribed && q.tx.active == p.tx.active && q.rx == p.rx
    && q.interestAt == p.interestAt && q.heardAt == p.heardAt
  }

  lemma LeaseStep(w: World, action: Action)
    requires Unasked(action, w.a.dpid) && (!w.a.subscribed ==> !w.a.tx.active)
    ensures var p := Act(w, action).a;
      && p.dpid == w.a.dpid && p.interestAt == w.a.interestAt
      && (p.subscribed <==> w.a.subscribed && (action.Ticks? ==> Sub32(action.now, w.a.interestAt) < LEASE_MS))
      && (!p.subscribed ==> !p.tx.active)
  {
    hide AcceptPacket, Known, Prepared, Starts, Snapshot, Envelope, Link.HearControl, Link.IsControl, Serve, Rewound, Due, RoundOk;
    if action.Serves? {
      ServingKeeps(w.a, action.now, action.wanted);
    }
  }

  /** A request that is heard subscribes its sender from that moment; the first one is answered with a report as
      soon as possible, a repeated one leaves the next report when it was. */
  lemma RequestSubscribes(p: Peer, packet: Packet, now: U32, wanted: bool, building: U16 -> bool, later: U32, wish: bool)
    requires Envelope(packet, Link.ID) && Link.IsControl(packet) && packet.base % 2 == 1
    ensures var q := Heard(p, packet, now, wanted, building);
      && q.subscribed && q.interestAt == now && q.known && q.dpid == p.dpid && q.rx == p.rx
      && (ControlDue(q, later, wish) <==> !p.subscribed || ControlDue(p.(known := true), later, wish))
  {
  }

  /** A report that wants no more ends subscription and transaction at once, and leaves the display alone. */
  lemma RefusalUnsubscribes(p: Peer, packet: Packet, now: U32, wanted: bool, building: U16 -> bool)
    requires Envelope(packet, Link.ID) && Link.IsControl(packet) && packet.base % 2 == 0
    ensures var q := Heard(p, packet, now, wanted, building);
      !q.subscribed && !q.tx.active && q.known && q.dpid == p.dpid && q.rx == p.rx
  {
  }

  /** The action leaves the slot to player `dpid`, and brings no packet. */
  predicate Unheard(action: Action, dpid: U32) {
    match action
    case Hears(_, _, _, _) => false
    case Ticks(authorized, owner, _, _) => authorized && owner == dpid
    case _ => true
  }

  /** Every tick of a running game comes before the limit has passed since then. */
  predicate AllPlayedWithin(actions: seq<Action>, since: U32, limit: U32) {
    forall i :: 0 <= i < |actions| && actions[i].Ticks? && !actions[i].paused ==> Sub32(actions[i].now, since) < limit
  }

  lemma PlayedWithinNext(actions: seq<Action>, since: U32, limit: U32)
    requires |actions| > 0
    ensures var front, last := actions[..|actions| - 1], actions[|actions| - 1];
      AllPlayedWithin(actions, since, limit) <==>
      AllPlayedWithin(front, since, limit) && (last.Ticks? && !last.paused ==> Sub32(last.now, since) < limit)
  {
    assert forall i :: 0 <= i < |actions| - 1 ==> actions[i] == actions[..|actions| - 1][i];
  }

  /** A display stays as it is over any actions without a packet exactly while every tick of a running game comes
      before it is stale; then it is dropped as a whole. */
  lemma {:induction false} DisplayLasts(w: World, actions: seq<Action>)
    requires w.a.rx.sequence != 0 && forall i :: 0 <= i < |actions| ==> Unheard(actions[i], w.a.dpid)
    ensures var p := Acts(w, actions).a;
      && p.dpid == w.a.dpid && p.heardAt == w.a.heardAt
      && p.rx == if AllPlayedWithin(actions, w.a.heardAt, STALE_MS) then w.a.rx else NEW_RX
    decreases |actions|
  {
    if |actions| > 0 {
      var front, last := actions[..|actions| - 1], actions[|actions| - 1];
      PlayedWithinNext(actions, w.a.heardAt, STALE_MS);
      DisplayLasts(w, front);
      hide Acts, AllPlayedWithin;
      DisplayStep(Acts(w, front), last);
      assert Acts(w, actions) == Act(Acts(w, front), last) by { ActsThen(w, front, last); assert front + [last] == actions; }
    }
  }

  lemma DisplayStep(w: World, action: Action)
    requires Unheard(action, w.a.dpid)
    ensures var p := Act(w, action).a;
      && p.dpid == w.a.dpid && p.heardAt == w.a.heardAt
      && p.rx == if w.a.rx.sequence != 0 && action.Ticks? && !action.paused && Sub32(action.now, w.a.heardAt) >= STALE_MS
                 then NEW_RX else w.a.rx
  {
    hide Heard, Prepared, Starts, Snapshot, Serve, Rewound, Due, RoundOk;
    if action.Serves? {
      ServingKeeps(w.a, action.now, action.wanted);
    }
  }

  /** A report of a peer that serves counts as news of the display; one of a peer that does not, does not. */
  lemma ServingIsHeard(p: Peer, packet: Packet, now: U32, wanted: bool, building: U16 -> bool)
    requires Envelope(packet, Link.ID) && Link.IsControl(packet)
    ensures Heard(p, packet, now, wanted, building).heardAt == if packet.base >= 2 then now else p.heardAt
  {
  }

  // ---- Only known buildings are shown

  ghost predicate AllKnown(s: seq<Record>, building: U16 -> bool) {
    forall i :: 0 <= i < |s| ==> building(s[i].buildUnitId)
  }

  /** What is stored of a chunk names known buildings. */
  ghost predicate ChunkKnown(rx: Rx, c: nat, building: U16 -> bool)
    requires Sized(rx) && c < |rx.received| && rx.pendingSequence != 0
  {
    forall j :: c * RECORDS_PER_PACKET <= j < (c + 1) * RECORDS_PER_PACKET && (c + 1 == |rx.received| ==> j < rx.pendingSize) ==>
      building(rx.pending[j].buildUnitId)
  }

  ghost predicate PendingKnown(rx: Rx, building: U16 -> bool)
    requires Sized(rx)
  {
    rx.pendingSequence != 0 ==> forall c :: 0 <= c < |rx.received| && rx.received[c] ==> ChunkKnown(rx, c, building)
  }

  ghost predicate ShowsKnown(rx: Rx, building: U16 -> bool)
    requires Sized(rx)
  {
    AllKnown(rx.records, building) && PendingKnown(rx, building)
  }

  lemma {:induction false} ApplyAllKnown(s: seq<Record>, ops: seq<WireRecord>, building: U16 -> bool)
    requires AllKnown(s, building) && forall i :: 0 <= i < |ops| ==> building(ops[i].buildUnitId)
    ensures AllKnown(ApplyAll(s, ops), building)
    decreases |ops|
  {
    if |ops| > 0 {
      var t := ApplyOne(s, ops[0]);
      forall i | 0 <= i < |t| ensures building(t[i].buildUnitId) {
        if HasRemove(ops[0].rotation) {
          assert t[i] in Elements(t) && t[i] in s;
        }
      }
      ApplyAllKnown(t, ops[1..], building);
    }
  }

  lemma StoreKnown(rx: Rx, p: Packet, building: U16 -> bool)
    requires Sized(rx) && PendingKnown(rx, building) && WellFormed(p) && Known(p, building)
    requires rx.pendingSequence == p.sequence && Matches(rx, p)
    ensures PendingKnown(Store(rx, p), building)
  {
    var r := Store(rx, p);
    forall c | 0 <= c < |r.received| && r.received[c] ensures ChunkKnown(r, c, building) {
      if c != p.chunkIndex {
        assert rx.received[c] && ChunkKnown(rx, c, building);
      }
    }
  }

  lemma CommitKnown(rx: Rx, building: U16 -> bool)
    requires Sized(rx) && ShowsKnown(rx, building) && rx.pendingSequence != 0 && false !in rx.received
    ensures ShowsKnown(CommitPending(rx).rx, building)
  {
    var ground := if rx.pendingKind == FULL then [] else rx.records;
    var ops := rx.pending[..rx.pendingSize];
    forall j | 0 <= j < |ops| ensures building(ops[j].buildUnitId) {
      var c := j / RECORDS_PER_PACKET;
      assert rx.received[c] && ChunkKnown(rx, c, building);
    }
    ApplyAllKnown(ground, ops, building);
    var next := Canonicalized(ApplyAll(ground, ops));
    forall i | 0 <= i < |next| ensures building(next[i].buildUnitId) {
      assert next[i] in Elements(next) && next[i] in ApplyAll(ground, ops);
    }
  }

  lemma AcceptKnown(rx: Rx, p: Packet, building: U16 -> bool)
    requires Sized(rx) && ShowsKnown(rx, building) && Known(p, building)
    ensures ShowsKnown(AcceptPacket(rx, p).rx, building)
  {
    if Admitted(rx, p) {
      var begun := Begin(rx, p);
      if Matches(begun, p) {
        StoreKnown(begun, p, building);
        var stored := Store(begun, p);
        if false !in stored.received {
          CommitKnown(stored, building);
        }
      }
    }
  }

  /** Whatever packets arrive, whatever they hold, a display names only buildings that this game knows. */
  lemma {:induction false} OnlyBuildingsShown(w: World, actions: seq<Action>, building: U16 -> bool)
    requires w.a == NEW_PEER
    requires forall i :: 0 <= i < |actions| && actions[i].Hears? ==> actions[i].building == building
    ensures ShowsKnown(Acts(w, actions).a.rx, building)
    decreases |actions|
  {
    if |actions| > 0 {
      var front, last := actions[..|actions| - 1], actions[|actions| - 1];
      OnlyBuildingsShown(w, front, building);
      KnownStep(Acts(w, front), last, building);
    }
  }

  lemma KnownStep(w: World, action: Action, building: U16 -> bool)
    requires ShowsKnown(w.a.rx, building) && (action.Hears? ==> action.building == building)
    ensures ShowsKnown(Act(w, action).a.rx, building)
  {
    hide AcceptPacket, ChunkPacket, Choose, Snapshot, Known;
    if action.Hears? && Known(action.packet, building) {
      AcceptKnown(w.a.rx, action.packet, building);
    }
  }

  /** While a player does not want to see queues, nothing that arrives is ever shown. */
  lemma {:induction false} NothingShownUnwanted(w: World, actions: seq<Action>)
    requires w.a == NEW_PEER
    requires forall i :: 0 <= i < |actions| && actions[i].Hears? ==> !actions[i].wanted
    ensures Acts(w, actions).a.rx == NEW_RX
    decreases |actions|
  {
    if |actions| > 0 {
      var front, last := actions[..|actions| - 1], actions[|actions| - 1];
      NothingShownUnwanted(w, front);
      UnwantedStep(Acts(w, front), last);
    }
  }

  lemma UnwantedStep(w: World, action: Action)
    requires w.a.rx == NEW_RX && (action.Hears? ==> !action.wanted)
    ensures Act(w, action).a.rx == NEW_RX
  {
    hide AcceptPacket, ChunkPacket, Choose, Snapshot, Known, Serve, Rewound, Due;
    if action.Serves? {
      ServingKeeps(w.a, action.now, action.wanted);
    }
  }
}
