/** The driver: ten peers, one sequence counter, one packet budget. */
module Driving {
  import opened Words
  import opened Records
  import opened WireFormat
  import opened Transmitting
  import opened Receiving
  import Link

  const PEERS: nat := 10
  const CONTROL_MS: U32 := 2000
  const PROBE_MS: U32 := 5000
  const RETRY_MS: U32 := 1000
  const LEASE_MS: U32 := 6000
  const STALE_MS: U32 := 10000
  const SCAN_MS: U32 := 100

  datatype Peer = Peer(
    dpid: U32, tx: Tx, rx: SizedRx,
    interestAt: U32, heardAt: U32, controlAt: U32, roundAt: U32, transactionAt: U32,
    subscribed: bool, known: bool, sentControl: bool, ackDue: bool)

  datatype Sent = Sent(to: nat, packet: Packet)

  datatype Served = Served(peer: Peer, packet: Packet)

  // ---- What is due, and what serving it does

  predicate ControlDue(p: Peer, now: U32, wanted: bool) {
    p.ackDue ||
    ((wanted || p.subscribed) &&
     (!p.sentControl || Sub32(now, p.controlAt) >= if p.known then CONTROL_MS else PROBE_MS))
  }

  predicate ChunkDue(p: Peer, now: U32) {
    p.subscribed && p.tx.active &&
    (p.tx.nextChunk != ChunkCount(p.tx.operations) || Sub32(now, p.roundAt) >= RETRY_MS)
  }

  predicate Due(p: Peer, now: U32, wanted: bool) {
    p.dpid != 0 && (ControlDue(p, now, wanted) || ChunkDue(p, now))
  }

  /** A round that was sent in full starts over once its retry time has come. */
  function Rewound(p: Peer, now: U32, wanted: bool): Peer {
    if !ControlDue(p, now, wanted) && p.tx.nextChunk == ChunkCount(p.tx.operations) then p.(tx := p.tx.(nextChunk := 0))
    else p
  }

  predicate RoundOk(p: Peer) {
    p.tx.nextChunk <= ChunkCount(p.tx.operations)
  }

  predicate PeerOk(p: Peer) {
    RoundOk(p) && p.tx.kind != INTEREST
  }

  function Serve(p: Peer, now: U32, wanted: bool): (s: Served)
    requires RoundOk(p) && Due(p, now, wanted)
    ensures RoundOk(s.peer)
  {
    if ControlDue(p, now, wanted) then
      Served(p.(ackDue := false, sentControl := true, controlAt := now),
             Link.ControlPacket(p.rx, wanted, p.subscribed))
    else
      var i := Rewound(p, now, wanted).tx.nextChunk;
      var next := i + 1;
      Served(p.(tx := p.tx.(nextChunk := next),
                roundAt := if next == ChunkCount(p.tx.operations) then now else p.roundAt),
             ChunkPacket(InFlight(p.tx), p.tx.sequence, Link.ID, i))
  }

  // ---- Preparing transactions after a scan

  datatype Batch = Batch(peers: seq<Peer>, sequence: U32)

  predicate Eligible(p: Peer) {
    p.subscribed && !p.tx.active
  }

  function PrepareOne(p: Peer, current: seq<Record>, seqno: U32, now: U32): Peer {
    if Starts(p.tx, current) then p.(tx := Prepared(p.tx, current, seqno), transactionAt := now, roundAt := now) else p
  }

  /** Every eligible peer draws the next sequence, whether or not it then has anything to send. */
  function PrepareAll(peers: seq<Peer>, current: seq<Record>, last: U32, now: U32): (r: Batch)
    ensures |r.peers| == |peers|
    decreases |peers|
  {
    if peers == [] then Batch([], last)
    else
      var front := PrepareAll(peers[..|peers| - 1], current, last, now);
      var p := peers[|peers| - 1];
      if Eligible(p) then
        var seqno := NextSequence(front.sequence);
        Batch(front.peers + [PrepareOne(p, current, seqno, now)], seqno)
      else Batch(front.peers + [p], front.sequence)
  }

  // ---- Packets and time

  const NEW_PEER: Peer := Peer(0, NEW_TX, NEW_RX, 0, 0, 0, 0, 0, false, false, false, false)

  /** Every record names a unit type that this game knows as a building. */
  predicate Known(p: Packet, building: U16 -> bool) {
    forall i :: 0 <= i < p.recordCount && i < RECORDS_PER_PACKET ==> building(p.records[i].buildUnitId)
  }

  /** A packet from an authorized player: an interest packet moves the transmitter, a data packet the receiver. */
  function Heard(p: Peer, packet: Packet, now: U32, wanted: bool, building: U16 -> bool): Peer {
    if !Envelope(packet, Link.ID) then p
    else if packet.kind == INTEREST then
      if !Link.IsControl(packet) then p
      else
        var asks := packet.base % 2 == 1;
        p.(known := true,
           heardAt := if packet.base >= 2 then now else p.heardAt,
           interestAt := if asks then now else p.interestAt,
           sentControl := p.sentControl && !(asks && !p.subscribed),
           subscribed := asks,
           tx := Link.HearControl(p.tx, packet))
    else if !wanted || !Known(packet, building) then p
    else
      var r := AcceptPacket(p.rx, packet);
      if r.ack then p.(rx := r.rx, ackDue := true, heardAt := now, known := true) else p.(rx := r.rx)
  }

  /** The packet is a fresh request: a peer that was not subscribed before asks for the queue. */
  predicate Subscribes(p: Peer, packet: Packet) {
    packet.kind == INTEREST && Link.IsControl(packet) && packet.base % 2 == 1 && !p.subscribed
  }

  /** Leases and stale displays, once per tick. */
  function Refreshed(p: Peer, now: U32, paused: bool): Peer {
    var lapsed := p.subscribed && Sub32(now, p.interestAt) >= LEASE_MS;
    var q := if lapsed then p.(subscribed := false, tx := p.tx.(active := false)) else p;
    if !paused && q.rx.sequence != 0 && Sub32(now, q.heardAt) >= STALE_MS then q.(rx := NEW_RX) else q
  }

  function Marked(peers: seq<Peer>, changed: bool): (r: seq<Peer>)
    ensures |r| == |peers|
    ensures forall i :: 0 <= i < |peers| ==> r[i] == if changed then peers[i].(ackDue := true) else peers[i]
  {
    if changed then seq(|peers|, i requires 0 <= i < |peers| => peers[i].(ackDue := true)) else peers
  }

  /** A slot whose player is not an authorized ally, or is another player than before, starts over. */
  function Owned(p: Peer, authorized: bool, dpid: U32): Peer {
    if !authorized then NEW_PEER else if p.dpid != dpid then NEW_PEER.(dpid := dpid) else p
  }

  function Ticked(p: Peer, authorized: bool, dpid: U32, now: U32, paused: bool): Peer {
    if authorized then Refreshed(Owned(p, true, dpid), now, paused) else NEW_PEER
  }

  // ---- Accounting for a send loop

  function ServeAt(peers: seq<Peer>, i: nat, now: U32, wanted: bool): (r: seq<Peer>)
    ensures |r| == |peers|
  {
    if i < |peers| && RoundOk(peers[i]) && Due(peers[i], now, wanted)
    then peers[i := Serve(peers[i], now, wanted).peer] else peers
  }

  /** The peers after the given packets were sent. */
  function After(peers: seq<Peer>, sent: seq<Sent>, now: U32, wanted: bool): (r: seq<Peer>)
    ensures |r| == |peers|
    decreases |sent|
  {
    if sent == [] then peers
    else ServeAt(After(peers, sent[..|sent| - 1], now, wanted), sent[|sent| - 1].to, now, wanted)
  }

  /** Each packet was due at its peer when it was sent, and is the packet that was due. */
  ghost predicate Justified(peers: seq<Peer>, sent: seq<Sent>, now: U32, wanted: bool) {
    forall k :: 0 <= k < |sent| ==> JustifiedAt(peers, sent, k, now, wanted)
  }

  ghost predicate JustifiedAt(peers: seq<Peer>, sent: seq<Sent>, k: nat, now: U32, wanted: bool)
    requires k < |sent|
  {
    var held := After(peers, sent[..k], now, wanted);
    && sent[k].to < |held|
    && var p := held[sent[k].to];
       RoundOk(p) && Due(p, now, wanted) && sent[k].packet == Serve(p, now, wanted).packet
  }

  /** `visits` names the round-robin position of each packet; every other position visited found a peer
      with nothing due, and that is still so. */
  ghost predicate RoundRobin(
    first: nat, last: nat, sent: seq<Sent>, visits: seq<nat>, peers: seq<Peer>, now: U32, wanted: bool)
    requires |peers| == PEERS
  {
    && |visits| == |sent|
    && (forall k :: 0 <= k < |sent| ==> first <= visits[k] < last && visits[k] % PEERS == sent[k].to)
    && (forall k, l :: 0 <= k < l < |visits| ==> visits[k] < visits[l])
    && (forall v :: first <= v < last && v !in visits ==> !Due(peers[v % PEERS], now, wanted))
  }

  lemma NothingSent(n: nat, peers: seq<Peer>, now: U32, wanted: bool)
    requires |peers| == PEERS
    ensures RoundRobin(n, n, [], [], peers, now, wanted)
    ensures Justified(peers, [], now, wanted) && After(peers, [], now, wanted) == peers
  {
  }

  /** Ten misses in a row: every peer was found with nothing due. */
  lemma AllQuiet(first: nat, n: nat, sent: seq<Sent>, visits: seq<nat>, peers: seq<Peer>, now: U32, wanted: bool)
    requires |peers| == PEERS && first + PEERS <= n && RoundRobin(first, n, sent, visits, peers, now, wanted)
    requires forall v :: n - PEERS <= v < n ==> v !in visits
    ensures forall i :: 0 <= i < PEERS ==> !Due(peers[i], now, wanted)
  {
    forall i | 0 <= i < PEERS ensures !Due(peers[i], now, wanted) {
      var v := NextVisit(n - PEERS, i);
      assert v !in visits;
    }
  }

  lemma MissedTurn(first: nat, n: nat, sent: seq<Sent>, visits: seq<nat>, peers: seq<Peer>, now: U32, wanted: bool)
    requires |peers| == PEERS && first <= n && RoundRobin(first, n, sent, visits, peers, now, wanted)
    requires !Due(peers[n % PEERS], now, wanted)
    ensures RoundRobin(first, n + 1, sent, visits, peers, now, wanted) && n !in visits
  {
  }

  lemma ServedTurn(first: nat, n: nat, sent: seq<Sent>, visits: seq<nat>, peers: seq<Peer>, now: U32, wanted: bool,
                   s: Sent, served: Peer)
    requires |peers| == PEERS && first <= n && RoundRobin(first, n, sent, visits, peers, now, wanted)
    requires s.to == n % PEERS && Due(peers[s.to], now, wanted)
    ensures n !in visits
    ensures RoundRobin(first, n + 1, sent + [s], visits + [n], peers[s.to := served], now, wanted)
  {
    forall v | first <= v < n + 1 && v !in visits + [n] ensures !Due(peers[s.to := served][v % PEERS], now, wanted) {
      assert v !in visits && v < n;
    }
  }

  /** Fairness: between two packets to one peer, every peer that still has something due got one. */
  lemma FairBetween(
    first: nat, last: nat, sent: seq<Sent>, visits: seq<nat>, peers: seq<Peer>, now: U32, wanted: bool,
    k: nat, l: nat, j: nat)
    requires |peers| == PEERS && RoundRobin(first, last, sent, visits, peers, now, wanted)
    requires k < l < |sent| && sent[k].to == sent[l].to != j < PEERS
    requires Due(peers[j], now, wanted)
    ensures exists m :: k < m < l && sent[m].to == j
  {
    var v := NextVisit(visits[k], j);
    assert visits[k] < visits[l] && visits[k] % PEERS == visits[l] % PEERS;
    TurnsApart(visits[k], visits[l]);
    assert v in visits;
    var m :| 0 <= m < |visits| && visits[m] == v;
    assert visits[k] < visits[m] < visits[l];
    assert m != k && m != l;
  }

  lemma TurnsApart(v: nat, u: nat)
    requires v < u && v % PEERS == u % PEERS
    ensures v + PEERS <= u
  {
  }

  /** Within any ten consecutive positions each peer has its turn. */
  lemma NextVisit(from: nat, j: nat) returns (v: nat)
    requires j < PEERS
    ensures from <= v < from + PEERS && v % PEERS == j
  {
    var d: nat := if j >= from % PEERS then j - from % PEERS else j + PEERS - from % PEERS;
    v := from + d;
  }

  lemma AfterAppend(peers: seq<Peer>, sent: seq<Sent>, s: Sent, now: U32, wanted: bool)
    requires s.to < |peers| && Justified(peers, sent, now, wanted)
    requires var p := After(peers, sent, now, wanted)[s.to];
      RoundOk(p) && Due(p, now, wanted) && s.packet == Serve(p, now, wanted).packet
    ensures Justified(peers, sent + [s], now, wanted)
    ensures After(peers, sent + [s], now, wanted)
         == After(peers, sent, now, wanted)[s.to := Serve(After(peers, sent, now, wanted)[s.to], now, wanted).peer]
  {
    var all := sent + [s];
    assert all[..|sent|] == sent;
    forall k | 0 <= k < |all| ensures JustifiedAt(peers, all, k, now, wanted) {
      if k < |sent| {
        assert JustifiedAt(peers, sent, k, now, wanted);
        assert all[..k] == sent[..k];
      }
    }
  }

  lemma JustifiedStep(peers: seq<Peer>, sent: seq<Sent>, now: U32, wanted: bool)
    requires |sent| > 0 && Justified(peers, sent, now, wanted)
    ensures var front, last := sent[..|sent| - 1], sent[|sent| - 1];
      var held := After(peers, front, now, wanted);
      && Justified(peers, front, now, wanted)
      && last.to < |held| && RoundOk(held[last.to]) && Due(held[last.to], now, wanted)
      && last.packet == Serve(held[last.to], now, wanted).packet
      && After(peers, sent, now, wanted) == held[last.to := Serve(held[last.to], now, wanted).peer]
  {
    hide Serve, Due;
    var front := sent[..|sent| - 1];
    forall k | 0 <= k < |front| ensures JustifiedAt(peers, front, k, now, wanted) {
      assert JustifiedAt(peers, sent, k, now, wanted) && front[..k] == sent[..k];
    }
    assert JustifiedAt(peers, sent, |front|, now, wanted);
  }

  lemma PrepareNone(current: seq<Record>, last: U32, now: U32)
    ensures PrepareAll([], current, last, now) == Batch([], last)
  {
  }

  lemma PrepareAllNext(peers: seq<Peer>, i: nat, current: seq<Record>, last: U32, now: U32)
    requires i < |peers|
    ensures var front := PrepareAll(peers[..i], current, last, now);
      var p := peers[i];
      PrepareAll(peers[..i + 1], current, last, now) ==
      if Eligible(p) then
        var seqno := NextSequence(front.sequence);
        Batch(front.peers + [PrepareOne(p, current, seqno, now)], seqno)
      else Batch(front.peers + [p], front.sequence)
  {
    assert peers[..i + 1][..i] == peers[..i];
  }

  lemma PrepareOneOk(p: Peer, current: seq<Record>, seqno: U32, now: U32)
    requires PeerOk(p)
    ensures PeerOk(PrepareOne(p, current, seqno, now))
  {
  }

  /** The bookkeeping after a packet was handed to the network. */
  function Noted(p: Peer, packet: Packet, now: U32): Peer {
    if packet.kind == INTEREST then p.(ackDue := false, sentControl := true, controlAt := now)
    else
      var next := p.tx.nextChunk + 1;
      p.(tx := p.tx.(nextChunk := next), roundAt := if next == ChunkCount(p.tx.operations) then now else p.roundAt)
  }

  lemma ServeIsRewindThenNote(p: Peer, now: U32, wanted: bool)
    requires PeerOk(p) && Due(p, now, wanted)
    ensures var s := Serve(p, now, wanted); var r := Rewound(p, now, wanted);
      && Noted(r, s.packet, now) == s.peer && PeerOk(s.peer) && PeerOk(r)
      && (s.packet.kind != INTEREST ==> r.tx.nextChunk < ChunkCount(r.tx.operations))
  {
  }

  lemma TickedOk(p: Peer, authorized: bool, dpid: U32, now: U32, paused: bool)
    requires PeerOk(p)
    ensures PeerOk(Ticked(p, authorized, dpid, now, paused))
  {
  }

  lemma HeardOk(p: Peer, packet: Packet, now: U32, wanted: bool, building: U16 -> bool)
    requires PeerOk(p)
    ensures PeerOk(Heard(p, packet, now, wanted, building))
  {
  }

  class Driver {
    const peers: array<Peer>
    var sequence: U32
    var nextPeer: nat
    var scanAt: U32
    var wanted: bool

    ghost predicate Valid()
      reads peers
    {
      peers.Length == PEERS && forall i :: 0 <= i < PEERS ==> PeerOk(peers[i])
    }

    constructor ()
      ensures Valid() && fresh(peers) && sequence == 0 && nextPeer == 0 && scanAt == 0 && !wanted
      ensures forall i :: 0 <= i < PEERS ==> peers[i] == NEW_PEER
    {
      peers := new Peer[PEERS](i => NEW_PEER);
      sequence, nextPeer, scanAt, wanted := 0, 0, 0, false;
    }

    /** `HandlePacket`, for a sender that is authorized and sits in slot i.  A fresh request makes the next
        tick scan at once. */
    method HandlePacket(i: nat, dpid: U32, packet: Packet, now: U32, building: U16 -> bool)
      requires Valid() && i < PEERS
      modifies this`scanAt, peers
      ensures Valid()
      ensures var owned := Owned(old(peers[i]), true, dpid);
        if Envelope(packet, Link.ID)
        then
          && peers[..] == old(peers[..])[i := Heard(owned, packet, now, wanted, building)]
          && scanAt == if Subscribes(owned, packet) then Sub32(now, SCAN_MS) else old(scanAt)
        else peers[..] == old(peers[..]) && scanAt == old(scanAt)
    {
      if !Envelope(packet, Link.ID) {
        return;
      }
      if peers[i].dpid != dpid {
        peers[i] := NEW_PEER.(dpid := dpid);
      }
      ghost var owned := peers[i];
      HeardOk(owned, packet, now, wanted, building);
      if packet.kind == INTEREST {
        var peer, asks := HearInterest(peers[i], packet, now, building);
        if asks {
          scanAt := Sub32(now, SCAN_MS);
        }
        hide Heard, Owned, PeerOk;
        peers[i] := peer;
      } else {
        var peer := HearData(peers[i], packet, now, wanted, building);
        hide Heard, Owned, PeerOk;
        peers[i] := peer;
      }
    }

    /** An interest packet moves the transmitter. */
    static method HearInterest(before: Peer, packet: Packet, now: U32, ghost building: U16 -> bool)
      returns (peer: Peer, asks: bool)
      requires packet.kind == INTEREST && Envelope(packet, Link.ID)
      ensures forall wanted :: peer == Heard(before, packet, now, wanted, building)
      ensures asks <==> Subscribes(before, packet)
    {
      peer, asks := before, false;
      if packet.base > 3 || packet.chunkCount != 0 || packet.chunkIndex != 0 || packet.recordCount != 0 {
        return;
      }
      peer := peer.(known := true);
      if packet.base >= 2 {
        peer := peer.(heardAt := now);
      }
      peer := peer.(subscribed := packet.base % 2 == 1);
      if peer.subscribed {
        peer := peer.(interestAt := now);
        if !before.subscribed {
          asks := true;
          peer := peer.(sentControl := false);
        }
      } else {
        peer := peer.(tx := peer.tx.(active := false));
      }
      peer := peer.(tx := Acknowledged(peer.tx, packet.sequence));
    }

    /** A data packet moves the receiver. */
    static method HearData(before: Peer, packet: Packet, now: U32, wanted: bool, building: U16 -> bool) returns (peer: Peer)
      requires packet.kind != INTEREST && Envelope(packet, Link.ID)
      ensures peer == Heard(before, packet, now, wanted, building)
    {
      if !wanted {
        return before;
      }
      var n := Min(packet.recordCount, RECORDS_PER_PACKET);
      for k := 0 to n
        invariant forall j :: 0 <= j < k ==> building(packet.records[j].buildUnitId)
      {
        if !building(packet.records[k].buildUnitId) {
          return before;
        }
      }
      hide AcceptPacket;
      var r := AcceptPacket(before.rx, packet);
      peer := before.(rx := r.rx);
      if r.ack {
        peer := peer.(ackDue := true, heardAt := now, known := true);
      }
    }

    /** All peers start over; sequences go on. */
    method Clear(scanAt: U32)
      requires Valid()
      modifies this`scanAt, this`wanted, peers
      ensures Valid() && this.scanAt == scanAt && !wanted && forall i :: 0 <= i < PEERS ==> peers[i] == NEW_PEER
    {
      forall i | 0 <= i < PEERS {
        peers[i] := NEW_PEER;
      }
      this.scanAt, wanted := scanAt, false;
    }

    /** A change of mind about seeing queues is reported to every peer at once. */
    method SetWanted(wanted: bool)
      requires Valid()
      modifies this`wanted, peers
      ensures Valid() && this.wanted == wanted
      ensures peers[..] == Marked(old(peers[..]), wanted != old(this.wanted))
    {
      if wanted == this.wanted {
        return;
      }
      this.wanted := wanted;
      ghost var before := peers[..];
      for i := 0 to PEERS
        invariant Valid() && this.wanted == wanted
        invariant forall k :: 0 <= k < i ==> peers[k] == before[k].(ackDue := true)
        invariant forall k :: i <= k < PEERS ==> peers[k] == before[k]
      {
        peers[i] := peers[i].(ackDue := true);
      }
    }

    /** The peer loop at the start of `OnGameTick`. */
    method RefreshAll(authorized: seq<bool>, dpids: seq<U32>, paused: bool, now: U32) returns (anySubscriber: bool)
      requires Valid() && |authorized| == |dpids| == PEERS
      modifies peers
      ensures Valid()
      ensures forall i :: 0 <= i < PEERS ==>
        peers[i] == Ticked(old(peers[i]), authorized[i], dpids[i], now, paused)
      ensures anySubscriber <==> exists i :: 0 <= i < PEERS && peers[i].subscribed
    {
      hide Ticked, PeerOk;
      anySubscriber := false;
      for i := 0 to PEERS
        invariant Valid()
        invariant forall k :: 0 <= k < i ==>
          peers[k] == Ticked(old(peers[k]), authorized[k], dpids[k], now, paused)
        invariant forall k :: i <= k < PEERS ==> peers[k] == old(peers[k])
        invariant anySubscriber <==> exists k :: 0 <= k < i && peers[k].subscribed
      {
        peers[i] := Refresh(peers[i], authorized[i], dpids[i], paused, now);
        anySubscriber := anySubscriber || peers[i].subscribed;
      }
    }

    /** The body of that loop. */
    static method Refresh(before: Peer, authorized: bool, dpid: U32, paused: bool, now: U32) returns (peer: Peer)
      requires PeerOk(before)
      ensures peer == Ticked(before, authorized, dpid, now, paused) && PeerOk(peer)
    {
      if !authorized {
        return NEW_PEER;
      }
      peer := before;
      if peer.dpid != dpid {
        peer := NEW_PEER.(dpid := dpid);
      }
      if peer.subscribed && Sub32(now, peer.interestAt) >= LEASE_MS {
        peer := peer.(subscribed := false, tx := peer.tx.(active := false));
      }
      if !paused && peer.rx.sequence != 0 && Sub32(now, peer.heardAt) >= STALE_MS {
        peer := peer.(rx := NEW_RX);
      }
    }

    /** The next sequence; zero is skipped. */
    method DrawSequence() returns (seqno: U32)
      modifies this`sequence
      ensures seqno == sequence == NextSequence(old(sequence))
    {
      sequence := if sequence == 0xFFFF_FFFF then 0 else sequence + 1;
      if sequence == 0 {
        sequence := 1;
      }
      seqno := sequence;
    }

    /** The prepare loop of `OnGameTick`. */
    method PrepareForAll(current: seq<Record>, now: U32)
      requires Valid()
      modifies this`sequence, peers
      ensures Valid()
      ensures Batch(peers[..], sequence) == PrepareAll(old(peers[..]), current, old(sequence), now)
    {
      hide Starts, Prepared, PeerOk, PrepareOne, PrepareAll, NextSequence;
      PrepareNone(current, sequence, now);
      ghost var before := peers[..];
      for i := 0 to PEERS
        invariant Valid()
        invariant Batch(peers[..i], sequence) == PrepareAll(before[..i], current, old(sequence), now)
        invariant peers[i..] == before[i..]
      {
        PrepareAllNext(before, i, current, old(sequence), now);
        assert peers[i] == before[i];
        if peers[i].subscribed && !peers[i].tx.active {
          var seqno := DrawSequence();
          PrepareOneOk(peers[i], current, seqno, now);
          peers[i] := PrepareOne(peers[i], current, seqno, now);
        }
        assert peers[..i + 1] == peers[..i] + [peers[i]];
      }
      assert peers[..PEERS] == peers[..] && before[..PEERS] == before;
    }

    /** One turn of the send loop, at peer i: the packet to send, if anything is due.  A finished round is
        rewound before its first chunk is built. */
    method Turn(i: nat, now: U32) returns (due: bool, packet: Packet)
      requires Valid() && i < PEERS
      modifies peers
      ensures Valid()
      ensures due <==> Due(old(peers[i]), now, wanted)
      ensures due ==> packet == Serve(old(peers[i]), now, wanted).packet
      ensures peers[..] == old(peers[..])[i := if due then Rewound(old(peers[i]), now, wanted) else old(peers[i])]
    {
      var peer := peers[i];
      packet := MakePacket(Link.ID, INTEREST);
      if peer.dpid == 0 {
        return false, packet;
      }
      var interval := if peer.known then CONTROL_MS else PROBE_MS;
      if peer.ackDue || ((wanted || peer.subscribed) && (!peer.sentControl || Sub32(now, peer.controlAt) >= interval)) {
        packet := packet.(base := (if wanted then 1 else 0) + (if peer.subscribed then 2 else 0),
                          sequence := Acknowledgement(peer.rx));
        return true, packet;
      }
      if peer.subscribed && peer.tx.active {
        if peer.tx.nextChunk == ChunkCount(peer.tx.operations) {
          if Sub32(now, peer.roundAt) < RETRY_MS {
            return false, packet;
          }
          peers[i] := peer.(tx := peer.tx.(nextChunk := 0));
        }
        return true, ChunkPacket(InFlight(peers[i].tx), peers[i].tx.sequence, Link.ID, peers[i].tx.nextChunk);
      }
      return false, packet;
    }

    method Note(i: nat, packet: Packet, now: U32)
      requires Valid() && i < PEERS
      requires packet.kind != INTEREST ==> peers[i].tx.nextChunk < ChunkCount(peers[i].tx.operations)
      modifies peers
      ensures Valid()
      ensures peers[..] == old(peers[..])[i := Noted(old(peers[i]), packet, now)]
    {
      var peer := peers[i];
      if packet.kind == INTEREST {
        peers[i] := peer.(ackDue := false, sentControl := true, controlAt := now);
      } else {
        var next := peer.tx.nextChunk + 1;
        peers[i] := peer.(tx := peer.tx.(nextChunk := next));
        if next == ChunkCount(peer.tx.operations) {
          peers[i] := peers[i].(roundAt := now);
        }
      }
    }

    /** The send loop of `OnGameTick`.  `accepts(n)` tells whether the n-th attempt to hand a packet to the
        network succeeds.  Nothing is sent beyond the grant or without being due; a loop that ends without a
        failed attempt has used the grant up or leaves nothing due at any peer. */
    method SendLoop(now: U32, grant: nat, accepts: nat -> bool)
      returns (sent: seq<Sent>, failed: bool, ghost visits: seq<nat>)
      requires Valid()
      modifies this`nextPeer, peers
      ensures Valid() && |sent| <= grant
      ensures Justified(old(peers[..]), sent, now, wanted)
      ensures !failed ==>
        && peers[..] == After(old(peers[..]), sent, now, wanted)
        && RoundRobin(old(nextPeer), nextPeer, sent, visits, peers[..], now, wanted)
        && (|sent| == grant || forall i :: 0 <= i < PEERS ==> !Due(peers[i], now, wanted))
      ensures failed ==>
        && |sent| < grant && !accepts(|sent|) && nextPeer > old(nextPeer)
        && var after, i := After(old(peers[..]), sent, now, wanted), (nextPeer - 1) % PEERS;
           && Due(after[i], now, wanted)
           && peers[..] == after[i := Rewound(after[i], now, wanted)]
           && RoundRobin(old(nextPeer), nextPeer - 1, sent, visits, after, now, wanted)
    {
      hide Due, Serve, Rewound, Noted, RoundRobin, Justified, After;
      NothingSent(nextPeer, peers[..], now, wanted);
      sent, failed, visits := [], false, [];
      var allowance: nat, misses: nat := grant, 0;
      ghost var before := peers[..];
      while allowance > 0 && misses < PEERS
        invariant Valid() && !failed
        invariant allowance + |sent| == grant && misses <= PEERS
        invariant old(nextPeer) + misses <= nextPeer
        invariant Justified(before, sent, now, wanted) && peers[..] == After(before, sent, now, wanted)
        invariant RoundRobin(old(nextPeer), nextPeer, sent, visits, peers[..], now, wanted)
        invariant forall v :: nextPeer - misses <= v < nextPeer ==> v !in visits
        decreases allowance, PEERS - misses
      {
        var i := nextPeer % PEERS;
        ghost var p, all := peers[i], peers[..];
        nextPeer := nextPeer + 1;
        var due, packet := Turn(i, now);
        if !due {
          assert peers[..] == all;
          MissedTurn(old(nextPeer), nextPeer - 1, sent, visits, all, now, wanted);
          misses := misses + 1;
          continue;
        }
        if !accepts(|sent|) {
          failed := true;
          break;
        }
        ServeIsRewindThenNote(p, now, wanted);
        Note(i, packet, now);
        assert peers[..] == all[i := Serve(p, now, wanted).peer];
        AfterAppend(before, sent, Sent(i, packet), now, wanted);
        ServedTurn(old(nextPeer), nextPeer - 1, sent, visits, all, now, wanted, Sent(i, packet), peers[i]);
        sent := sent + [Sent(i, packet)];
        visits := visits + [nextPeer - 1];
        allowance, misses := allowance - 1, 0;
      }
      if !failed && allowance > 0 {
        AllQuiet(old(nextPeer), nextPeer, sent, visits, peers[..], now, wanted);
      }
    }
  }
}
