/** What one send loop owes each peer, written down as a list: the loop sends a prefix of it, and all of it unless
    the grant is spent or the network refuses. */
module Agendas {
  import opened Words
  import opened WireFormat
  import opened Transmitting
  import opened Driving
  import Link

  /** The chunks of the transaction in flight from an index on. */
  function ChunksFrom(tx: Tx, first: nat): (packets: seq<Packet>)
    requires first <= ChunkCount(tx.operations)
    ensures |packets| == ChunkCount(tx.operations) - first
    decreases ChunkCount(tx.operations) - first
  {
    if first == ChunkCount(tx.operations) then []
    else [ChunkPacket(InFlight(tx), tx.sequence, Link.ID, first)] + ChunksFrom(tx, first + 1)
  }

  /** The rest of a round; a finished round is repeated once its retry time has come. */
  function RoundLeft(p: Peer, now: U32): seq<Packet>
    requires RoundOk(p)
  {
    if !p.subscribed || !p.tx.active then []
    else if p.tx.nextChunk < ChunkCount(p.tx.operations) then ChunksFrom(p.tx, p.tx.nextChunk)
    else if Sub32(now, p.roundAt) >= RETRY_MS then ChunksFrom(p.tx, 0)
    else []
  }

  /** Everything due to a peer: at most one report, then chunks. */
  function Agenda(p: Peer, now: U32, wanted: bool): seq<Packet>
    requires RoundOk(p)
  {
    if p.dpid == 0 then []
    else (if ControlDue(p, now, wanted) then [Link.ControlPacket(p.rx, wanted, p.subscribed)] else []) + RoundLeft(p, now)
  }

  function PacketsTo(sent: seq<Sent>, i: nat): seq<Packet> {
    if |sent| == 0 then []
    else PacketsTo(sent[..|sent| - 1], i) + if sent[|sent| - 1].to == i then [sent[|sent| - 1].packet] else []
  }

  /** Something is due exactly when the agenda is not empty; what is sent is its first entry, and the rest
      stays. */
  lemma AgendaShrinks(p: Peer, now: U32, wanted: bool)
    requires RoundOk(p)
    ensures Due(p, now, wanted) <==> |Agenda(p, now, wanted)| > 0
    ensures Due(p, now, wanted) ==> var s := Serve(p, now, wanted);
      Agenda(p, now, wanted) == [s.packet] + Agenda(s.peer, now, wanted)
  {
    hide ChunkPacket, Link.ControlPacket, ChunksFrom;
    if Due(p, now, wanted) {
      var s := Serve(p, now, wanted);
      if ControlDue(p, now, wanted) {
        assert Agenda(s.peer, now, wanted) == RoundLeft(p, now);
      } else {
        RoundShrinks(p, now, wanted);
      }
    }
  }

  lemma RoundShrinks(p: Peer, now: U32, wanted: bool)
    requires RoundOk(p) && Due(p, now, wanted) && !ControlDue(p, now, wanted)
    ensures var s := Serve(p, now, wanted);
      !ControlDue(s.peer, now, wanted) && RoundLeft(p, now) == [s.packet] + RoundLeft(s.peer, now)
  {
    hide ChunkPacket;
    var s := Serve(p, now, wanted);
    var i := Rewound(p, now, wanted).tx.nextChunk;
    SameChunks(p.tx, s.peer.tx, i + 1);
  }

  lemma {:induction false} SameChunks(t: Tx, u: Tx, first: nat)
    requires InFlight(t) == InFlight(u) && t.sequence == u.sequence && first <= ChunkCount(t.operations)
    ensures ChunksFrom(t, first) == ChunksFrom(u, first)
    decreases ChunkCount(t.operations) - first
  {
    hide ChunkPacket;
    if first < ChunkCount(t.operations) {
      SameChunks(t, u, first + 1);
    }
  }

  lemma AgendaMoves(peers: seq<Peer>, after: seq<Peer>, s: Sent, now: U32, wanted: bool, i: nat)
    requires i < |peers| && RoundOk(peers[i]) && s.to < |peers| && RoundOk(peers[s.to]) && Due(peers[s.to], now, wanted)
    requires s.packet == Serve(peers[s.to], now, wanted).packet
    requires after == peers[s.to := Serve(peers[s.to], now, wanted).peer]
    ensures RoundOk(after[i])
    ensures Agenda(peers[i], now, wanted) == (if s.to == i then [s.packet] else []) + Agenda(after[i], now, wanted)
  {
    AgendaShrinks(peers[s.to], now, wanted);
    hide Agenda, Due, Serve, RoundOk;
  }

  /** What was sent to a peer, followed by what is still due to it, is what was due to it at first. */
  lemma {:induction false} SentIsOfAgenda(peers: seq<Peer>, sent: seq<Sent>, now: U32, wanted: bool, i: nat)
    requires i < |peers| && RoundOk(peers[i]) && Justified(peers, sent, now, wanted)
    ensures var after := After(peers, sent, now, wanted)[i];
      RoundOk(after) && Agenda(peers[i], now, wanted) == PacketsTo(sent, i) + Agenda(after, now, wanted)
    decreases |sent|
  {
    hide Justified, Agenda, Serve, Due, RoundOk;
    if |sent| == 0 {
      assert [] + Agenda(peers[i], now, wanted) == Agenda(peers[i], now, wanted);
    } else {
      var front, last := sent[..|sent| - 1], sent[|sent| - 1];
      JustifiedStep(peers, sent, now, wanted);
      SentIsOfAgenda(peers, front, now, wanted, i);
      AgendaMoves(After(peers, front, now, wanted), After(peers, sent, now, wanted), last, now, wanted, i);
      hide After;
    }
  }

  lemma {:induction false} ChunksAreData(tx: Tx, first: nat)
    requires first <= ChunkCount(tx.operations) && tx.kind != INTEREST
    ensures forall k :: 0 <= k < |ChunksFrom(tx, first)| ==> ChunksFrom(tx, first)[k].kind != INTEREST
    decreases ChunkCount(tx.operations) - first
  {
    if first < ChunkCount(tx.operations) {
      ChunksAreData(tx, first + 1);
    }
  }

  /** One loop sends a peer at most one report, and before any chunk. */
  lemma OneReport(peers: seq<Peer>, sent: seq<Sent>, now: U32, wanted: bool, i: nat)
    requires i < |peers| && PeerOk(peers[i]) && Justified(peers, sent, now, wanted)
    ensures forall k :: 0 < k < |PacketsTo(sent, i)| ==> PacketsTo(sent, i)[k].kind != INTEREST
  {
    hide Justified, After;
    var agenda, after := Agenda(peers[i], now, wanted), After(peers, sent, now, wanted)[i];
    SentIsOfAgenda(peers, sent, now, wanted, i);
    assert agenda == PacketsTo(sent, i) + Agenda(after, now, wanted);
    ChunksAreData(peers[i].tx, peers[i].tx.nextChunk);
    ChunksAreData(peers[i].tx, 0);
    forall k | 0 < k < |agenda| ensures agenda[k].kind != INTEREST {
    }
    forall k | 0 < k < |PacketsTo(sent, i)| ensures PacketsTo(sent, i)[k].kind != INTEREST {
      assert PacketsTo(sent, i)[k] == agenda[k];
    }
  }

  /** A report once sent is not due again before its interval has passed, and then only if there is anything
      to tell. */
  lemma ReportRests(p: Peer, now: U32, wanted: bool, later: U32, wish: bool)
    requires RoundOk(p) && p.dpid != 0 && ControlDue(p, now, wanted)
    ensures ControlDue(Serve(p, now, wanted).peer, later, wish)
        <==> (wish || p.subscribed) && Sub32(later, now) >= if p.known then CONTROL_MS else PROBE_MS
  {
  }

  /** A round once finished is not repeated before its retry time has come, and then from its first chunk. */
  lemma RoundRests(p: Peer, now: U32, wanted: bool, later: U32)
    requires RoundOk(p) && Due(p, now, wanted) && !ControlDue(p, now, wanted) && |RoundLeft(p, now)| == 1
    ensures RoundLeft(Serve(p, now, wanted).peer, later)
         == if Sub32(later, now) >= RETRY_MS then ChunksFrom(p.tx, 0) else []
  {
    var q := Serve(p, now, wanted).peer;
    SameChunks(p.tx, q.tx, 0);
    hide ChunksFrom, ChunkPacket;
    assert q.roundAt == now && q.tx.nextChunk == ChunkCount(q.tx.operations);
  }
}
