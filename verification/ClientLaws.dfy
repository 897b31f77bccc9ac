/** What a whole client owes and refuses: to allies all that is due, to others nothing; a new game starts from
    nothing; scans keep their distance. */
module ClientLaws {
  import opened Words
  import opened WireFormat
  import opened Transmitting
  import opened Receiving
  import opened Driving
  import opened Budgeting
  import opened Records
  import opened Collecting
  import opened GameTicks
  import opened TickRuns
  import opened Agendas
  import opened ClientRuns
  import Link

  // ---- Sending

  /** What a tick sends a peer is the head of what is due to it, and all of it if the network refuses nothing and
      the grant is not spent. */
  lemma TickSendsAgenda(before: Book, after: Book, wanted: bool, t: nat, accepts: nat -> bool, sent: seq<Sent>, failed: bool, i: nat)
    requires Played(before, after, wanted, t, accepts, sent, failed)
    requires i < |before.peers| && RoundOk(before.peers[i])
    ensures var now := Clock(t); var agenda := Agenda(before.peers[i], now, wanted);
      && PacketsTo(sent, i) <= agenda
      && (!failed && |sent| < Taken(before.bucket, now, PACKETS_PER_SECOND, BURST_PACKETS).packets ==> PacketsTo(sent, i) == agenda)
  {
    hide Justified, After, Agenda, Due, Taken;
    var now := Clock(t);
    SentIsOfAgenda(before.peers, sent, now, wanted, i);
    var served := After(before.peers, sent, now, wanted)[i];
    AgendaShrinks(served, now, wanted);
  }

  lemma {:induction false} JustifiedIsOwned(peers: seq<Peer>, sent: seq<Sent>, now: U32, wanted: bool)
    requires Justified(peers, sent, now, wanted)
    ensures forall i :: 0 <= i < |peers| ==> After(peers, sent, now, wanted)[i].dpid == peers[i].dpid
    ensures forall i :: 0 <= i < |peers| && peers[i].dpid == 0 ==> After(peers, sent, now, wanted)[i] == peers[i]
    ensures forall k :: 0 <= k < |sent| ==> sent[k].to < |peers| && peers[sent[k].to].dpid != 0
    decreases |sent|
  {
    if |sent| > 0 {
      var front := sent[..|sent| - 1];
      JustifiedStep(peers, sent, now, wanted);
      hide Justified;
      JustifiedIsOwned(peers, front, now, wanted);
      var last, held := sent[|sent| - 1].to, After(peers, front, now, wanted);
      hide After, ControlDue, ChunkDue;
      assert held[last].dpid == peers[last].dpid != 0;
      assert forall k :: 0 <= k < |front| ==> front[k] == sent[k];
    }
  }

  /** Each slot before sending is its player's, or empty if that is no ally. */
  ghost predicate Allotted(peers: seq<Peer>, g: Game)
    requires g.Game? && GameOk(g)
  {
    |peers| == PEERS && forall i :: 0 <= i < PEERS ==> if g.authorized[i] then peers[i].dpid == g.dpids[i] else peers[i] == NEW_PEER
  }

  lemma EnteredKeepsSize(b: Book, g: Game, now: U32)
    requires g.Game? && |b.peers| == PEERS
    ensures |Entered(b, g, now).peers| == PEERS
  {
  }

  lemma RefreshedIsAllotted(b: Book, g: Game, wanted: bool, now: U32)
    requires g.Game? && GameOk(g) && |b.peers| == PEERS
    ensures Allotted(Refreshing(b, g, wanted, now).peers, g)
  {
  }

  lemma ScannedIsAllotted(b: Book, g: Game, now: U32)
    requires g.Game? && GameOk(g) && Allotted(b.peers, g)
    ensures Allotted(Scanning(b, g, now).peers, g)
  {
    hide PrepareAll, Canonicalized, FirstDistinct, ScanDue, Starts;
    var current := Canonicalized(FirstDistinct(g.candidates));
    forall i | 0 <= i < PEERS
      ensures var p := PrepareAll(b.peers, current, b.sequence, now).peers[i]; p.dpid == b.peers[i].dpid && (p == b.peers[i] || b.peers[i].subscribed)
    {
      var k := PreparedAt(b.peers, i, current, b.sequence, now);
    }
  }

  lemma ReadyIsAllotted(b: Book, g: Game, wanted: bool, now: U32)
    requires g.Game? && GameOk(g) && |b.peers| == PEERS
    ensures Allotted(Ready(b, g, wanted, now).peers, g)
  {
    hide Entered, Refreshing, Scanning, Allotted;
    EnteredKeepsSize(b, g, now);
    RefreshedIsAllotted(Entered(b, g, now), g, wanted, now);
    ScannedIsAllotted(Refreshing(Entered(b, g, now), g, wanted, now), g, now);
  }

  /** Whatever a tick sends goes to an ally in a slot that has an owner; after it the slots of all others are
      empty, and every ally's slot is its own. */
  lemma OnlyAlliesServed(before: Book, g: Game, wanted: bool, t: nat, accepts: nat -> bool, after: Book, sent: seq<Sent>, failed: bool)
    requires GameOk(g) && |before.peers| == PEERS && TickOutcome(before, g, wanted, t, accepts, after, sent, failed)
    ensures forall k :: 0 <= k < |sent| ==> sent[k].to < PEERS && g.Game? && g.authorized[sent[k].to] && g.dpids[sent[k].to] != 0
    ensures g.Game? && g.live ==> Allotted(after.peers, g)
  {
    hide Ready, Justified, After, Due, Taken, Rewound, Entered, Left;
    if g.Game? && g.live {
      var ready := Ready(before, g, wanted, Clock(t));
      ReadyIsAllotted(before, g, wanted, Clock(t));
      JustifiedIsOwned(ready.peers, sent, Clock(t), wanted);
      RefusedIsOwned(After(ready.peers, sent, Clock(t), wanted), Clock(t), wanted);
    }
  }

  lemma RefusedIsOwned(peers: seq<Peer>, now: U32, wanted: bool)
    ensures forall i :: 0 <= i < |peers| ==> Rewound(peers[i], now, wanted).dpid == peers[i].dpid
    ensures forall i :: 0 <= i < |peers| && Due(peers[i], now, wanted) ==> peers[i].dpid != 0
  {
  }

  // ---- Being told, and forgetting

  /** The game goes on for this client: same player, and time has not run back. */
  predicate Continues(b: Book, g: Game) {
    g.Game? && g.live && g.dpid == b.dpid && g.tick >= b.lastTick
  }

  /** When a player changes its mind about seeing queues, the first packet due to every ally it already had says so. */
  lemma WishIsTold(b: Book, g: Game, wanted: bool, now: U32, i: nat)
    requires GameOk(g) && Continues(b, g) && |b.peers| == PEERS && wanted != b.wanted
    requires i < PEERS && RoundOk(b.peers[i]) && g.authorized[i] && b.peers[i].dpid == g.dpids[i] != 0
    ensures var p := Ready(b, g, wanted, now).peers[i];
      && RoundOk(p) && |Agenda(p, now, wanted)| > 0
      && var first := Agenda(p, now, wanted)[0];
         first.kind == INTEREST && Link.IsControl(first) && (first.base % 2 == 1 <==> wanted)
  {
    hide Ready, Agenda, ControlDue;
    WishStays(b, g, wanted, now, i);
    ToldFirst(Ready(b, g, wanted, now).peers[i], now, wanted);
  }

  lemma ToldFirst(p: Peer, now: U32, wanted: bool)
    requires p.ackDue && p.dpid != 0 && RoundOk(p)
    ensures |Agenda(p, now, wanted)| > 0
    ensures var first := Agenda(p, now, wanted)[0];
      first.kind == INTEREST && Link.IsControl(first) && (first.base % 2 == 1 <==> wanted)
  {
    hide RoundLeft;
  }

  lemma WishStays(b: Book, g: Game, wanted: bool, now: U32, i: nat)
    requires GameOk(g) && Continues(b, g) && |b.peers| == PEERS && wanted != b.wanted
    requires i < PEERS && RoundOk(b.peers[i]) && g.authorized[i] && b.peers[i].dpid == g.dpids[i] != 0
    ensures |Ready(b, g, wanted, now).peers| == PEERS
    ensures var p := Ready(b, g, wanted, now).peers[i];
      p.ackDue && p.dpid != 0 && RoundOk(p)
  {
    hide PrepareAll, Canonicalized, FirstDistinct, ScanDue, Starts, RoundLeft, Refreshed, Agenda, Prepared;
    var r := Refreshing(Entered(b, g, now), g, wanted, now);
    RefreshedKeepsDue(b.peers[i].(ackDue := true), now, g.paused);
    assert r.peers[i] == Refreshed(b.peers[i].(ackDue := true), now, g.paused);
    var current := Canonicalized(FirstDistinct(g.candidates));
    var k := PreparedAt(r.peers, i, current, r.sequence, now);
    PreparedKeepsDue(r.peers[i], current, Later(r.sequence, k), now);
  }

  lemma PreparedKeepsDue(p: Peer, current: seq<Record>, seqno: U32, now: U32)
    ensures var q := PrepareOne(p, current, seqno, now);
      q.ackDue == p.ackDue && q.dpid == p.dpid && (RoundOk(p) ==> RoundOk(q))
  {
  }

  lemma RefreshedKeepsDue(p: Peer, now: U32, paused: bool)
    ensures var q := Refreshed(p, now, paused);
      q.ackDue == p.ackDue && q.dpid == p.dpid && (RoundOk(p) ==> RoundOk(q))
  {
  }

  /** Another player, or a time before the last, is another game: nothing shown, nobody subscribed, no base;
      the sequence counter goes on. */
  lemma NewGameForgets(b: Book, g: Game, wanted: bool, now: U32, i: nat)
    requires GameOk(g) && g.Game? && !(g.dpid == b.dpid && g.tick >= b.lastTick) && |b.peers| == PEERS && i < PEERS
    ensures Ready(b, g, wanted, now).peers[i].(ackDue := false) == (if g.authorized[i] then NEW_PEER.(dpid := g.dpids[i]) else NEW_PEER)
    ensures Ready(b, g, wanted, now).sequence == b.sequence
  {
    hide PrepareAll, Canonicalized, FirstDistinct;
    var e := Entered(b, g, now);
    var r := Refreshing(e, g, wanted, now);
    assert e.peers == seq(PEERS, _ => NEW_PEER) && e.sequence == b.sequence;
    forall k | 0 <= k < PEERS
      ensures r.peers[k].(ackDue := false) == (if g.authorized[k] then NEW_PEER.(dpid := g.dpids[k]) else NEW_PEER)
    {
      assert e.peers[k] == NEW_PEER;
    }
    assert !ScanDue(r, now);
  }

  /** A tick remembers the game it saw, so that `OnlyAlliesHeard` speaks of it until the next. */
  lemma TickRemembersGame(b: Book, g: Game, wanted: bool, t: nat, accepts: nat -> bool, after: Book, sent: seq<Sent>, failed: bool)
    requires GameOk(g) && |b.peers| == PEERS && TickOutcome(b, g, wanted, t, accepts, after, sent, failed) && g.Game? && g.live
    ensures after.dpid == g.dpid && after.lastTick == g.tick && after.wanted == wanted
  {
    hide PrepareAll, Canonicalized, FirstDistinct, Justified, After, Due, ScanDue;
  }

  /** Leaving a game forgets it; only the sequence counter goes on. */
  lemma LeavingForgets(b: Book, g: Game, wanted: bool, t: nat, accepts: nat -> bool, after: Book, sent: seq<Sent>, failed: bool)
    requires GameOk(g) && |b.peers| == PEERS && TickOutcome(b, g, wanted, t, accepts, after, sent, failed)
    requires g.NoGame? || (g.Game? && !g.live)
    ensures after.dpid == 0 && after.sequence == b.sequence && sent == []
    ensures b.dpid != 0 && g.NoGame? ==>
      && after.peers == seq(PEERS, _ => NEW_PEER) && after.lastTick == -1
      && !after.haveScan && !after.wanted && after.current == []
  {
  }

  // ---- Scans

  /** After a scan none is due before the interval has passed, whatever becomes of the peers; then one is due as
      soon as anybody is subscribed. */
  lemma ScansKeepDistance(b: Book, g: Game, now: U32, peers: seq<Peer>, later: U32)
    requires g.Game? && ScanDue(b, now)
    ensures ScanDue(Scanning(b, g, now).(peers := peers), later)
        <==> Sub32(later, now) >= SCAN_MS && exists i :: 0 <= i < |peers| && peers[i].subscribed
  {
    hide PrepareAll, Canonicalized, FirstDistinct;
  }

  /** A fresh request makes a scan due at once, and for as long as it is not met. */
  lemma RequestMakesScanDue(b: Book, g: Game, sender: nat, from: U32, packet: Packet, now: U32, building: U16 -> bool, later: U32)
    requires GameOk(g) && |b.peers| == PEERS && sender < PEERS && g.Game? && g.tick >= b.lastTick && g.dpid == b.dpid
    requires g.authorized[sender] && Envelope(packet, Link.ID) && Link.IsControl(packet) && packet.base % 2 == 1
    requires from != b.peers[sender].dpid || !b.peers[sender].subscribed
    requires Sub32(later, now) < 0x1_0000_0000 - SCAN_MS
    ensures ScanDue(PacketOutcome(b, g, sender, from, packet, now, building), later)
  {
    var r := PacketOutcome(b, g, sender, from, packet, now, building);
    assert r.peers[sender].subscribed;
    SinceBefore(now, later);
    hide Heard, Owned, Acknowledged;
  }

  lemma SinceBefore(now: U32, later: U32)
    requires Sub32(later, now) < 0x1_0000_0000 - SCAN_MS
    ensures Sub32(later, Sub32(now, SCAN_MS)) == Sub32(later, now) + SCAN_MS
  {
  }

  /** After a scan every subscriber is sent the snapshot, is still sent an earlier one, or is known to have it. */
  lemma ScanReachesAll(b: Book, g: Game, now: U32, i: nat)
    requires g.Game? && ScanDue(b, now) && i < |b.peers| && b.peers[i].subscribed
    ensures var r := Scanning(b, g, now); var tx := r.peers[i].tx;
      && r.current == Canonicalized(FirstDistinct(g.candidates))
      && if b.peers[i].tx.active then tx == b.peers[i].tx
         else if tx.active then tx.target == r.current && tx.nextChunk == 0
         else tx.acknowledgedSequence != 0 && tx.acknowledged == r.current
  {
    hide PrepareAll, Canonicalized, FirstDistinct;
    var k := PreparedAt(b.peers, i, Canonicalized(FirstDistinct(g.candidates)), b.sequence, now);
  }

  // ---- Strangers

  /** Only an ally's packet in the right envelope, of the game and player that the last tick saw, changes anything,
      and of all slots only the sender's. */
  lemma OnlyAlliesHeard(b: Book, g: Game, sender: int, from: U32, packet: Packet, now: U32, building: U16 -> bool)
    requires GameOk(g) && |b.peers| == PEERS
    ensures var r := PacketOutcome(b, g, sender, from, packet, now, building);
      && |r.peers| == PEERS && (forall i :: 0 <= i < PEERS && i != sender ==> r.peers[i] == b.peers[i])
      && r == b.(peers := r.peers, scanAt := r.scanAt)
      && (r != b ==>
          && g.Game? && g.dpid == b.dpid && g.tick >= b.lastTick
          && 0 <= sender < PEERS && g.authorized[sender] && r.peers[sender].dpid == from
          && Envelope(packet, Link.ID))
  {
    hide AcceptPacket, Acknowledged;
  }

  /** No game in which the player in slot i is an ally. */
  predicate Stranger(input: Input, i: nat) {
    GameOk(input.game) && (input.game.Game? && i < PEERS ==> !input.game.authorized[i])
  }

  ghost function GivenAll(p: Pair, inputs: seq<Input>): Pair
    decreases |inputs|
  {
    if |inputs| == 0 then p else Given(GivenAll(p, inputs[..|inputs| - 1]), inputs[|inputs| - 1])
  }

  /** A slot whose player is never an ally stays empty, and nothing is ever sent to it, whatever ticks come and
      whatever packets arrive under its name. */
  lemma {:induction false} StrangersGetNothing(p: Pair, inputs: seq<Input>)
    requires |p.a.book.peers| == PEERS && p.a.slot < PEERS && p.a.book.peers[p.a.slot] == NEW_PEER
    requires forall k :: 0 <= k < |inputs| ==> Stranger(inputs[k], p.a.slot)
    ensures var r := GivenAll(p, inputs);
      && r.a.slot == p.a.slot && |r.a.book.peers| == PEERS && r.a.book.peers[p.a.slot] == NEW_PEER && r.toB == p.toB
    decreases |inputs|
  {
    if |inputs| > 0 {
      var front := inputs[..|inputs| - 1];
      StrangersGetNothing(p, front);
      hide Given;
      StrangerStep(GivenAll(p, front), inputs[|inputs| - 1]);
    }
  }

  lemma StrangerStep(p: Pair, input: Input)
    requires |p.a.book.peers| == PEERS && p.a.slot < PEERS && p.a.book.peers[p.a.slot] == NEW_PEER && Stranger(input, p.a.slot)
    ensures var r := Given(p, input);
      && r.a.slot == p.a.slot && |r.a.book.peers| == PEERS && r.a.book.peers[p.a.slot] == NEW_PEER && r.toB == p.toB
  {
    hide TickOutcome, CandidatesOk, DrawnAt, ScansAt, Heard, Owned, Subscribes;
    match input {
      case Packet(_, _, _, _, _, _) =>
      case Tick(g, wanted, t, accepts, after, sent, failed) =>
        if CandidatesOk(g) && TickOutcome(p.a.book, g, wanted, t, accepts, after, sent, failed) {
          StrangerTick(p.a.book, g, wanted, t, accepts, after, sent, failed, p.a.slot);
        }
    }
  }

  lemma StrangerTick(b: Book, g: Game, wanted: bool, t: nat, accepts: nat -> bool, after: Book, sent: seq<Sent>, failed: bool, i: nat)
    requires GameOk(g) && |b.peers| == PEERS && i < PEERS && b.peers[i] == NEW_PEER && (g.Game? ==> !g.authorized[i])
    requires TickOutcome(b, g, wanted, t, accepts, after, sent, failed)
    ensures |after.peers| == PEERS && after.peers[i] == NEW_PEER && SentTo(sent, i) == {}
  {
    OnlyAlliesServed(b, g, wanted, t, accepts, after, sent, failed);
    hide Played, Ready, Allotted;
    if g.Game? && g.live {
      assert Allotted(after.peers, g);
      AllottedAt(after.peers, g, i);
    }
  }

  lemma AllottedAt(peers: seq<Peer>, g: Game, i: nat)
    requires g.Game? && GameOk(g) && Allotted(peers, g) && i < PEERS
    ensures |peers| == PEERS && (!g.authorized[i] ==> peers[i] == NEW_PEER)
  {
  }
}
