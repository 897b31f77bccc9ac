/** One client's whole synchronization: scan, peers and budget, driven by game ticks and packets. */
module GameTicks {
  import opened Words
  import opened Records
  import opened WireFormat
  import opened Driving
  import opened Budgeting
  import opened Collecting
  import Link

  const PACKETS_PER_SECOND: U32 := 800
  const BURST_PACKETS: U32 := 32

  /** What the engine says: no game, or a replay; no local player yet; or a game, with the local player's id,
      the other players, and the build orders that the scan meets. */
  datatype Game =
    | NoGame
    | NoPlayer
    | Game(dpid: U32, tick: int, live: bool, paused: bool, authorized: seq<bool>, dpids: seq<U32>, candidates: seq<Record>)

  predicate GameOk(g: Game) {
    g.Game? ==> |g.authorized| == |g.dpids| == PEERS
  }

  datatype Book = Book(
    peers: seq<Peer>, sequence: U32, scanAt: U32, wanted: bool, current: seq<Record>, haveScan: bool,
    dpid: U32, lastTick: int, bucket: Bucket)

  // ---- What a tick does before it sends

  /** `Reset`: everything but the sequence counter starts over. */
  function Restarted(b: Book, dpid: U32, tick: int, now: U32): Book {
    Book(seq(PEERS, _ => NEW_PEER), b.sequence, Sub32(now, SCAN_MS), false, [], false, dpid, tick, Bucket(now, 0))
  }

  function Left(b: Book, now: U32): Book {
    if b.dpid != 0 then Restarted(b, 0, -1, now) else b
  }

  function Entered(b: Book, g: Game, now: U32): Book
    requires g.Game?
  {
    (if g.dpid != b.dpid || g.tick < b.lastTick then Restarted(b, g.dpid, g.tick, now) else b).(lastTick := g.tick)
  }

  function Refreshing(b: Book, g: Game, wanted: bool, now: U32): Book
    requires g.Game? && GameOk(g) && |b.peers| == PEERS
  {
    var marked := Marked(b.peers, wanted != b.wanted);
    b.(wanted := wanted,
       peers := seq(PEERS, i requires 0 <= i < PEERS => Ticked(marked[i], g.authorized[i], g.dpids[i], now, g.paused)))
  }

  predicate ScanDue(b: Book, now: U32) {
    && (exists i :: 0 <= i < |b.peers| && b.peers[i].subscribed)
    && (!b.haveScan || Sub32(now, b.scanAt) >= SCAN_MS)
  }

  function Scanning(b: Book, g: Game, now: U32): Book
    requires g.Game?
  {
    if !ScanDue(b, now) then b
    else
      var current := Canonicalized(FirstDistinct(g.candidates));
      var r := PrepareAll(b.peers, current, b.sequence, now);
      b.(peers := r.peers, sequence := r.sequence, current := current, haveScan := true, scanAt := now)
  }

  /** The book when the send loop starts. */
  function Ready(b: Book, g: Game, wanted: bool, now: U32): Book
    requires g.Game? && GameOk(g) && |b.peers| == PEERS
  {
    Scanning(Refreshing(Entered(b, g, now), g, wanted, now), g, now)
  }

  // ---- Sending never outruns the clock

  /** An entry for each tick: when the bucket was last topped up, what it then kept, and what was sent. */
  datatype Entry = Entry(time: nat, credit: nat, sent: nat)

  /** From one tick to the next, what is sent and kept was earned in between. */
  predicate Earned(before: Entry, after: Entry) {
    && before.time <= after.time && after.credit < 1000
    && after.sent * 1000 + after.credit <= before.credit + PACKETS_PER_SECOND * (after.time - before.time)
  }

  predicate Ledger(log: seq<Entry>) {
    forall i :: 0 < i < |log| ==> Earned(log[i - 1], log[i])
  }

  function TotalSent(log: seq<Entry>): nat {
    if |log| == 0 then 0 else TotalSent(log[..|log| - 1]) + log[|log| - 1].sent
  }

  lemma {:induction false} LedgerConserves(log: seq<Entry>)
    requires |log| > 0 && Ledger(log)
    ensures log[0].time <= log[|log| - 1].time
    ensures TotalSent(log[1..]) * 1000 + log[|log| - 1].credit
      <= log[0].credit + PACKETS_PER_SECOND * (log[|log| - 1].time - log[0].time)
    decreases |log|
  {
    if |log| > 1 {
      var front := log[..|log| - 1];
      LedgerConserves(front);
      assert log[1..][..|log| - 2] == front[1..];
      assert Earned(log[|log| - 2], log[|log| - 1]);
    }
  }

  /** Over any stretch of ticks, however often the game or the player changes in between, at most
      (999 + 800 T) / 1000 packets are sent in the T milliseconds after its first tick. */
  lemma SentInWindow(log: seq<Entry>, i: nat, j: nat)
    requires i < j <= |log| && Ledger(log) && log[0].credit < 1000
    ensures log[i].time <= log[j - 1].time
    ensures TotalSent(log[i + 1..j]) <= (999 + PACKETS_PER_SECOND * (log[j - 1].time - log[i].time)) / 1000
  {
    var window := log[i..j];
    assert i > 0 ==> Earned(log[i - 1], log[i]);
    assert Ledger(window) by {
      forall k | 0 < k < |window| ensures Earned(window[k - 1], window[k]) {
        assert Earned(log[i + k - 1], log[i + k]);
      }
    }
    LedgerConserves(window);
    assert window[1..] == log[i + 1..j];
  }

  /** What sending does to a book: it spends one grant on packets that were due, and, unless the network
      refuses one, stops only when the grant is spent or nothing is due any more. */
  ghost predicate Played(before: Book, after: Book, wanted: bool, t: nat, accepts: nat -> bool, sent: seq<Sent>, failed: bool) {
    var now := Clock(t);
    var grant := Taken(before.bucket, now, PACKETS_PER_SECOND, BURST_PACKETS);
    && after == before.(peers := after.peers, bucket := grant.bucket)
    && |sent| <= grant.packets && Justified(before.peers, sent, now, wanted)
    && var served := After(before.peers, sent, now, wanted);
      if failed then
        && |sent| < grant.packets && !accepts(|sent|)
        && exists i :: 0 <= i < |served| && Due(served[i], now, wanted) && after.peers == served[i := Rewound(served[i], now, wanted)]
      else
        && after.peers == served
        && (|sent| == grant.packets || forall i :: 0 <= i < |served| ==> !Due(served[i], now, wanted))
  }

  /** What a tick does: without a game, or with a dead player, it leaves; without a player it does nothing;
      in a running game it makes the book ready and sends. */
  ghost predicate TickOutcome(before: Book, game: Game, wanted: bool, t: nat, accepts: nat -> bool, after: Book,
                              sent: seq<Sent>, failed: bool)
    requires GameOk(game) && |before.peers| == PEERS
  {
    match game
    case NoPlayer => after == before && sent == [] && !failed
    case NoGame => after == Left(before, Clock(t)) && sent == [] && !failed
    case Game(_, _, live, _, _, _, _) =>
      if live then Played(Ready(before, game, wanted, Clock(t)), after, wanted, t, accepts, sent, failed)
      else after == Left(Entered(before, game, Clock(t)), Clock(t)) && sent == [] && !failed
  }

  /** What a packet does: only a sender in a slot of the game that the last tick saw is heard. */
  function PacketOutcome(before: Book, game: Game, sender: int, from: U32, packet: Packet, now: U32, building: U16 -> bool): Book
    requires GameOk(game) && |before.peers| == PEERS
  {
    if Envelope(packet, Link.ID) && game.Game? && game.tick >= before.lastTick && game.dpid == before.dpid
       && 0 <= sender < PEERS && game.authorized[sender]
    then
      var owned := Owned(before.peers[sender], true, from);
      before.(peers := before.peers[sender := Heard(owned, packet, now, before.wanted, building)],
              scanAt := if Subscribes(owned, packet) then Sub32(now, SCAN_MS) else before.scanAt)
    else before
  }

  class Sync {
    const driver: Driver
    const scanner: Scanner
    const budget: Budget
    var haveScan: bool
    var dpid: U32
    var lastTick: int
    /** The wall time behind the budget's clock, and the entries of all ticks so far. */
    ghost var time: nat
    ghost var log: seq<Entry>

    ghost predicate Valid()
      reads this, driver, driver.peers, scanner, scanner.seen, budget
    {
      && driver.Valid() && scanner.seen.Length == SLOTS
      && budget.last == Clock(time) && budget.credit < 1000
      && |log| > 0 && Ledger(log) && log[0].credit < 1000
      && log[|log| - 1].time == time && log[|log| - 1].credit == budget.credit
    }

    ghost function Value(): Book
      reads this, driver, driver.peers, scanner, budget
    {
      Book(driver.peers[..], driver.sequence, driver.scanAt, driver.wanted, scanner.current, haveScan, dpid, lastTick, budget.Value())
    }

    /** `Install`, at wall time t. */
    constructor (hash: Record -> U32, t: nat)
      ensures Valid() && fresh(driver) && fresh(driver.peers) && fresh(scanner) && fresh(scanner.seen) && fresh(budget)
      ensures Value() == Book(seq(PEERS, _ => NEW_PEER), 0, Sub32(Clock(t), SCAN_MS), false, [], false, 0, -1, Bucket(Clock(t), 0))
    {
      driver := new Driver();
      scanner := new Scanner(hash);
      budget := new Budget();
      haveScan, dpid, lastTick := false, 0, -1;
      time, log := t, [Entry(t, 0, 0)];
      new;
      budget.last := Clock(t);
      driver.scanAt := Sub32(Clock(t), SCAN_MS);
      assert driver.peers[..] == seq(PEERS, _ => NEW_PEER);
    }

    /** `Reset`. */
    method Reset(dpid: U32, tick: int, t: nat)
      requires Valid() && time <= t
      modifies this, driver, driver.peers, scanner, budget
      ensures Valid() && time == t && log == old(log) + [Entry(t, 0, 0)]
      ensures Value() == Restarted(old(Value()), dpid, tick, Clock(t))
    {
      driver.Clear(Sub32(Clock(t), SCAN_MS));
      scanner.current, scanner.slots := [], [];
      haveScan, this.dpid, lastTick := false, dpid, tick;
      budget.last, budget.credit := Clock(t), 0;
      time, log := t, log + [Entry(t, 0, 0)];
      assert driver.peers[..] == seq(PEERS, _ => NEW_PEER);
    }

    /** `HandlePacket`: a packet from nobody, or for another game or player than the last tick's, is dropped. */
    method HandlePacket(game: Game, sender: int, from: U32, packet: Packet, now: U32, building: U16 -> bool)
      requires Valid() && GameOk(game)
      modifies driver, driver.peers
      ensures Valid()
      ensures Value() == PacketOutcome(old(Value()), game, sender, from, packet, now, building)
    {
      if !Envelope(packet, Link.ID) || !game.Game? || game.tick < lastTick || game.dpid != dpid {
        return;
      }
      if sender < 0 || sender >= PEERS || !game.authorized[sender] {
        return;
      }
      hide Heard, Owned, Subscribes;
      driver.HandlePacket(sender, from, packet, now, building);
    }

    /** `OnGameTick`, at wall time t; `accepts(n)` is the network's answer to the n-th packet.  Before sending,
        the book is exactly what the specified steps make of it; every packet sent was due, in the budget,
        and is entered in the ledger; unless the network refused one, nothing due is left unless the
        grant is spent. */
    method OnGameTick(game: Game, wanted: bool, t: nat, accepts: nat -> bool) returns (sent: seq<Sent>, failed: bool)
      requires Valid() && GameOk(game) && time <= t
      modifies this, driver, driver.peers, scanner, scanner.seen, budget
      ensures Valid() && time <= t && old(log) <= log
      ensures TickOutcome(old(Value()), game, wanted, t, accepts, Value(), sent, failed)
      ensures game.Game? && game.live ==> time == t && log[|log| - 1] == Entry(t, Value().bucket.credit, |sent|)
    {
      hide Entered, Left, Refreshing, Scanning, Played, Ledger;
      sent, failed := [], false;
      if game.NoPlayer? {
        return;
      }
      if game.NoGame? {
        Leave(t);
        return;
      }
      Enter(game, t);
      if !game.live {
        Leave(t);
        return;
      }
      sent, failed := Play(game, wanted, t, accepts);
    }

    /** Another player or an earlier time means another game. */
    method Enter(game: Game, t: nat)
      requires Valid() && time <= t && game.Game?
      modifies this, driver, driver.peers, scanner, budget
      ensures Valid() && time <= t && old(log) <= log && Value() == Entered(old(Value()), game, Clock(t))
    {
      if game.dpid != dpid || game.tick < lastTick {
        Reset(game.dpid, game.tick, t);
      }
      lastTick := game.tick;
    }

    /** The rest of a tick in a running game. */
    method Play(game: Game, wanted: bool, t: nat, accepts: nat -> bool) returns (sent: seq<Sent>, failed: bool)
      requires Valid() && game.Game? && GameOk(game) && time <= t
      modifies this`haveScan, this`time, this`log, driver, driver.peers, scanner, scanner.seen, budget
      ensures Valid() && time == t && old(log) <= log
      ensures Played(Scanning(Refreshing(old(Value()), game, wanted, Clock(t)), game, Clock(t)), Value(), wanted, t, accepts, sent, failed)
      ensures log[|log| - 1] == Entry(t, Value().bucket.credit, |sent|)
    {
      hide Refreshing, Scanning, Played, Ledger;
      var any := Refresh(game, wanted, Clock(t));
      Scan(game, any, Clock(t));
      sent, failed := SendOut(wanted, t, accepts);
    }

    method Leave(t: nat)
      requires Valid() && time <= t
      modifies this, driver, driver.peers, scanner, budget
      ensures Valid() && time <= t && old(log) <= log && Value() == Left(old(Value()), Clock(t))
    {
      if dpid != 0 {
        Reset(0, -1, t);
      }
    }

    /** The wish to see queues, ownership of slots, leases and stale displays. */
    method Refresh(game: Game, wanted: bool, now: U32) returns (any: bool)
      requires Valid() && game.Game? && GameOk(game)
      modifies driver, driver.peers
      ensures Valid() && Value() == Refreshing(old(Value()), game, wanted, now) && driver.wanted == wanted
      ensures any <==> exists i :: 0 <= i < |Value().peers| && Value().peers[i].subscribed
    {
      driver.SetWanted(wanted);
      any := driver.RefreshAll(game.authorized, game.dpids, game.paused, now);
      assert driver.peers[..] == Refreshing(old(Value()), game, wanted, now).peers;
    }

    /** A scan, if a subscriber waits and one is due, and what it gives each peer to send. */
    method Scan(game: Game, any: bool, now: U32)
      requires Valid() && game.Game?
      requires any <==> exists i :: 0 <= i < |Value().peers| && Value().peers[i].subscribed
      modifies this`haveScan, driver, driver.peers, scanner, scanner.seen
      ensures Valid() && Value() == Scanning(old(Value()), game, now) && driver.wanted == old(driver.wanted)
    {
      hide PrepareAll, Canonicalized, FirstDistinct, PeerOk, Snapshot;
      if any && (!haveScan || Sub32(now, driver.scanAt) >= SCAN_MS) {
        scanner.Collect(game.candidates);
        haveScan := true;
        driver.scanAt := now;
        driver.PrepareForAll(scanner.current, now);
      }
    }

    /** One grant, spent. */
    method SendOut(wanted: bool, t: nat, accepts: nat -> bool) returns (sent: seq<Sent>, failed: bool)
      requires Valid() && time <= t && driver.wanted == wanted
      modifies this`time, this`log, driver, driver.peers, budget
      ensures Valid() && time == t && |log| == |old(log)| + 1 && old(log) <= log
      ensures Played(old(Value()), Value(), wanted, t, accepts, sent, failed)
      ensures log[|log| - 1] == Entry(t, Value().bucket.credit, |sent|)
    {
      var now := Clock(t);
      OneGrant(budget.Value(), time, t, PACKETS_PER_SECOND, BURST_PACKETS);
      var allowance := budget.Take(now, PACKETS_PER_SECOND, BURST_PACKETS);
      ghost var visits;
      sent, failed, visits := driver.SendLoop(now, allowance, accepts);
      time, log := t, log + [Entry(t, budget.credit, |sent|)];
    }
  }
}
