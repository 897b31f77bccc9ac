/** What a client's ticks and packets do to the record of one peer is a run of that peer's actions, so that
    what holds of all runs of two drivers holds of real ticks. */
module TickRuns {
  import opened Words
  import opened Records
  import opened WireFormat
  import opened Transmitting
  import opened Driving
  import opened Budgeting
  import opened Collecting
  import opened GameTicks
  import opened Refinement

  ghost function Acts(w: World, actions: seq<Action>): World
    decreases |actions|
  {
    if |actions| == 0 then w else Act(Acts(w, actions[..|actions| - 1]), actions[|actions| - 1])
  }

  lemma ActsThen(w: World, actions: seq<Action>, action: Action)
    ensures Acts(w, actions + [action]) == Act(Acts(w, actions), action)
  {
    assert (actions + [action])[..|actions|] == actions;
  }

  lemma ActsOnce(w: World, action: Action)
    ensures Acts(w, [action]) == Act(w, action) && Acts(w, []) == w
  {
    hide Act;
    assert [action][..0] == [];
  }

  lemma {:induction false} ActsStayOk(w: World, actions: seq<Action>)
    requires PeerOk(w.a)
    ensures PeerOk(Acts(w, actions).a)
    decreases |actions|
  {
    hide Act;
    if |actions| > 0 {
      ActsStayOk(w, actions[..|actions| - 1]);
      PeerStaysOk(Acts(w, actions[..|actions| - 1]), actions[|actions| - 1]);
    }
  }

  lemma {:induction false} ActsAppend(w: World, first: seq<Action>, second: seq<Action>)
    ensures Acts(w, first + second) == Acts(Acts(w, first), second)
    decreases |second|
  {
    hide Act;
    if |second| == 0 {
      assert first + second == first;
    } else {
      var front := second[..|second| - 1];
      ActsAppend(w, first, front);
      ActsThen(w, first + front, second[|second| - 1]);
      assert first + second == first + front + [second[|second| - 1]];
    }
  }

  /** The k-th sequence after s. */
  function Later(s: U32, k: nat): U32 {
    if k == 0 then s else NextSequence(Later(s, k - 1))
  }

  /** How many sequences a scan draws. */
  function Draws(peers: seq<Peer>): (n: nat)
    ensures n <= |peers|
  {
    if |peers| == 0 then 0
    else Draws(peers[..|peers| - 1]) + if Eligible(peers[|peers| - 1]) then 1 else 0
  }

  lemma {:induction false} SequencesDrawn(peers: seq<Peer>, current: seq<Record>, last: U32, now: U32)
    ensures PrepareAll(peers, current, last, now).sequence == Later(last, Draws(peers))
    decreases |peers|
  {
    if |peers| > 0 {
      SequencesDrawn(peers[..|peers| - 1], current, last, now);
    }
  }

  lemma {:induction false} PreparedAt(peers: seq<Peer>, i: nat, current: seq<Record>, last: U32, now: U32) returns (k: nat)
    requires i < |peers|
    ensures Eligible(peers[i]) ==> 0 < k <= Draws(peers)
    ensures PrepareAll(peers, current, last, now).peers[i] ==
      if Eligible(peers[i]) then PrepareOne(peers[i], current, Later(last, k), now) else peers[i]
    decreases |peers|
  {
    var front := peers[..|peers| - 1];
    if i < |front| {
      k := PreparedAt(front, i, current, last, now);
    } else {
      SequencesDrawn(front, current, last, now);
      k := Draws(front) + 1;
    }
  }

  // ---- Which snapshot each sequence was drawn for

  type Scans = map<U32, seq<Record>>

  /** The n sequences after `last` are drawn for `current`. */
  function Labelled(scans: Scans, last: U32, n: nat, current: seq<Record>): Scans {
    if n == 0 then scans else Labelled(scans, last, n - 1, current)[Later(last, n) := current]
  }

  function ScansAfter(scans: Scans, b: Book, g: Game, now: U32): Scans
    requires g.Game?
  {
    if ScanDue(b, now) then Labelled(scans, b.sequence, Draws(b.peers), Canonicalized(FirstDistinct(g.candidates))) else scans
  }

  /** Whatever was sent under a sequence is what the sequence was drawn for. */
  ghost predicate Agrees(prepared: map<U32, seq<Record>>, scans: Scans) {
    forall q :: q in prepared ==> q in scans && prepared[q] == scans[q]
  }

  ghost predicate Unused(scans: Scans, last: U32) {
    forall k :: 0 < k <= PEERS ==> Later(last, k) !in scans
  }

  lemma {:induction false} LabelledAt(scans: Scans, last: U32, n: nat, current: seq<Record>, q: U32)
    requires q in scans && forall k :: 0 < k <= n ==> Later(last, k) != q
    ensures q in Labelled(scans, last, n, current) && Labelled(scans, last, n, current)[q] == scans[q]
  {
    if n > 0 {
      LabelledAt(scans, last, n - 1, current, q);
    }
  }

  lemma {:induction false} LabelledNew(scans: Scans, last: U32, n: nat, current: seq<Record>, k: nat)
    requires 0 < k <= n
    ensures var l := Labelled(scans, last, n, current); Later(last, k) in l && l[Later(last, k)] == current
  {
    if k < n {
      LabelledNew(scans, last, n - 1, current, k);
    }
  }

  /** Preparing under one of the sequences just drawn keeps the agreement, and so does preparing nothing. */
  lemma LabellingAgrees(prepared: map<U32, seq<Record>>, scans: Scans, last: U32, n: nat, current: seq<Record>)
    requires Agrees(prepared, scans) && Unused(scans, last) && n <= PEERS
    ensures Agrees(prepared, Labelled(scans, last, n, current))
    ensures forall k :: 0 < k <= n ==>
      Later(last, k) !in prepared && Agrees(prepared[Later(last, k) := current], Labelled(scans, last, n, current))
  {
    forall q | q in prepared ensures q in Labelled(scans, last, n, current) && Labelled(scans, last, n, current)[q] == prepared[q] {
      LabelledAt(scans, last, n, current, q);
    }
    forall k | 0 < k <= n
      ensures Agrees(prepared[Later(last, k) := current], Labelled(scans, last, n, current))
    {
      LabelledNew(scans, last, n, current, k);
    }
  }

  /** Nothing but the peer's record changes. */
  ghost predicate OnlyPeer(w: World, v: World, p: Peer) {
    v.a == p && v.toA == w.toA && v.toB == w.toB && v.preparedA == w.preparedA
  }

  lemma EnteringIsRun(b: Book, g: Game, now: U32, i: nat, w: World) returns (actions: seq<Action>)
    requires g.Game? && |b.peers| == PEERS && i < PEERS && w.a == b.peers[i]
    ensures |Entered(b, g, now).peers| == PEERS && Entered(b, g, now).sequence == b.sequence
    ensures OnlyPeer(w, Acts(w, actions), Entered(b, g, now).peers[i])
  {
    hide Ticked;
    var away := Ticks(false, 0, now, true);
    ActsOnce(w, away);
    TickedAway(w.a, now);
    actions := if g.dpid != b.dpid || g.tick < b.lastTick then [away] else [];
  }

  lemma LeavingIsRun(b: Book, now: U32, i: nat, w: World) returns (actions: seq<Action>)
    requires |b.peers| == PEERS && i < PEERS && w.a == b.peers[i]
    ensures |Left(b, now).peers| == PEERS && OnlyPeer(w, Acts(w, actions), Left(b, now).peers[i])
  {
    hide Ticked;
    var away := Ticks(false, 0, now, true);
    ActsOnce(w, away);
    TickedAway(w.a, now);
    actions := if b.dpid != 0 then [away] else [];
  }

  lemma RefreshingIsRun(b: Book, g: Game, wanted: bool, now: U32, i: nat, w: World) returns (actions: seq<Action>)
    requires g.Game? && GameOk(g) && |b.peers| == PEERS && i < PEERS && w.a == b.peers[i]
    ensures OnlyPeer(w, Acts(w, actions), Refreshing(b, g, wanted, now).peers[i])
  {
    hide Ticked;
    var tick := Ticks(g.authorized[i], g.dpids[i], now, g.paused);
    if wanted != b.wanted {
      ActsOnce(w, ChangesMind);
      ActsThen(w, [ChangesMind], tick);
      actions := [ChangesMind] + [tick];
    } else {
      ActsOnce(w, tick);
      actions := [tick];
    }
  }

  lemma ScanningIsRun(b: Book, g: Game, now: U32, i: nat, w: World, scans: Scans) returns (actions: seq<Action>)
    requires g.Game? && |b.peers| == PEERS && i < PEERS && w.a == b.peers[i]
    requires Snapshot(Canonicalized(FirstDistinct(g.candidates)))
    requires Agrees(w.preparedA, scans) && Unused(scans, b.sequence)
    ensures |Scanning(b, g, now).peers| == PEERS && Acts(w, actions).a == Scanning(b, g, now).peers[i]
    ensures Acts(w, actions).toA == w.toA && Acts(w, actions).toB == w.toB
    ensures Agrees(Acts(w, actions).preparedA, ScansAfter(scans, b, g, now))
  {
    hide Canonicalized, FirstDistinct, Snapshot, Starts, PrepareOne, PrepareAll, Agrees, Unused, Labelled;
    actions := [];
    if ScanDue(b, now) {
      var current := Canonicalized(FirstDistinct(g.candidates));
      var k := PreparedAt(b.peers, i, current, b.sequence, now);
      LabellingAgrees(w.preparedA, scans, b.sequence, Draws(b.peers), current);
      if Eligible(b.peers[i]) {
        var prepare := Prepares(current, Later(b.sequence, k), now);
        ActsOnce(w, prepare);
        NothingToPrepare(w.a, current, Later(b.sequence, k), now);
        actions := [prepare];
      }
    }
  }

  /** The book when a scan may happen. */
  function AboutToScan(b: Book, g: Game, wanted: bool, now: U32): Book
    requires g.Game? && GameOk(g) && |b.peers| == PEERS
  {
    Refreshing(Entered(b, g, now), g, wanted, now)
  }

  /** Up to the send loop. */
  lemma ReadyIsRun(b: Book, g: Game, wanted: bool, now: U32, i: nat, w: World, scans: Scans) returns (actions: seq<Action>)
    requires g.Game? && GameOk(g) && |b.peers| == PEERS && i < PEERS && w.a == b.peers[i]
    requires Snapshot(Canonicalized(FirstDistinct(g.candidates)))
    requires Agrees(w.preparedA, scans) && Unused(scans, b.sequence)
    ensures |Ready(b, g, wanted, now).peers| == PEERS && Acts(w, actions).a == Ready(b, g, wanted, now).peers[i]
    ensures Acts(w, actions).toA == w.toA && Acts(w, actions).toB == w.toB
    ensures Agrees(Acts(w, actions).preparedA, ScansAfter(scans, AboutToScan(b, g, wanted, now), g, now))
  {
    hide Acts, Scanning, Refreshing, Entered, Canonicalized, FirstDistinct, Snapshot, Agrees, Unused, ScansAfter;
    var e := EnteringIsRun(b, g, now, i, w);
    var entered := Entered(b, g, now);
    RefreshingKeeps(entered, g, wanted, now);
    var r := RefreshingIsRun(entered, g, wanted, now, i, Acts(w, e));
    ActsAppend(w, e, r);
    var s := ScanningIsRun(Refreshing(entered, g, wanted, now), g, now, i, Acts(w, e + r), scans);
    ActsAppend(w, e + r, s);
    actions := e + r + s;
  }

  lemma RefreshingKeeps(b: Book, g: Game, wanted: bool, now: U32)
    requires g.Game? && GameOk(g) && |b.peers| == PEERS
    ensures |Refreshing(b, g, wanted, now).peers| == PEERS && Refreshing(b, g, wanted, now).sequence == b.sequence
  {
  }

  lemma TickedAway(p: Peer, now: U32)
    ensures Ticked(p, false, 0, now, true) == NEW_PEER
  {
  }

  lemma NothingToPrepare(p: Peer, current: seq<Record>, seqno: U32, now: U32)
    ensures !Starts(p.tx, current) ==> PrepareOne(p, current, seqno, now) == p
  {
  }

  /** Packets for one peer. */
  function SentTo(sent: seq<Sent>, i: nat): set<Packet> {
    set k | 0 <= k < |sent| && sent[k].to == i :: sent[k].packet
  }

  /** The send loop. */
  lemma {:induction false} SendingIsRun(peers: seq<Peer>, sent: seq<Sent>, now: U32, wanted: bool, i: nat, w: World)
    returns (actions: seq<Action>)
    requires i < |peers| && w.a == peers[i] && Justified(peers, sent, now, wanted)
    ensures Acts(w, actions) == w.(a := After(peers, sent, now, wanted)[i], toB := w.toB + SentTo(sent, i))
    decreases |sent|
  {
    actions := [];
    if |sent| == 0 {
      assert SentTo(sent, i) == {};
    } else {
      var front, last := sent[..|sent| - 1], sent[|sent| - 1];
      JustifiedStep(peers, sent, now, wanted);
      SentToNext(sent, i);
      hide Justified, SentTo, Act, Serve, Due;
      actions := SendingIsRun(peers, front, now, wanted, i, w);
      if last.to == i {
        ServesOnce(After(peers, front, now, wanted)[i], now, wanted, Acts(w, actions));
        ActsThen(w, actions, Serves(now, wanted, true));
        actions := actions + [Serves(now, wanted, true)];
      }
    }
  }

  lemma ServesOnce(p: Peer, now: U32, wanted: bool, v: World)
    requires v.a == p && RoundOk(p) && Due(p, now, wanted)
    ensures var s := Serve(p, now, wanted);
      Act(v, Serves(now, wanted, true)) == v.(a := s.peer, toB := v.toB + {s.packet})
  {
  }

  lemma SentToNext(sent: seq<Sent>, i: nat)
    requires |sent| > 0
    ensures var front, last := sent[..|sent| - 1], sent[|sent| - 1];
      SentTo(sent, i) == SentTo(front, i) + if last.to == i then {last.packet} else {}
  {
    var front := sent[..|sent| - 1];
    assert forall k :: 0 <= k < |front| ==> front[k] == sent[k];
  }

  /** A tick in a running game: each peer's record and the packets for it develop as in a run. */
  lemma PlayIsRun(b: Book, after: Book, g: Game, wanted: bool, t: nat, accepts: nat -> bool, sent: seq<Sent>, failed: bool,
                  i: nat, w: World, scans: Scans)
    returns (actions: seq<Action>)
    requires g.Game? && GameOk(g) && |b.peers| == PEERS && i < PEERS && w.a == b.peers[i] && PeerOk(w.a)
    requires Snapshot(Canonicalized(FirstDistinct(g.candidates)))
    requires Agrees(w.preparedA, scans) && Unused(scans, b.sequence)
    requires Played(Ready(b, g, wanted, Clock(t)), after, wanted, t, accepts, sent, failed)
    ensures |after.peers| == PEERS && Acts(w, actions).a == after.peers[i]
    ensures Acts(w, actions).toA == w.toA && Acts(w, actions).toB == w.toB + SentTo(sent, i)
    ensures Agrees(Acts(w, actions).preparedA, ScansAfter(scans, AboutToScan(b, g, wanted, Clock(t)), g, Clock(t)))
  {
    hide Acts, Act, Justified, SentTo, Ready, Canonicalized, FirstDistinct, Snapshot, Agrees, Unused, ScansAfter, AboutToScan;
    var now, ready := Clock(t), Ready(b, g, wanted, Clock(t));
    var first := ReadyIsRun(b, g, wanted, now, i, w, scans);
    var second := SendingIsRun(ready.peers, sent, now, wanted, i, Acts(w, first));
    ActsAppend(w, first, second);
    actions := first + second;
    if failed && After(ready.peers, sent, now, wanted)[i] != after.peers[i] {
      ActsStayOk(w, actions);
      Refused(Acts(w, actions), now, wanted);
      ActsThen(w, actions, Serves(now, wanted, false));
      actions := actions + [Serves(now, wanted, false)];
    }
  }

  lemma Refused(w: World, now: U32, wanted: bool)
    requires PeerOk(w.a) && Due(w.a, now, wanted)
    ensures Act(w, Serves(now, wanted, false)) == w.(a := Rewound(w.a, now, wanted))
  {
  }

  /** The walk over orders yields records that name a unit and use the two facing bits. */
  predicate CandidatesOk(g: Game) {
    g.Game? ==> forall r :: r in g.candidates ==> ValidRecord(r)
  }

  /** How many sequences a tick draws, and for which snapshot. */
  function DrawnAt(b: Book, g: Game, wanted: bool, now: U32): (n: nat)
    requires GameOk(g) && |b.peers| == PEERS
    ensures n <= PEERS
  {
    if g.Game? && g.live && ScanDue(AboutToScan(b, g, wanted, now), now) then Draws(AboutToScan(b, g, wanted, now).peers) else 0
  }

  function ScansAt(scans: Scans, b: Book, g: Game, wanted: bool, now: U32): Scans
    requires GameOk(g) && |b.peers| == PEERS
  {
    if g.Game? && g.live then ScansAfter(scans, AboutToScan(b, g, wanted, now), g, now) else scans
  }

  /** Nothing is labelled in addition but the n sequences after `last`. */
  ghost predicate Adds(scans: Scans, next: Scans, last: U32, n: nat) {
    forall q :: q in next ==> q in scans || exists k :: 0 < k <= n && q == Later(last, k)
  }

  lemma {:induction false} LabelledAdds(scans: Scans, last: U32, n: nat, current: seq<Record>)
    ensures Adds(scans, Labelled(scans, last, n, current), last, n)
  {
    if n > 0 {
      LabelledAdds(scans, last, n - 1, current);
    }
  }

  /** The counter moves on by what was drawn, and only sequences drawn are labelled. */
  lemma TickDraws(b: Book, g: Game, wanted: bool, t: nat, accepts: nat -> bool, after: Book, sent: seq<Sent>, failed: bool, scans: Scans)
    requires GameOk(g) && |b.peers| == PEERS && TickOutcome(b, g, wanted, t, accepts, after, sent, failed)
    ensures after.sequence == Later(b.sequence, DrawnAt(b, g, wanted, Clock(t)))
    ensures Adds(scans, ScansAt(scans, b, g, wanted, Clock(t)), b.sequence, DrawnAt(b, g, wanted, Clock(t)))
  {
    hide Canonicalized, FirstDistinct, PrepareAll, Taken, Justified, After, Due, Adds, Labelled, ScanDue;
    var now := Clock(t);
    LabelledAdds(scans, b.sequence, 0, []);
    NothingLabelled(scans, b.sequence);
    if g.Game? && g.live {
      var s := AboutToScan(b, g, wanted, now);
      var current := Canonicalized(FirstDistinct(g.candidates));
      SequencesDrawn(s.peers, current, s.sequence, now);
      LabelledAdds(scans, s.sequence, Draws(s.peers), current);
    }
  }

  lemma NothingLabelled(scans: Scans, last: U32)
    ensures Labelled(scans, last, 0, []) == scans && Later(last, 0) == last
  {
  }

  /** Any tick at all. */
  lemma TickIsRun(b: Book, g: Game, wanted: bool, t: nat, accepts: nat -> bool, after: Book, sent: seq<Sent>, failed: bool,
                  i: nat, w: World, scans: Scans)
    returns (actions: seq<Action>)
    requires GameOk(g) && CandidatesOk(g) && |b.peers| == PEERS && i < PEERS && w.a == b.peers[i] && PeerOk(w.a)
    requires TickOutcome(b, g, wanted, t, accepts, after, sent, failed)
    requires Agrees(w.preparedA, scans) && Unused(scans, b.sequence)
    ensures |after.peers| == PEERS && Acts(w, actions).a == after.peers[i]
    ensures Acts(w, actions).toA == w.toA && Acts(w, actions).toB == w.toB + SentTo(sent, i)
    ensures Agrees(Acts(w, actions).preparedA, ScansAt(scans, b, g, wanted, Clock(t)))
  {
    hide Agrees, Unused, ScansAfter, AboutToScan, Entered, Left, Canonicalized, FirstDistinct, Snapshot, Ready, Played, Acts;
    var now := Clock(t);
    actions := [];
    match g {
      case NoPlayer =>
        ActsOnce(w, ChangesMind);
        assert w.toB + SentTo(sent, i) == w.toB;
      case NoGame =>
        actions := LeavingIsRun(b, now, i, w);
        assert w.toB + SentTo(sent, i) == w.toB;
      case Game(_, _, live, _, _, _, candidates) =>
        if live {
          CollectedIsSnapshot(candidates);
          actions := PlayIsRun(b, after, g, wanted, t, accepts, sent, failed, i, w, scans);
        } else {
          var e := EnteringIsRun(b, g, now, i, w);
          var l := LeavingIsRun(Entered(b, g, now), now, i, Acts(w, e));
          ActsAppend(w, e, l);
          actions := e + l;
          assert w.toB + SentTo(sent, i) == w.toB;
        }
    }
  }

  /** A packet: the slot passes to its sender, who is then heard. */
  lemma PacketIsRun(p: Peer, from: U32, packet: Packet, now: U32, wanted: bool, building: U16 -> bool, w: World)
    returns (actions: seq<Action>)
    requires w.a == p && packet in w.toA
    ensures Acts(w, actions) == w.(a := Heard(Owned(p, true, from), packet, now, wanted, building))
  {
    hide Heard;
    actions := [];
    if p.dpid != from {
      ActsThen(w, actions, Ticks(true, from, now, true));
      actions := actions + [Ticks(true, from, now, true)];
    }
    ActsThen(w, actions, Hears(packet, now, wanted, building));
    actions := actions + [Hears(packet, now, wanted, building)];
  }
}
