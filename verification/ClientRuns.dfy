/** Two whole clients, driven by any ticks and packets, are two drivers: neither displays anything of the
    other but what the other scanned. */
module ClientRuns {
  import opened Words
  import opened WireFormat
  import opened Driving
  import opened Budgeting
  import opened GameTicks
  import opened Refinement
  import opened TickRuns

  /** A client, the slot in which it keeps the other, how many sequences it has drawn, and for which scan. */
  datatype Client = Client(book: Book, slot: nat, drawn: nat, scans: Scans)

  /** `toA` and `toB` are the packets ever sent between the two. */
  datatype Pair = Pair(a: Client, b: Client, toA: set<Packet>, toB: set<Packet>)

  /** A tick comes with what it led to; a packet with the slot of its sender. */
  datatype Input =
    | Tick(game: Game, wanted: bool, t: nat, accepts: nat -> bool, after: Book, sent: seq<Sent>, failed: bool)
    | Packet(game: Game, sender: int, from: U32, packet: WireFormat.Packet, now: U32, building: U16 -> bool)

  datatype Happening = AtFirst(input: Input) | AtSecond(input: Input)

  function Flipped(p: Pair): Pair {
    Pair(p.b, p.a, p.toB, p.toA)
  }

  /** A tick at A that led to this book and sent these packets. */
  function Moved(p: Pair, game: Game, wanted: bool, now: U32, after: Book, sent: seq<Sent>): Pair
    requires GameOk(game) && |p.a.book.peers| == PEERS
  {
    var c := p.a;
    p.(a := Client(after, c.slot, c.drawn + DrawnAt(c.book, game, wanted, now), ScansAt(c.scans, c.book, game, wanted, now)),
       toB := p.toB + SentTo(sent, c.slot))
  }

  /** What one input does at A: a tick has any of the outcomes a tick can have, and a packet from the other
      client's slot is one that it sent; an input that is not possible does nothing. */
  ghost function Given(p: Pair, input: Input): Pair {
    var c := p.a;
    if |c.book.peers| != PEERS || !GameOk(input.game) then p
    else
      match input
      case Tick(game, wanted, t, accepts, after, sent, failed) =>
        if !CandidatesOk(game) || !TickOutcome(c.book, game, wanted, t, accepts, after, sent, failed) then p
        else Moved(p, game, wanted, Clock(t), after, sent)
      case Packet(game, sender, from, packet, now, building) =>
        if sender == c.slot && packet !in p.toA then p
        else p.(a := c.(book := PacketOutcome(c.book, game, sender, from, packet, now, building)))
  }

  ghost function Next(p: Pair, h: Happening): Pair {
    match h
    case AtFirst(input) => Given(p, input)
    case AtSecond(input) => Flipped(Given(Flipped(p), input))
  }

  ghost function Run(p: Pair, happenings: seq<Happening>): Pair
    decreases |happenings|
  {
    if |happenings| == 0 then p
    else Next(Run(p, happenings[..|happenings| - 1]), happenings[|happenings| - 1])
  }

  // ---- Behind two clients there are two drivers

  ghost predicate Behind(w: World, p: Pair) {
    && Reached(w)
    && |p.a.book.peers| == |p.b.book.peers| == PEERS && p.a.slot < PEERS && p.b.slot < PEERS
    && w.a == p.a.book.peers[p.a.slot] && w.b == p.b.book.peers[p.b.slot]
    && w.toA == p.toA && w.toB == p.toB
    && Agrees(w.preparedA, p.a.scans) && Agrees(w.preparedB, p.b.scans)
  }

  /** The counter stands where its draws put it, and only sequences drawn have a scan. */
  ghost predicate Counted(c: Client) {
    && c.book.sequence == Later(0, c.drawn)
    && forall q :: q in c.scans ==> exists k :: 0 < k <= c.drawn && q == Later(0, k)
  }

  /** Neither counter has come around. */
  predicate Short(p: Pair) {
    p.a.drawn + PEERS <= 0xFFFF_FFFF && p.b.drawn + PEERS <= 0xFFFF_FFFF
  }

  ghost predicate Good(p: Pair) {
    Counted(p.a) && Counted(p.b) && exists w :: Behind(w, p)
  }

  lemma {:induction false} LaterAdds(s: U32, j: nat, k: nat)
    ensures Later(Later(s, j), k) == Later(s, j + k)
  {
    if k > 0 {
      LaterAdds(s, j, k - 1);
    }
  }

  lemma {:induction false} LaterIsDrawn(k: nat)
    requires k > 0
    ensures Later(0, k) == Drawn(k)
  {
    if k > 1 {
      LaterIsDrawn(k - 1);
    } else {
      assert Later(0, 0) == 0;
    }
  }

  /** A counter that has not come around draws what it never drew before. */
  lemma CountedIsUnused(c: Client)
    requires Counted(c) && c.drawn + PEERS <= 0xFFFF_FFFF
    ensures Unused(c.scans, c.book.sequence)
  {
    forall k | 0 < k <= PEERS ensures Later(c.book.sequence, k) !in c.scans {
      LaterAdds(0, c.drawn, k);
      forall j | 0 < j <= c.drawn ensures Later(0, j) != Later(0, c.drawn + k) {
        LaterIsDrawn(j);
        LaterIsDrawn(c.drawn + k);
        DrawnDistinct(j, c.drawn + k);
      }
    }
  }

  lemma {:induction false} ReachedActs(w: World, actions: seq<Action>)
    requires Reached(w)
    ensures Reached(Acts(w, actions))
    ensures Acts(w, actions).b == w.b && Acts(w, actions).preparedB == w.preparedB
    decreases |actions|
  {
    hide Act, Reached;
    if |actions| > 0 {
      var front, last := actions[..|actions| - 1], actions[|actions| - 1];
      ReachedActs(w, front);
      ReachedThen(Acts(w, front), AtA(last));
      ActKeepsOther(Acts(w, front), last);
    }
  }

  lemma ActKeepsOther(w: World, action: Action)
    ensures Act(w, action).b == w.b && Act(w, action).preparedB == w.preparedB
  {
    hide Heard, Ticked, PrepareOne, Serve, Rewound, Due;
  }

  lemma ReachedOk(w: World)
    requires Reached(w)
    ensures PeerOk(w.a)
  {
    var events :| History(START, events) == w;
    StartMirrored();
    HistoryMirrored(START, events);
  }

  lemma TickKeepsCount(c: Client, g: Game, wanted: bool, t: nat, accepts: nat -> bool, after: Book, sent: seq<Sent>, failed: bool)
    requires Counted(c) && GameOk(g) && |c.book.peers| == PEERS
    requires TickOutcome(c.book, g, wanted, t, accepts, after, sent, failed)
    ensures Counted(Client(after, c.slot, c.drawn + DrawnAt(c.book, g, wanted, Clock(t)), ScansAt(c.scans, c.book, g, wanted, Clock(t))))
  {
    hide TickOutcome, DrawnAt, ScansAt;
    var n := DrawnAt(c.book, g, wanted, Clock(t));
    TickDraws(c.book, g, wanted, t, accepts, after, sent, failed, c.scans);
    LaterAdds(0, c.drawn, n);
    forall q | q in ScansAt(c.scans, c.book, g, wanted, Clock(t)) ensures exists k :: 0 < k <= c.drawn + n && q == Later(0, k) {
      if q !in c.scans {
        var k :| 0 < k <= n && q == Later(c.book.sequence, k);
        LaterAdds(0, c.drawn, k);
        assert q == Later(0, c.drawn + k);
      }
    }
  }

  lemma TickKeepsGood(p: Pair, input: Input, w: World) returns (v: World)
    requires input.Tick? && Behind(w, p) && Counted(p.a) && p.a.drawn + PEERS <= 0xFFFF_FFFF
    ensures Behind(v, Given(p, input)) && Counted(Given(p, input).a)
  {
    hide TickOutcome, Moved, Behind, Counted, CandidatesOk;
    var Tick(g, wanted, t, accepts, after, sent, failed) := input;
    v := w;
    if |p.a.book.peers| == PEERS && GameOk(g) && CandidatesOk(g)
       && TickOutcome(p.a.book, g, wanted, t, accepts, after, sent, failed) {
      v := MovedKeepsGood(p, g, wanted, t, accepts, after, sent, failed, w);
    }
  }

  lemma MovedKeepsGood(p: Pair, g: Game, wanted: bool, t: nat, accepts: nat -> bool, after: Book, sent: seq<Sent>, failed: bool, w: World)
    returns (v: World)
    requires Behind(w, p) && Counted(p.a) && p.a.drawn + PEERS <= 0xFFFF_FFFF
    requires GameOk(g) && CandidatesOk(g) && TickOutcome(p.a.book, g, wanted, t, accepts, after, sent, failed)
    ensures Behind(v, Moved(p, g, wanted, Clock(t), after, sent)) && Counted(Moved(p, g, wanted, Clock(t), after, sent).a)
  {
    hide TickOutcome, DrawnAt, ScansAt, Agrees, SentTo, Counted, Reached, CandidatesOk;
    TickKeepsCount(p.a, g, wanted, t, accepts, after, sent, failed);
    v := TickMoves(p, g, wanted, t, accepts, after, sent, failed, w);
  }

  lemma TickMoves(p: Pair, g: Game, wanted: bool, t: nat, accepts: nat -> bool, after: Book, sent: seq<Sent>, failed: bool, w: World)
    returns (v: World)
    requires Behind(w, p) && Counted(p.a) && p.a.drawn + PEERS <= 0xFFFF_FFFF
    requires GameOk(g) && CandidatesOk(g) && TickOutcome(p.a.book, g, wanted, t, accepts, after, sent, failed)
    ensures Reached(v) && |after.peers| == PEERS && v.a == after.peers[p.a.slot] && v.b == w.b
    ensures v.toA == w.toA && v.toB == w.toB + SentTo(sent, p.a.slot) && v.preparedB == w.preparedB
    ensures Agrees(v.preparedA, ScansAt(p.a.scans, p.a.book, g, wanted, Clock(t)))
  {
    hide TickOutcome, ScansAt, Agrees, Unused, SentTo, Counted, Reached, CandidatesOk, Acts, PeerOk;
    CountedIsUnused(p.a);
    ReachedOk(w);
    var actions := TickIsRun(p.a.book, g, wanted, t, accepts, after, sent, failed, p.a.slot, w, p.a.scans);
    ReachedActs(w, actions);
    v := Acts(w, actions);
  }

  lemma PacketKeepsGood(p: Pair, input: Input, w: World) returns (v: World)
    requires input.Packet? && Behind(w, p) && Counted(p.a)
    ensures Behind(v, Given(p, input)) && Counted(Given(p, input).a)
  {
    var Packet(g, sender, from, packet, now, building) := input;
    v := w;
    hide Heard, Owned, Agrees, Reached;
    if sender == p.a.slot && packet in p.toA {
      var actions := PacketIsRun(w.a, from, packet, now, p.a.book.wanted, building, w);
      ReachedActs(w, actions);
      if GameOk(g) && PacketOutcome(p.a.book, g, sender, from, packet, now, building) != p.a.book {
        v := Acts(w, actions);
      }
    }
  }

  lemma GivenKeepsGood(p: Pair, input: Input)
    requires Good(p) && Short(p)
    ensures Good(Given(p, input))
    ensures Given(p, input).a.drawn >= p.a.drawn && Given(p, input).b == p.b && Given(p, input).a.slot == p.a.slot
  {
    hide Behind, Counted;
    var w :| Behind(w, p);
    var v;
    if input.Tick? {
      v := TickKeepsGood(p, input, w);
    } else {
      v := PacketKeepsGood(p, input, w);
    }
  }

  lemma FlippedGood(p: Pair)
    requires Good(p)
    ensures Good(Flipped(p))
  {
    var w :| Behind(w, p);
    ReachedFlips(w);
    hide Reached;
    assert Behind(Flip(w), Flipped(p));
  }

  lemma NextKeepsGood(p: Pair, h: Happening)
    requires Good(p) && Short(p)
    ensures Good(Next(p, h))
  {
    hide Good, Given;
    match h {
      case AtFirst(input) => GivenKeepsGood(p, input);
      case AtSecond(input) =>
        FlippedGood(p);
        GivenKeepsGood(Flipped(p), input);
        FlippedGood(Given(Flipped(p), input));
    }
  }

  lemma NextCounts(p: Pair, h: Happening)
    ensures Next(p, h).a.drawn >= p.a.drawn && Next(p, h).b.drawn >= p.b.drawn
    ensures Next(p, h).a.slot == p.a.slot && Next(p, h).b.slot == p.b.slot
  {
    hide TickOutcome, DrawnAt, ScansAt, SentTo, PacketOutcome;
  }

  lemma {:induction false} RunIsGood(p: Pair, happenings: seq<Happening>)
    requires Good(p) && Short(Run(p, happenings))
    ensures Good(Run(p, happenings))
    decreases |happenings|
  {
    hide Good, Next;
    if |happenings| > 0 {
      var front := Run(p, happenings[..|happenings| - 1]);
      NextCounts(front, happenings[|happenings| - 1]);
      RunIsGood(p, happenings[..|happenings| - 1]);
      NextKeepsGood(front, happenings[|happenings| - 1]);
    }
  }

  /** A client just installed. */
  ghost predicate Installed(c: Client) {
    c.book.peers == seq(PEERS, _ => NEW_PEER) && c.book.sequence == 0 && c.slot < PEERS && c.drawn == 0 && c.scans == map[]
  }

  /** Any two clients, any ticks with any outcome a tick can have, packets from each other in any order, any
      number of times or never, and any packets from anybody else, until a counter of sequences comes
      around: what either displays of the other is the scan that the other drew the displayed sequence for. */
  lemma ClientsDisplayScans(a: Client, b: Client, happenings: seq<Happening>)
    requires Installed(a) && Installed(b) && Short(Run(Pair(a, b, {}, {}), happenings))
    ensures var p := Run(Pair(a, b, {}, {}), happenings);
      && |p.a.book.peers| == |p.b.book.peers| == PEERS && p.a.slot < PEERS && p.b.slot < PEERS
      && Displays(p.b.book.peers[p.b.slot], p.a.scans) && Displays(p.a.book.peers[p.a.slot], p.b.scans)
  {
    var start := Pair(a, b, {}, {});
    assert History(START, []) == START;
    assert Behind(START, start);
    RunIsGood(start, happenings);
    var p := Run(start, happenings);
    var w :| Behind(w, p);
    var events :| History(START, events) == w;
    DriversDisplaySnapshots(events);
  }
}
