/** When delivery is reliable: how many exchanges bring the receiver to the current snapshot. */
module Convergence {
  import opened Words
  import opened Records
  import opened WireFormat
  import opened Transmitting
  import opened Receiving
  import opened Chunking
  import opened Link

  /** The chunks of t in the order of the given indices; indices beyond the last chunk name nothing. */
  function ChunksInOrder(t: Transaction, q: U32, order: seq<nat>): seq<Packet>
    decreases |order|
  {
    if order == [] then []
    else (if order[0] < ChunkCount(t.operations) then [ChunkPacket(t, q, ID, order[0])] else [])
         + ChunksInOrder(t, q, order[1..])
  }

  ghost function SendTimes(s: State, n: nat): State
    decreases n
  {
    if n == 0 then s else SendTimes(Perform(s, SendChunk), n - 1)
  }

  /** While a transaction is under way: a chunk of it reaches the receiver, or some report that is still in the
      network reaches the transmitter. */
  datatype Arrival = Chunk(index: nat) | Stray(report: Packet)

  function Indices(arrivals: seq<Arrival>): seq<nat>
    decreases |arrivals|
  {
    if |arrivals| == 0 then []
    else (if arrivals[0].Chunk? then [arrivals[0].index] else []) + Indices(arrivals[1..])
  }

  function Chunks(order: seq<nat>): seq<Arrival> {
    seq(|order|, i requires 0 <= i < |order| => Chunk(order[i]))
  }

  ghost function ArriveOne(s: State, t: Transaction, q: U32, arrival: Arrival): State {
    match arrival
    case Chunk(i) => if i < ChunkCount(t.operations) then Perform(s, DeliverData(ChunkPacket(t, q, ID, i))) else s
    case Stray(p) => Perform(s, DeliverControl(p))
  }

  ghost function Arrive(s: State, t: Transaction, q: U32, arrivals: seq<Arrival>): State
    decreases |arrivals|
  {
    if |arrivals| == 0 then s else Arrive(ArriveOne(s, t, q, arrivals[0]), t, q, arrivals[1..])
  }

  /** All stray reports ask for data. */
  predicate Asking(arrivals: seq<Arrival>) {
    forall i :: 0 <= i < |arrivals| && arrivals[i].Stray? ==> arrivals[i].report.base % 2 == 1
  }

  /** The stray is a report of a lost base. */
  ghost predicate TellsOfLoss(s: State, arrival: Arrival) {
    arrival.Stray? && Arrives(s, arrival.report) && arrival.report.sequence == 0
  }

  /** Some report of a lost base is among the strays. */
  ghost predicate Lost(s: State, arrivals: seq<Arrival>)
    decreases |arrivals|
  {
    |arrivals| > 0 && (TellsOfLoss(s, arrivals[0]) || Lost(s, arrivals[1..]))
  }

  /** The receiver reports, and the transmitter hears it. */
  ghost function Report(s: State): State {
    Perform(Perform(s, SendControl(true, false)), DeliverControl(ControlPacket(s.rx, true, false)))
  }

  /** The receiver reports that it wants nothing more, and the transmitter hears it. */
  ghost function Cancel(s: State): State {
    Perform(Perform(s, SendControl(false, false)), DeliverControl(ControlPacket(s.rx, false, false)))
  }

  /** Scan, send every chunk, and deliver them in any order with any repetitions, and any reports in between. */
  ghost function Exchange(s: State, current: seq<Record>, q: U32, arrivals: seq<Arrival>): State {
    var scanned := Perform(s, Scan(current, q));
    if scanned.tx.active then
      var sent := SendTimes(scanned, ChunkCount(scanned.tx.operations));
      Arrive(sent, InFlight(sent.tx), sent.tx.sequence, arrivals)
    else scanned
  }

  /** A reliable exchange, and the receiver's report. */
  ghost function Round(s: State, current: seq<Record>, q: U32, arrivals: seq<Arrival>): State {
    Report(Exchange(s, current, q, arrivals))
  }

  /** The same exchange, but the receiver's report cancels the subscription, and the next one renews it. */
  ghost function InterruptedRound(s: State, current: seq<Record>, q: U32, arrivals: seq<Arrival>): State {
    Report(Cancel(Exchange(s, current, q, arrivals)))
  }

  ghost predicate Idle(s: State) {
    s.subscribed && !s.tx.active
  }

  /** An order that leaves no chunk index out. */
  ghost predicate Covers(order: seq<nat>) {
    forall c: nat :: c < MAX_CHUNKS ==> c in order
  }

  /** Every chunk arrives, and no report that wants no more. */
  ghost predicate Thorough(arrivals: seq<Arrival>) {
    Covers(Indices(arrivals)) && Asking(arrivals)
  }

  /** q was never used, and is ahead of everything the receiver has seen. */
  ghost predicate Fresh(s: State, q: U32) {
    && q != 0 && q !in s.history
    && (s.rx.sequence != 0 ==> Newer(q, s.rx.sequence))
    && (s.rx.pendingSequence != 0 ==> Newer(q, s.rx.pendingSequence))
  }

  /** Transmitter and receiver agree, and agree on `current`. */
  ghost predicate Synchronized(s: State, current: seq<Record>) {
    && Idle(s)
    && s.rx.records == current && s.tx.acknowledged == current
    && s.tx.acknowledgedSequence == s.rx.sequence != 0
    && !s.rx.needFull
  }

  /** The transmitter sees nothing to send, and the receiver sees nothing to complain about, yet they
      are at different transactions. */
  ghost predicate Deadlocked(s: State, current: seq<Record>) {
    && s.tx.acknowledgedSequence != 0 && current == s.tx.acknowledged
    && s.rx.sequence != 0 && !s.rx.needFull
    && s.tx.acknowledgedSequence != s.rx.sequence
  }

  // ---- The pieces of a round

  lemma {:induction false} SendTimesEffect(s: State, n: nat)
    requires s.subscribed && s.tx.active && s.tx.nextChunk + n <= ChunkCount(s.tx.operations)
    ensures var r := SendTimes(s, n);
      && r == s.(tx := s.tx.(nextChunk := s.tx.nextChunk + n), toReceiver := r.toReceiver)
      && s.toReceiver <= r.toReceiver
      && forall i :: s.tx.nextChunk <= i < s.tx.nextChunk + n ==>
           ChunkPacket(InFlight(s.tx), s.tx.sequence, ID, i) in r.toReceiver
    decreases n
  {
    if n > 0 {
      var next := Perform(s, SendChunk);
      assert InFlight(next.tx) == InFlight(s.tx);
      SendTimesEffect(next, n - 1);
    }
  }

  /** The transmitter after the strays. */
  function Buffeted(tx: Tx, lost: bool): Tx {
    if lost && (!tx.active || tx.kind == DELTA) then tx.(acknowledgedSequence := 0, active := false) else tx
  }

  lemma {:induction false} ArriveEffect(s: State, t: Transaction, q: U32, arrivals: seq<Arrival>)
    requires s.subscribed && (s.tx.active ==> s.tx.sequence == q) && Asking(arrivals)
    requires forall p :: p in s.toTransmitter ==> p.sequence != q
    requires forall i :: 0 <= i < ChunkCount(t.operations) ==> ChunkPacket(t, q, ID, i) in s.toReceiver
    requires forall i :: 0 <= i < ChunkCount(t.operations) ==> Envelope(ChunkPacket(t, q, ID, i), ID)
    ensures var r := Arrive(s, t, q, arrivals);
      r == s.(rx := Deliver(s.rx, ChunksInOrder(t, q, Indices(arrivals))), committed := r.committed,
              tx := Buffeted(s.tx, Lost(s, arrivals)))
    decreases |arrivals|
  {
    hide ChunkPacket, AcceptPacket, ArriveOne, TellsOfLoss, Buffeted, Envelope;
    if |arrivals| == 0 {
      NotBuffeted(s.tx);
    } else {
      var next := ArriveOne(s, t, q, arrivals[0]);
      ArriveOneEffect(s, t, q, arrivals[0]);
      IndicesNext(t, q, arrivals);
      LostDependsOnReports(s, next, arrivals[1..]);
      BuffetedTwice(s.tx, TellsOfLoss(s, arrivals[0]), Lost(s, arrivals[1..]));
      ArriveEffect(next, t, q, arrivals[1..]);
      var rest := ChunksInOrder(t, q, Indices(arrivals[1..]));
      if arrivals[0].Chunk? && arrivals[0].index < ChunkCount(t.operations) {
        assert ([ChunkPacket(t, q, ID, arrivals[0].index)] + rest)[1..] == rest;
      } else {
        assert [] + rest == rest;
      }
    }
  }

  lemma ArriveOneEffect(s: State, t: Transaction, q: U32, arrival: Arrival)
    requires s.subscribed && (s.tx.active ==> s.tx.sequence == q) && (arrival.Stray? ==> arrival.report.base % 2 == 1)
    requires forall p :: p in s.toTransmitter ==> p.sequence != q
    requires arrival.Chunk? && arrival.index < ChunkCount(t.operations) ==>
      var p := ChunkPacket(t, q, ID, arrival.index); p in s.toReceiver && Envelope(p, ID)
    ensures var r := ArriveOne(s, t, q, arrival);
      r == s.(rx := if arrival.Chunk? && arrival.index < ChunkCount(t.operations)
                    then AcceptPacket(s.rx, ChunkPacket(t, q, ID, arrival.index)).rx else s.rx,
              committed := r.committed, tx := Buffeted(s.tx, TellsOfLoss(s, arrival)))
    ensures Buffeted(s.tx, TellsOfLoss(s, arrival)).active ==> s.tx.active
    ensures Buffeted(s.tx, TellsOfLoss(s, arrival)).sequence == s.tx.sequence
  {
    hide ChunkPacket, AcceptPacket, Envelope;
  }

  lemma NotBuffeted(tx: Tx)
    ensures Buffeted(tx, false) == tx
  {
  }

  lemma BuffetedTwice(tx: Tx, first: bool, second: bool)
    ensures Buffeted(Buffeted(tx, first), second) == Buffeted(tx, first || second)
  {
  }

  lemma IndicesNext(t: Transaction, q: U32, arrivals: seq<Arrival>)
    requires |arrivals| > 0
    ensures ChunksInOrder(t, q, Indices(arrivals)) ==
      (if arrivals[0].Chunk? && arrivals[0].index < ChunkCount(t.operations) then [ChunkPacket(t, q, ID, arrivals[0].index)] else [])
      + ChunksInOrder(t, q, Indices(arrivals[1..]))
  {
    hide ChunkPacket;
    if arrivals[0].Chunk? {
      assert Indices(arrivals)[1..] == Indices(arrivals[1..]);
    } else {
      assert Indices(arrivals) == Indices(arrivals[1..]);
    }
  }

  lemma {:induction false} LostDependsOnReports(s: State, r: State, arrivals: seq<Arrival>)
    requires s.toTransmitter == r.toTransmitter
    ensures Lost(s, arrivals) == Lost(r, arrivals)
    decreases |arrivals|
  {
    if |arrivals| > 0 {
      LostDependsOnReports(s, r, arrivals[1..]);
    }
  }

  lemma {:induction false} ChunksAlone(s: State, order: seq<nat>)
    ensures Indices(Chunks(order)) == order && Asking(Chunks(order)) && !Lost(s, Chunks(order))
    decreases |order|
  {
    if |order| > 0 {
      assert Chunks(order)[1..] == Chunks(order[1..]);
      ChunksAlone(s, order[1..]);
    }
  }

  lemma ReportEffect(s: State)
    ensures var r := Report(s);
      r == s.(tx := Acknowledged(s.tx, Acknowledgement(s.rx)), subscribed := true, toTransmitter := r.toTransmitter)
  {
  }

  lemma CancelEffect(s: State)
    ensures var r := Cancel(s);
      r == s.(tx := Acknowledged(s.tx.(active := false), Acknowledgement(s.rx)), subscribed := false,
              toTransmitter := r.toTransmitter)
  {
  }

  lemma {:induction false} OrderedChunks(t: Transaction, q: U32, order: seq<nat>)
    requires Sendable(t) && q != 0
    ensures var packets := ChunksInOrder(t, q, order);
      && (forall p :: p in packets ==> IsChunk(p, t, q, ID) && Envelope(p, ID) && WellFormed(p)
                                       && p == ChunkPacket(t, q, ID, p.chunkIndex))
      && forall c: nat :: c in order && c < ChunkCount(t.operations) ==> c in Covered(packets, t, q, ID)
    decreases |order|
  {
    if order != [] {
      var rest := ChunksInOrder(t, q, order[1..]);
      OrderedChunks(t, q, order[1..]);
      if order[0] < ChunkCount(t.operations) {
        var p := ChunkPacket(t, q, ID, order[0]);
        ChunkIsWellFormed(t, q, ID, order[0]);
        assert ([p] + rest)[1..] == rest;
        assert IsChunk(p, t, q, ID);
      } else {
        assert ChunksInOrder(t, q, order) == rest;
      }
      assert forall c :: c in order <==> c == order[0] || c in order[1..];
    }
  }

  /** A delta on another base: every chunk is refused, and the receiver asks for a full snapshot. */
  lemma {:induction false} EachRefused(rx: Rx, packets: seq<Packet>)
    requires Sized(rx)
    requires forall p :: p in packets ==>
      && WellFormed(p) && p.kind == DELTA
      && (rx.sequence != 0 ==> Newer(p.sequence, rx.sequence))
      && (rx.needFull || rx.sequence == 0 || p.base != rx.sequence)
    ensures Deliver(rx, packets) == if packets == [] then rx else rx.(needFull := true)
    decreases |packets|
  {
    if packets != [] {
      assert packets[0] in packets;
      EachRefused(rx.(needFull := true), packets[1..]);
    }
  }

  // ---- Rounds

  lemma {:induction false} SendTimesReaches(s: State, n: nat)
    requires Reachable(s)
    ensures Reachable(SendTimes(s, n))
    decreases n
  {
    if n > 0 {
      PerformReaches(s, SendChunk);
      SendTimesReaches(Perform(s, SendChunk), n - 1);
    }
  }

  lemma {:induction false} ArriveReaches(s: State, t: Transaction, q: U32, arrivals: seq<Arrival>)
    requires Reachable(s)
    ensures Reachable(Arrive(s, t, q, arrivals))
    decreases |arrivals|
  {
    if |arrivals| > 0 {
      match arrivals[0] {
        case Chunk(i) =>
          if i < ChunkCount(t.operations) {
            PerformReaches(s, DeliverData(ChunkPacket(t, q, ID, i)));
          }
        case Stray(p) => PerformReaches(s, DeliverControl(p));
      }
      ArriveReaches(ArriveOne(s, t, q, arrivals[0]), t, q, arrivals[1..]);
    }
  }

  lemma ExchangeReaches(s: State, current: seq<Record>, q: U32, arrivals: seq<Arrival>)
    requires Reachable(s)
    ensures Reachable(Exchange(s, current, q, arrivals))
  {
    var scanned := Perform(s, Scan(current, q));
    PerformReaches(s, Scan(current, q));
    if scanned.tx.active {
      SendTimesReaches(scanned, ChunkCount(scanned.tx.operations));
      var sent := SendTimes(scanned, ChunkCount(scanned.tx.operations));
      ArriveReaches(sent, InFlight(sent.tx), sent.tx.sequence, arrivals);
    }
  }

  lemma ReportReaches(s: State)
    requires Reachable(s)
    ensures Reachable(Report(s)) && Reachable(Cancel(s))
  {
    PerformReaches(s, SendControl(true, false));
    PerformReaches(Perform(s, SendControl(true, false)), DeliverControl(ControlPacket(s.rx, true, false)));
    PerformReaches(s, SendControl(false, false));
    PerformReaches(Perform(s, SendControl(false, false)), DeliverControl(ControlPacket(s.rx, false, false)));
  }

  lemma RoundReaches(s: State, current: seq<Record>, q: U32, arrivals: seq<Arrival>)
    requires Reachable(s)
    ensures Reachable(Round(s, current, q, arrivals))
  {
    ExchangeReaches(s, current, q, arrivals);
    ReportReaches(Exchange(s, current, q, arrivals));
  }

  lemma InterruptedRoundReaches(s: State, current: seq<Record>, q: U32, arrivals: seq<Arrival>)
    requires Reachable(s)
    ensures Reachable(InterruptedRound(s, current, q, arrivals))
  {
    ExchangeReaches(s, current, q, arrivals);
    ReportReaches(Exchange(s, current, q, arrivals));
    ReportReaches(Cancel(Exchange(s, current, q, arrivals)));
  }

  /** Nothing to send: only the report has an effect. */
  lemma QuietRound(s: State, current: seq<Record>, q: U32, arrivals: seq<Arrival>)
    requires Idle(s) && !Starts(s.tx, current)
    ensures var r := Round(s, current, q, arrivals);
      r == s.(tx := Acknowledged(s.tx, Acknowledgement(s.rx)), toTransmitter := r.toTransmitter)
  {
    ReportEffect(s);
  }

  /** The transaction of a scan reaches the receiver in full; what remains is its effect there. */
  lemma BusyExchange(s: State, current: seq<Record>, q: U32, arrivals: seq<Arrival>)
    requires Inv(s) && Idle(s) && Starts(s.tx, current) && Snapshot(current) && Fresh(s, q) && Thorough(arrivals)
    ensures var t := Choose(s.tx.acknowledged, s.tx.acknowledgedSequence, current);
      var packets := ChunksInOrder(t, q, Indices(arrivals));
      var e := Exchange(s, current, q, arrivals);
      && Sendable(t)
      && (forall p :: p in packets ==> IsChunk(p, t, q, ID) && WellFormed(p) && p.kind == t.kind
                                       && p.base == t.base && p.sequence == q)
      && packets != []
      && Complete(Covered(packets, t, q, ID), ChunkCount(t.operations))
      && e.rx == Deliver(s.rx, packets)
      && e.subscribed && e.history == s.history[q := t]
      && e.tx == Buffeted(Prepared(s.tx, current, q).(nextChunk := ChunkCount(t.operations)), Lost(s, arrivals))
  {
    var t := Choose(s.tx.acknowledged, s.tx.acknowledgedSequence, current);
    var packets := ChunksInOrder(t, q, Indices(arrivals));
    ChosenIsSendable(s.tx.acknowledged, s.tx.acknowledgedSequence, current);
    FullExactlyWhenNotShorter(s.tx.acknowledged, s.tx.acknowledgedSequence, current);
    OrderedChunks(t, q, Indices(arrivals));
    var scanned := Perform(s, Scan(current, q));
    assert InFlight(scanned.tx) == t;
    SendTimesEffect(scanned, ChunkCount(t.operations));
    ChunksPass(t, q);
    var sent := SendTimes(scanned, ChunkCount(t.operations));
    LostDependsOnReports(s, sent, arrivals);
    ArriveEffect(sent, t, q, arrivals);
    CoveredCompletely(t, q, Indices(arrivals));
  }

  lemma ChunksPass(t: Transaction, q: U32)
    requires Sendable(t) && q != 0
    ensures forall i :: 0 <= i < ChunkCount(t.operations) ==> Envelope(ChunkPacket(t, q, ID, i), ID)
  {
  }

  lemma CoveredCompletely(t: Transaction, q: U32, order: seq<nat>)
    requires Sendable(t) && q != 0 && Covers(order)
    ensures Complete(Covered(ChunksInOrder(t, q, order), t, q, ID), ChunkCount(t.operations))
    ensures ChunksInOrder(t, q, order) != []
  {
    OrderedChunks(t, q, order);
    ChunksPartition(t.operations, 0);
    assert 0 in order && 0 in Covered(ChunksInOrder(t, q, order), t, q, ID);
  }

  /** The receiver can take the transaction chosen for `current`. */
  ghost predicate CanTake(s: State, current: seq<Record>) {
    || Choose(s.tx.acknowledged, s.tx.acknowledgedSequence, current).kind == FULL
    || (!s.rx.needFull && s.rx.sequence == s.tx.acknowledgedSequence)
  }

  lemma Installed(rx: Rx, t: Transaction, q: U32, packets: seq<Packet>, held: seq<Record>, current: seq<Record>)
    requires Sendable(t) && q != 0 && Sized(rx) && Acceptable(rx, t, q)
    requires rx.pendingSequence == 0 || Newer(q, rx.pendingSequence)
    requires Outcome(t, held, current) && (t.kind == DELTA ==> rx.records == held)
    requires packets != [] && forall p :: p in packets ==> IsChunk(p, t, q, ID)
    requires Complete(Covered(packets, t, q, ID), ChunkCount(t.operations))
    ensures Holds(Deliver(rx, packets), q, current)
  {
    assert Ground(t, rx.records) == Ground(t, held);
    assert packets[0] in packets;
    assert Mixed(packets, t, q, ID, rx.sequence);
    Reassembly(rx, t, q, ID, current, packets);
  }

  /** No report of a lost base meets the transaction while it is a delta. */
  ghost predicate Survives(s: State, current: seq<Record>, arrivals: seq<Arrival>) {
    Choose(s.tx.acknowledged, s.tx.acknowledgedSequence, current).kind == FULL || !Lost(s, arrivals)
  }

  lemma TakenExchange(s: State, current: seq<Record>, q: U32, arrivals: seq<Arrival>)
    requires Inv(s) && Idle(s) && Starts(s.tx, current) && Snapshot(current) && Fresh(s, q) && Thorough(arrivals)
    requires CanTake(s, current)
    ensures var e := Exchange(s, current, q, arrivals);
      && Holds(e.rx, q, current) && e.subscribed && e.history.Keys == s.history.Keys + {q}
      && e.tx.acknowledged == s.tx.acknowledged
      && if Survives(s, current, arrivals)
         then e.tx.active && e.tx.sequence == q && e.tx.target == current && e.tx.acknowledgedSequence == s.tx.acknowledgedSequence
         else !e.tx.active && e.tx.acknowledgedSequence == 0
  {
    hide Exchange, Deliver, ChunksInOrder, Covered, Indices, Lost, Thorough, Canonicalized, HistoryOk;
    var t := Choose(s.tx.acknowledged, s.tx.acknowledgedSequence, current);
    var packets := ChunksInOrder(t, q, Indices(arrivals));
    BusyExchange(s, current, q, arrivals);
    TransactionMeansTarget(s.tx.acknowledged, s.tx.acknowledgedSequence, current);
    Installed(s.rx, t, q, packets, s.tx.acknowledged, current);
  }

  /** The receiver can take the transaction: one round synchronizes, whatever old reports are heard on the way,
      unless it is a delta and one of them tells of a lost base; then the snapshot is shown all the same, and
      the next transaction is a full one. */
  lemma TakenRound(s: State, current: seq<Record>, q: U32, arrivals: seq<Arrival>)
    requires Inv(s) && Idle(s) && Starts(s.tx, current) && Snapshot(current) && Fresh(s, q) && Thorough(arrivals)
    requires CanTake(s, current)
    ensures var r := Round(s, current, q, arrivals);
      if Survives(s, current, arrivals) then Synchronized(r, current)
      else Idle(r) && r.tx.acknowledgedSequence == 0 && Holds(r.rx, q, current) && r.history.Keys == s.history.Keys + {q}
  {
    TakenExchange(s, current, q, arrivals);
    ReportEffect(Exchange(s, current, q, arrivals));
  }

  /** The receiver cannot: after one round the transmitter knows that it must send a full snapshot. */
  lemma RefusedRound(s: State, current: seq<Record>, q: U32, arrivals: seq<Arrival>)
    requires Inv(s) && Idle(s) && Starts(s.tx, current) && Snapshot(current) && Fresh(s, q) && Thorough(arrivals)
    requires !CanTake(s, current)
    ensures var r := Round(s, current, q, arrivals);
      && Idle(r) && r.tx.acknowledgedSequence == 0 && r.rx == s.rx.(needFull := true)
      && r.history.Keys == s.history.Keys + {q}
  {
    var t := Choose(s.tx.acknowledged, s.tx.acknowledgedSequence, current);
    BusyExchange(s, current, q, arrivals);
    EachRefused(s.rx, ChunksInOrder(t, q, Indices(arrivals)));
    ReportEffect(Exchange(s, current, q, arrivals));
  }

  /** Without a base at the transmitter, one round suffices. */
  lemma BaselessRound(s: State, current: seq<Record>, q: U32, arrivals: seq<Arrival>)
    requires Inv(s) && Idle(s) && s.tx.acknowledgedSequence == 0
    requires Snapshot(current) && Fresh(s, q) && Thorough(arrivals)
    ensures Synchronized(Round(s, current, q, arrivals), current)
  {
    TakenRound(s, current, q, arrivals);
  }

  lemma SynchronizedStays(s: State, current: seq<Record>, q: U32, arrivals: seq<Arrival>)
    requires Synchronized(s, current)
    ensures Synchronized(Round(s, current, q, arrivals), current)
  {
    QuietRound(s, current, q, arrivals);
  }

  lemma BusyConverges(s: State, current: seq<Record>, q1: U32, q2: U32, arrivals1: seq<Arrival>, arrivals2: seq<Arrival>)
    requires Reachable(s) && Inv(s) && Idle(s) && Snapshot(current) && Fresh(s, q1) && Fresh(s, q2) && q1 != q2
    requires Thorough(arrivals1) && Thorough(arrivals2) && (Lost(s, arrivals1) ==> Newer(q2, q1))
    requires Starts(s.tx, current)
    ensures Synchronized(Round(Round(s, current, q1, arrivals1), current, q2, arrivals2), current)
  {
    var s1 := Round(s, current, q1, arrivals1);
    if CanTake(s, current) {
      TakenRound(s, current, q1, arrivals1);
      if Survives(s, current, arrivals1) {
        SynchronizedStays(s1, current, q2, arrivals2);
      } else {
        RoundReaches(s, current, q1, arrivals1);
        ReachableInv(s1);
        BaselessRound(s1, current, q2, arrivals2);
      }
    } else {
      RoundReaches(s, current, q1, arrivals1);
      ReachableInv(s1);
      RefusedRound(s, current, q1, arrivals1);
      BaselessRound(s1, current, q2, arrivals2);
    }
  }

  lemma QuietConverges(s: State, current: seq<Record>, q1: U32, q2: U32, arrivals1: seq<Arrival>, arrivals2: seq<Arrival>)
    requires Reachable(s) && Inv(s) && Idle(s) && Snapshot(current) && Fresh(s, q1) && Fresh(s, q2)
    requires Thorough(arrivals1) && Thorough(arrivals2)
    requires !Starts(s.tx, current) && !Deadlocked(s, current)
    ensures Synchronized(Round(Round(s, current, q1, arrivals1), current, q2, arrivals2), current)
  {
    var s1 := Round(s, current, q1, arrivals1);
    QuietRound(s, current, q1, arrivals1);
    if s.rx.needFull || s.rx.sequence == 0 {
      RoundReaches(s, current, q1, arrivals1);
      ReachableInv(s1);
      BaselessRound(s1, current, q2, arrivals2);
    } else {
      SynchronizedStays(s1, current, q2, arrivals2);
    }
  }

  /** From every reachable idle state two rounds with a fixed snapshot synchronize, whatever old reports that ask
      for data are heard between the chunks, exactly unless the state is deadlocked on it; in that case neither
      round changes transmitter or receiver. */
  lemma TwoRoundsConverge(
      s: State, current: seq<Record>, q1: U32, q2: U32, arrivals1: seq<Arrival>, arrivals2: seq<Arrival>)
    requires Reachable(s) && Idle(s) && Snapshot(current) && Fresh(s, q1) && Fresh(s, q2) && q1 != q2
    requires Thorough(arrivals1) && Thorough(arrivals2) && (Lost(s, arrivals1) ==> Newer(q2, q1))
    ensures var r := Round(Round(s, current, q1, arrivals1), current, q2, arrivals2);
      && (Synchronized(r, current) <==> !Deadlocked(s, current))
      && (Deadlocked(s, current) ==> r.rx == s.rx && r.tx == s.tx)
  {
    ReachableInv(s);
    if Starts(s.tx, current) {
      BusyConverges(s, current, q1, q2, arrivals1, arrivals2);
    } else if Deadlocked(s, current) {
      DeadlockUnchanged(s, current, q1, arrivals1);
      DeadlockUnchanged(Round(s, current, q1, arrivals1), current, q2, arrivals2);
    } else {
      QuietConverges(s, current, q1, q2, arrivals1, arrivals2);
    }
  }

  lemma DeadlockUnchanged(s: State, current: seq<Record>, q: U32, arrivals: seq<Arrival>)
    requires Idle(s) && Deadlocked(s, current)
    ensures var r := Round(s, current, q, arrivals); r.rx == s.rx && r.tx == s.tx && Idle(r)
  {
    QuietRound(s, current, q, arrivals);
  }

  /** A deadlock never resolves itself, however many rounds follow with the same snapshot. */
  ghost function Rounds(s: State, current: seq<Record>, qs: seq<U32>, arrivals: seq<Arrival>): State
    decreases |qs|
  {
    if qs == [] then s else Rounds(Round(s, current, qs[0], arrivals), current, qs[1..], arrivals)
  }

  lemma {:induction false} DeadlockPersists(s: State, current: seq<Record>, qs: seq<U32>, arrivals: seq<Arrival>)
    requires Idle(s) && Deadlocked(s, current)
    ensures var r := Rounds(s, current, qs, arrivals); r.tx == s.tx && r.rx == s.rx
    decreases |qs|
  {
    if qs != [] {
      DeadlockUnchanged(s, current, qs[0], arrivals);
      DeadlockPersists(Round(s, current, qs[0], arrivals), current, qs[1..], arrivals);
    }
  }

  // ---- The deadlock can happen

  /** From any synchronized state, an exchange whose report happens to cancel the subscription deadlocks
      as soon as the queue returns to its former snapshot: the acknowledgement in that report is lost. */
  lemma CancellingReportDeadlocks(s: State, before: seq<Record>, shown: seq<Record>, q: U32, arrivals: seq<Arrival>)
    requires Inv(s) && Synchronized(s, before) && before != shown
    requires Snapshot(shown) && Fresh(s, q) && Thorough(arrivals) && Survives(s, shown, arrivals)
    ensures var r := InterruptedRound(s, shown, q, arrivals);
      Idle(r) && Deadlocked(r, before) && r.rx.records == shown
  {
    TakenExchange(s, shown, q, arrivals);
    var e := Exchange(s, shown, q, arrivals);
    CancelEffect(e);
    ReportEffect(Cancel(e));
  }

  function InOrder(): (order: seq<nat>)
    ensures Covers(order)
  {
    var order := seq(MAX_CHUNKS, (i: nat) => i);
    assert Covers(order) by {
      forall c: nat | c < MAX_CHUNKS ensures c in order {
        assert order[c] == c;
      }
    }
    order
  }

  /** For any two different snapshots there is a run that ends idle, showing one of them while the queue is
      the other, and that no further round with the same queue repairs. */
  lemma DeadlockIsReachable(before: seq<Record>, shown: seq<Record>)
    requires Snapshot(before) && Snapshot(shown) && before != shown
    ensures exists s :: Reachable(s) && Idle(s) && Deadlocked(s, before) && s.rx.records == shown
  {
    var s1 := ShowsFirst(before);
    hide Round, Inv, Indices, Lost, Synchronized, Chunks;
    ChunksAlone(s1, InOrder());
    CancellingReportDeadlocks(s1, before, shown, 2, Chunks(InOrder()));
    InterruptedRoundReaches(s1, shown, 2, Chunks(InOrder()));
  }

  lemma ShowsFirst(before: seq<Record>) returns (s: State)
    requires Snapshot(before)
    ensures Reachable(s) && Inv(s) && Synchronized(s, before) && Fresh(s, 2)
  {
    var s0 := Subscribed();
    ReachableInv(s0);
    ChunksAlone(s0, InOrder());
    s := Round(s0, before, 1, Chunks(InOrder()));
    hide Round, Inv, Indices, Lost, Chunks, Thorough, Asking, Synchronized, Snapshot, Reachable;
    FirstRound(s0, before, Chunks(InOrder()));
  }

  lemma FirstRound(s: State, before: seq<Record>, arrivals: seq<Arrival>)
    requires Reachable(s) && Inv(s) && Idle(s) && s.rx == NEW_RX && s.tx == NEW_TX && s.history == map[]
    requires Snapshot(before) && Thorough(arrivals)
    ensures var r := Round(s, before, 1, arrivals);
      Reachable(r) && Inv(r) && Synchronized(r, before) && Fresh(r, 2)
  {
    hide Round, Inv, Indices, Lost, Thorough, Synchronized, Snapshot, Reachable;
    BaselessRound(s, before, 1, arrivals);
    BusyHistory(s, before, 1, arrivals);
    RoundReaches(s, before, 1, arrivals);
    ReachableInv(Round(s, before, 1, arrivals));
  }

  lemma Subscribed() returns (s: State)
    ensures Reachable(s) && Idle(s) && s.rx == NEW_RX && s.tx == NEW_TX && s.history == map[]
  {
    assert Run(INITIAL, []) == INITIAL;
    s := Report(INITIAL);
    ReportReaches(INITIAL);
    ReportEffect(INITIAL);
  }

  lemma BusyHistory(s: State, current: seq<Record>, q: U32, arrivals: seq<Arrival>)
    requires Inv(s) && Idle(s) && s.tx.acknowledgedSequence == 0 && Snapshot(current) && Fresh(s, q) && Thorough(arrivals)
    ensures var r := Round(s, current, q, arrivals);
      r.history.Keys == s.history.Keys + {q} && r.rx.sequence == q && r.rx.pendingSequence == 0
  {
    TakenExchange(s, current, q, arrivals);
    ReportEffect(Exchange(s, current, q, arrivals));
  }
}
