/** One direction of replication, as a step system over an unreliable network: every packet ever sent
    may be delivered at any time, in any order, any number of times, or never. */
module Link {
  import opened Words
  import opened Records
  import opened WireFormat
  import opened Transmitting
  import opened Receiving
  import opened Chunking

  /** The message id that the driver registers for these packets. */
  const ID: U8 := 0x60

  /** `history` records what every sequence was prepared for, `committed` which sequences the receiver
      has ever installed; neither influences the steps other than by keeping sequences fresh. */
  datatype State = State(
    tx: Tx, subscribed: bool, rx: SizedRx,
    toReceiver: set<Packet>, toTransmitter: set<Packet>,
    history: map<U32, Transaction>, committed: set<U32>)

  const INITIAL: State := State(NEW_TX, false, NEW_RX, {}, {}, map[], {})

  datatype Step =
    | Scan(current: seq<Record>, seqno: U32)
    | SendChunk
    | DeliverData(data: Packet)
    | SendControl(wanted: bool, serving: bool)
    | DeliverControl(control: Packet)
    | LeaseExpires
    | ResetTransmitter
    | ResetReceiver

  function ControlPacket(rx: Rx, wanted: bool, serving: bool): Packet {
    MakePacket(ID, INTEREST).(
      base := (if wanted then 1 else 0) + (if serving then 2 else 0),
      sequence := Acknowledgement(rx))
  }

  predicate IsControl(p: Packet) {
    p.kind == INTEREST && p.base <= 3 && p.chunkCount == 0 && p.chunkIndex == 0 && p.recordCount == 0
  }

  /** The checks on reports admit exactly what receivers send, whatever the unused records hold. */
  lemma ControlIsReport(p: Packet)
    ensures Envelope(p, ID) && IsControl(p) <==>
      exists rx, wanted, serving :: p.(records := MakePacket(ID, INTEREST).records) == ControlPacket(rx, wanted, serving)
  {
    if Envelope(p, ID) && IsControl(p) {
      assert p.(records := MakePacket(ID, INTEREST).records)
          == ControlPacket(NEW_RX.(sequence := p.sequence), p.base % 2 == 1, p.base >= 2);
    }
  }

  /** A packet that asks for no more data cancels the transaction before its acknowledgement is read. */
  function HearControl(tx: Tx, p: Packet): Tx {
    Acknowledged(if p.base % 2 == 1 then tx else tx.(active := false), p.sequence)
  }

  /** The chunk the send loop takes next: a finished round starts over. */
  function NextIndex(tx: Tx): (i: nat)
    ensures i < ChunkCount(tx.operations)
  {
    if tx.nextChunk < ChunkCount(tx.operations) then tx.nextChunk else 0
  }

  /** One step; a step that is not possible in s leaves it unchanged. */
  ghost function Perform(s: State, step: Step): State {
    match step
    case Scan(current, seqno) =>
      if s.subscribed && !s.tx.active && seqno != 0 && seqno !in s.history && Snapshot(current) then
        var tx := Prepared(s.tx, current, seqno);
        s.(tx := tx, history := if tx.active then s.history[seqno := InFlight(tx)] else s.history)
      else s
    case SendChunk =>
      if s.subscribed && s.tx.active then
        var i := NextIndex(s.tx);
        s.(toReceiver := s.toReceiver + {ChunkPacket(InFlight(s.tx), s.tx.sequence, ID, i)},
           tx := s.tx.(nextChunk := i + 1))
      else s
    case DeliverData(p) =>
      if p in s.toReceiver && Envelope(p, ID) then
        var rx := AcceptPacket(s.rx, p).rx;
        s.(rx := rx, committed := if rx.sequence == s.rx.sequence then s.committed else s.committed + {rx.sequence})
      else s
    case SendControl(wanted, serving) =>
      s.(toTransmitter := s.toTransmitter + {ControlPacket(s.rx, wanted, serving)})
    case DeliverControl(p) =>
      if p in s.toTransmitter && Envelope(p, ID) && IsControl(p) then
        s.(subscribed := p.base % 2 == 1, tx := HearControl(s.tx, p))
      else s
    case LeaseExpires => s.(subscribed := false, tx := s.tx.(active := false))
    case ResetTransmitter => s.(tx := NEW_TX, subscribed := false)
    case ResetReceiver => s.(rx := NEW_RX)
  }

  ghost function Run(s: State, steps: seq<Step>): State
    decreases |steps|
  {
    if steps == [] then s else Run(Perform(s, steps[0]), steps[1..])
  }

  // ---- The invariant

  /** The target that sequence q stands for. */
  ghost function Meant(history: map<U32, Transaction>, q: U32): seq<Record> {
    if q in history then history[q].target else []
  }

  /** The transaction turns its base snapshot into its target. */
  ghost predicate Meaningful(history: map<U32, Transaction>, q: U32)
    requires q in history
  {
    var t := history[q];
    && q != 0
    && Sendable(t) && Snapshot(t.target)
    && (t.kind == DELTA ==> t.base in history)
    && Outcome(t, Meant(history, t.base), t.target)
  }

  ghost predicate HistoryOk(history: map<U32, Transaction>) {
    forall q {:trigger Meaningful(history, q)} :: q in history ==> Meaningful(history, q)
  }

  ghost predicate TxOk(tx: Tx, history: map<U32, Transaction>, committed: set<U32>) {
    && Snapshot(tx.acknowledged)
    && (tx.acknowledgedSequence != 0 ==>
        tx.acknowledgedSequence in committed && tx.acknowledged == Meant(history, tx.acknowledgedSequence))
    && (tx.active ==> tx.sequence in history && history[tx.sequence] == InFlight(tx))
  }

  ghost predicate RxOk(rx: Rx, history: map<U32, Transaction>) {
    && Invariant(rx)
    && (rx.sequence != 0 ==> rx.sequence in history && rx.records == Meant(history, rx.sequence))
    && (rx.pendingSequence != 0 ==>
        && rx.pendingSequence in history && InProgress(rx, history[rx.pendingSequence], rx.pendingSequence)
        && false in rx.received)
  }

  ghost predicate DataOk(packets: set<Packet>, history: map<U32, Transaction>) {
    forall p :: p in packets ==> p.sequence in history && IsChunk(p, history[p.sequence], p.sequence, ID)
  }

  ghost predicate ControlsOk(packets: set<Packet>, committed: set<U32>) {
    forall p :: p in packets ==> p.sequence == 0 || p.sequence in committed
  }

  ghost predicate Inv(s: State) {
    && HistoryOk(s.history)
    && s.committed <= s.history.Keys
    && TxOk(s.tx, s.history, s.committed)
    && RxOk(s.rx, s.history)
    && (s.rx.sequence != 0 ==> s.rx.sequence in s.committed)
    && DataOk(s.toReceiver, s.history)
    && ControlsOk(s.toTransmitter, s.committed)
  }

  lemma InitialInv()
    ensures Inv(INITIAL)
  {
    InitialInvariant();
  }

  // ---- Scanning: the history grows by a fresh sequence

  lemma HistoryGrows(history: map<U32, Transaction>, q: U32, t: Transaction)
    requires HistoryOk(history) && q != 0 && q !in history
    requires Sendable(t) && Snapshot(t.target)
    requires t.kind == DELTA ==> t.base in history
    requires Outcome(t, Meant(history, t.base), t.target)
    ensures HistoryOk(history[q := t])
  {
    var grown := history[q := t];
    assert Ground(t, Meant(grown, t.base)) == Ground(t, Meant(history, t.base));
    forall k | k in grown ensures Meaningful(grown, k) {
      if k != q {
        assert Meaningful(history, k);
        var u := grown[k];
        assert Ground(u, Meant(grown, u.base)) == Ground(u, Meant(history, u.base));
      }
    }
  }

  lemma RxUnaffected(rx: Rx, history: map<U32, Transaction>, q: U32, t: Transaction)
    requires RxOk(rx, history) && q !in history
    ensures RxOk(rx, history[q := t])
  {
  }

  lemma TxAfterPrepare(tx: Tx, history: map<U32, Transaction>, committed: set<U32>, current: seq<Record>, q: U32)
    requires TxOk(tx, history, committed) && committed <= history.Keys && q !in history
    requires Starts(tx, current)
    ensures var r := Prepared(tx, current, q);
      TxOk(r, history[q := InFlight(r)], committed)
  {
  }

  lemma ScanKeepsInv(s: State, current: seq<Record>, seqno: U32)
    requires Inv(s)
    ensures Inv(Perform(s, Scan(current, seqno)))
  {
    if s.subscribed && seqno != 0 && seqno !in s.history && Snapshot(current) && Starts(s.tx, current) {
      var t := Choose(s.tx.acknowledged, s.tx.acknowledgedSequence, current);
      ChosenIsSendable(s.tx.acknowledged, s.tx.acknowledgedSequence, current);
      TransactionMeansTarget(s.tx.acknowledged, s.tx.acknowledgedSequence, current);
      HistoryGrows(s.history, seqno, t);
      assert InFlight(Prepared(s.tx, current, seqno)) == t;
      RxUnaffected(s.rx, s.history, seqno, t);
      TxAfterPrepare(s.tx, s.history, s.committed, current, seqno);
    }
  }

  lemma ChunkIndexFits(t: Transaction, q: U32, i: nat)
    requires Sendable(t) && i < ChunkCount(t.operations)
    ensures IsChunk(ChunkPacket(t, q, ID, i), t, q, ID)
  {
  }

  lemma SendChunkKeepsInv(s: State)
    requires Inv(s)
    ensures Inv(Perform(s, SendChunk))
  {
    if s.subscribed && s.tx.active {
      assert Meaningful(s.history, s.tx.sequence);
      ChunkIndexFits(InFlight(s.tx), s.tx.sequence, NextIndex(s.tx));
    }
  }

  // ---- Delivery

  /** The heart of safety: a chunk of any transaction ever prepared reaches the receiver.  Either it
      completes its transaction, on the right base, or what is shown stays and reassembly stays true. */
  lemma DeliveryOutcome(rx: Rx, history: map<U32, Transaction>, p: Packet)
    requires HistoryOk(history) && RxOk(rx, history)
    requires p.sequence in history && IsChunk(p, history[p.sequence], p.sequence, ID)
    ensures var r := AcceptPacket(rx, p).rx; var t := history[p.sequence];
      if Admitted(rx, p) then
        || (Holds(r, p.sequence, t.target) && (t.kind == DELTA ==> t.base == rx.sequence))
        || (InProgress(r, t, p.sequence) && r.sequence == rx.sequence && r.records == rx.records
            && r.needFull == rx.needFull && false in r.received)
      else r == rx.(needFull := r.needFull) && (r.needFull != rx.needFull ==> p.kind == DELTA && p.base != rx.sequence)
  {
    if Admitted(rx, p) {
      var q := p.sequence;
      var t := history[q];
      assert Meaningful(history, q);
      assert Acceptable(rx, t, q);
      assert Ground(t, rx.records) == Ground(t, Meant(history, t.base));
      if rx.pendingSequence == q {
        ChunkStep(rx, t, q, ID, p.chunkIndex, t.target);
      } else {
        FirstChunk(rx, t, q, ID, p.chunkIndex, t.target);
      }
    }
  }

  lemma DeliveryKeepsRx(rx: Rx, history: map<U32, Transaction>, p: Packet)
    requires HistoryOk(history) && RxOk(rx, history)
    requires p.sequence in history && IsChunk(p, history[p.sequence], p.sequence, ID)
    ensures var r := AcceptPacket(rx, p).rx;
      RxOk(r, history) && (r.sequence == rx.sequence || r.sequence == p.sequence)
  {
    AcceptInvariant(rx, p);
    DeliveryOutcome(rx, history, p);
  }

  lemma InstallingKeepsTx(tx: Tx, history: map<U32, Transaction>, committed: set<U32>, q: U32)
    requires TxOk(tx, history, committed)
    ensures TxOk(tx, history, committed + {q})
  {
  }

  lemma DeliverDataKeepsInv(s: State, p: Packet)
    requires Inv(s)
    ensures Inv(Perform(s, DeliverData(p)))
  {
    hide AcceptPacket, TxOk, HistoryOk;
    if p in s.toReceiver && Envelope(p, ID) {
      DeliveryKeepsRx(s.rx, s.history, p);
      InstallingKeepsTx(s.tx, s.history, s.committed, AcceptPacket(s.rx, p).rx.sequence);
    }
  }

  // ---- Acknowledgements and resets

  lemma SendControlKeepsInv(s: State, wanted: bool, serving: bool)
    requires Inv(s)
    ensures Inv(Perform(s, SendControl(wanted, serving)))
  {
  }

  lemma AcknowledgedKeepsTx(tx: Tx, history: map<U32, Transaction>, committed: set<U32>, ack: U32)
    requires HistoryOk(history) && TxOk(tx, history, committed) && (ack == 0 || ack in committed)
    ensures TxOk(Acknowledged(tx, ack), history, committed)
  {
    assert tx.active ==> Meaningful(history, tx.sequence);
  }

  lemma HearControlKeepsTx(tx: Tx, history: map<U32, Transaction>, committed: set<U32>, p: Packet)
    requires HistoryOk(history) && TxOk(tx, history, committed) && (p.sequence == 0 || p.sequence in committed)
    ensures TxOk(HearControl(tx, p), history, committed)
  {
    if p.base % 2 == 1 {
      AcknowledgedKeepsTx(tx, history, committed, p.sequence);
    } else {
      AcknowledgedKeepsTx(tx.(active := false), history, committed, p.sequence);
    }
  }

  lemma DeliverControlKeepsInv(s: State, p: Packet)
    requires Inv(s)
    ensures Inv(Perform(s, DeliverControl(p)))
  {
    if p in s.toTransmitter {
      HearControlKeepsTx(s.tx, s.history, s.committed, p);
    }
  }

  lemma PerformKeepsInv(s: State, step: Step)
    requires Inv(s)
    ensures Inv(Perform(s, step))
  {
    match step
    case Scan(current, seqno) => ScanKeepsInv(s, current, seqno);
    case SendChunk => SendChunkKeepsInv(s);
    case DeliverData(p) => DeliverDataKeepsInv(s, p);
    case SendControl(wanted, serving) => SendControlKeepsInv(s, wanted, serving);
    case DeliverControl(p) => DeliverControlKeepsInv(s, p);
    case LeaseExpires =>
    case ResetTransmitter =>
    case ResetReceiver => InitialInvariant();
  }

  lemma {:induction false} RunKeepsInv(s: State, steps: seq<Step>)
    requires Inv(s)
    ensures Inv(Run(s, steps))
    decreases |steps|
  {
    if steps != [] {
      PerformKeepsInv(s, steps[0]);
      RunKeepsInv(Perform(s, steps[0]), steps[1..]);
    }
  }

  /** Some run leads to s. */
  ghost predicate Reachable(s: State) {
    exists steps :: Run(INITIAL, steps) == s
  }

  lemma {:induction false} RunThenPerform(s: State, steps: seq<Step>, step: Step)
    ensures Run(s, steps + [step]) == Perform(Run(s, steps), step)
    decreases |steps|
  {
    if steps == [] {
      assert Run(Perform(s, step), []) == Perform(s, step);
      assert [] + [step] == [step] && [step][1..] == [];
    } else {
      assert (steps + [step])[1..] == steps[1..] + [step];
      RunThenPerform(Perform(s, steps[0]), steps[1..], step);
    }
  }

  lemma PerformReaches(s: State, step: Step)
    requires Reachable(s)
    ensures Reachable(Perform(s, step))
  {
    var steps :| Run(INITIAL, steps) == s;
    RunThenPerform(INITIAL, steps, step);
  }

  lemma ReachableInv(s: State)
    requires Reachable(s)
    ensures Inv(s)
  {
    var steps :| Run(INITIAL, steps) == s;
    InitialInv();
    RunKeepsInv(INITIAL, steps);
  }

  // ---- What ends a transaction

  /** The transmitter hears the report. */
  ghost predicate Arrives(s: State, p: Packet) {
    p in s.toTransmitter && Envelope(p, ID) && IsControl(p)
  }

  ghost predicate Ends(s: State, step: Step) {
    match step
    case DeliverControl(p) =>
      Arrives(s, p) && (p.base % 2 == 0 || p.sequence == s.tx.sequence || (p.sequence == 0 && s.tx.kind == DELTA))
    case LeaseExpires => true
    case ResetTransmitter => true
    case _ => false
  }

  /** A transaction in flight ends with its acknowledgement, with a report that wants no more, with the lease
      or the transmitter itself, and, if it is a delta, with a report of a lost base; with nothing else. */
  lemma OnlyTheseEndIt(s: State, step: Step)
    requires s.tx.active
    ensures var r := Perform(s, step);
      if Ends(s, step) then !r.tx.active
      else r.tx.active && r.tx.sequence == s.tx.sequence && InFlight(r.tx) == InFlight(s.tx)
  {
  }

  /** The report acknowledges what is in flight. */
  ghost predicate Confirms(s: State, step: Step) {
    step.DeliverControl? && var p := step.control; Arrives(s, p) && s.tx.active && p.base % 2 == 1 && p.sequence == s.tx.sequence
  }

  ghost predicate LosesBase(s: State, step: Step) {
    step.DeliverControl? && var p := step.control;
      Arrives(s, p) && p.sequence == 0 && !(s.tx.active && p.base % 2 == 1 && s.tx.kind != DELTA)
  }

  /** The base moves to what is in flight with its acknowledgement; it is forgotten when a report of a lost
      base meets no full transaction in flight, and with the transmitter; nothing else moves it. */
  lemma OnlyTheseMoveTheBase(s: State, step: Step)
    ensures var r := Perform(s, step);
      if Confirms(s, step) then
        r.tx.acknowledgedSequence == s.tx.sequence && r.tx.acknowledged == s.tx.target
      else if LosesBase(s, step) || step.ResetTransmitter? then r.tx.acknowledgedSequence == 0
      else r.tx.acknowledgedSequence == s.tx.acknowledgedSequence && r.tx.acknowledged == s.tx.acknowledged
  {
  }

  /** A step after which a full transaction under sequence q goes on: anything but a reset, the end of the
      lease, its acknowledgement and a report that wants no more. */
  predicate Bears(step: Step, q: U32) {
    match step
    case DeliverControl(p) => p.base % 2 == 1 && p.sequence != q
    case LeaseExpires => false
    case ResetTransmitter => false
    case _ => true
  }

  /** Over any such steps, however many reports of a lost base are among them, a full transaction stays in
      flight, under its sequence, with all its operations. */
  lemma {:induction false} FullStaysInFlight(s: State, steps: seq<Step>)
    requires s.subscribed && s.tx.active && s.tx.kind == FULL
    requires forall i :: 0 <= i < |steps| ==> Bears(steps[i], s.tx.sequence)
    ensures var r := Run(s, steps);
      r.subscribed && r.tx.active && r.tx.sequence == s.tx.sequence && InFlight(r.tx) == InFlight(s.tx)
    decreases |steps|
  {
    if |steps| > 0 {
      assert Bears(steps[0], s.tx.sequence);
      OnlyTheseEndIt(s, steps[0]);
      FullStaysInFlight(Perform(s, steps[0]), steps[1..]);
    }
  }

  // ---- Main results

  /** Replication safety, over every run: what the receiver shows is exactly the snapshot prepared under
      the sequence it reports (nothing before the first), the transmitter's base is exactly the snapshot
      of the sequence it believes acknowledged, and the receiver did install that sequence. */
  lemma ReplicationSafety(steps: seq<Step>)
    ensures var s := Run(INITIAL, steps);
      && (if s.rx.sequence == 0 then s.rx.records == []
          else s.rx.sequence in s.history && s.rx.records == s.history[s.rx.sequence].target)
      && (s.tx.acknowledgedSequence != 0 ==>
          && s.tx.acknowledgedSequence in s.history
          && s.tx.acknowledged == s.history[s.tx.acknowledgedSequence].target
          && s.tx.acknowledgedSequence in s.committed)
  {
    InitialInv();
    RunKeepsInv(INITIAL, steps);
  }

  /** No delta is ever applied to another base than its own: when a delivery in a reachable state installs
      a delta, the receiver held exactly the snapshot of the delta's base. */
  lemma DeltaMeetsItsBase(s: State, p: Packet)
    requires Reachable(s)
    ensures var after := Perform(s, DeliverData(p));
      after.rx.sequence != s.rx.sequence ==>
        && after.rx.sequence in s.history
        && var t := s.history[after.rx.sequence];
           t.kind == DELTA ==> t.base in s.history && s.rx.sequence == t.base && s.rx.records == s.history[t.base].target
  {
    ReachableInv(s);
    if p in s.toReceiver {
      assert Meaningful(s.history, p.sequence);
      DeliveryOutcome(s.rx, s.history, p);
    }
  }

  /** The size limit never bites on what transmitters send: a delivery in a reachable state raises
      `needFull` only for a delta whose base the receiver does not hold. */
  lemma OnlyALostBaseNeedsFull(s: State, p: Packet)
    requires Reachable(s)
    ensures var after := Perform(s, DeliverData(p));
      !s.rx.needFull && after.rx.needFull ==> p.kind == DELTA && p.base != s.rx.sequence
  {
    ReachableInv(s);
    if p in s.toReceiver {
      DeliveryOutcome(s.rx, s.history, p);
    }
  }
}
