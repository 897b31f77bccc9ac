/** While the 31-bit half of the sequence space lasts, packets left over from earlier transactions can
    never disturb one whose first chunk has arrived. */
module Leftovers {
  import opened Words
  import opened Records
  import opened WireFormat
  import opened Transmitting
  import opened Receiving
  import opened Chunking
  import opened Link

  /** The driver draws every sequence from one growing counter (`Words.DrawnValue`). */
  ghost predicate GrowingSequences(s: State, steps: seq<Step>)
    decreases |steps|
  {
    steps == [] ||
    (&& (steps[0].Scan? ==> steps[0].seqno < 0x8000_0000 && forall q :: q in s.history ==> q < steps[0].seqno)
     && GrowingSequences(Perform(s, steps[0]), steps[1..]))
  }

  /** What growing sequences add to the invariant: the transaction in flight is the latest, and every later
      delta than the acknowledged transaction was made against it. */
  ghost predicate Ordered(tx: Tx, history: map<U32, Transaction>) {
    && (forall q :: q in history ==> q < 0x8000_0000)
    && (tx.active ==> forall q :: q in history ==> q <= tx.sequence)
    && (tx.acknowledgedSequence != 0 ==>
        forall q :: q in history && tx.acknowledgedSequence < q && history[q].kind == DELTA ==>
          history[q].base == tx.acknowledgedSequence)
  }

  /** While a delta is in flight its base is still the acknowledged sequence. */
  predicate BaseStands(tx: Tx) {
    tx.active && tx.kind == DELTA ==> tx.acknowledgedSequence == tx.base
  }

  lemma PrepareKeepsOrder(tx: Tx, history: map<U32, Transaction>, current: seq<Record>, q: U32)
    requires Ordered(tx, history) && Starts(tx, current)
    requires q < 0x8000_0000 && forall k :: k in history ==> k < q
    ensures var r := Prepared(tx, current, q);
      Ordered(r, history[q := InFlight(r)]) && BaseStands(r)
  {
  }

  lemma AcknowledgedKeepsOrder(tx: Tx, history: map<U32, Transaction>, committed: set<U32>, ack: U32)
    requires HistoryOk(history) && TxOk(tx, history, committed) && Ordered(tx, history) && BaseStands(tx)
    ensures Ordered(Acknowledged(tx, ack), history) && BaseStands(Acknowledged(tx, ack))
  {
    assert tx.active ==> Meaningful(history, tx.sequence);
  }

  lemma ScanKeepsOrder(s: State, current: seq<Record>, q: U32)
    requires Inv(s) && Ordered(s.tx, s.history) && BaseStands(s.tx)
    requires q < 0x8000_0000 && forall k :: k in s.history ==> k < q
    ensures var r := Perform(s, Scan(current, q)); Ordered(r.tx, r.history) && BaseStands(r.tx)
  {
    if Starts(s.tx, current) {
      PrepareKeepsOrder(s.tx, s.history, current, q);
    }
  }

  lemma ControlKeepsOrder(s: State, p: Packet)
    requires Inv(s) && Ordered(s.tx, s.history) && BaseStands(s.tx)
    ensures var r := Perform(s, DeliverControl(p)); Ordered(r.tx, r.history) && BaseStands(r.tx)
  {
    if p.base % 2 == 1 {
      AcknowledgedKeepsOrder(s.tx, s.history, s.committed, p.sequence);
    } else {
      AcknowledgedKeepsOrder(s.tx.(active := false), s.history, s.committed, p.sequence);
    }
  }

  lemma PerformKeepsOrder(s: State, step: Step)
    requires Inv(s) && Ordered(s.tx, s.history) && BaseStands(s.tx)
    requires step.Scan? ==> step.seqno < 0x8000_0000 && forall q :: q in s.history ==> q < step.seqno
    ensures var r := Perform(s, step); Ordered(r.tx, r.history) && BaseStands(r.tx)
  {
    match step
    case Scan(current, q) => ScanKeepsOrder(s, current, q);
    case DeliverControl(p) => ControlKeepsOrder(s, p);
    case SendChunk =>
    case DeliverData(_) =>
    case SendControl(_, _) =>
    case LeaseExpires =>
    case ResetTransmitter =>
    case ResetReceiver =>
  }

  lemma {:induction false} RunKeepsOrder(s: State, steps: seq<Step>)
    requires Inv(s) && Ordered(s.tx, s.history) && BaseStands(s.tx) && GrowingSequences(s, steps)
    ensures var r := Run(s, steps); Inv(r) && Ordered(r.tx, r.history) && BaseStands(r.tx)
    decreases |steps|
  {
    if steps != [] {
      PerformKeepsInv(s, steps[0]);
      PerformKeepsOrder(s, steps[0]);
      RunKeepsOrder(Perform(s, steps[0]), steps[1..]);
    }
  }

  /** Whatever is in the network besides the transaction in flight is stale for it. */
  lemma EverythingElseIsStale(s: State, p: Packet)
    requires Inv(s) && Ordered(s.tx, s.history) && BaseStands(s.tx) && s.tx.active && p in s.toReceiver
    requires Acceptable(s.rx, InFlight(s.tx), s.tx.sequence)
    ensures IsChunk(p, InFlight(s.tx), s.tx.sequence, ID)
         || Stale(p, InFlight(s.tx), s.tx.sequence, s.rx.sequence)
  {
    assert Meaningful(s.history, p.sequence) && Meaningful(s.history, s.tx.sequence);
  }

  /** The chunks of transaction q that the receiver already has. */
  ghost function AlreadyGot(rx: Rx, q: U32): set<nat> {
    if rx.pendingSequence == q then Got(rx) else {}
  }

  /** After any run with growing sequences, once a chunk of the transaction in flight arrives at a receiver
      that can take it, every further delivery from the network, of whatever was ever sent, in any order and
      with any repetitions, installs the transaction as soon as all its chunks have arrived, and until then
      leaves the displayed snapshot alone. */
  lemma UndisturbedReassembly(steps: seq<Step>, packets: seq<Packet>)
    requires GrowingSequences(INITIAL, steps)
    requires var s := Run(INITIAL, steps);
      && s.tx.active && Acceptable(s.rx, InFlight(s.tx), s.tx.sequence)
      && (forall p :: p in packets ==> p in s.toReceiver)
      && packets != [] && IsChunk(packets[0], InFlight(s.tx), s.tx.sequence, ID)
    ensures var s := Run(INITIAL, steps); var t := InFlight(s.tx); var q := s.tx.sequence;
      Progressed(s.rx, Deliver(s.rx, packets), t, q, AlreadyGot(s.rx, q) + Covered(packets, t, q, ID), t.target)
  {
    var s := Run(INITIAL, steps);
    InitialInv();
    RunKeepsOrder(INITIAL, steps);
    var t, q := InFlight(s.tx), s.tx.sequence;
    assert Meaningful(s.history, q);
    assert Ground(t, s.rx.records) == Ground(t, Meant(s.history, t.base));
    forall k | 0 <= k < |packets| ensures IsChunk(packets[k], t, q, ID) || Stale(packets[k], t, q, s.rx.sequence) {
      assert packets[k] in packets;
      EverythingElseIsStale(s, packets[k]);
    }
    if s.rx.pendingSequence == q {
      CompleteIsAllReceived(s.rx);
      ReassemblyContinues(s.rx, t, q, ID, t.target, packets);
    } else {
      Reassembly(s.rx, t, q, ID, t.target, packets);
      assert AlreadyGot(s.rx, q) + Covered(packets, t, q, ID) == Covered(packets, t, q, ID);
    }
  }
}
