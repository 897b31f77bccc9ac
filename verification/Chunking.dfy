/** From chunks back to transactions: what a transmitter cuts, a receiver reassembles. */
module Chunking {
  import opened Words
  import opened Records
  import opened WireFormat
  import opened Diff
  import opened Transmitting
  import opened Receiving

  /** Transactions a transmitter can have in flight. */
  ghost predicate Sendable(t: Transaction) {
    && (t.kind == FULL || t.kind == DELTA)
    && (t.kind == FULL ==> t.base == 0)
    && (t.kind == DELTA ==> t.base != 0)
    && |t.operations| <= MAX_RECORDS
    && forall w :: w in t.operations ==> ValidWire(w) && (t.kind == FULL ==> !HasRemove(w.rotation))
  }

  /** Whatever `Prepare` chooses from snapshots is sendable. */
  lemma ChosenIsSendable(held: seq<Record>, base: U32, current: seq<Record>)
    requires Snapshot(held) && Snapshot(current)
    ensures Sendable(Choose(held, base, current))
  {
    DifferenceValid(held, current);
    FullExactlyWhenNotShorter(held, base, current);
    forall i | 0 <= i < |current| ensures ValidWire(Wire(current[i])) && !HasRemove(Wire(current[i]).rotation) {
      WireRoundTrip(current[i], false);
    }
  }

  /** Every chunk of a sendable transaction passes the envelope and all structural checks. */
  lemma ChunkIsWellFormed(t: Transaction, s: U32, id: U8, index: nat)
    requires Sendable(t) && s != 0 && index < ChunkCount(t.operations)
    ensures var p := ChunkPacket(t, s, id, index);
      && WellFormed(p) && Envelope(p, id)
      && p.sequence == s && p.chunkIndex == index && p.chunkCount == ChunkCount(t.operations) <= MAX_CHUNKS
      && p.records[..p.recordCount] == Slice(t.operations, index)
  {
    var p := ChunkPacket(t, s, id, index);
    var slice := Slice(t.operations, index);
    ChunksPartition(t.operations, index);
    forall i | 0 <= i < p.recordCount
      ensures ValidWire(p.records[i]) && (p.kind == FULL ==> !HasRemove(p.records[i].rotation))
    {
      assert p.records[i] == slice[i] == t.operations[index * RECORDS_PER_PACKET + i];
    }
  }

  /** The packet without what its unused records hold. */
  function Trimmed(p: Packet): Packet
    requires p.recordCount <= RECORDS_PER_PACKET
  {
    p.(records := Padded(p.records[..p.recordCount]))
  }

  /** A transaction that has the packet as one of its chunks: the packet's own records, repeated as often as there
      are chunks before it, and five times the first of them for each chunk behind it. */
  lemma SomeTransaction(p: Packet, id: U8) returns (t: Transaction)
    requires Envelope(p, id) && WellFormed(p) && (p.kind == DELTA ==> p.base != 0)
    ensures Sendable(t) && p.chunkIndex < ChunkCount(t.operations) && Trimmed(p) == ChunkPacket(t, p.sequence, id, p.chunkIndex)
  {
    var own := p.records[..p.recordCount];
    var before, behind := p.chunkIndex * RECORDS_PER_PACKET, (p.chunkCount - 1 - p.chunkIndex) * RECORDS_PER_PACKET;
    if p.recordCount == 0 {
      t := Transaction(p.kind, p.base, [], []);
    } else {
      var operations := seq(before, i => own[0]) + own + seq(behind, i => own[0]);
      t := Transaction(p.kind, p.base, operations, []);
      assert Slice(operations, p.chunkIndex) == own;
    }
  }

  /** The structural checks admit exactly the chunks of transactions that a transmitter may send, whatever their
      unused records hold (and deltas on no base, which no receiver takes). */
  lemma WellFormedIsChunk(p: Packet, id: U8)
    requires p.recordCount <= RECORDS_PER_PACKET && (p.kind == DELTA ==> p.base != 0)
    ensures Envelope(p, id) && WellFormed(p) <==> exists t, q: U32, index: nat ::
      q != 0 && Sendable(t) && index < ChunkCount(t.operations) && Trimmed(p) == ChunkPacket(t, q, id, index)
  {
    if Envelope(p, id) && WellFormed(p) {
      var t := SomeTransaction(p, id);
    }
    forall t, q: U32, index: nat | q != 0 && Sendable(t) && index < ChunkCount(t.operations) && Trimmed(p) == ChunkPacket(t, q, id, index)
      ensures Envelope(p, id) && WellFormed(p)
    {
      ChunkIsWellFormed(t, q, id, index);
      forall i | 0 <= i < p.recordCount ensures p.records[i] == Trimmed(p).records[i] {
      }
    }
  }

  /** The receiver is reassembling t: what it has stored agrees with t's operations. */
  ghost predicate InProgress(rx: Rx, t: Transaction, s: U32) {
    && s != 0
    && rx.pendingSequence == s && rx.pendingKind == t.kind && rx.pendingBase == t.base
    && Sized(rx) && |rx.received| == ChunkCount(t.operations)
    && (forall j :: 0 <= j < |t.operations| && rx.received[j / RECORDS_PER_PACKET] ==> rx.pending[j] == t.operations[j])
    && (rx.received[|rx.received| - 1] ==> rx.pendingSize == |t.operations|)
  }

  /** The receiver may take t: it is newer than what it holds, and a delta's base is what it holds. */
  predicate Acceptable(rx: Rx, t: Transaction, s: U32) {
    && (rx.sequence != 0 ==> Newer(s, rx.sequence))
    && (t.kind == DELTA ==> !rx.needFull && rx.sequence != 0 && t.base == rx.sequence)
  }

  /** The receiver holds the outcome of t. */
  predicate Holds(rx: Rx, s: U32, target: seq<Record>) {
    rx.sequence == s && rx.records == target && !rx.needFull && rx.pendingSequence == 0 && Sized(rx)
  }

  predicate Outcome(t: Transaction, held: seq<Record>, target: seq<Record>) {
    Canonicalized(ApplyAll(Ground(t, held), t.operations)) == target && |target| <= MAX_RECORDS
  }

  ghost predicate Complete(got: set<nat>, n: nat) {
    forall c: nat :: c < n ==> c in got
  }

  ghost function Got(rx: Rx): set<nat> {
    set c: nat | c < |rx.received| && rx.received[c]
  }

  lemma CompleteIsAllReceived(rx: Rx)
    ensures Complete(Got(rx), |rx.received|) <==> false !in rx.received
  {
    if false !in rx.received {
      forall c: nat | c < |rx.received| ensures c in Got(rx) {
        assert rx.received[c] in rx.received;
      }
    }
    if Complete(Got(rx), |rx.received|) {
      forall c | 0 <= c < |rx.received| ensures rx.received[c] {
        assert c in Got(rx);
      }
    }
  }

  // ---- One packet

  lemma StoreProgress(rx: Rx, t: Transaction, s: U32, p: Packet)
    requires InProgress(rx, t, s) && WellFormed(p) && p.sequence == s
    requires |t.operations| <= MAX_RECORDS && p.chunkCount == ChunkCount(t.operations)
    requires p.records[..p.recordCount] == Slice(t.operations, p.chunkIndex)
    ensures InProgress(Store(rx, p), t, s)
    ensures Got(Store(rx, p)) == Got(rx) + {p.chunkIndex as nat}
  {
    hide Slices, Transmitting.Slice, Overwrite;
    var index := p.chunkIndex;
    ChunksPartition(t.operations, index);
    if !rx.received[index] {
      var r := Store(rx, p);
      forall j | 0 <= j < |t.operations| && r.received[j / RECORDS_PER_PACKET]
        ensures r.pending[j] == t.operations[j]
      {
        if j / RECORDS_PER_PACKET == index {
          SliceAt(t.operations, index, j);
        }
      }
      assert Got(r) == Got(rx) + {index as nat};
    } else {
      assert Got(rx) == Got(rx) + {index as nat};
    }
  }

  lemma SliceAt(operations: seq<WireRecord>, index: nat, j: nat)
    requires j < |operations| && j / RECORDS_PER_PACKET == index < ChunkCount(operations)
    ensures var at := j - index * RECORDS_PER_PACKET;
      0 <= at < |Slice(operations, index)| && Slice(operations, index)[at] == operations[j]
  {
  }

  lemma StoreChunkProgress(rx: Rx, t: Transaction, s: U32, id: U8, index: nat)
    requires Sendable(t) && InProgress(rx, t, s) && index < ChunkCount(t.operations)
    ensures var p := ChunkPacket(t, s, id, index);
      && WellFormed(p) && Matches(rx, p)
      && InProgress(Store(rx, p), t, s)
      && Got(Store(rx, p)) == Got(rx) + {index}
  {
    ChunkIsWellFormed(t, s, id, index);
    StoreProgress(rx, t, s, ChunkPacket(t, s, id, index));
  }

  lemma FullyReceived(rx: Rx, t: Transaction, s: U32)
    requires InProgress(rx, t, s) && false !in rx.received
    ensures rx.pendingSize == |t.operations| <= |rx.pending|
    ensures rx.pending[..rx.pendingSize] == t.operations
  {
    assert rx.received[|rx.received| - 1] in rx.received;
    forall j | 0 <= j < |t.operations| ensures rx.pending[j] == t.operations[j] {
      assert rx.received[j / RECORDS_PER_PACKET] in rx.received;
    }
  }

  /** A chunk of the pending transaction either commits it, if it was the last one missing, or is
      recorded and changes nothing else. */
  lemma ChunkStep(rx: Rx, t: Transaction, s: U32, id: U8, index: nat, target: seq<Record>)
    requires Sendable(t) && InProgress(rx, t, s) && Acceptable(rx, t, s)
    requires index < ChunkCount(t.operations) && Outcome(t, rx.records, target)
    ensures var r := AcceptPacket(rx, ChunkPacket(t, s, id, index));
      if Complete(Got(rx) + {index}, ChunkCount(t.operations)) then r.ack && Holds(r.rx, s, target)
      else
        && !r.ack && InProgress(r.rx, t, s) && Got(r.rx) == Got(rx) + {index}
        && r.rx.records == rx.records && r.rx.sequence == rx.sequence && r.rx.needFull == rx.needFull
        && false in r.rx.received
  {
    var p := ChunkPacket(t, s, id, index);
    StoreChunkProgress(rx, t, s, id, index);
    var stored := Store(rx, p);
    CompleteIsAllReceived(stored);
    if false !in stored.received {
      FullyReceived(stored, t, s);
    }
  }

  /** The first chunk to arrive starts reassembly afresh, whatever older transaction was pending. */
  lemma FirstChunk(rx: Rx, t: Transaction, s: U32, id: U8, index: nat, target: seq<Record>)
    requires Sendable(t) && s != 0 && Sized(rx) && Acceptable(rx, t, s)
    requires rx.pendingSequence == 0 || Newer(s, rx.pendingSequence)
    requires index < ChunkCount(t.operations) && Outcome(t, rx.records, target)
    ensures var r := AcceptPacket(rx, ChunkPacket(t, s, id, index));
      if Complete({index}, ChunkCount(t.operations)) then r.ack && Holds(r.rx, s, target)
      else
        && !r.ack && InProgress(r.rx, t, s) && Got(r.rx) == {index}
        && r.rx.records == rx.records && r.rx.sequence == rx.sequence && r.rx.needFull == rx.needFull
        && false in r.rx.received
  {
    var p := ChunkPacket(t, s, id, index);
    ChunkIsWellFormed(t, s, id, index);
    var begun := Begin(rx, p);
    assert InProgress(begun, t, s);
    assert Got(begun) == {};
    assert {index} == Got(begun) + {index};
    assert AcceptPacket(rx, p) == AcceptPacket(begun, p);
    ChunkStep(begun, t, s, id, index, target);
  }

  /** Leftovers of other transactions: not newer than t, or else under t's sequence with another size, kind or
      base; and, should t be a delta, not a delta that the receiver would take as a sign that it lost its base. */
  predicate Stale(q: Packet, t: Transaction, s: U32, held: U32) {
    && !Newer(q.sequence, s)
    && (q.sequence == s ==> q.chunkCount != ChunkCount(t.operations) || q.kind != t.kind || q.base != t.base)
    && (t.kind == DELTA && q.kind == DELTA && Newer(q.sequence, held) ==> q.base == held)
  }

  lemma StaleStep(rx: Rx, t: Transaction, s: U32, q: Packet)
    requires InProgress(rx, t, s) && Acceptable(rx, t, s) && Stale(q, t, s, rx.sequence)
    ensures var r := AcceptPacket(rx, q).rx;
      && InProgress(r, t, s) && Acceptable(r, t, s) && r.received == rx.received
      && r.records == rx.records && r.sequence == rx.sequence
  {
  }

  /** Once t is held, its own duplicates are acknowledged again and leftovers are ignored. */
  lemma AfterCommit(rx: Rx, s: U32, target: seq<Record>, q: Packet)
    requires Holds(rx, s, target) && s != 0 && !Newer(q.sequence, s)
    ensures AcceptPacket(rx, q).rx == rx
    ensures AcceptPacket(rx, q).ack <==> WellFormed(q) && q.sequence == s
  {
  }

  // ---- Any delivery order

  /** Every packet is a chunk of t or a leftover. */
  ghost predicate Mixed(packets: seq<Packet>, t: Transaction, s: U32, id: U8, held: U32)
  {
    forall k :: 0 <= k < |packets| ==> IsChunk(packets[k], t, s, id) || Stale(packets[k], t, s, held)
  }

  predicate IsChunk(p: Packet, t: Transaction, s: U32, id: U8)
  {
    p.chunkIndex < ChunkCount(t.operations) && p == ChunkPacket(t, s, id, p.chunkIndex)
  }

  /** The chunk indices of t among the packets. */
  ghost function Covered(packets: seq<Packet>, t: Transaction, s: U32, id: U8): set<nat>
  {
    if packets == [] then {}
    else Covered(packets[1..], t, s, id) + if IsChunk(packets[0], t, s, id) then {packets[0].chunkIndex as nat} else {}
  }

  lemma {:induction false} AfterCommitAll(rx: Rx, t: Transaction, s: U32, id: U8, held: U32, target: seq<Record>, packets: seq<Packet>)
    requires Holds(rx, s, target) && s != 0 && Mixed(packets, t, s, id, held)
    ensures Deliver(rx, packets) == rx
    decreases |packets|
  {
    if packets != [] {
      assert IsChunk(packets[0], t, s, id) || Stale(packets[0], t, s, held);
      AfterCommit(rx, s, target, packets[0]);
      AfterCommitAll(rx, t, s, id, held, target, packets[1..]);
    }
  }

  lemma {:induction false} CompleteMonotone(a: set<nat>, b: set<nat>, n: nat)
    requires a <= b && Complete(a, n)
    ensures Complete(b, n)
  {
    forall c: nat | c < n ensures c in b {
      assert c in a;
    }
  }

  /** The receiver has committed t exactly when no index is missing; until then it has recorded
      exactly the indices that arrived, and shows what it showed before. */
  ghost predicate Progressed(before: Rx, after: Rx, t: Transaction, s: U32, got: set<nat>, target: seq<Record>) {
    if Complete(got, ChunkCount(t.operations)) then Holds(after, s, target)
    else
      && InProgress(after, t, s) && Acceptable(after, t, s) && Got(after) == got
      && after.records == before.records && after.sequence == before.sequence
  }

  lemma {:induction false} ReassemblyContinues(
      rx: Rx, t: Transaction, s: U32, id: U8, target: seq<Record>, packets: seq<Packet>)
    requires Sendable(t) && InProgress(rx, t, s) && Acceptable(rx, t, s) && Outcome(t, rx.records, target)
    requires !Complete(Got(rx), ChunkCount(t.operations))
    requires Mixed(packets, t, s, id, rx.sequence)
    ensures Progressed(rx, Deliver(rx, packets), t, s, Got(rx) + Covered(packets, t, s, id), target)
    decreases |packets|
  {
    if packets == [] {
      assert Got(rx) + {} == Got(rx);
    } else {
      var p, rest := packets[0], packets[1..];
      var next := AcceptPacket(rx, p).rx;
      var all := Got(rx) + Covered(packets, t, s, id);
      if IsChunk(p, t, s, id) {
        var index: nat := p.chunkIndex;
        ChunkStep(rx, t, s, id, index, target);
        assert all == (Got(rx) + {index}) + Covered(rest, t, s, id);
        if Complete(Got(rx) + {index}, ChunkCount(t.operations)) {
          CompleteMonotone(Got(rx) + {index}, all, ChunkCount(t.operations));
          AfterCommitAll(next, t, s, id, rx.sequence, target, rest);
        } else {
          ReassemblyContinues(next, t, s, id, target, rest);
        }
      } else {
        assert Stale(p, t, s, rx.sequence);
        StaleStep(rx, t, s, p);
        assert Got(next) == Got(rx);
        assert all == Got(next) + Covered(rest, t, s, id);
        ReassemblyContinues(next, t, s, id, target, rest);
      }
    }
  }

  /** Chunking round trip: after any chunk of t, any further mixture of its chunks (in any order, with
      any duplicates) and leftovers commits t when, and only when, every index has arrived. */
  lemma Reassembly(rx: Rx, t: Transaction, s: U32, id: U8, target: seq<Record>, packets: seq<Packet>)
    requires Sendable(t) && s != 0 && Sized(rx) && Acceptable(rx, t, s) && Outcome(t, rx.records, target)
    requires rx.pendingSequence == 0 || Newer(s, rx.pendingSequence)
    requires packets != [] && IsChunk(packets[0], t, s, id)
    requires Mixed(packets, t, s, id, rx.sequence)
    ensures Progressed(rx, Deliver(rx, packets), t, s, Covered(packets, t, s, id), target)
  {
    var index: nat := packets[0].chunkIndex;
    var rest := packets[1..];
    var next := AcceptPacket(rx, packets[0]).rx;
    FirstChunk(rx, t, s, id, index, target);
    assert Covered(packets, t, s, id) == {index} + Covered(rest, t, s, id);
    if Complete({index}, ChunkCount(t.operations)) {
      CompleteMonotone({index}, Covered(packets, t, s, id), ChunkCount(t.operations));
      AfterCommitAll(next, t, s, id, rx.sequence, target, rest);
    } else {
      ReassemblyContinues(next, t, s, id, target, rest);
    }
  }
}
