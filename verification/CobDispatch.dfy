/** The 38-byte splice that replaces the script interpreter's compare ladder by a jump table. */
module CobDispatch {
  import opened Words
  import opened Machines

  const WINDOW: Word := 0x4B0E69
  const ERROR_PATH: Word := 0x4B1B60

  /** The first three instructions, up to the jump to the error path. */
  function Guarding(rest: Listing): Listing {
    Line([0x8B, 0xD3], Move(Edx, Ebx),
    Line([0xF7, 0xC3, 0x00, 0x00, 0x00, 0x10], Test(Ebx, 0x1000_0000),
    Line([0x0F, 0x84, 0xE9, 0x0C, 0x00, 0x00], JumpIf(IfZero, 0xCE9), rest)))
  }

  function Indexing(table: Word): Listing {
    Line([0xC1, 0xEA, 0x0C], ShiftRight12(Edx),
    Line([0x0F, 0xB6, 0xD2], ZeroExtendByte(Edx, Edx),
    Line([0xFF, 0x24, 0x95] + Double(table), JumpTable(Edx, table), End)))
  }

  /** The splice, for a table at the given address. */
  function Splice(table: Word): seq<U8> {
    Bytes(Guarding(Indexing(table))) + PADDING
  }

  const PADDING: seq<U8> := [0xCC, 0xCC, 0xCC, 0xCC, 0xCC, 0xCC, 0xCC, 0xCC, 0xCC, 0xCC, 0xCC]

  /** `patch[off++] = …` for each of the bytes; also `memcpy` of a double word. */
  method Emit(patch: array<U8>, off: nat, bytes: seq<U8>) returns (next: nat)
    requires off + |bytes| <= patch.Length
    modifies patch
    ensures next == off + |bytes|
    ensures patch[..next] == old(patch[..off]) + bytes
  {
    for k := 0 to |bytes|
      invariant patch[..off + k] == old(patch[..off]) + bytes[..k]
    {
      patch[off + k] := bytes[k];
    }
    next := off + |bytes|;
  }

  /** `BuildPatchBytes`: fills the buffer piece by piece, and returns where the `jz` landed. */
  method BuildPatchBytes(patch: array<U8>, table: Word) returns (jz: Word)
    requires patch.Length == 38
    modifies patch
    ensures patch[..] == Splice(table)
    ensures jz == 0x4B0E71
  {
    hide Double, Splice;
    SpliceBytes(table);
    var off := Emit(patch, 0, [0x8B, 0xD3]);
    off := Emit(patch, off, [0xF7, 0xC3]);
    off := Emit(patch, off, Double(0x1000_0000));
    jz := WINDOW + off;
    off := Emit(patch, off, [0x0F, 0x84]);
    off := Emit(patch, off, Double(ERROR_PATH - (WINDOW + off + 4)));
    off := Emit(patch, off, [0xC1, 0xEA, 0x0C]);
    off := Emit(patch, off, [0x0F, 0xB6, 0xD2]);
    off := Emit(patch, off, [0xFF, 0x24, 0x95]);
    off := Emit(patch, off, Double(table));
    assert patch[..off] == Written(table);
    PadRest(patch, off);
  }

  /** The trailing loop. */
  method PadRest(patch: array<U8>, start: nat)
    requires patch.Length == 38 && start == 27
    modifies patch
    ensures patch[..] == old(patch[..start]) + PADDING
  {
    var off := start;
    while off < 38
      invariant start <= off <= 38
      invariant patch[..off] == old(patch[..start]) + PADDING[..off - start]
    {
      patch[off] := 0xCC;
      off := off + 1;
    }
    assert patch[..38] == patch[..];
  }

  /** The pieces in the order they are written. */
  function Written(table: Word): (c: seq<U8>) {
    [0x8B, 0xD3] + [0xF7, 0xC3] + Double(0x1000_0000) + [0x0F, 0x84] + Double(ERROR_PATH - (WINDOW + 10 + 4))
    + [0xC1, 0xEA, 0x0C] + [0x0F, 0xB6, 0xD2] + [0xFF, 0x24, 0x95] + Double(table)
  }

  lemma DoubleValues()
    ensures Double(0x1000_0000) == [0x00, 0x00, 0x00, 0x10]
    ensures Double(0xCE9) == [0xE9, 0x0C, 0x00, 0x00]
  {
  }

  lemma IndexingBytes(table: Word)
    ensures Bytes(Indexing(table)) == [0xC1, 0xEA, 0x0C] + [0x0F, 0xB6, 0xD2] + [0xFF, 0x24, 0x95] + Double(table)
  {
    hide Double;
    var l := Indexing(table);
    assert Bytes(l.rest.rest) == [0xFF, 0x24, 0x95] + Double(table);
  }

  lemma GuardingBytes(rest: Listing)
    ensures Bytes(Guarding(rest)) ==
      [0x8B, 0xD3] + [0xF7, 0xC3] + [0x00, 0x00, 0x00, 0x10] + [0x0F, 0x84] + [0xE9, 0x0C, 0x00, 0x00] + Bytes(rest)
  {
    var g := Guarding(rest);
    assert Bytes(g.rest.rest) == [0x0F, 0x84] + [0xE9, 0x0C, 0x00, 0x00] + Bytes(rest);
    assert Bytes(g) == [0x8B, 0xD3] + [0xF7, 0xC3] + [0x00, 0x00, 0x00, 0x10] + Bytes(g.rest.rest);
  }

  lemma SpliceBytes(table: Word)
    ensures Splice(table) == Written(table) + PADDING
  {
    DoubleValues();
    GuardingBytes(Indexing(table));
    IndexingBytes(table);
    hide Double, Bytes, Guarding, Indexing;
  }

  /** What the splice is for: a word without bit 28 goes to the error path, any other to the table entry
      that bits 12 to 19 name. */
  function Target(word: Word, table: U8 -> Word): Word {
    if word / 0x1000_0000 % 2 == 0 then ERROR_PATH else table(word / 0x1000 % 0x100)
  }

  ghost predicate TableAt(mem: Memory, address: Word, table: U8 -> Word) {
    forall i: U8 :: Load32(mem, Add32(address, i * 4)) == table(i)
  }

  /** Executed from the window with any word in ebx, the splice always leaves, to exactly that target;
      it changes no register but edx and touches no stack. */
  lemma SpliceDispatches(m: Machine, mem: Memory, address: Word, table: U8 -> Word)
    requires m.eip == WINDOW && TableAt(mem, address, table)
    ensures var o := Run(Splice(address), m, mem);
      && o.Leaves? && o.m.eip == Target(m.regs.ebx, table)
      && o.m.regs == m.regs.(edx := o.m.regs.edx) && o.m.stack == m.stack
  {
    hide Run, Decode, Faithful, Perform, Bytes, Indexing, Guarding, TableAt;
    var indexing := Indexing(address);
    IndexingIsFaithful(address);
    GuardingIsFaithful(indexing);
    RunListing(Guarding(indexing), PADDING, m, mem);
    var m3 := GuardPasses(m, mem, indexing);
    if m.regs.ebx / 0x1000_0000 % 2 == 1 {
      TableJump(m3, mem, address, table);
    }
  }

  lemma IndexingIsFaithful(table: Word)
    ensures Faithful(Indexing(table))
  {
    hide Decode;
    IndexingDecodes();
    JumpDecodes(table);
    var Line(_, _, l2) := Indexing(table);
    assert Faithful(l2.rest);
    assert Faithful(l2);
  }

  lemma IndexingDecodes()
    ensures Decode([0xC1, 0xEA, 0x0C]) == Decoded(ShiftRight12(Edx), 3)
    ensures Decode([0x0F, 0xB6, 0xD2]) == Decoded(ZeroExtendByte(Edx, Edx), 3)
  {
  }

  lemma JumpDecodes(table: Word)
    ensures Decode([0xFF, 0x24, 0x95] + Double(table)) == Decoded(JumpTable(Edx, table), 7)
  {
  }

  lemma GuardingIsFaithful(rest: Listing)
    requires Faithful(rest)
    ensures Faithful(Guarding(rest))
  {
    assert Decode([0x8B, 0xD3]) == Decoded(Move(Edx, Ebx), 2);
    assert Decode([0xF7, 0xC3, 0x00, 0x00, 0x00, 0x10]) == Decoded(Test(Ebx, 0x1000_0000), 6);
    assert Decode([0x0F, 0x84, 0xE9, 0x0C, 0x00, 0x00]) == Decoded(JumpIf(IfZero, 0xCE9), 6);
  }

  lemma GuardPasses(m: Machine, mem: Memory, rest: Listing) returns (m3: Machine)
    requires m.eip == WINDOW && Faithful(rest) && Faithful(Guarding(rest))
    ensures m3.regs == m.regs.(edx := m.regs.ebx) && m3.stack == m.stack
    ensures Perform(Guarding(rest), m, mem) ==
      if m.regs.ebx / 0x1000_0000 % 2 == 0 then Leaves(m3.(eip := ERROR_PATH)) else Perform(rest, m3, mem)
  {
    hide Decode, Faithful, Perform, BitAnd;
    SpaceBit(m.regs.ebx, 0x1000_0000);
    var l1 := Guarding(rest);
    var l2 := l1.rest;
    PerformLine(l1, m, mem);
    var m1 := Execute(l1.instr, Behind(m, 2), mem).m;
    PerformLine(l2, m1, mem);
    var m2 := Execute(l2.instr, Behind(m1, 6), mem).m;
    PerformLine(l2.rest, m2, mem);
    m3 := Behind(m2, 6);
  }

  lemma TableJump(m: Machine, mem: Memory, address: Word, table: U8 -> Word)
    requires Faithful(Indexing(address)) && TableAt(mem, address, table)
    ensures var o := Perform(Indexing(address), m, mem);
      && o.Leaves? && o.m.eip == table(m.regs.edx / 0x1000 % 0x100)
      && o.m.regs == m.regs.(edx := o.m.regs.edx) && o.m.stack == m.stack
  {
    hide Decode, Faithful, Perform, TableAt, Execute;
    var m2 := IndexPasses(m, mem, address);
    PerformLine(Indexing(address).rest.rest, m2, mem);
    JumpThrough(Behind(m2, 7), mem, address, table);
  }

  lemma IndexPasses(m: Machine, mem: Memory, address: Word) returns (m2: Machine)
    requires Faithful(Indexing(address))
    ensures m2.regs == m.regs.(edx := m.regs.edx / 0x1000 % 0x100) && m2.stack == m.stack
    ensures Faithful(Indexing(address).rest.rest)
    ensures Perform(Indexing(address), m, mem) == Perform(Indexing(address).rest.rest, m2, mem)
  {
    hide Decode, Faithful, Perform;
    var l1 := Indexing(address);
    PerformLine(l1, m, mem);
    var m1 := Execute(l1.instr, Behind(m, 3), mem).m;
    PerformLine(l1.rest, m1, mem);
    m2 := Execute(l1.rest.instr, Behind(m1, 3), mem).m;
  }

  lemma JumpThrough(m: Machine, mem: Memory, address: Word, table: U8 -> Word)
    requires m.regs.edx < 0x100 && TableAt(mem, address, table)
    ensures Execute(JumpTable(Edx, address), m, mem) == Leaves(m.(eip := table(m.regs.edx)))
  {
    hide Load32;
    assert Load32(mem, Add32(address, m.regs.edx * 4)) == table(m.regs.edx);
  }

  lemma AndEven(a: Word, b: Word)
    requires 2 * b < 0x1_0000_0000
    ensures BitAnd(a, 2 * b) == 2 * BitAnd(a / 2, b)
  {
    var c := 2 * b;
    assert c / 2 == b && c % 2 == 0;
  }

  lemma AndSixteen(a: Word, b: Word)
    requires 16 * b < 0x1_0000_0000
    ensures BitAnd(a, 16 * b) == 16 * BitAnd(a / 16, b)
  {
    hide BitAnd;
    AndEven(a, 8 * b);
    AndEven(a / 2, 4 * b);
    AndEven(a / 4, 2 * b);
    AndEven(a / 8, b);
  }

  /** Bit 28 alone. */
  lemma SpaceBit(w: Word, p: Word)
    requires p == 0x1000_0000
    ensures BitAnd(w, p) == w / p % 2 * p
  {
    hide BitAnd;
    AndSixteen(w, p / 16);
    AndSixteen(w / 16, p / 0x100);
    AndSixteen(w / 0x100, p / 0x1000);
    AndSixteen(w / 0x1000, p / 0x1_0000);
    AndSixteen(w / 0x1_0000, p / 0x10_0000);
    AndSixteen(w / 0x10_0000, p / 0x100_0000);
    AndSixteen(w / 0x100_0000, p / 0x1000_0000);
    AndOne(w / p, p / p);
  }

  lemma AndOne(a: Word, b: Word)
    requires b == 1
    ensures BitAnd(a, b) == a % 2
  {
    assert BitAnd(a / 2, b / 2) == 0;
  }

  lemma AndOdd(a: Word, b: Word)
    requires 2 * b + 1 < 0x1_0000_0000
    ensures BitAnd(a, 2 * b + 1) == 2 * BitAnd(a / 2, b) + a % 2
  {
    var c := 2 * b + 1;
    assert c / 2 == b && c % 2 == 1;
  }

  lemma AndFifteen(a: Word, b: Word)
    requires 16 * b + 15 < 0x1_0000_0000
    ensures BitAnd(a, 16 * b + 15) == 16 * BitAnd(a / 16, b) + a % 16
  {
    hide BitAnd;
    AndOdd(a, 8 * b + 7);
    AndOdd(a / 2, 4 * b + 3);
    AndOdd(a / 4, 2 * b + 1);
    AndOdd(a / 8, b);
  }

  /** The part of the word the interpreter's ladder compares. */
  function Key(word: Word): Word {
    BitAnd(word, 0x100F_F000)
  }

  lemma KeyBits(w: Word)
    ensures Key(w) == w / 0x1000_0000 % 2 * 0x1000_0000 + w / 0x1000 % 0x100 * 0x1000
  {
    hide BitAnd;
    AndSixteen(w, 0x100_FF00);
    AndSixteen(w / 0x10, 0x10_0FF0);
    AndSixteen(w / 0x100, 0x1_00FF);
    LowKeyBits(w / 0x1000, 0x1_00FF);
  }

  lemma LowKeyBits(x: Word, mask: Word)
    requires mask == 0x1_00FF
    ensures BitAnd(x, mask) == x / 0x1_0000 % 2 * 0x1_0000 + x % 0x100
  {
    hide BitAnd;
    AndFifteen(x, 0x100F);
    AndFifteen(x / 0x10, 0x100);
    AndSixteen(x / 0x100, 0x10);
    AndSixteen(x / 0x1000, 1);
    AndOne(x / 0x1_0000, 1);
  }

  /** A table whose entry i is the handler of 0x10000000 + 4096 i serves every word the handler of its
      key, where handlers of keys without bit 28 are the error path. */
  lemma TargetIsHandlerOfKey(word: Word, table: U8 -> Word, handler: Word -> Word)
    requires forall i: U8 :: table(i) == handler(0x1000_0000 + i * 0x1000)
    requires forall k: Word :: k < 0x1000_0000 ==> handler(k) == ERROR_PATH
    ensures Target(word, table) == handler(Key(word))
  {
    hide Key;
    KeyBits(word);
    var i: U8 := word / 0x1000 % 0x100;
    assert table(i) == handler(0x1000_0000 + i * 0x1000);
  }

  /** The ladder's first nodes, as the interpreter holds them. */
  function Ladder(): Listing {
    Line([0x8B, 0xD3], Move(Edx, Ebx),
    Line([0x81, 0xE2, 0x00, 0xF0, 0x0F, 0x10], And(Edx, 0x100F_F000), Nodes()))
  }

  function Nodes(): Listing {
    Line([0x81, 0xFA, 0x00, 0x20, 0x00, 0x10], Compare(Edx, 0x1000_2000),
    Line([0x0F, 0x87, 0x6F, 0x01, 0x00, 0x00], JumpIf(IfAbove, 0x16F),
    Line([0x0F, 0x84, 0xA9, 0x00, 0x00, 0x00], JumpIf(IfZero, 0xA9), LastNode())))
  }

  function LastNode(): Listing {
    Line([0x81, 0xFA, 0x00, 0x10, 0x00, 0x10], Compare(Edx, 0x1000_1000),
    Line([0x0F, 0x85, 0xD1, 0x0C, 0x00, 0x00], JumpIf(IfNotZero, 0xCD1), End))
  }

  const ORIGINAL: seq<U8> :=
    [0x8B, 0xD3] + [0x81, 0xE2, 0x00, 0xF0, 0x0F, 0x10] + [0x81, 0xFA, 0x00, 0x20, 0x00, 0x10]
    + [0x0F, 0x87, 0x6F, 0x01, 0x00, 0x00] + [0x0F, 0x84, 0xA9, 0x00, 0x00, 0x00]
    + [0x81, 0xFA, 0x00, 0x10, 0x00, 0x10] + [0x0F, 0x85, 0xD1, 0x0C, 0x00, 0x00]

  lemma LastNodeIsFaithful()
    ensures Faithful(LastNode())
  {
    assert Decode([0x81, 0xFA, 0x00, 0x10, 0x00, 0x10]) == Decoded(Compare(Edx, 0x1000_1000), 6);
    assert Decode([0x0F, 0x85, 0xD1, 0x0C, 0x00, 0x00]) == Decoded(JumpIf(IfNotZero, 0xCD1), 6);
  }

  lemma NodesAreFaithful()
    ensures Faithful(Nodes())
  {
    LastNodeIsFaithful();
    hide LastNode;
    assert Decode([0x0F, 0x84, 0xA9, 0x00, 0x00, 0x00]) == Decoded(JumpIf(IfZero, 0xA9), 6);
    assert Decode([0x0F, 0x87, 0x6F, 0x01, 0x00, 0x00]) == Decoded(JumpIf(IfAbove, 0x16F), 6);
    assert Decode([0x81, 0xFA, 0x00, 0x20, 0x00, 0x10]) == Decoded(Compare(Edx, 0x1000_2000), 6);
  }

  lemma LadderIsFaithful()
    ensures Faithful(Ladder())
  {
    NodesAreFaithful();
    hide Nodes;
    assert Decode([0x81, 0xE2, 0x00, 0xF0, 0x0F, 0x10]) == Decoded(And(Edx, 0x100F_F000), 6);
    assert Decode([0x8B, 0xD3]) == Decoded(Move(Edx, Ebx), 2);
  }

  lemma NodesBytes()
    ensures Bytes(Nodes()) == [0x81, 0xFA, 0x00, 0x20, 0x00, 0x10] + [0x0F, 0x87, 0x6F, 0x01, 0x00, 0x00]
      + [0x0F, 0x84, 0xA9, 0x00, 0x00, 0x00] + [0x81, 0xFA, 0x00, 0x10, 0x00, 0x10] + [0x0F, 0x85, 0xD1, 0x0C, 0x00, 0x00]
  {
    var n := Nodes();
    assert Bytes(LastNode()) == [0x81, 0xFA, 0x00, 0x10, 0x00, 0x10] + [0x0F, 0x85, 0xD1, 0x0C, 0x00, 0x00];
    assert Bytes(n.rest.rest) == [0x0F, 0x84, 0xA9, 0x00, 0x00, 0x00] + Bytes(LastNode());
    assert Bytes(n.rest) == [0x0F, 0x87, 0x6F, 0x01, 0x00, 0x00] + Bytes(n.rest.rest);
  }

  lemma LadderBytes()
    ensures Bytes(Ladder()) == ORIGINAL
  {
    NodesBytes();
    var l := Ladder();
    assert Bytes(l.rest) == [0x81, 0xE2, 0x00, 0xF0, 0x0F, 0x10] + Bytes(Nodes());
  }

  /** Where the original window hands over: to a handler, to the error path, or to the rest of the ladder. */
  function LadderTarget(key: Word): Word {
    if key > 0x1000_2000 then 0x4B0FEC
    else if key == 0x1000_2000 then 0x4B0F2C
    else if key == 0x1000_1000 then 0x4B0E8F
    else ERROR_PATH
  }

  lemma LastNodeDecides(m: Machine, mem: Memory)
    requires m.eip == WINDOW + 26 && Faithful(LastNode())
    ensures var o := Perform(LastNode(), m, mem);
      && !o.Faults?
      && o.m.eip == if m.regs.edx == 0x1000_1000 then 0x4B0E8F else ERROR_PATH
  {
    hide Decode, Faithful, Perform;
    var l := LastNode();
    PerformLine(l, m, mem);
    var m1 := Execute(l.instr, Behind(m, 6), mem).m;
    PerformLine(l.rest, m1, mem);
    PerformEnd(Behind(m1, 6), mem);
  }

  lemma NodesDecide(m: Machine, mem: Memory)
    requires m.eip == WINDOW + 8 && Faithful(Nodes()) && Faithful(LastNode())
    ensures var o := Perform(Nodes(), m, mem);
      !o.Faults? && o.m.eip == LadderTarget(m.regs.edx)
  {
    hide Decode, Faithful, Perform;
    var l1 := Nodes();
    var l2 := l1.rest;
    PerformLine(l1, m, mem);
    var m1 := Execute(l1.instr, Behind(m, 6), mem).m;
    PerformLine(l2, m1, mem);
    if m.regs.edx <= 0x1000_2000 {
      PerformLine(l2.rest, Behind(m1, 6), mem);
      if m.regs.edx < 0x1000_2000 {
        LastNodeDecides(Behind(Behind(m1, 6), 6), mem);
      }
    }
  }

  lemma KeyTaken(m: Machine, mem: Memory) returns (m2: Machine)
    requires m.eip == WINDOW && Faithful(Ladder())
    ensures m2.eip == WINDOW + 8 && m2.regs.edx == Key(m.regs.ebx)
    ensures Perform(Ladder(), m, mem) == Perform(Nodes(), m2, mem)
  {
    hide Decode, Faithful, Perform, BitAnd, Nodes;
    var l := Ladder();
    PerformLine(l, m, mem);
    var m1 := Execute(l.instr, Behind(m, 2), mem).m;
    PerformLine(l.rest, m1, mem);
    m2 := Execute(l.rest.instr, Behind(m1, 6), mem).m;
  }

  /** The window as the interpreter came with it. */
  lemma OriginalDispatches(m: Machine, mem: Memory)
    requires m.eip == WINDOW
    ensures var o := Run(ORIGINAL, m, mem);
      !o.Faults? && o.m.eip == LadderTarget(Key(m.regs.ebx))
  {
    hide Decode, Faithful, Perform, Key, Bytes, Execute, ORIGINAL, Nodes;
    LadderIsFaithful();
    LadderBytes();
    RunListing(Ladder(), [], m, mem);
    assert ORIGINAL + [] == ORIGINAL;
    LastNodeIsFaithful();
    NodesAreFaithful();
    var m2 := KeyTaken(m, mem);
    NodesDecide(m2, mem);
  }

  /** Wherever the original window decides by itself, the splice decides the same; only keys above
      0x10002000 it used to hand to the rest of the ladder. */
  lemma SpliceRefinesOriginal(m: Machine, mem: Memory, address: Word, table: U8 -> Word)
    requires m.eip == WINDOW && TableAt(mem, address, table)
    requires table(0) == ERROR_PATH && table(1) == 0x4B0E8F && table(2) == 0x4B0F2C
    ensures var o, s := Run(ORIGINAL, m, mem), Run(Splice(address), m, mem);
      && !o.Faults? && s.Leaves?
      && (if Key(m.regs.ebx) > 0x1000_2000 then o.m.eip == 0x4B0FEC else o.m.eip == s.m.eip)
  {
    hide Key, Run, Splice, TableAt;
    OriginalDispatches(m, mem);
    SpliceDispatches(m, mem, address, table);
    KeyBits(m.regs.ebx);
  }

  predicate InVm(handler: Word) {
    handler == ERROR_PATH || 0x4B0DA0 <= handler < 0x4B1C00
  }

  /** `TableEntriesInRange`. */
  method TableEntriesInRange(entries: seq<Word>) returns (ok: bool)
    requires |entries| == 256
    ensures ok <==> forall i: U8 :: InVm(entries[i])
  {
    for i := 0 to 256
      invariant forall k :: 0 <= k < i ==> InVm(entries[k])
    {
      if entries[i] != ERROR_PATH && (entries[i] < 0x4B0DA0 || entries[i] >= 0x4B1C00) {
        return false;
      }
    }
    return true;
  }

  /** With a table that passed this test, no word whatever makes the splice leave the interpreter. */
  lemma SpliceStaysInVm(m: Machine, mem: Memory, address: Word, entries: seq<Word>)
    requires m.eip == WINDOW && |entries| == 256 && forall i: U8 :: InVm(entries[i])
    requires TableAt(mem, address, (i: U8) => entries[i])
    ensures var o := Run(Splice(address), m, mem);
      o.Leaves? && InVm(o.m.eip)
  {
    hide Run, Splice, TableAt;
    SpliceDispatches(m, mem, address, (i: U8) => entries[i]);
  }
}
