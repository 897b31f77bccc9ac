/** The fragment of IA-32 that the code patches are written in: decoding, and execution of a stretch of
    straight-line code up to the first branch taken out of it. */
module Machines {
  import opened Words

  type Word = U32
  type Memory = Word -> U8

  datatype Reg = Eax | Ecx | Edx | Ebx | Esp | Ebp | Esi | Edi

  datatype Registers = Registers(eax: Word, ecx: Word, edx: Word, ebx: Word, esp: Word, ebp: Word, esi: Word, edi: Word)
  {
    function Get(r: Reg): Word {
      match r
      case Eax => eax
      case Ecx => ecx
      case Edx => edx
      case Ebx => ebx
      case Esp => esp
      case Ebp => ebp
      case Esi => esi
      case Edi => edi
    }

    function Set(r: Reg, v: Word): Registers {
      match r
      case Eax => this.(eax := v)
      case Ecx => this.(ecx := v)
      case Edx => this.(edx := v)
      case Ebx => this.(ebx := v)
      case Esp => this.(esp := v)
      case Ebp => this.(ebp := v)
      case Esi => this.(esi := v)
      case Edi => this.(edi := v)
    }
  }

  /** The flags register: the two flags the patches read, and all its other bits. */
  datatype Flags = Flags(carry: bool, zero: bool, others: Word)

  /** A double word on the stack, or a flags image put there by `pushfd`. */
  datatype Cell = Value(w: Word) | Image(flags: Flags)

  /** `stack` holds the cells from `esp` upward. */
  datatype Machine = Machine(regs: Registers, flags: Flags, eip: Word, stack: seq<Cell>)

  /** The arithmetic instructions below set carry and zero; no patch reads another arithmetic flag. */
  function Flagged(f: Flags, zero: bool, carry: bool): Flags {
    f.(zero := zero, carry := carry)
  }

  /** Bitwise conjunction. */
  function BitAnd(a: Word, b: Word): (c: Word)
    ensures c <= b
    decreases b
  {
    if b == 0 then 0 else 2 * BitAnd(a / 2, b / 2) + if a % 2 == 1 && b % 2 == 1 then 1 else 0
  }

  function Load16(mem: Memory, a: Word): U16 {
    mem(a) + 0x100 * mem(Add32(a, 1))
  }

  function Load32(mem: Memory, a: Word): Word {
    Assemble(mem(a), mem(Add32(a, 1)), mem(Add32(a, 2)), mem(Add32(a, 3)))
  }

  /** Little-endian. */
  function Assemble(b0: U8, b1: U8, b2: U8, b3: U8): Word {
    b0 + 0x100 * b1 + 0x1_0000 * b2 + 0x100_0000 * b3
  }

  function Double(w: Word): (b: seq<U8>)
    ensures |b| == 4 && Assemble(b[0], b[1], b[2], b[3]) == w
  {
    var w1 := w / 0x100;
    var w2 := w1 / 0x100;
    [w % 0x100, w1 % 0x100, w2 % 0x100, w2 / 0x100]
  }

  function SignExtend(b: U8): Word {
    if b >= 0x80 then 0xFFFF_FF00 + b else b
  }

  datatype Condition = IfCarry | IfZero | IfNotZero | IfAbove

  datatype Instruction =
    | Move(dst: Reg, src: Reg)
    | Load(dst: Reg, base: Reg, disp: Word)
    | LoadAt(dst: Reg, address: Word)
    | LoadLow16(dst: Reg, base: Reg, disp: Word)
    | Compare16(left: Reg, base: Reg, disp: Word)
    | CompareCell(base: Reg, imm: Word)
    | CompareByte(base: Reg, disp: Word, imm8: U8)
    | And(dst: Reg, imm: Word)
    | Compare(left: Reg, imm: Word)
    | Test(left: Reg, imm: Word)
    | ShiftRight12(dst: Reg)
    | ZeroExtendByte(dst: Reg, src: Reg)
    | JumpTable(index: Reg, disp: Word)
    | JumpIf(condition: Condition, rel: Word)
    | Jump(rel: Word)
    | Call(rel: Word)
    | Nop
    | PushFlags
    | PopFlags
    | PushAll
    | PopAll

  datatype Decoded = Invalid | Decoded(instr: Instruction, size: nat)

  function RegAt(code: U8): Reg {
    if code == 0 then Eax else if code == 1 then Ecx else if code == 2 then Edx else if code == 3 then Ebx
    else if code == 4 then Esp else if code == 5 then Ebp else if code == 6 then Esi else Edi
  }

  function RegField(modRM: U8): Reg { RegAt(modRM / 8 % 8) }
  function RmField(modRM: U8): Reg { RegAt(modRM % 8) }
  function Opcode(modRM: U8): U8 { modRM / 8 % 8 }

  /** Addressing forms: a register; [register]; [register + disp8]; [register + disp32]. */
  predicate IsRegister(modRM: U8) { modRM / 0x40 == 3 }
  predicate IsCell(modRM: U8) { modRM / 0x40 == 0 && modRM % 8 != 4 && modRM % 8 != 5 }
  predicate IsCell8(modRM: U8) { modRM / 0x40 == 1 && modRM % 8 != 4 }
  predicate IsCell32(modRM: U8) { modRM / 0x40 == 2 && modRM % 8 != 4 }

  function Imm32(c: seq<U8>, at: nat): Word
    requires at + 4 <= |c|
  {
    Assemble(c[at], c[at + 1], c[at + 2], c[at + 3])
  }

  /** The first instruction of the code c. */
  function Decode(c: seq<U8>): (d: Decoded)
    requires |c| > 0
    ensures d.Decoded? ==> 0 < d.size <= 7 && d.size <= |c|
  {
    if c[0] == 0x90 then Decoded(Nop, 1)
    else if c[0] == 0x9C then Decoded(PushFlags, 1)
    else if c[0] == 0x9D then Decoded(PopFlags, 1)
    else if c[0] == 0x60 then Decoded(PushAll, 1)
    else if c[0] == 0x61 then Decoded(PopAll, 1)
    else if c[0] == 0x72 && |c| >= 2 then Decoded(JumpIf(IfCarry, SignExtend(c[1])), 2)
    else if c[0] == 0x74 && |c| >= 2 then Decoded(JumpIf(IfZero, SignExtend(c[1])), 2)
    else if c[0] == 0xE8 && |c| >= 5 then Decoded(Call(Imm32(c, 1)), 5)
    else if c[0] == 0xE9 && |c| >= 5 then Decoded(Jump(Imm32(c, 1)), 5)
    else if c[0] == 0x0F then DecodeTwoByte(c)
    else if c[0] == 0x66 then DecodeOperand16(c)
    else DecodeModRM(c)
  }

  function DecodeTwoByte(c: seq<U8>): (d: Decoded)
    ensures d.Decoded? ==> 0 < d.size <= 7 && d.size <= |c|
  {
    if |c| >= 6 && c[1] == 0x84 then Decoded(JumpIf(IfZero, Imm32(c, 2)), 6)
    else if |c| >= 6 && c[1] == 0x85 then Decoded(JumpIf(IfNotZero, Imm32(c, 2)), 6)
    else if |c| >= 6 && c[1] == 0x87 then Decoded(JumpIf(IfAbove, Imm32(c, 2)), 6)
    else if |c| >= 3 && c[1] == 0xB6 && IsRegister(c[2]) && c[2] % 8 < 4 then
      Decoded(ZeroExtendByte(RegField(c[2]), RmField(c[2])), 3)
    else Invalid
  }

  function DecodeOperand16(c: seq<U8>): (d: Decoded)
    ensures d.Decoded? ==> 0 < d.size <= 7 && d.size <= |c|
  {
    if |c| >= 7 && IsCell32(c[2]) then
      if c[1] == 0x8B then Decoded(LoadLow16(RegField(c[2]), RmField(c[2]), Imm32(c, 3)), 7)
      else if c[1] == 0x3B then Decoded(Compare16(RegField(c[2]), RmField(c[2]), Imm32(c, 3)), 7)
      else Invalid
    else Invalid
  }

  function DecodeModRM(c: seq<U8>): (d: Decoded)
    ensures d.Decoded? ==> 0 < d.size <= 7 && d.size <= |c|
  {
    if |c| < 2 then Invalid
    else
      var op, m := c[0], c[1];
      if op == 0x8B && IsRegister(m) then Decoded(Move(RegField(m), RmField(m)), 2)
      else if op == 0x8B && IsCell32(m) && |c| >= 6 then Decoded(Load(RegField(m), RmField(m), Imm32(c, 2)), 6)
      else if op == 0x8B && m / 0x40 == 0 && m % 8 == 5 && |c| >= 6 then Decoded(LoadAt(RegField(m), Imm32(c, 2)), 6)
      else if op == 0x81 && IsRegister(m) && Opcode(m) == 4 && |c| >= 6 then Decoded(And(RmField(m), Imm32(c, 2)), 6)
      else if op == 0x81 && IsRegister(m) && Opcode(m) == 7 && |c| >= 6 then Decoded(Compare(RmField(m), Imm32(c, 2)), 6)
      else if op == 0xF7 && IsRegister(m) && Opcode(m) == 0 && |c| >= 6 then Decoded(Test(RmField(m), Imm32(c, 2)), 6)
      else if op == 0xC1 && IsRegister(m) && Opcode(m) == 5 && |c| >= 3 && c[2] == 12 then Decoded(ShiftRight12(RmField(m)), 3)
      else if op == 0x83 && IsCell(m) && Opcode(m) == 7 && |c| >= 3 then Decoded(CompareCell(RmField(m), SignExtend(c[2])), 3)
      else if op == 0x80 && IsCell8(m) && Opcode(m) == 7 && |c| >= 4 then
        Decoded(CompareByte(RmField(m), SignExtend(c[2]), c[3]), 4)
      else if op == 0xFF && m == 0x24 && |c| >= 7 && c[2] / 0x40 == 2 && c[2] % 8 == 5 && Opcode(c[2]) != 4 then
        Decoded(JumpTable(RegField(c[2]), Imm32(c, 3)), 7)
      else Invalid
  }

  /** Where control is after an instruction, or after a stretch of code. */
  datatype Outcome = Through(m: Machine) | Leaves(m: Machine) | Faults

  predicate Holds(condition: Condition, flags: Flags) {
    match condition
    case IfCarry => flags.carry
    case IfZero => flags.zero
    case IfNotZero => !flags.zero
    case IfAbove => !flags.carry && !flags.zero
  }

  function Write(m: Machine, r: Reg, v: Word): Machine {
    m.(regs := m.regs.Set(r, v))
  }

  function Push(m: Machine, v: Cell): Machine {
    m.(regs := m.regs.(esp := Sub32(m.regs.esp, 4)), stack := [v] + m.stack)
  }

  /** One instruction; `eip` already stands behind it. */
  function Execute(i: Instruction, m: Machine, mem: Memory): Outcome {
    match i
    case Move(d, s) => Through(Write(m, d, m.regs.Get(s)))
    case Load(d, b, disp) => Through(Write(m, d, Load32(mem, Add32(m.regs.Get(b), disp))))
    case LoadAt(d, a) => Through(Write(m, d, Load32(mem, a)))
    case LoadLow16(d, b, disp) =>
      Through(Write(m, d, m.regs.Get(d) / 0x1_0000 * 0x1_0000 + Load16(mem, Add32(m.regs.Get(b), disp))))
    case Compare16(r, b, disp) =>
      var x, y := m.regs.Get(r) % 0x1_0000, Load16(mem, Add32(m.regs.Get(b), disp));
      Through(m.(flags := Flagged(m.flags, x == y, x < y)))
    case CompareCell(b, imm) =>
      var x := Load32(mem, m.regs.Get(b));
      Through(m.(flags := Flagged(m.flags, x == imm, x < imm)))
    case CompareByte(b, disp, imm) =>
      var x := mem(Add32(m.regs.Get(b), disp));
      Through(m.(flags := Flagged(m.flags, x == imm, x < imm)))
    case And(d, imm) =>
      var x := BitAnd(m.regs.Get(d), imm);
      Through(Write(m, d, x).(flags := Flagged(m.flags, x == 0, false)))
    case Compare(r, imm) =>
      var x := m.regs.Get(r);
      Through(m.(flags := Flagged(m.flags, x == imm, x < imm)))
    case Test(r, imm) => Through(m.(flags := Flagged(m.flags, BitAnd(m.regs.Get(r), imm) == 0, false)))
    case ShiftRight12(d) =>
      var x := m.regs.Get(d);
      Through(Write(m, d, x / 0x1000).(flags := Flagged(m.flags, x / 0x1000 == 0, x / 0x800 % 2 == 1)))
    case ZeroExtendByte(d, s) => Through(Write(m, d, m.regs.Get(s) % 0x100))
    case JumpTable(r, disp) => Leaves(m.(eip := Load32(mem, Add32(disp, m.regs.Get(r) * 4 % 0x1_0000_0000))))
    case JumpIf(c, rel) => if Holds(c, m.flags) then Leaves(m.(eip := Add32(m.eip, rel))) else Through(m)
    case Jump(rel) => Leaves(m.(eip := Add32(m.eip, rel)))
    case Call(rel) => Leaves(Push(m, Value(m.eip)).(eip := Add32(m.eip, rel)))
    case Nop => Through(m)
    case PushFlags => Through(Push(m, Image(m.flags)))
    case PopFlags =>
      if |m.stack| < 1 || m.stack[0].Value? then Faults
      else Through(Machine(m.regs.(esp := Add32(m.regs.esp, 4)), m.stack[0].flags, m.eip, m.stack[1..]))
    case PushAll =>
      Through(m.(regs := m.regs.(esp := Sub32(m.regs.esp, 32)), stack := Saved(m.regs) + m.stack))
    case PopAll =>
      if |m.stack| < 8 || exists k :: 0 <= k < 8 && m.stack[k].Image? then Faults
      else
        var s := m.stack;
        Through(m.(regs := Registers(s[7].w, s[6].w, s[5].w, s[4].w, Add32(m.regs.esp, 32), s[2].w, s[1].w, s[0].w),
                   stack := s[8..]))
  }

  /** The cells `pushad` leaves, from the top of the stack. */
  function Saved(r: Registers): (s: seq<Cell>)
    ensures |s| == 8
  {
    [Value(r.edi), Value(r.esi), Value(r.ebp), Value(r.esp), Value(r.ebx), Value(r.edx), Value(r.ecx), Value(r.eax)]
  }

  /** The code c, until a branch leaves it or its end is reached. */
  function Run(c: seq<U8>, m: Machine, mem: Memory): Outcome
    decreases |c|, 0
  {
    if |c| == 0 then Through(m)
    else
      var d := Decode(c);
      if d.Invalid? then Faults else Then(Execute(d.instr, Behind(m, d.size), mem), c[d.size..], mem)
  }

  function Behind(m: Machine, size: nat): Machine
    requires size <= 7
  {
    m.(eip := Add32(m.eip, size))
  }

  function Then(o: Outcome, c: seq<U8>, mem: Memory): Outcome
    decreases |c|, 1
  {
    if o.Through? then Run(c, o.m, mem) else o
  }

  /** Decoding looks at no byte behind the instruction. */
  lemma DecodeIsLocal(c: seq<U8>, rest: seq<U8>)
    requires |c| > 0 && Decode(c).Decoded?
    ensures Decode(c + rest) == Decode(c)
  {
  }

  /** Code in front of other code runs as it would alone. */
  lemma {:induction false} RunConcatenated(c: seq<U8>, rest: seq<U8>, m: Machine, mem: Memory)
    requires !Run(c, m, mem).Faults?
    ensures Run(c + rest, m, mem) == Then(Run(c, m, mem), rest, mem)
    decreases |c|
  {
    if |c| == 0 {
      assert c + rest == rest;
    } else {
      DecodeIsLocal(c, rest);
      var d := Decode(c);
      assert (c + rest)[d.size..] == c[d.size..] + rest;
      var o := Execute(d.instr, Behind(m, d.size), mem);
      if o.Through? {
        RunConcatenated(c[d.size..], rest, o.m, mem);
      }
    }
  }

  /** Code that is run through ends right behind itself. */
  lemma {:induction false} ThroughEndsBehind(c: seq<U8>, m: Machine, mem: Memory)
    requires Run(c, m, mem).Through?
    ensures Run(c, m, mem).m.eip == (m.eip + |c|) % 0x1_0000_0000
    decreases |c|
  {
    hide Decode;
    if |c| > 0 {
      var d := Decode(c);
      var o := Execute(d.instr, Behind(m, d.size), mem);
      ThroughKeepsEip(d.instr, Behind(m, d.size), mem);
      ThroughEndsBehind(c[d.size..], o.m, mem);
    }
  }

  lemma ThroughKeepsEip(i: Instruction, m: Machine, mem: Memory)
    ensures var o := Execute(i, m, mem); o.Through? ==> o.m.eip == m.eip
  {
  }

  /** An assembler listing: each line's bytes beside its instruction. */
  datatype Listing = End | Line(bytes: seq<U8>, instr: Instruction, rest: Listing)

  predicate Faithful(l: Listing) {
    match l
    case End => true
    case Line(b, i, rest) => |b| > 0 && Decode(b) == Decoded(i, |b|) && Faithful(rest)
  }

  function Bytes(l: Listing): seq<U8> {
    match l
    case End => []
    case Line(b, _, rest) => b + Bytes(rest)
  }

  function Perform(l: Listing, m: Machine, mem: Memory): Outcome
    requires Faithful(l)
  {
    match l
    case End => Through(m)
    case Line(b, i, rest) =>
      var o := Execute(i, Behind(m, |b|), mem);
      if o.Through? then Perform(rest, o.m, mem) else o
  }

  lemma PerformLine(l: Listing, m: Machine, mem: Memory)
    requires Faithful(l) && l.Line?
    ensures Faithful(l.rest) && 0 < |l.bytes| <= 7
    ensures var o := Execute(l.instr, Behind(m, |l.bytes|), mem);
      Perform(l, m, mem) == if o.Through? then Perform(l.rest, o.m, mem) else o
  {
  }

  lemma PerformEnd(m: Machine, mem: Memory)
    ensures Perform(End, m, mem) == Through(m)
  {
  }

  /** The bytes of a listing, in front of anything, run as its instructions read. */
  lemma {:induction false} RunListing(l: Listing, tail: seq<U8>, m: Machine, mem: Memory)
    requires Faithful(l)
    ensures Run(Bytes(l) + tail, m, mem) == Then(Perform(l, m, mem), tail, mem)
  {
    hide Decode, Execute;
    match l
    case End =>
      assert Bytes(l) + tail == tail;
    case Line(b, i, rest) =>
      var c := Bytes(rest) + tail;
      assert Bytes(l) + tail == b + c && (b + c)[|b|..] == c;
      DecodeIsLocal(b, c);
      var o := Execute(i, Behind(m, |b|), mem);
      if o.Through? {
        RunListing(rest, tail, o.m, mem);
      }
  }
}
