/** Streaming MD5 against RFC 1321. */
module Md5Spec {
  import opened Words

  type Byte = U8
  type Word = U32

  // ---- Section 2: sums are modulo 2^32; X_Y, not, and exclusive or are bitwise

  function Plus(a: Word, b: Word): Word {
    if a + b < 0x1_0000_0000 then a + b else a + b - 0x1_0000_0000
  }

  function And(x: Word, y: Word): Word {
    ((x as bv32) & (y as bv32)) as int
  }

  function Or(x: Word, y: Word): Word {
    ((x as bv32) | (y as bv32)) as int
  }

  function Xor(x: Word, y: Word): Word {
    ((x as bv32) ^ (y as bv32)) as int
  }

  function Not(x: Word): Word {
    (!(x as bv32)) as int
  }

  function RotL(x: Word, c: nat): Word
    requires 0 < c < 32
  {
    ((x as bv32 << c) | (x as bv32 >> (32 - c))) as int
  }

  lemma AndCommutes(x: Word, y: Word)
    ensures And(x, y) == And(y, x)
  {
  }

  datatype Registers = Registers(a: Word, b: Word, c: Word, d: Word)

  const INITIAL: Registers := Registers(0x67452301, 0xefcdab89, 0x98badcfe, 0x10325476)

  /** The constants T[1..64] of section 3.4. */
  const T: seq<Word> := [
    0xd76aa478, 0xe8c7b756, 0x242070db, 0xc1bdceee, 0xf57c0faf, 0x4787c62a, 0xa8304613, 0xfd469501,
    0x698098d8, 0x8b44f7af, 0xffff5bb1, 0x895cd7be, 0x6b901122, 0xfd987193, 0xa679438e, 0x49b40821,
    0xf61e2562, 0xc040b340, 0x265e5a51, 0xe9b6c7aa, 0xd62f105d, 0x02441453, 0xd8a1e681, 0xe7d3fbc8,
    0x21e1cde6, 0xc33707d6, 0xf4d50d87, 0x455a14ed, 0xa9e3e905, 0xfcefa3f8, 0x676f02d9, 0x8d2a4c8a,
    0xfffa3942, 0x8771f681, 0x6d9d6122, 0xfde5380c, 0xa4beea44, 0x4bdecfa9, 0xf6bb4b60, 0xbebfbc70,
    0x289b7ec6, 0xeaa127fa, 0xd4ef3085, 0x04881d05, 0xd9d4d039, 0xe6db99e5, 0x1fa27cf8, 0xc4ac5665,
    0xf4292244, 0x432aff97, 0xab9423a7, 0xfc93a039, 0x655b59c3, 0x8f0ccc92, 0xffeff47d, 0x85845dd1,
    0x6fa87e4f, 0xfe2ce6e0, 0xa3014314, 0x4e0811a1, 0xf7537e82, 0xbd3af235, 0x2ad7d2bb, 0xeb86d391]

  function Constant(i: nat): Word
    requires i < 64
  {
    T[i]
  }

  // Section 3.4: the order in which the four rounds visit the words of a block.
  const ORDER1: seq<nat> := [0, 1, 2, 3, 4, 5, 6, 7, 8, 9, 10, 11, 12, 13, 14, 15]
  const ORDER2: seq<nat> := [1, 6, 11, 0, 5, 10, 15, 4, 9, 14, 3, 8, 13, 2, 7, 12]
  const ORDER3: seq<nat> := [5, 8, 11, 14, 1, 4, 7, 10, 13, 0, 3, 6, 9, 12, 15, 2]
  const ORDER4: seq<nat> := [0, 7, 14, 5, 12, 3, 10, 1, 8, 15, 6, 13, 4, 11, 2, 9]

  /** The word that step i uses. */
  function Order(i: nat): nat
    requires i < 64
  {
    if i < 16 then ORDER1[i] else if i < 32 then ORDER2[i - 16] else if i < 48 then ORDER3[i - 32] else ORDER4[i - 48]
  }

  /** Section 3.4: the rotation amounts, four to a round, used in turn. */
  function Rotation(i: nat): (s: nat)
    requires i < 64
    ensures 0 < s < 32
  {
    if i < 16 then (if i % 4 == 0 then 7 else if i % 4 == 1 then 12 else if i % 4 == 2 then 17 else 22)
    else if i < 32 then (if i % 4 == 0 then 5 else if i % 4 == 1 then 9 else if i % 4 == 2 then 14 else 20)
    else if i < 48 then (if i % 4 == 0 then 4 else if i % 4 == 1 then 11 else if i % 4 == 2 then 16 else 23)
    else (if i % 4 == 0 then 6 else if i % 4 == 1 then 10 else if i % 4 == 2 then 15 else 21)
  }

  /** The auxiliary functions F, G, H, I of the four rounds. */
  function Auxiliary(i: nat, x: Word, y: Word, z: Word): Word {
    if i < 16 then Or(And(x, y), And(Not(x), z))
    else if i < 32 then Or(And(x, z), And(y, Not(z)))
    else if i < 48 then Xor(Xor(x, y), z)
    else Xor(y, Or(x, Not(z)))
  }

  /** The operation [abcd k s i]: a = b + ((a + f(b,c,d) + X[k] + T[i]) <<< s). */
  function Operation(a: Word, b: Word, c: Word, d: Word, i: nat, x: Word): Word
    requires i < 64
  {
    Plus(b, RotL(Plus(Plus(Plus(a, Auxiliary(i, b, c, d)), x), Constant(i)), Rotation(i)))
  }

  /** Every order is one of the words of the block. */
  lemma OrderBound(i: nat)
    requires i < 64
    ensures Order(i) < 16
  {
    assert i % 16 < 16;
  }

  /** Step i: the registers take the roles ABCD, DABC, CDAB, BCDA in turn, and only the first changes. */
  function Step(r: Registers, x: seq<Word>, i: nat): Registers
    requires |x| == 16 && i < 64
  {
    OrderBound(i);
    var w := x[Order(i)];
    if i % 4 == 0 then r.(a := Operation(r.a, r.b, r.c, r.d, i, w))
    else if i % 4 == 1 then r.(d := Operation(r.d, r.a, r.b, r.c, i, w))
    else if i % 4 == 2 then r.(c := Operation(r.c, r.d, r.a, r.b, i, w))
    else r.(b := Operation(r.b, r.c, r.d, r.a, i, w))
  }

  function Steps(r: Registers, x: seq<Word>, n: nat): Registers
    requires |x| == 16 && n <= 64
  {
    if n == 0 then r else Step(Steps(r, x, n - 1), x, n - 1)
  }

  function Add(r: Registers, s: Registers): Registers {
    Registers(Plus(r.a, s.a), Plus(r.b, s.b), Plus(r.c, s.c), Plus(r.d, s.d))
  }

  // ---- Section 2: bytes and words, low-order byte first

  function WordOf(b: seq<Byte>): Word
    requires |b| == 4
  {
    (b[0] as int) + 0x100 * (b[1] as int) + 0x1_0000 * (b[2] as int) + 0x100_0000 * (b[3] as int)
  }

  function BytesOf(w: Word): (b: seq<Byte>)
    ensures |b| == 4
  {
    [w % 0x100, w / 0x100 % 0x100, w / 0x1_0000 % 0x100, w / 0x100_0000 % 0x100]
  }

  /** The output order of section 3.5 is the input order of section 2: writing a word and reading it back
      is the identity, both ways. */
  lemma BytesRoundTrip(w: Word, b: seq<Byte>)
    requires |b| == 4
    ensures WordOf(BytesOf(w)) == w
    ensures BytesOf(WordOf(b)) == b
  {
    WordThere(w);
    WordBack(b[0], b[1], b[2], b[3]);
  }

  lemma WordThere(w: Word)
    ensures w % 0x100 + 0x100 * (w / 0x100 % 0x100) + 0x1_0000 * (w / 0x1_0000 % 0x100) + 0x100_0000 * (w / 0x100_0000 % 0x100) == w
  {
    var v := w / 0x100;
    var u := v / 0x100;
    assert u == w / 0x1_0000 && u / 0x100 == w / 0x100_0000;
  }

  lemma WordBack(b0: int, b1: int, b2: int, b3: int)
    requires 0 <= b0 < 0x100 && 0 <= b1 < 0x100 && 0 <= b2 < 0x100 && 0 <= b3 < 0x100
    ensures var w := b0 + 0x100 * b1 + 0x1_0000 * b2 + 0x100_0000 * b3;
      w % 0x100 == b0 && w / 0x100 % 0x100 == b1 && w / 0x1_0000 % 0x100 == b2 && w / 0x100_0000 % 0x100 == b3
  {
    var u := b2 + 0x100 * b3;
    var v := b1 + 0x100 * u;
    var w := b0 + 0x100 * v;
    assert w / 0x100 == v && w / 0x1_0000 == u && w / 0x100_0000 == b3;
  }

  function WordsOf(block: seq<Byte>): (x: seq<Word>)
    requires |block| == 64
    ensures |x| == 16
  {
    seq(16, i requires 0 <= i < 16 => WordOf(block[4 * i..4 * i + 4]))
  }

  function Compress(r: Registers, block: seq<Byte>): Registers
    requires |block| == 64
  {
    Add(r, Steps(r, WordsOf(block), 4 * |WordsOf(block)|))
  }

  /** Section 3.4, block after block; a last portion shorter than a block is not processed. */
  function Absorb(r: Registers, blocks: seq<Byte>): Registers
    decreases |blocks|
  {
    if |blocks| < 64 then r else Absorb(Compress(r, blocks[..64]), blocks[64..])
  }

  // ---- Sections 3.1 and 3.2: padding and length

  function Zeros(n: nat): (z: seq<Byte>)
    ensures |z| == n
  {
    seq(n, i => 0)
  }

  /** A 64-bit number: the low-order word first. */
  function LengthField(n: nat): (s: seq<Byte>)
    requires n < 0x1_0000_0000_0000_0000
    ensures |s| == 8
  {
    BytesOf(n % 0x1_0000_0000) + BytesOf(n / 0x1_0000_0000)
  }

  /** One bit and as many zero bits as bring the length to 448 modulo 512, at least one bit in all. */
  function ZeroCount(length: nat): (z: nat)
    ensures z < 64 && (length + 1 + z) % 64 == 56
  {
    (119 - length % 64) % 64
  }

  function Padded(message: seq<Byte>): seq<Byte> {
    message + [0x80] + Zeros(ZeroCount(|message|)) + LengthField(8 * |message| % 0x1_0000_0000_0000_0000)
  }

  /** Padding fills whole blocks. */
  lemma PaddedWhole(message: seq<Byte>)
    ensures |Padded(message)| % 64 == 0
  {
    hide ZeroCount, LengthField;
    var n := |message| + 1 + ZeroCount(|message|);
    assert |Padded(message)| == n + 8;
    assert n % 64 == 56;
  }

  function Digest(message: seq<Byte>): Registers {
    Absorb(INITIAL, Padded(message))
  }

  // ---- Section 3.5: output, in the usual hexadecimal notation

  const HEX: string := "0123456789abcdef"

  function HexByte(b: Byte): string {
    [HEX[b / 16], HEX[b % 16]]
  }

  /** The value of a hexadecimal digit. */
  function DigitValue(c: char): int {
    if '0' <= c <= '9' then c as int - '0' as int else if 'a' <= c <= 'f' then c as int - 'a' as int + 10 else -1
  }

  /** A byte's two digits read back as the byte, the high one first. */
  lemma HexReadsBack(b: Byte)
    ensures |HexByte(b)| == 2
    ensures DigitValue(HexByte(b)[0]) >= 0 && DigitValue(HexByte(b)[1]) >= 0
    ensures 16 * DigitValue(HexByte(b)[0]) + DigitValue(HexByte(b)[1]) == b
  {
    DigitReadsBack(b / 16);
    DigitReadsBack(b % 16);
    hide DigitValue;
    assert HexByte(b)[0] == HEX[b / 16] && HexByte(b)[1] == HEX[b % 16];
  }

  lemma DigitReadsBack(i: nat)
    requires i < 16
    ensures DigitValue(HEX[i]) == i
  {
    if i < 10 {
      assert HEX[i] as int == '0' as int + i;
    } else {
      assert HEX[i] as int == 'a' as int + (i - 10);
    }
  }

  function HexBytes(s: seq<Byte>): string {
    if s == [] then "" else HexBytes(s[..|s| - 1]) + HexByte(s[|s| - 1])
  }

  function Output(r: Registers): string {
    HexBytes(BytesOf(r.a) + BytesOf(r.b) + BytesOf(r.c) + BytesOf(r.d))
  }
}

module Md5Streaming {
  import opened Md5Spec

  /** Absorbing in two portions is absorbing the concatenation. */
  lemma {:induction false} AbsorbAppend(r: Registers, first: seq<Byte>, second: seq<Byte>)
    requires |first| % 64 == 0
    ensures Absorb(r, first + second) == Absorb(Absorb(r, first), second)
    decreases |first|
  {
    hide Compress;
    if |first| < 64 {
      assert first + second == second;
    } else {
      assert (first + second)[..64] == first[..64];
      assert (first + second)[64..] == first[64..] + second;
      AbsorbAppend(Compress(r, first[..64]), first[64..], second);
    }
  }

  lemma AbsorbBlock(r: Registers, whole: seq<Byte>, block: seq<Byte>)
    requires |whole| % 64 == 0 && |block| == 64
    ensures Absorb(r, whole + block) == Compress(Absorb(r, whole), block)
  {
    hide Compress;
    AbsorbAppend(r, whole, block);
    assert block[..64] == block;
  }

  // ---- The source's loop over 64 steps

  const S1: seq<nat> := [7, 12, 17, 22, 7, 12, 17, 22, 7, 12, 17, 22, 7, 12, 17, 22]
  const S2: seq<nat> := [5, 9, 14, 20, 5, 9, 14, 20, 5, 9, 14, 20, 5, 9, 14, 20]
  const S3: seq<nat> := [4, 11, 16, 23, 4, 11, 16, 23, 4, 11, 16, 23, 4, 11, 16, 23]
  const S4: seq<nat> := [6, 10, 15, 21, 6, 10, 15, 21, 6, 10, 15, 21, 6, 10, 15, 21]

  /** The source's table S, whose initializer is laid out in these four rows. */
  function Shift(i: nat): nat
    requires i < 64
  {
    if i < 16 then S1[i] else if i < 32 then S2[i - 16] else if i < 48 then S3[i - 32] else S4[i - 48]
  }

  function WordIndex(i: nat): nat {
    if i < 16 then i
    else if i < 32 then (5 * i + 1) % 16
    else if i < 48 then (3 * i + 5) % 16
    else (7 * i) % 16
  }

  function Mix(i: nat, b: Word, c: Word, d: Word): Word {
    if i < 16 then Or(And(b, c), And(Not(b), d))
    else if i < 32 then Or(And(d, b), And(Not(d), c))
    else if i < 48 then Xor(Xor(b, c), d)
    else Xor(c, Or(b, Not(d)))
  }

  lemma MixIsAuxiliary(i: nat, b: Word, c: Word, d: Word)
    ensures Mix(i, b, c, d) == Auxiliary(i, b, c, d)
  {
    hide And, Or, Not, Xor;
    AndCommutes(d, b);
    AndCommutes(Not(d), c);
  }

  predicate Below16(k: nat) {
    k == 0 || k == 1 || k == 2 || k == 3 || k == 4 || k == 5 || k == 6 || k == 7
        || k == 8 || k == 9 || k == 10 || k == 11 || k == 12 || k == 13 || k == 14 || k == 15
  }

  /** The source's shift table holds the rotations of the standard. */
  lemma ShiftIsRotation(i: nat)
    requires i < 64
    ensures Shift(i) == Rotation(i)
  {
    if i < 16 { ShiftRows(i); } else if i < 32 { ShiftRows(i - 16); } else if i < 48 { ShiftRows(i - 32); } else { ShiftRows(i - 48); }
  }

  lemma ShiftRows(k: nat)
    requires k < 16
    ensures S1[k] == Rotation(k) && S2[k] == Rotation(16 + k) && S3[k] == Rotation(32 + k) && S4[k] == Rotation(48 + k)
  {
    assert Below16(k);
  }

  /** The source's index formulas yield the orders of the standard. */
  lemma IndexIsOrder(i: nat)
    requires i < 64
    ensures WordIndex(i) == Order(i) < 16
  {
    if i < 16 { IndexRows(i); } else if i < 32 { IndexRows(i - 16); } else if i < 48 { IndexRows(i - 32); } else { IndexRows(i - 48); }
  }

  lemma IndexRows(k: nat)
    requires k < 16
    ensures ORDER1[k] == k && ORDER2[k] == (5 * (16 + k) + 1) % 16
    ensures ORDER3[k] == (3 * (32 + k) + 5) % 16 && ORDER4[k] == (7 * (48 + k)) % 16
  {
    assert Below16(k);
  }

  /** The registers in the roles that step i gives them. */
  function Roles(r: Registers, i: nat): Registers {
    if i % 4 == 0 then r
    else if i % 4 == 1 then Registers(r.d, r.a, r.b, r.c)
    else if i % 4 == 2 then Registers(r.c, r.d, r.a, r.b)
    else Registers(r.b, r.c, r.d, r.a)
  }

  /** The source's sum, in the source's order. */
  function Mixed(a: Word, b: Word, c: Word, d: Word, i: nat, x: Word): Word
    requires i < 64
  {
    ShiftIsRotation(i);
    Plus(b, RotL(Plus(Plus(Plus(a, Mix(i, b, c, d)), Constant(i)), x), Shift(i)))
  }

  lemma PlusCommutes(a: Word, x: Word, t: Word)
    ensures Plus(Plus(a, t), x) == Plus(Plus(a, x), t)
  {
  }

  lemma MixedIsOperation(a: Word, b: Word, c: Word, d: Word, i: nat, x: Word)
    requires i < 64
    ensures Mixed(a, b, c, d, i, x) == Operation(a, b, c, d, i, x)
  {
    hide RotL, Mix, Auxiliary, Plus, Shift, Rotation, Constant;
    MixIsAuxiliary(i, b, c, d);
    ShiftIsRotation(i);
    PlusCommutes(Plus(a, Mix(i, b, c, d)), x, Constant(i));
  }

  /** One iteration of the source's loop: all four variables move on. */
  function Rotated(v: Registers, x: seq<Word>, i: nat): Registers
    requires |x| == 16 && i < 64
  {
    IndexIsOrder(i);
    Registers(v.d, Mixed(v.a, v.b, v.c, v.d, i, x[WordIndex(i)]), v.b, v.c)
  }

  /** Moving the variables is renaming the registers. */
  lemma RotatedIsStep(r: Registers, x: seq<Word>, i: nat)
    requires |x| == 16 && i < 64
    ensures Rotated(Roles(r, i), x, i) == Roles(Step(r, x, i), i + 1)
  {
    hide Mixed, Operation, WordIndex, Order;
    IndexIsOrder(i);
    var v := Roles(r, i);
    MixedIsOperation(v.a, v.b, v.c, v.d, i, x[WordIndex(i)]);
  }

  class Md5 {
    const state: array<Word>
    const buffer: array<Byte>
    var bufferLen: nat
    var bitCount: nat
    var finalised: bool
    /** All bytes absorbed, padding included. */
    ghost var absorbed: seq<Byte>
    /** The message: what was absorbed before finalisation. */
    ghost var message: seq<Byte>

    function Value(): Registers
      requires state.Length == 4
      reads state
    {
      Registers(state[0], state[1], state[2], state[3])
    }

    /** Every full block was compressed; the buffer holds the rest. */
    ghost predicate Streaming()
      reads this, state, buffer
    {
      && state.Length == 4 && buffer.Length == 64 && state as object != buffer
      && var whole := |absorbed| - |absorbed| % 64;
      && bufferLen == |absorbed| % 64
      && buffer[..bufferLen] == absorbed[whole..]
      && Value() == Absorb(INITIAL, absorbed[..whole])
    }

    ghost predicate Counting()
      reads this, state, buffer
    {
      Streaming() && bitCount == 8 * |absorbed| % 0x1_0000_0000_0000_0000
    }

    ghost predicate Valid()
      reads this, state, buffer
    {
      && Counting()
      && absorbed == if finalised then Padded(message) else message
    }

    constructor ()
      ensures Valid() && fresh(state) && fresh(buffer) && !finalised && message == []
    {
      state := new Word[4];
      buffer := new Byte[64](i => 0);
      bufferLen, bitCount, finalised := 0, 0, false;
      absorbed, message := [], [];
      new;
      hide Compress, Absorb, Padded, Streaming;
      state[0], state[1], state[2], state[3] := 0x67452301, 0xefcdab89, 0x98badcfe, 0x10325476;
      StartsStreaming();
    }

    lemma StartsStreaming()
      requires state.Length == 4 && buffer.Length == 64 && state as object != buffer
      requires Value() == INITIAL && bufferLen == 0 && |absorbed| == 0
      ensures Streaming()
    {
      hide Compress, Absorb;
      AbsorbNothing(INITIAL);
      assert absorbed[..0] == absorbed[0..] == buffer[..0] == [];
    }

    method Transform()
      requires state.Length == 4 && buffer.Length == 64 && state as object != buffer
      modifies state
      ensures Value() == Compress(old(Value()), buffer[..])
    {
      hide Plus, Compress, Steps, WordsOf;
      ghost var block, before := buffer[..], Value();
      var m := LoadWords();
      var r := Rounds(m);
      CompressedIs(before, block, r);
      state[0], state[1], state[2], state[3] :=
        Plus(state[0], r.a), Plus(state[1], r.b), Plus(state[2], r.c), Plus(state[3], r.d);
    }

    /** The words of the buffered block, read byte-wise. */
    method LoadWords() returns (m: array<Word>)
      requires buffer.Length == 64
      ensures fresh(m) && m[..] == WordsOf(buffer[..])
    {
      ghost var block := buffer[..];
      m := new Word[16](i => 0);
      for i := 0 to 16
        invariant buffer[..] == block
        invariant forall k :: 0 <= k < i ==> m[k] == WordsOf(block)[k]
        modifies m
      {
        m[i] := (buffer[i * 4] as int) + 0x100 * (buffer[i * 4 + 1] as int)
              + 0x1_0000 * (buffer[i * 4 + 2] as int) + 0x100_0000 * (buffer[i * 4 + 3] as int);
        assert block[4 * i..4 * i + 4] == [buffer[i * 4], buffer[i * 4 + 1], buffer[i * 4 + 2], buffer[i * 4 + 3]];
      }
    }

    /** The loop over the 64 steps, with rotating variables. */
    method Rounds(m: array<Word>) returns (r: Registers)
      requires state.Length == 4 && m.Length == 16
      ensures r == Steps(Value(), m[..], 4 * |m[..]|)
    {
      hide Mixed, Step, WordIndex;
      var a, b, c, d := state[0], state[1], state[2], state[3];
      var i := 0;
      while i < 64
        invariant 0 <= i <= 64
        invariant Registers(a, b, c, d) == Roles(Steps(Value(), m[..], i), i)
      {
        IndexIsOrder(i);
        RotatedIsStep(Steps(Value(), m[..], i), m[..], i);
        var tmp := d;
        d, c, b := c, b, Mixed(a, b, c, d, i, m[..][WordIndex(i)]);
        a := tmp;
        i := i + 1;
      }
      assert i == 4 * |m[..]|;
      r := Registers(a, b, c, d);
    }

    /** Count the bytes, and copy them into the buffer, compressing whenever it is full. */
    method Feed(data: seq<Byte>)
      requires Counting()
      modifies this`bitCount, this`bufferLen, this`absorbed, state, buffer
      ensures Counting() && absorbed == old(absorbed) + data
    {
      hide Streaming;
      Count(|data|);
      CopyAll(data);
    }

    /** The bit count runs ahead of what is absorbed by n bytes. */
    method Count(n: nat)
      requires Counting()
      modifies this`bitCount
      ensures Streaming() && bitCount == 8 * (|absorbed| + n) % 0x1_0000_0000_0000_0000
    {
      hide Compress, Absorb;
      CountAdds(|absorbed|, n);
      bitCount := (bitCount + n * 8) % 0x1_0000_0000_0000_0000;
    }

    lemma Room()
      requires Streaming()
      ensures bufferLen < 64
    {
    }

    /** The copy loop. */
    method CopyAll(data: seq<Byte>)
      requires Streaming()
      modifies this`bufferLen, this`absorbed, state, buffer
      ensures Streaming() && absorbed == old(absorbed) + data
    {
      hide Streaming;
      var done := 0;
      while done < |data|
        invariant 0 <= done <= |data|
        invariant Streaming() && absorbed == old(absorbed) + data[..done]
      {
        Room();
        var take := if 64 - bufferLen > |data| - done then |data| - done else 64 - bufferLen;
        FeedPortion(data[done..done + take]);
        assert data[..done + take] == data[..done] + data[done..done + take];
        done := done + take;
      }
      assert data[..done] == data;
    }

    /** One round of the copy loop: a portion that fits the buffer. */
    method FeedPortion(portion: seq<Byte>)
      requires Streaming() && 0 < |portion| <= 64 - bufferLen
      modifies this`bufferLen, this`absorbed, state, buffer
      ensures Streaming() && absorbed == old(absorbed) + portion
    {
      hide Compress, Absorb;
      ghost var whole := |absorbed| - |absorbed| % 64;
      ghost var before := absorbed;
      forall k | 0 <= k < |portion| {
        buffer[bufferLen + k] := portion[k];
      }
      assert buffer[..bufferLen + |portion|] == before[whole..] + portion;
      bufferLen := bufferLen + |portion|;
      absorbed := absorbed + portion;
      assert absorbed[..whole] == before[..whole];
      assert absorbed[whole..] == before[whole..] + portion;
      if bufferLen == 64 {
        assert buffer[..] == absorbed[whole..];
        Flush(whole);
      }
    }

    /** A full buffer is compressed into the state and starts over. */
    method Flush(ghost whole: nat)
      requires state.Length == 4 && buffer.Length == 64 && state as object != buffer
      requires whole % 64 == 0 && |absorbed| == whole + 64
      requires buffer[..] == absorbed[whole..] && Value() == Absorb(INITIAL, absorbed[..whole])
      modifies this`bufferLen, state
      ensures Streaming()
    {
      hide Compress, Absorb;
      Transform();
      AbsorbBlock(INITIAL, absorbed[..whole], absorbed[whole..]);
      bufferLen := 0;
      assert absorbed == absorbed[..whole] + absorbed[whole..];
      assert absorbed[..|absorbed|] == absorbed;
    }

    /** `Update`: ignored once the digest was taken. */
    method Update(data: seq<Byte>)
      requires Valid()
      modifies this, state, buffer
      ensures Valid() && finalised == old(finalised)
      ensures message == if finalised then old(message) else old(message) + data
      ensures finalised ==> Value() == old(Value())
    {
      if finalised {
        return;
      }
      Feed(data);
      message := absorbed;
    }

    /** Pad with a one bit and zeros, byte by byte. */
    method Pad()
      requires Counting()
      modifies this`bitCount, this`bufferLen, this`absorbed, state, buffer
      ensures Counting()
      ensures absorbed == old(absorbed) + [0x80] + Zeros(ZeroCount(|old(absorbed)|))
    {
      hide Compress;
      ghost var length := |absorbed|;
      Feed([0x80]);
      ghost var zeros := 0;
      while bufferLen != 56
        invariant Counting() && zeros <= ZeroCount(length)
        invariant absorbed == old(absorbed) + [0x80] + Zeros(zeros)
        decreases ZeroCount(length) - zeros
      {
        assert (length + 1 + zeros) % 64 != 56;
        Feed([0x00]);
        assert Zeros(zeros) + [0x00] == Zeros(zeros + 1);
        assert absorbed == old(absorbed) + [0x80] + Zeros(zeros + 1);
        zeros := zeros + 1;
      }
      ZerosAreFewest(length, zeros);
    }

    /** `HexDigest`: pads once, then only reads. */
    method HexDigest() returns (hex: string)
      requires Valid()
      modifies this, state, buffer
      ensures Valid() && finalised && message == old(message)
      ensures hex == Output(Digest(message))
      ensures old(finalised) ==> Value() == old(Value())
    {
      hide Compress, Absorb, Output;
      if !finalised {
        var bits := bitCount;
        Pad();
        var length := LengthBytes(bits);
        Feed(length);
        finalised := true;
        assert absorbed == Padded(message);
      }
      hide Streaming, Counting, Padded;
      StateIsDigest();
      hex := Hex();
    }

    /** All of the padded message was compressed. */
    lemma StateIsDigest()
      requires Counting() && absorbed == Padded(message)
      ensures state.Length == 4 && Value() == Digest(message)
    {
      hide Compress, Absorb, Padded;
      PaddedWhole(message);
      assert absorbed[..|absorbed|] == absorbed;
    }

    static method LengthBytes(bits: nat) returns (length: seq<Byte>)
      requires bits < 0x1_0000_0000_0000_0000
      ensures length == LengthField(bits)
    {
      length := [];
      var i, rest := 0, bits;
      while i < 8
        invariant 0 <= i <= 8 && rest == Shifted(bits, i)
        invariant length == LengthField(bits)[..i]
      {
        LengthByte(bits, i);
        length := length + [rest % 0x100];
        i, rest := i + 1, rest / 0x100;
      }
    }

    method Hex() returns (hex: string)
      requires state.Length == 4
      ensures hex == Output(Value())
    {
      var bytes := BytesOf(state[0]) + BytesOf(state[1]) + BytesOf(state[2]) + BytesOf(state[3]);
      hex := "";
      for i := 0 to |bytes|
        invariant hex == HexBytes(bytes[..i])
      {
        assert bytes[..i + 1][..i] == bytes[..i];
        hex := hex + HexByte(bytes[i]);
      }
      assert bytes[..|bytes|] == bytes;
    }
  }

  /** `n >> (8 * i)`. */
  function Shifted(n: nat, i: nat): nat {
    if i == 0 then n else Shifted(n, i - 1) / 0x100
  }

  lemma LengthByte(n: nat, i: nat)
    requires n < 0x1_0000_0000_0000_0000 && i < 8
    ensures LengthField(n)[i] == Shifted(n, i) % 0x100
  {
    ShiftedValues(n);
    LowBytes(n);
    assert i == 0 || i == 1 || i == 2 || i == 3 || i == 4 || i == 5 || i == 6 || i == 7;
  }

  lemma LowBytes(n: nat)
    ensures var low := n % 0x1_0000_0000;
      && n % 0x100 == low % 0x100
      && n / 0x100 % 0x100 == low / 0x100 % 0x100
      && n / 0x1_0000 % 0x100 == low / 0x1_0000 % 0x100
      && n / 0x100_0000 % 0x100 == low / 0x100_0000 % 0x100
  {
    var low, high := n % 0x1_0000_0000, n / 0x1_0000_0000;
    LowByte0(high, low);
    LowByte1(high, low);
    LowByte2(high, low);
    LowByte3(high, low);
  }

  lemma LowByte0(high: nat, low: nat)
    ensures (high * 0x1_0000_0000 + low) % 0x100 == low % 0x100
  {
  }

  lemma LowByte1(high: nat, low: nat)
    ensures (high * 0x1_0000_0000 + low) / 0x100 % 0x100 == low / 0x100 % 0x100
  {
    assert (high * 0x1_0000_0000 + low) / 0x100 == high * 0x100_0000 + low / 0x100;
  }

  lemma LowByte2(high: nat, low: nat)
    ensures (high * 0x1_0000_0000 + low) / 0x1_0000 % 0x100 == low / 0x1_0000 % 0x100
  {
    var y := low / 0x1_0000;
    assert (high * 0x1_0000_0000 + low) / 0x1_0000 == high * 0x1_0000 + y;
    assert high * 0x1_0000 + y == (high * 0x100) * 0x100 + y;
  }

  lemma LowByte3(high: nat, low: nat)
    ensures (high * 0x1_0000_0000 + low) / 0x100_0000 % 0x100 == low / 0x100_0000 % 0x100
  {
    assert (high * 0x1_0000_0000 + low) / 0x100_0000 == high * 0x100 + low / 0x100_0000;
  }

  lemma ShiftedValues(n: nat)
    ensures Shifted(n, 0) == n && Shifted(n, 1) == n / 0x100 && Shifted(n, 2) == n / 0x1_0000
    ensures Shifted(n, 3) == n / 0x100_0000 && Shifted(n, 4) == n / 0x1_0000_0000
    ensures Shifted(n, 5) == n / 0x1_0000_0000 / 0x100
    ensures Shifted(n, 6) == n / 0x1_0000_0000 / 0x1_0000
    ensures Shifted(n, 7) == n / 0x1_0000_0000 / 0x100_0000
  {
  }

  lemma AbsorbNothing(r: Registers)
    ensures Absorb(r, []) == r
  {
    hide Compress;
  }

  lemma CompressedIs(before: Registers, block: seq<Byte>, r: Registers)
    requires |block| == 64 && r == Steps(before, WordsOf(block), 4 * |WordsOf(block)|)
    ensures Compress(before, block)
         == Registers(Plus(before.a, r.a), Plus(before.b, r.b), Plus(before.c, r.c), Plus(before.d, r.d))
  {
    hide Steps, Plus;
  }

  lemma CountAdds(n: nat, m: nat)
    ensures (8 * n % 0x1_0000_0000_0000_0000 + m * 8) % 0x1_0000_0000_0000_0000
         == 8 * (n + m) % 0x1_0000_0000_0000_0000
  {
  }

  lemma ZerosAreFewest(length: nat, zeros: nat)
    requires zeros <= ZeroCount(length) && (length + 1 + zeros) % 64 == 56
    ensures zeros == ZeroCount(length)
  {
  }
}
