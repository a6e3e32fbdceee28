/**
 * The CHIP-8 instruction set as the engine decodes it: two bytes fetched at
 * PC, dispatched on the top nibble of the first byte and then, for some
 * groups, on the second byte or its low nibble.  Operand fields are cut out of
 * the word at fixed positions: `x` is the second nibble, `y` the third, `n`
 * the fourth, `kk` the second byte and `nnn` the low twelve bits.
 */
module Opcodes {
  import opened Bytes

  datatype Instr =
    | Cls                                   // 00E0
    | Ret                                   // 00EE
    | Jump(nnn: addr)                       // 1nnn
    | Call(nnn: addr)                       // 2nnn
    | SkipEqByte(x: nibble, kk: byte)       // 3xkk
    | SkipNeByte(x: nibble, kk: byte)       // 4xkk
    | SkipEqReg(x: nibble, y: nibble)       // 5xy?
    | LoadByte(x: nibble, kk: byte)         // 6xkk
    | AddByte(x: nibble, kk: byte)          // 7xkk
    | LoadReg(x: nibble, y: nibble)         // 8xy0
    | OrReg(x: nibble, y: nibble)           // 8xy1
    | AndReg(x: nibble, y: nibble)          // 8xy2
    | XorReg(x: nibble, y: nibble)          // 8xy3
    | AddReg(x: nibble, y: nibble)          // 8xy4
    | SubReg(x: nibble, y: nibble)          // 8xy5
    | ShiftRight(x: nibble, y: nibble)      // 8xy6 (y is not read)
    | SubNeg(x: nibble, y: nibble)          // 8xy7
    | ShiftLeft(x: nibble, y: nibble)       // 8xyE (y is not read)
    | SkipNeReg(x: nibble, y: nibble)       // 9xy?
    | LoadIndex(nnn: addr)                  // Annn
    | JumpOffset(nnn: addr)                 // Bnnn
    | Random(x: nibble, kk: byte)           // Cxkk
    | Draw(x: nibble, y: nibble, n: nibble) // Dxyn
    | SkipKeyDown(x: nibble)                // Ex9E
    | SkipKeyUp(x: nibble)                  // ExA1
    | LoadDelay(x: nibble)                  // Fx07
    | WaitKey(x: nibble)                    // Fx0A
    | SetDelay(x: nibble)                   // Fx15
    | SetSound(x: nibble)                   // Fx18
    | AddIndex(x: nibble)                   // Fx1E
    | LoadFont(x: nibble)                   // Fx29
    | StoreBcd(x: nibble)                   // Fx33
    | StoreRegs(x: nibble)                  // Fx55
    | LoadRegs(x: nibble)                   // Fx65
    | Illegal                               // matches no rule

  /** The twelve-bit address `((hi & 0x0F) << 8) + lo`. */
  function Address(hi: byte, lo: byte): (a: addr)
    ensures a / 0x100 == hi % 16 && a % 0x100 == lo
  {
    LowNibble(hi) * 0x100 + lo
  }

  /**
   * Decoding in the engine's order of tests.  It is permissive: the 0x0 group
   * looks only at the second byte, 5xy? and 9xy? never look at their last
   * nibble, and an 8xy? with an unknown last nibble is illegal.
   */
  function Decode(hi: byte, lo: byte): (ins: Instr)
    ensures hi / 16 !in {0x0, 0x8, 0xE, 0xF} ==> ins != Illegal
    ensures ins.Jump? || ins.Call? || ins.LoadIndex? || ins.JumpOffset? ==> ins.nnn == Address(hi, lo)
  {
    var code := HighNibble(hi);
    var x := LowNibble(hi);
    var y := HighNibble(lo);
    var n := LowNibble(lo);
    if code == 0x0 && lo == 0xE0 then Cls
    else if code == 0x0 && lo == 0xEE then Ret
    else if code == 0x1 then Jump(Address(hi, lo))
    else if code == 0x2 then Call(Address(hi, lo))
    else if code == 0x3 then SkipEqByte(x, lo)
    else if code == 0x4 then SkipNeByte(x, lo)
    else if code == 0x5 then SkipEqReg(x, y)
    else if code == 0x6 then LoadByte(x, lo)
    else if code == 0x7 then AddByte(x, lo)
    else if code == 0x8 then
      if n == 0x0 then LoadReg(x, y)
      else if n == 0x1 then OrReg(x, y)
      else if n == 0x2 then AndReg(x, y)
      else if n == 0x3 then XorReg(x, y)
      else if n == 0x4 then AddReg(x, y)
      else if n == 0x5 then SubReg(x, y)
      else if n == 0x6 then ShiftRight(x, y)
      else if n == 0x7 then SubNeg(x, y)
      else if n == 0xE then ShiftLeft(x, y)
      else Illegal
    else if code == 0x9 then SkipNeReg(x, y)
    else if code == 0xA then LoadIndex(Address(hi, lo))
    else if code == 0xB then JumpOffset(Address(hi, lo))
    else if code == 0xC then Random(x, lo)
    else if code == 0xD then Draw(x, y, n)
    else if code == 0xE && lo == 0x9E then SkipKeyDown(x)
    else if code == 0xE && lo == 0xA1 then SkipKeyUp(x)
    else if code == 0xF && lo == 0x07 then LoadDelay(x)
    else if code == 0xF && lo == 0x0A then WaitKey(x)
    else if code == 0xF && lo == 0x15 then SetDelay(x)
    else if code == 0xF && lo == 0x18 then SetSound(x)
    else if code == 0xF && lo == 0x1E then AddIndex(x)
    else if code == 0xF && lo == 0x29 then LoadFont(x)
    else if code == 0xF && lo == 0x33 then StoreBcd(x)
    else if code == 0xF && lo == 0x55 then StoreRegs(x)
    else if code == 0xF && lo == 0x65 then LoadRegs(x)
    else Illegal
  }

  /** The pair of bytes `(hi, lo)` holding the nibbles `a b c d`, in that order. */
  function Nibbles(a: nibble, b: nibble, c: nibble, d: nibble): (w: (byte, byte))
    ensures w.0 / 16 == a && w.0 % 16 == b && w.1 / 16 == c && w.1 % 16 == d
  {
    (16 * a + b, 16 * c + d)
  }

  /** The pair of bytes `(hi, lo)` of opcode `op`, register `x` and byte `kk`. */
  function WithByte(op: nibble, x: nibble, kk: byte): (w: (byte, byte))
    ensures w.0 / 16 == op && w.0 % 16 == x && w.1 == kk
  {
    (16 * op + x, kk)
  }

  /** The pair of bytes `(hi, lo)` of opcode `op` followed by an address. */
  function WithAddress(op: nibble, nnn: addr): (w: (byte, byte))
    ensures w.0 / 16 == op && Address(w.0, w.1) == nnn
  {
    (16 * op + nnn / 0x100, nnn % 0x100)
  }

  /**
   * The canonical instruction word of each instruction: the one an assembler
   * emits, with zero in every field the instruction does not use.
   * `Illegal` is given 0x0000, which the 0x0 group rejects.
   */
  function Encode(ins: Instr): (w: (byte, byte))
  {
    match ins
    case Cls => (0x00, 0xE0)
    case Ret => (0x00, 0xEE)
    case Jump(nnn) => WithAddress(0x1, nnn)
    case Call(nnn) => WithAddress(0x2, nnn)
    case SkipEqByte(x, kk) => WithByte(0x3, x, kk)
    case SkipNeByte(x, kk) => WithByte(0x4, x, kk)
    case SkipEqReg(x, y) => Nibbles(0x5, x, y, 0x0)
    case LoadByte(x, kk) => WithByte(0x6, x, kk)
    case AddByte(x, kk) => WithByte(0x7, x, kk)
    case LoadReg(x, y) => Nibbles(0x8, x, y, 0x0)
    case OrReg(x, y) => Nibbles(0x8, x, y, 0x1)
    case AndReg(x, y) => Nibbles(0x8, x, y, 0x2)
    case XorReg(x, y) => Nibbles(0x8, x, y, 0x3)
    case AddReg(x, y) => Nibbles(0x8, x, y, 0x4)
    case SubReg(x, y) => Nibbles(0x8, x, y, 0x5)
    case ShiftRight(x, y) => Nibbles(0x8, x, y, 0x6)
    case SubNeg(x, y) => Nibbles(0x8, x, y, 0x7)
    case ShiftLeft(x, y) => Nibbles(0x8, x, y, 0xE)
    case SkipNeReg(x, y) => Nibbles(0x9, x, y, 0x0)
    case LoadIndex(nnn) => WithAddress(0xA, nnn)
    case JumpOffset(nnn) => WithAddress(0xB, nnn)
    case Random(x, kk) => WithByte(0xC, x, kk)
    case Draw(x, y, n) => Nibbles(0xD, x, y, n)
    case SkipKeyDown(x) => WithByte(0xE, x, 0x9E)
    case SkipKeyUp(x) => WithByte(0xE, x, 0xA1)
    case LoadDelay(x) => WithByte(0xF, x, 0x07)
    case WaitKey(x) => WithByte(0xF, x, 0x0A)
    case SetDelay(x) => WithByte(0xF, x, 0x15)
    case SetSound(x) => WithByte(0xF, x, 0x18)
    case AddIndex(x) => WithByte(0xF, x, 0x1E)
    case LoadFont(x) => WithByte(0xF, x, 0x29)
    case StoreBcd(x) => WithByte(0xF, x, 0x33)
    case StoreRegs(x) => WithByte(0xF, x, 0x55)
    case LoadRegs(x) => WithByte(0xF, x, 0x65)
    case Illegal => (0x00, 0x00)
  }

  /** Every instruction, `Illegal` included, decodes back from its canonical word. */
  lemma DecodeEncode(ins: Instr)
    ensures Decode(Encode(ins).0, Encode(ins).1) == ins
  {
    if ins.Jump? || ins.Call? || ins.LoadIndex? || ins.JumpOffset? {
      DecodeEncodeAddress(ins);
    } else if HasRegisterPair(ins) {
      DecodeEncodeRegisters(ins);
    } else {
      DecodeEncodeRest(ins);
    }
  }

  /** Instructions whose operands are two registers (and, for Dxyn, a height). */
  predicate HasRegisterPair(ins: Instr)
  {
    || ins.SkipEqReg? || ins.LoadReg? || ins.OrReg? || ins.AndReg? || ins.XorReg?
    || ins.AddReg? || ins.SubReg? || ins.ShiftRight? || ins.SubNeg? || ins.ShiftLeft?
    || ins.SkipNeReg? || ins.Draw?
  }

  lemma DecodeEncodeAddress(ins: Instr)
    requires ins.Jump? || ins.Call? || ins.LoadIndex? || ins.JumpOffset?
    ensures Decode(Encode(ins).0, Encode(ins).1) == ins
  {
  }

  lemma DecodeEncodeRegisters(ins: Instr)
    requires HasRegisterPair(ins)
    ensures Decode(Encode(ins).0, Encode(ins).1) == ins
  {
  }

  lemma DecodeEncodeRest(ins: Instr)
    requires !(ins.Jump? || ins.Call? || ins.LoadIndex? || ins.JumpOffset?) && !HasRegisterPair(ins)
    ensures Decode(Encode(ins).0, Encode(ins).1) == ins
  {
  }

  /** The 0x0 group ignores the second nibble: 0x01E0 clears the screen like 0x00E0. */
  lemma SystemGroupIgnoresX(hi: byte, lo: byte)
    requires hi / 16 == 0
    ensures Decode(hi, lo) == Decode(0x00, lo)
  {
  }

  /** 5xy? and 9xy? never look at their last nibble. */
  lemma RegisterSkipsIgnoreLastNibble(hi: byte, lo: byte)
    requires hi / 16 == 0x5 || hi / 16 == 0x9
    ensures Decode(hi, lo) == Decode(hi, 16 * (lo / 16))
  {
  }

  /** Exactly which words the engine rejects as illegal. */
  lemma IllegalWords(hi: byte, lo: byte)
    ensures Decode(hi, lo) == Illegal <==>
      || (hi / 16 == 0x0 && lo != 0xE0 && lo != 0xEE)
      || (hi / 16 == 0x8 && lo % 16 in {0x8, 0x9, 0xA, 0xB, 0xC, 0xD, 0xF})
      || (hi / 16 == 0xE && lo != 0x9E && lo != 0xA1)
      || (hi / 16 == 0xF && lo !in {0x07, 0x0A, 0x15, 0x18, 0x1E, 0x29, 0x33, 0x55, 0x65})
  {
  }
}
