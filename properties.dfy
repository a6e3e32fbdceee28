/**
 * What the engine promises, proved of the functions in module Machine: how PC
 * moves, the call stack, the arithmetic and its flags, sprite drawing, the
 * decimal and register copies, the key wait, the timers and the start-up state.
 */
module Properties {
  import opened Bytes
  import opened Opcodes
  import opened Wrappers
  import opened Machine

  // ----- PC, jumps, skips, call and return -------------------------------------

  /** Every instruction that does not jump, call, return, skip or wait moves PC on by one instruction. */
  lemma PcAdvancesByTwo(s: State, ins: Instr, rnd: byte)
    requires WellFormed(s) && s.pc + 1 < MemorySize
    requires !IsSkip(ins) && !ins.Illegal? && !ins.WaitKey?
    requires !(ins.Ret? || ins.Jump? || ins.Call? || ins.JumpOffset?)
    requires Execute(s, ins, rnd).result == Status(NoError)
    ensures Execute(s, ins, rnd).next.pc == s.pc + 2
  {
  }

  /** A skip moves PC on by 4 when its condition holds and by 2 otherwise, and changes nothing else. */
  lemma SkipAdvance(s: State, ins: Instr, rnd: byte)
    requires WellFormed(s) && s.pc + 1 < MemorySize && IsSkip(ins) && KeyInRange(s, ins)
    ensures var t := Execute(s, ins, rnd);
      && t.result == Status(NoError)
      && t.next == s.(pc := t.next.pc)
      && (t.next.pc == s.pc + 4 || t.next.pc == s.pc + 2)
      && (ins.SkipEqByte? ==> (t.next.pc == s.pc + 4 <==> s.v[ins.x] == ins.kk))
      && (ins.SkipNeByte? ==> (t.next.pc == s.pc + 4 <==> s.v[ins.x] != ins.kk))
      && (ins.SkipEqReg? ==> (t.next.pc == s.pc + 4 <==> s.v[ins.x] == s.v[ins.y]))
      && (ins.SkipNeReg? ==> (t.next.pc == s.pc + 4 <==> s.v[ins.x] != s.v[ins.y]))
      && (ins.SkipKeyDown? ==> (t.next.pc == s.pc + 4 <==> s.keyboard[s.v[ins.x]]))
      && (ins.SkipKeyUp? ==> (t.next.pc == s.pc + 4 <==> !s.keyboard[s.v[ins.x]]))
  {
  }

  /** 3xkk and 4xkk, 5xy? and 9xy?, Ex9E and ExA1 test opposite conditions. */
  lemma SkipOpposites(s: State, x: nibble, y: nibble, kk: byte)
    requires WellFormed(s)
    ensures SkipTaken(s, SkipEqByte(x, kk)) <==> !SkipTaken(s, SkipNeByte(x, kk))
    ensures SkipTaken(s, SkipEqReg(x, y)) <==> !SkipTaken(s, SkipNeReg(x, y))
    ensures s.v[x] < KeyCount ==> (SkipTaken(s, SkipKeyDown(x)) <==> !SkipTaken(s, SkipKeyUp(x)))
  {
  }

  /** A key skip on a register holding 16 or more reads past the keyboard: a fault. */
  lemma SkipKeyOutOfRange(s: State, ins: Instr, rnd: byte)
    requires WellFormed(s) && s.pc + 1 < MemorySize && (ins.SkipKeyDown? || ins.SkipKeyUp?)
    ensures Execute(s, ins, rnd).result == Status(NoError) <==> s.v[ins.x] < KeyCount
  {
  }

  /**
   * 2nnn pushes the address of the next instruction and jumps; an 00EE at the
   * target comes back to that address with SP where it was.
   */
  lemma CallThenReturn(s: State, nnn: addr, rnd: byte)
    requires WellFormed(s) && s.pc + 1 < MemorySize && s.sp < StackDepth && nnn + 1 < MemorySize
    ensures var c := Execute(s, Call(nnn), rnd);
      && c.result == Status(NoError)
      && c.next.pc == nnn && c.next.sp == s.sp + 1 && c.next.stack[s.sp] == s.pc + 2
      && var r := Execute(c.next, Ret, rnd);
         && r.result == Status(NoError)
         && r.next == s.(pc := s.pc + 2, stack := s.stack[s.sp := s.pc + 2])
  {
    var c := Execute(s, Call(nnn), rnd);
    assert c.next == s.(stack := s.stack[s.sp := s.pc + 2], sp := s.sp + 1, pc := nnn);
  }

  /** A call with the stack full and a return with it empty are faults. */
  lemma StackBounds(s: State, nnn: addr, rnd: byte)
    requires WellFormed(s) && s.pc + 1 < MemorySize
    ensures Execute(s, Call(nnn), rnd).result == Status(NoError) <==> s.sp < StackDepth
    ensures Execute(s, Ret, rnd).result == Status(NoError) <==> s.sp > 0
  {
  }

  /**
   * 00E0 blanks the display and moves PC by 2, 1nnn sets PC to nnn and Bnnn to nnn + V0.
   * None of the three can fault, and none of them touches anything else.
   */
  lemma FlowEffects(s: State, nnn: addr, rnd: byte)
    requires WellFormed(s) && s.pc + 1 < MemorySize
    ensures Execute(s, Cls, rnd) == Done(s.(pixel := BlankDisplay(), pc := s.pc + 2))
    ensures Execute(s, Jump(nnn), rnd) == Done(s.(pc := nnn))
    ensures Execute(s, JumpOffset(nnn), rnd) == Done(s.(pc := nnn + s.v[0]))
  {
  }

  /** Bnnn adds V0 without truncating to 12 bits; 0xBFFF with V0 == 0xFF leaves PC past memory, and the next fetch faults. */
  lemma JumpOffsetPastMemory(s: State, rnd: byte)
    requires WellFormed(s) && s.pc + 1 < MemorySize && s.v[0] == 0xFF
    ensures var t := Execute(s, JumpOffset(0xFFF), rnd);
      && t.next.pc == 0x10FE
      && Step(t.next, rnd) == Transition(t.next, Undefined(FetchOutOfRange))
  {
  }

  // ----- illegal words and faults ----------------------------------------------

  /**
   * `step` reports ILLEGAL_INSTRUCTION exactly for the words no rule matches,
   * and then, like on every other unsuccessful step, nothing changes, PC included.
   */
  lemma IllegalWordsChangeNothing(s: State, rnd: byte)
    requires WellFormed(s) && s.pc + 1 < MemorySize
    ensures var hi, lo := s.ram[s.pc], s.ram[s.pc + 1];
      Step(s, rnd).result == Status(IllegalInstruction) <==>
        || (hi / 16 == 0x0 && lo != 0xE0 && lo != 0xEE)
        || (hi / 16 == 0x8 && lo % 16 in {0x8, 0x9, 0xA, 0xB, 0xC, 0xD, 0xF})
        || (hi / 16 == 0xE && lo != 0x9E && lo != 0xA1)
        || (hi / 16 == 0xF && lo !in {0x07, 0x0A, 0x15, 0x18, 0x1E, 0x29, 0x33, 0x55, 0x65})
    ensures Step(s, rnd).result != Status(NoError) ==> Step(s, rnd).next == s
  {
    IllegalWords(s.ram[s.pc], s.ram[s.pc + 1]);
  }

  // ----- 7xkk and 8xy? ------------------------------------------------------------

  /** 7xkk adds modulo 256 and sets no flag: only Vx changes. */
  lemma AddByteWraps(v: seq<byte>, x: nibble, kk: byte, rnd: byte)
    requires |v| == RegisterCount
    ensures var r := Alu(v, AddByte(x, kk), rnd);
      && r[x] == (v[x] as int + kk) % 0x100
      && (v[x] as int + kk >= 0x100 ==> r[x] < v[x])
      && forall k :: 0 <= k < RegisterCount && k != x ==> r[k] == v[k]
  {
  }

  /** 8xy4: VF is the carry, Vx the low byte of the sum, and together they make up the sum. */
  lemma AddRegCarry(v: seq<byte>, x: nibble, y: nibble, rnd: byte)
    requires |v| == RegisterCount && x != Flag && y != Flag
    ensures var r := Alu(v, AddReg(x, y), rnd);
      && (r[Flag] == 1 <==> v[x] as int + v[y] > 0xFF)
      && (r[Flag] == 0 <==> v[x] as int + v[y] <= 0xFF)
      && r[x] == (v[x] as int + v[y]) % 0x100
      && r[x] as int + 0x100 * r[Flag] as int == v[x] as int + v[y]
      && forall k :: 0 <= k < Flag && k != x ==> r[k] == v[k]
  {
  }

  /** 8xy5: VF is 1 exactly when Vx is strictly greater than Vy; Vx is the difference modulo 256. */
  lemma SubRegBorrow(v: seq<byte>, x: nibble, y: nibble, rnd: byte)
    requires |v| == RegisterCount && x != Flag && y != Flag
    ensures var r := Alu(v, SubReg(x, y), rnd);
      && (r[Flag] == 1 <==> v[x] > v[y])
      && (r[Flag] == 0 <==> v[x] <= v[y])
      && r[x] == (v[x] as int - v[y]) % 0x100
      && forall k :: 0 <= k < Flag && k != x ==> r[k] == v[k]
  {
  }

  /** 8xy7: VF is 1 exactly when Vy is strictly greater than Vx; Vx becomes Vy - Vx modulo 256. */
  lemma SubNegBorrow(v: seq<byte>, x: nibble, y: nibble, rnd: byte)
    requires |v| == RegisterCount && x != Flag && y != Flag
    ensures var r := Alu(v, SubNeg(x, y), rnd);
      && (r[Flag] == 1 <==> v[y] > v[x])
      && (r[Flag] == 0 <==> v[y] <= v[x])
      && r[x] == (v[y] as int - v[x]) % 0x100
      && forall k :: 0 <= k < Flag && k != x ==> r[k] == v[k]
  {
  }

  /** 8xy6: VF is the bit shifted out at the bottom; Vy is not read. */
  lemma ShiftRightFlag(v: seq<byte>, x: nibble, y: nibble, rnd: byte)
    requires |v| == RegisterCount && x != Flag
    ensures var r := Alu(v, ShiftRight(x, y), rnd);
      && r[Flag] == v[x] % 2
      && r[x] == v[x] / 2
      && 2 * r[x] as int + r[Flag] == v[x]
      && forall k :: 0 <= k < Flag && k != x ==> r[k] == v[k]
  {
    AndOne(v[x]);
  }

  /** 8xyE: VF is the bit shifted out at the top, left in place (0 or 0x80, never 1); Vy is not read. */
  lemma ShiftLeftFlag(v: seq<byte>, x: nibble, y: nibble, rnd: byte)
    requires |v| == RegisterCount && x != Flag
    ensures var r := Alu(v, ShiftLeft(x, y), rnd);
      && r[Flag] == (if v[x] >= 0x80 then 0x80 else 0)
      && r[x] == 2 * v[x] as int % 0x100
      && r[x] as int + 2 * r[Flag] as int == 2 * v[x] as int
      && forall k :: 0 <= k < Flag && k != x ==> r[k] == v[k]
  {
    AndHighBit(v[x]);
  }

  /** Because VF is written first, 8xy4 with y == F adds the fresh carry instead of the old VF. */
  lemma AddRegReadsNewFlag(v: seq<byte>, x: nibble, rnd: byte)
    requires |v| == RegisterCount && x != Flag
    ensures var r := Alu(v, AddReg(x, Flag), rnd);
      r[x] == (v[x] as int + (if v[x] as int + v[Flag] > 0xFF then 1 else 0)) % 0x100
  {
  }

  /**
   * 8xy4 with VF as an operand: the carry is computed from the old values,
   * then the addition reads VF again and finds the carry there.
   */
  lemma AddWithFlagOperand(v: seq<byte>, x: nibble, y: nibble, rnd: byte)
    requires |v| == RegisterCount && (x == Flag || y == Flag)
    ensures var c, r := (if v[x] as int + v[y] > 0xFF then 1 else 0), Alu(v, AddReg(x, y), rnd);
      && (x == Flag ==> r[Flag] == (c as int + (if y == Flag then c else v[y])) % 0x100)
      && (x != Flag ==> r[Flag] == c && r[x] == (v[x] as int + c) % 0x100)
      && forall k :: 0 <= k < Flag && k != x ==> r[k] == v[k]
  {
  }

  /** 8xy5 with VF as an operand: the subtraction reads the fresh no-borrow flag. */
  lemma SubWithFlagOperand(v: seq<byte>, x: nibble, y: nibble, rnd: byte)
    requires |v| == RegisterCount && (x == Flag || y == Flag)
    ensures var c, r := (if v[x] > v[y] then 1 else 0), Alu(v, SubReg(x, y), rnd);
      && (x == Flag ==> r[Flag] == (c as int - (if y == Flag then c else v[y])) % 0x100)
      && (x != Flag ==> r[Flag] == c && r[x] == (v[x] as int - c) % 0x100)
      && forall k :: 0 <= k < Flag && k != x ==> r[k] == v[k]
  {
  }

  /** 8xy7 with VF as an operand: the subtraction reads the fresh no-borrow flag. */
  lemma SubNegWithFlagOperand(v: seq<byte>, x: nibble, y: nibble, rnd: byte)
    requires |v| == RegisterCount && (x == Flag || y == Flag)
    ensures var c, r := (if v[y] > v[x] then 1 else 0), Alu(v, SubNeg(x, y), rnd);
      && (x == Flag ==> r[Flag] == ((if y == Flag then c else v[y]) as int - c) % 0x100)
      && (x != Flag ==> r[Flag] == c && r[x] == (c - v[x] as int) % 0x100)
      && forall k :: 0 <= k < Flag && k != x ==> r[k] == v[k]
  {
  }

  /** And a shift of VF itself always leaves VF at 0, whatever was shifted out. */
  lemma ShiftFlagRegister(v: seq<byte>, y: nibble, rnd: byte)
    requires |v| == RegisterCount
    ensures Alu(v, ShiftRight(Flag, y), rnd)[Flag] == 0
    ensures Alu(v, ShiftLeft(Flag, y), rnd)[Flag] == 0
  {
    AndOne(v[Flag]);
    AndHighBit(v[Flag]);
  }

  /** 8xy1: bit k of Vx ends up set exactly when it was set in Vx or in Vy; no other register changes. */
  lemma OrRegBits(v: seq<byte>, x: nibble, y: nibble, k: nat, rnd: byte)
    requires |v| == RegisterCount
    ensures var r := Alu(v, OrReg(x, y), rnd);
      && BitAt(r[x], k) == (if BitAt(v[x], k) == 1 || BitAt(v[y], k) == 1 then 1 else 0)
      && forall j :: 0 <= j < RegisterCount && j != x ==> r[j] == v[j]
  {
    OrBits(v[x], v[y], k);
  }

  /** 8xy2: bit k of Vx ends up set exactly when it was set in both Vx and Vy; no other register changes. */
  lemma AndRegBits(v: seq<byte>, x: nibble, y: nibble, k: nat, rnd: byte)
    requires |v| == RegisterCount
    ensures var r := Alu(v, AndReg(x, y), rnd);
      && BitAt(r[x], k) == BitAt(v[x], k) * BitAt(v[y], k)
      && forall j :: 0 <= j < RegisterCount && j != x ==> r[j] == v[j]
  {
    AndBits(v[x], v[y], k);
  }

  /** 8xy3: bit k of Vx ends up set exactly when it was set in one of Vx and Vy only; no other register changes. */
  lemma XorRegBits(v: seq<byte>, x: nibble, y: nibble, k: nat, rnd: byte)
    requires |v| == RegisterCount
    ensures var r := Alu(v, XorReg(x, y), rnd);
      && BitAt(r[x], k) == (BitAt(v[x], k) + BitAt(v[y], k)) % 2
      && forall j :: 0 <= j < RegisterCount && j != x ==> r[j] == v[j]
  {
    XorBits(v[x], v[y], k);
  }

  /** 8xy3 undoes itself when x and y differ. */
  lemma XorRegTwice(v: seq<byte>, x: nibble, y: nibble, rnd: byte)
    requires |v| == RegisterCount && x != y
    ensures Alu(Alu(v, XorReg(x, y), rnd), XorReg(x, y), rnd) == v
  {
    XorTwice(v[x], v[y]);
  }

  /** Cxkk keeps only the bits of the random byte that kk allows. */
  lemma RandomMasked(v: seq<byte>, x: nibble, kk: byte, rnd: byte)
    requires |v| == RegisterCount
    ensures var r := Alu(v, Random(x, kk), rnd);
      && r[x] == And(rnd, kk) && r[x] <= kk && r[x] <= rnd
      && (kk == 0 ==> r[x] == 0)
      && forall k :: 0 <= k < RegisterCount && k != x ==> r[k] == v[k]
  {
  }

  // ----- Dxyn ---------------------------------------------------------------------

  /**
   * Sprite pixel (row, col) comes before the first `j` pixels end, in the
   * order the engine draws them: row by row, column by column.
   */
  predicate Before(row: nat, col: nat, j: nat)
  {
    col < 8 && 8 * row + col < j
  }

  /** Some of the first `j` sprite pixels lands on display cell `k`. */
  ghost predicate Covered(vx: byte, vy: byte, j: nat, k: nat)
  {
    exists row, col :: Before(row, col, j) && SpritePos(vx, vy, row, col) == k
  }

  /** Sprite pixel (row, col) is set and lands on a lit cell of `d`. */
  predicate Collides(d: seq<byte>, ram: seq<byte>, i: word, vx: byte, vy: byte, row: nat, col: nat)
    requires DisplayShape(d) && i + row < |ram| && col < 8
  {
    d[SpritePos(vx, vy, row, col)] == 1 && SpriteBit(ram, i, row, col) == 1
  }

  /** Wrapping a byte sum onto the display keeps it distinct from the other sums of a short run. */
  lemma WrapDistinct(v: byte, a: nat, b: nat, size: nat)
    requires size == DisplayWidth || size == DisplayHeight
    requires a < size && b < size
    requires Trunc8(v + a) % size == Trunc8(v + b) % size
    ensures a == b
  {
    TruncSum(v, a);
    TruncSum(v, b);
    SameResidue(Trunc8(v + a), Trunc8(v + b), a, b, size);
  }

  /** A byte plus a small offset wraps at most once. */
  lemma TruncSum(v: byte, a: nat)
    requires a < 0x100
    ensures Trunc8(v + a) == v + a || Trunc8(v + a) == v + a - 0x100
  {
  }

  /** Two bytes that differ by less than `size` (modulo 0x100) and agree modulo `size` are equal. */
  lemma SameResidue(ta: byte, tb: byte, a: nat, b: nat, size: nat)
    requires size == DisplayWidth || size == DisplayHeight
    requires a < size && b < size
    requires ta - tb == a - b || ta - tb == a - b + 0x100 || ta - tb == a - b - 0x100
    requires ta % size == tb % size
    ensures a == b
  {
    assert ta == size * (ta / size) + ta % size;
    assert tb == size * (tb / size) + tb % size;
  }

  /** No two pixels of a sprite of at most 16 rows land on the same display cell. */
  lemma SpritePosInjective(vx: byte, vy: byte, row: nat, col: nat, row': nat, col': nat)
    requires row < 16 && row' < 16 && col < 8 && col' < 8
    requires SpritePos(vx, vy, row, col) == SpritePos(vx, vy, row', col')
    ensures row == row' && col == col'
  {
    var px, py := Trunc8(vx + col) % DisplayWidth, Trunc8(vy + row) % DisplayHeight;
    var px', py' := Trunc8(vx + col') % DisplayWidth, Trunc8(vy + row') % DisplayHeight;
    assert px * DisplayHeight + py == px' * DisplayHeight + py';
    assert py == py' && px == px';
    WrapDistinct(vx, col, col', DisplayWidth);
    WrapDistinct(vy, row, row', DisplayHeight);
  }

  /**
   * `r` is `c` after the first `j` sprite pixels, when neither coordinate
   * register is VF: each of them landed on its own cell, which was XORed with
   * its bit; no other cell changed; and VF was set exactly when one of them hit
   * a lit cell.
   */
  ghost predicate Drawn(c: Canvas, r: Canvas, ram: seq<byte>, i: word, x: nibble, y: nibble, j: nat)
    requires CanvasShape(c) && x != Flag && y != Flag
    requires j == 0 || j <= 8 * (|ram| - i)
  {
    var vx, vy := c.v[x], c.v[y];
    && FlagAndDisplayOnly(c, r)
    && (forall row, col :: Before(row, col, j) ==>
          r.pixel[SpritePos(vx, vy, row, col)] ==
            Xor(c.pixel[SpritePos(vx, vy, row, col)], SpriteBit(ram, i, row, col)))
    && (forall k :: 0 <= k < |c.pixel| && !Covered(vx, vy, j, k) ==> r.pixel[k] == c.pixel[k])
    && r.v[Flag] ==
         if exists row, col :: Before(row, col, j) && Collides(c.pixel, ram, i, vx, vy, row, col)
         then 1 else c.v[Flag]
  }

  /** Drawing pixel (row, col) after the ones before it keeps `Drawn`. */
  lemma DrawnStep(c: Canvas, p: Canvas, ram: seq<byte>, i: word, x: nibble, y: nibble, row: nat, col: nat, j: nat)
    requires CanvasShape(c) && x != Flag && y != Flag && row < 16 && col < 8 && i + row < |ram|
    requires j == 8 * row + col
    requires Drawn(c, p, ram, i, x, y, j)
    ensures Drawn(c, DrawPixel(p, ram, i, x, y, row, col), ram, i, x, y, j + 1)
  {
    var vx, vy := c.v[x], c.v[y];
    var pos := SpritePos(vx, vy, row, col);
    var bit := SpriteBit(ram, i, row, col);
    var r := DrawPixel(p, ram, i, x, y, row, col);
    assert !Covered(vx, vy, j, pos) by {
      forall row', col' | Before(row', col', j)
        ensures SpritePos(vx, vy, row', col') != pos
      {
        if SpritePos(vx, vy, row', col') == pos {
          SpritePosInjective(vx, vy, row', col', row, col);
        }
      }
    }
    assert p.pixel[pos] == c.pixel[pos];
    assert r.pixel == p.pixel[pos := Xor(c.pixel[pos], bit)];
    assert r.v == if c.pixel[pos] == 1 && bit == 1 then p.v[Flag := 1] else p.v;
    DrawnStepPixels(c, p, r, ram, i, x, y, row, col);
    var hitBefore := exists row', col' :: Before(row', col', j) && Collides(c.pixel, ram, i, vx, vy, row', col');
    var hitNow := exists row', col' :: Before(row', col', j + 1) && Collides(c.pixel, ram, i, vx, vy, row', col');
    assert Collides(c.pixel, ram, i, vx, vy, row, col) <==> c.pixel[pos] == 1 && bit == 1;
    assert hitNow ==> hitBefore || Collides(c.pixel, ram, i, vx, vy, row, col) by {
      if hitNow {
        var row', col' :| Before(row', col', j + 1) && Collides(c.pixel, ram, i, vx, vy, row', col');
        if !Before(row', col', j) {
          assert row' == row && col' == col;
        }
      }
    }
    assert Before(row, col, j + 1);
  }

  /** The display half of DrawnStep. */
  lemma DrawnStepPixels(c: Canvas, p: Canvas, r: Canvas, ram: seq<byte>, i: word, x: nibble, y: nibble, row: nat, col: nat)
    requires CanvasShape(c) && x != Flag && y != Flag && row < 16 && col < 8 && i + row < |ram|
    requires Drawn(c, p, ram, i, x, y, 8 * row + col) && CanvasShape(r)
    requires var pos := SpritePos(c.v[x], c.v[y], row, col);
      r.pixel == p.pixel[pos := Xor(c.pixel[pos], SpriteBit(ram, i, row, col))]
    ensures var vx, vy, j := c.v[x], c.v[y], 8 * row + col + 1;
      && (forall row', col' :: Before(row', col', j) ==>
            r.pixel[SpritePos(vx, vy, row', col')] ==
              Xor(c.pixel[SpritePos(vx, vy, row', col')], SpriteBit(ram, i, row', col')))
      && (forall k :: 0 <= k < |c.pixel| && !Covered(vx, vy, j, k) ==> r.pixel[k] == c.pixel[k])
  {
    var vx, vy, j := c.v[x], c.v[y], 8 * row + col;
    var pos := SpritePos(vx, vy, row, col);
    forall row', col' | Before(row', col', j + 1)
      ensures r.pixel[SpritePos(vx, vy, row', col')] ==
        Xor(c.pixel[SpritePos(vx, vy, row', col')], SpriteBit(ram, i, row', col'))
    {
      if SpritePos(vx, vy, row', col') == pos {
        SpritePosInjective(vx, vy, row', col', row, col);
      }
    }
    forall k | 0 <= k < |c.pixel| && !Covered(vx, vy, j + 1, k)
      ensures r.pixel[k] == c.pixel[k]
    {
      assert Before(row, col, j + 1);
      assert k != pos;
      assert !Covered(vx, vy, j, k);
    }
  }

  /** The inner loop of Dxyn keeps `Drawn`, from the start of row `row` on, up to pixel `j`. */
  lemma {:induction false} DrawnRow(c: Canvas, p: Canvas, ram: seq<byte>, i: word, x: nibble, y: nibble, row: nat, cols: nat, j: nat)
    requires CanvasShape(c) && x != Flag && y != Flag && row < 16 && i + row < |ram| && cols <= 8
    requires j == 8 * row + cols
    requires Drawn(c, p, ram, i, x, y, 8 * row)
    ensures Drawn(c, DrawRow(p, ram, i, x, y, row, cols), ram, i, x, y, j)
  {
    if cols > 0 {
      var q := DrawRow(p, ram, i, x, y, row, cols - 1);
      DrawnRow(c, p, ram, i, x, y, row, cols - 1, j - 1);
      DrawnStep(c, q, ram, i, x, y, row, cols - 1, j - 1);
      assert DrawRow(p, ram, i, x, y, row, cols) == DrawPixel(q, ram, i, x, y, row, cols - 1);
    }
  }

  /** The outer loop of Dxyn keeps `Drawn`. */
  lemma {:induction false} DrawnRows(c: Canvas, ram: seq<byte>, i: word, x: nibble, y: nibble, rows: nat)
    requires CanvasShape(c) && x != Flag && y != Flag && rows <= 16 && (rows == 0 || i + rows <= |ram|)
    ensures Drawn(c, DrawRows(c, ram, i, x, y, rows), ram, i, x, y, 8 * rows)
  {
    if rows > 0 {
      var q := DrawRows(c, ram, i, x, y, rows - 1);
      DrawnRows(c, ram, i, x, y, rows - 1);
      DrawnRow(c, q, ram, i, x, y, rows - 1, 8, 8 * rows);
      assert DrawRows(c, ram, i, x, y, rows) == DrawRow(q, ram, i, x, y, rows - 1, 8);
    }
  }

  /**
   * Dxyn, when neither Vx nor Vy is VF: every sprite bit is XORed into its
   * wrapped cell, all other cells keep their value, VF is 1 exactly when a set
   * bit met a lit cell and 0 otherwise, and only the display, VF and PC change.
   */
  lemma DrawEffect(s: State, x: nibble, y: nibble, n: nibble, rnd: byte)
    requires WellFormed(s) && s.pc + 1 < MemorySize && x != Flag && y != Flag
    requires n == 0 || s.i + n <= MemorySize
    ensures var t, vx, vy := Execute(s, Draw(x, y, n), rnd), s.v[x], s.v[y];
      && t.result == Status(NoError)
      && t.next == s.(v := t.next.v, pixel := t.next.pixel, pc := s.pc + 2)
      && (forall k :: 0 <= k < Flag ==> t.next.v[k] == s.v[k])
      && (forall row, col :: 0 <= row < n && 0 <= col < 8 ==>
            t.next.pixel[SpritePos(vx, vy, row, col)] ==
              Xor(s.pixel[SpritePos(vx, vy, row, col)], SpriteBit(s.ram, s.i, row, col)))
      && (forall k :: 0 <= k < |s.pixel| && !Covered(vx, vy, 8 * n, k) ==> t.next.pixel[k] == s.pixel[k])
      && t.next.v[Flag] ==
           if exists row, col :: 0 <= row < n && 0 <= col < 8 && Collides(s.pixel, s.ram, s.i, vx, vy, row, col)
           then 1 else 0
  {
    DrawnRows(Canvas(s.v[Flag := 0], s.pixel), s.ram, s.i, x, y, n);
  }

  /** Dxyn succeeds exactly when the n sprite bytes from I lie inside memory, whatever the registers. */
  lemma DrawInRange(s: State, x: nibble, y: nibble, n: nibble, rnd: byte)
    requires WellFormed(s) && s.pc + 1 < MemorySize
    ensures Execute(s, Draw(x, y, n), rnd).result == Status(NoError) <==> (n == 0 || s.i + n <= MemorySize)
  {
  }

  /** Drawing the same sprite twice at the same place puts the display back as it was. */
  lemma DrawTwiceRestores(s: State, x: nibble, y: nibble, n: nibble, rnd: byte)
    requires WellFormed(s) && s.pc + 3 < MemorySize && x != Flag && y != Flag
    requires n == 0 || s.i + n <= MemorySize
    ensures var t1 := Execute(s, Draw(x, y, n), rnd);
      var t2 := Execute(t1.next, Draw(x, y, n), rnd);
      && t2.result == Status(NoError)
      && t2.next.pixel == s.pixel
      && t2.next == s.(v := t2.next.v, pc := s.pc + 4)
  {
    var t1 := Execute(s, Draw(x, y, n), rnd);
    DrawEffect(s, x, y, n, rnd);
    var s1 := t1.next;
    DrawEffect(s1, x, y, n, rnd);
    var t2 := Execute(s1, Draw(x, y, n), rnd);
    var vx, vy := s.v[x], s.v[y];
    assert s1.v[x] == vx && s1.v[y] == vy;
    forall k | 0 <= k < |s.pixel|
      ensures t2.next.pixel[k] == s.pixel[k]
    {
      if Covered(vx, vy, 8 * n, k) {
        var row, col :| Before(row, col, 8 * n) && SpritePos(vx, vy, row, col) == k;
        XorTwice(s.pixel[k], SpriteBit(s.ram, s.i, row, col));
      }
    }
  }

  // ----- Fx33, Fx55, Fx65 ------------------------------------------------------------

  /** Fx33 writes three decimal digits of Vx at I, I + 1, I + 2 and touches nothing else but PC. */
  lemma BcdDigits(s: State, x: nibble, rnd: byte)
    requires WellFormed(s) && s.pc + 1 < MemorySize && s.i + 2 < MemorySize
    ensures var t := Execute(s, StoreBcd(x), rnd);
      var a, b, c := t.next.ram[s.i], t.next.ram[s.i + 1], t.next.ram[s.i + 2];
      && t.result == Status(NoError)
      && a <= 2 && b <= 9 && c <= 9
      && 100 * a + 10 * b + c == s.v[x]
      && (forall k :: 0 <= k < MemorySize && !(s.i <= k <= s.i + 2) ==> t.next.ram[k] == s.ram[k])
      && t.next == s.(ram := t.next.ram, pc := s.pc + 2)
  {
    var ram := WriteDigits(s.ram, s.i, s.v[x]);
    assert Execute(s, StoreBcd(x), rnd) == Done(s.(ram := ram, pc := s.pc + 2));
    assert ram[s.i] == s.v[x] / 100 && ram[s.i + 1] == s.v[x] / 10 % 10 && ram[s.i + 2] == s.v[x] % 10;
    ByteDigits(s.v[x]);
  }

  /** A byte is the sum of its hundreds, tens and units digits. */
  lemma ByteDigits(v: byte)
    ensures v / 100 <= 2 && v / 10 % 10 <= 9 && v % 10 <= 9
    ensures 100 * (v / 100) + 10 * (v / 10 % 10) + v % 10 == v
  {
    var q := v / 10;
    assert v == 10 * q + v % 10;
    assert q == 10 * (q / 10) + q % 10;
    assert v / 100 == q / 10;
  }

  /** Fx33 succeeds exactly when I + 2 lies inside memory. */
  lemma BcdInRange(s: State, x: nibble, rnd: byte)
    requires WellFormed(s) && s.pc + 1 < MemorySize
    ensures Execute(s, StoreBcd(x), rnd).result == Status(NoError) <==> s.i + 2 < MemorySize
  {
  }

  /** 255 is stored as the digits 2, 5, 5. */
  lemma Bcd255(ram: seq<byte>, at: nat)
    requires at + 2 < |ram|
    ensures WriteDigits(ram, at, 255)[at..at + 3] == [2, 5, 5]
  {
  }

  /** Fx55 copies V0..Vx to I..I + x, leaves the rest of memory and I alone, and Fx55 beyond memory is a fault. */
  lemma StoreRegsEffect(s: State, x: nibble, rnd: byte)
    requires WellFormed(s) && s.pc + 1 < MemorySize
    ensures var t := Execute(s, StoreRegs(x), rnd);
      && (t.result == Status(NoError) <==> s.i + x < MemorySize)
      && (t.result == Status(NoError) ==>
           && t.next == s.(ram := t.next.ram, pc := s.pc + 2)
           && (forall k :: 0 <= k <= x ==> t.next.ram[s.i + k] == s.v[k])
           && (forall a :: 0 <= a < MemorySize && !(s.i <= a <= s.i + x) ==> t.next.ram[a] == s.ram[a]))
  {
  }

  /** Fx65 loads V0..Vx from I..I + x and leaves the other registers, memory and I alone. */
  lemma LoadRegsEffect(s: State, x: nibble, rnd: byte)
    requires WellFormed(s) && s.pc + 1 < MemorySize
    ensures var t := Execute(s, LoadRegs(x), rnd);
      && (t.result == Status(NoError) <==> s.i + x < MemorySize)
      && (t.result == Status(NoError) ==>
           && t.next == s.(v := t.next.v, pc := s.pc + 2)
           && (forall k :: 0 <= k <= x ==> t.next.v[k] == s.ram[s.i + k])
           && (forall k :: x < k < RegisterCount ==> t.next.v[k] == s.v[k]))
  {
  }

  /**
   * Fx55 then Fx65 with the same I and x gives V0..Vx back, whatever the
   * registers held in between (`w`); the registers above x keep their new values.
   */
  lemma StoreThenLoad(s: State, x: nibble, w: seq<byte>, rnd: byte)
    requires WellFormed(s) && s.pc + 3 < MemorySize && s.i + x < MemorySize && |w| == RegisterCount
    ensures var t1 := Execute(s, StoreRegs(x), rnd);
      var t2 := Execute(t1.next.(v := w), LoadRegs(x), rnd);
      && t2.result == Status(NoError)
      && t2.next.i == s.i
      && (forall k :: 0 <= k <= x ==> t2.next.v[k] == s.v[k])
      && (forall k :: x < k < RegisterCount ==> t2.next.v[k] == w[k])
  {
    StoreRegsEffect(s, x, rnd);
  }

  // ----- Fx0A and the key latch -----------------------------------------------------

  /** Fx0A with no key reported yet: it raises WAIT_FOR_KEY and stays on the same instruction. */
  lemma WaitKeyPending(s: State, x: nibble, rnd: byte)
    requires WellFormed(s) && s.pc + 1 < MemorySize && !s.waitComplete
    ensures Execute(s, WaitKey(x), rnd) == Transition(s.(waitForKey := true), Status(NoError))
  {
  }

  /** Fx0A after a reported key: Vx gets the key, both flags drop and PC moves on. */
  lemma WaitKeyComplete(s: State, x: nibble, rnd: byte)
    requires WellFormed(s) && s.pc + 1 < MemorySize && s.waitComplete
    ensures var t := Execute(s, WaitKey(x), rnd);
      && t.result == Status(NoError)
      && t.next.v[x] == s.lastKey
      && !t.next.waitForKey && !t.next.waitComplete
      && t.next.pc == s.pc + 2
      && t.next == s.(v := t.next.v, pc := t.next.pc, waitForKey := false, waitComplete := false)
      && forall k :: 0 <= k < RegisterCount && k != x ==> t.next.v[k] == s.v[k]
  {
  }

  /** The handshake: Fx0A waits, a key goes down, and Fx0A then stores that key and moves on. */
  lemma PressEndsWait(s: State, x: nibble, key: nibble, rnd: byte)
    requires WellFormed(s) && s.pc + 1 < MemorySize && !s.waitComplete
    ensures var s1 := Execute(s, WaitKey(x), rnd).next;
      var s2 := Press(s1, key);
      var s3 := Execute(s2, WaitKey(x), rnd).next;
      && s1.pc == s.pc && s1.waitForKey && s2.waitComplete
      && s3.v[x] == key && s3.pc == s.pc + 2
      && !s3.waitForKey && !s3.waitComplete && s3.keyboard[key]
  {
  }

  /** A key press with no Fx0A waiting leaves WAIT_COMPLETE as it was; a release changes only that key. */
  lemma LatchFrame(s: State, key: nibble)
    requires WellFormed(s)
    ensures WellFormed(Press(s, key)) && WellFormed(Release(s, key))
    ensures !s.waitForKey ==> Press(s, key).waitComplete == s.waitComplete
    ensures Press(s, key).keyboard[key] && Press(s, key).lastKey == key
    ensures !Release(s, key).keyboard[key]
    ensures forall k :: 0 <= k < KeyCount && k != key ==>
      Press(s, key).keyboard[k] == s.keyboard[k] && Release(s, key).keyboard[k] == s.keyboard[k]
  {
  }

  // ----- annn, Fx1E, Fx29 ---------------------------------------------------------------

  /** Fx1E adds Vx to the 16-bit I, wrapping modulo 65536. */
  lemma AddIndexWraps(s: State, x: nibble, rnd: byte)
    requires WellFormed(s) && s.pc + 1 < MemorySize
    ensures var t := Execute(s, AddIndex(x), rnd);
      && t.next.i == (s.i as int + s.v[x]) % 0x1_0000
      && (s.i as int + s.v[x] >= 0x1_0000 ==> t.next.i < s.i)
      && t.next == s.(i := t.next.i, pc := s.pc + 2)
  {
  }

  /** Fx29 points I at five bytes per digit value; a register above 15 points past the font. */
  lemma LoadFontIndex(s: State, x: nibble, rnd: byte)
    requires WellFormed(s) && s.pc + 1 < MemorySize
    ensures var t := Execute(s, LoadFont(x), rnd);
      && t.next.i == 5 * s.v[x] as int
      && t.next.i <= 5 * 0xFF
      && t.next == s.(i := t.next.i, pc := s.pc + 2)
  {
  }

  // ----- timer -------------------------------------------------------------------------

  /** `n` calls of `timer`. */
  function Ticks(s: State, n: nat): (r: State)
    ensures r == s.(dt := r.dt, st := r.st)
    ensures r.dt == if s.dt >= n then s.dt - n else 0
    ensures r.st == if s.st >= n then s.st - n else 0
  {
    if n == 0 then s else Tick(Ticks(s, n - 1))
  }

  /** `timer` changes the state exactly when a timer is still running, and zero stays zero. */
  lemma TickIdle(s: State)
    ensures Tick(s) == s <==> s.dt == 0 && s.st == 0
    ensures Tick(s).dt <= s.dt && Tick(s).st <= s.st
  {
    if Tick(s) == s {
      assert Tick(s).dt == s.dt;
    }
  }

  // ----- init ----------------------------------------------------------------------------

  /**
   * After `init` with both files: registers, stack, timers, display, keys and
   * flags are clear, PC is 0x200, the program is at 0x200, the font from 0
   * wherever the program does not cover it, and the rest of memory is zero.
   */
  lemma BootLayout(font: seq<byte>, program: seq<byte>)
    requires |font| <= MemorySize && |program| <= MaxProgramSize
    ensures var (s, code) := Boot(Some(font), Some(program));
      && code == NoError
      && s == Reset().(ram := s.ram)
      && s.pc == ProgramStart && s.i == 0 && s.sp == 0 && s.dt == 0 && s.st == 0
      && (forall k :: 0 <= k < |program| ==> s.ram[ProgramStart + k] == program[k])
      && (forall k :: 0 <= k < |font| && !(ProgramStart <= k < ProgramStart + |program|) ==> s.ram[k] == font[k])
      && (forall k :: |font| <= k < MemorySize && !(ProgramStart <= k < ProgramStart + |program|) ==> s.ram[k] == 0)
  {
  }

  /** A missing font stops `init` after the reset; a missing program stops it after the font is loaded. */
  lemma BootMissingFile(font: Option<seq<byte>>, program: Option<seq<byte>>)
    requires font.Some? ==> |font.value| <= MemorySize
    requires program.Some? ==> |program.value| <= MaxProgramSize
    ensures font.None? ==> Boot(font, program) == (Reset(), StdFileNotFound)
    ensures font.Some? && program.None? ==>
      var (s, code) := Boot(font, program);
      && code == ProgramFileNotFound
      && s == Reset().(ram := s.ram)
      && forall k :: 0 <= k < MemorySize ==> s.ram[k] == if k < |font.value| then font.value[k] else 0
  {
  }

  /** The reset state: everything zero or false, except PC at the program start. */
  lemma ResetState()
    ensures var s := Reset();
      && (forall k :: 0 <= k < MemorySize ==> s.ram[k] == 0)
      && (forall k :: 0 <= k < RegisterCount ==> s.v[k] == 0)
      && (forall k :: 0 <= k < DisplayWidth * DisplayHeight ==> s.pixel[k] == 0)
      && (forall k :: 0 <= k < KeyCount ==> !s.keyboard[k])
      && s.i == 0 && s.pc == 0x200 && s.sp == 0 && s.dt == 0 && s.st == 0
      && !s.waitForKey && !s.waitComplete
  {
  }
}
