/**
 * The CHIP-8 engine's state as a value, and the meaning of each of its
 * operations as a function from the old state to the new one.  The class in
 * module Interpreter holds the same state in arrays and is proved to follow
 * these functions step by step.
 *
 * Where the engine would read or write outside one of its arrays (undefined
 * behaviour in the engine), the model stops with a `Fault` and leaves the
 * state as it was.
 */
module Machine {
  import opened Bytes
  import opened Opcodes
  import opened Wrappers

  const MemorySize := 4096
  const ProgramStart := 0x200
  const RegisterCount := 16
  const StackDepth := 16
  const KeyCount := 16
  const DisplayWidth := 64
  const DisplayHeight := 32
  /** The register the engine also uses as carry, borrow and collision flag. */
  const Flag := 15
  /** Largest program image that fits between ProgramStart and the end of memory. */
  const MaxProgramSize := MemorySize - ProgramStart

  /** The engine's error codes, in the order of its enumeration. */
  datatype ErrorCode = NoError | StdFileNotFound | ProgramFileNotFound | IllegalInstruction

  /** Index accesses the engine performs without a bounds check. */
  datatype Fault =
    | FetchOutOfRange    // RAM[PC + 1] with PC >= 4095
    | StackUnderflow     // 00EE with SP == 0
    | StackOverflow      // 2nnn with SP == 16
    | MemoryOutOfRange   // RAM[I + k] past 4095 in Dxyn, Fx33, Fx55, Fx65
    | KeyOutOfRange      // KEYBOARD[Vx] with Vx > 15 in Ex9E, ExA1

  /** What one call of `step` returns: an error code, or a fault where the engine's behaviour is undefined. */
  datatype StepResult = Status(code: ErrorCode) | Undefined(fault: Fault)

  datatype State = State(
    ram: seq<byte>,
    v: seq<byte>,
    i: word,
    pc: word,
    sp: byte,
    stack: seq<word>,
    dt: byte,
    st: byte,
    pixel: seq<byte>,        // PIXEL[x][y] at At(x, y)
    keyboard: seq<bool>,
    lastKey: byte,
    waitForKey: bool,
    waitComplete: bool)

  datatype Transition = Transition(next: State, result: StepResult)

  /** The fixed sizes of the engine's arrays, and a stack pointer within the stack. */
  predicate WellFormed(s: State)
  {
    && |s.ram| == MemorySize
    && |s.v| == RegisterCount
    && |s.stack| == StackDepth
    && s.sp <= StackDepth
    && DisplayShape(s.pixel)
    && |s.keyboard| == KeyCount
  }

  /** A 64 x 32 grid of pixels, laid out as the engine's `PIXEL[64][32]` is in memory. */
  predicate DisplayShape(d: seq<byte>)
  {
    |d| == DisplayWidth * DisplayHeight
  }

  /** Where `PIXEL[x][y]` lives in that layout. */
  function At(x: nat, y: nat): (k: nat)
    requires x < DisplayWidth && y < DisplayHeight
    ensures k < DisplayWidth * DisplayHeight
  {
    x * DisplayHeight + y
  }

  /** The display with every pixel off. */
  function BlankDisplay(): (d: seq<byte>)
    ensures DisplayShape(d)
    ensures forall k :: 0 <= k < |d| ==> d[k] == 0
  {
    seq(DisplayWidth * DisplayHeight, _ => 0)
  }

  // ----- step -----------------------------------------------------------------

  /** Fetch the two bytes at PC, decode them and execute the instruction. */
  function Step(s: State, rnd: byte): (t: Transition)
    requires WellFormed(s)
    ensures WellFormed(t.next)
    ensures t.result != Status(NoError) ==> t.next == s
    ensures t.result == Undefined(FetchOutOfRange) <==> s.pc + 1 >= MemorySize
    ensures t.result.Status? ==> t.result.code in {NoError, IllegalInstruction}
  {
    if s.pc + 1 >= MemorySize then Transition(s, Undefined(FetchOutOfRange))
    else Execute(s, Decode(s.ram[s.pc], s.ram[s.pc + 1]), rnd)
  }

  function Done(s: State): Transition
  {
    Transition(s, Status(NoError))
  }

  /** PC after a conditional skip: past the next instruction when the condition holds. */
  function SkipIf(pc: word, cond: bool): int
  {
    if cond then pc + 4 else pc + 2
  }

  /** Instructions that clear the screen, jump, or push and pop the stack. */
  predicate IsFlow(ins: Instr)
  {
    ins.Cls? || ins.Ret? || ins.Jump? || ins.Call? || ins.JumpOffset?
  }

  /** The six conditional skips. */
  predicate IsSkip(ins: Instr)
  {
    || ins.SkipEqByte? || ins.SkipNeByte? || ins.SkipEqReg? || ins.SkipNeReg?
    || ins.SkipKeyDown? || ins.SkipKeyUp?
  }

  /** Instructions that compute a new value for Vx (and perhaps VF). */
  predicate IsRegister(ins: Instr)
  {
    || ins.LoadByte? || ins.AddByte? || ins.LoadReg? || ins.OrReg? || ins.AndReg?
    || ins.XorReg? || ins.AddReg? || ins.SubReg? || ins.ShiftRight? || ins.SubNeg?
    || ins.ShiftLeft? || ins.Random?
  }

  /** Instructions that read or write memory or the display from I on. */
  predicate IsMemory(ins: Instr)
  {
    ins.Draw? || ins.StoreBcd? || ins.StoreRegs? || ins.LoadRegs?
  }

  /**
   * One instruction.  `rnd` is the byte `rand()` would have produced for Cxkk.
   * Only an instruction that succeeds changes the state.
   */
  function Execute(s: State, ins: Instr, rnd: byte): (t: Transition)
    requires WellFormed(s) && s.pc + 1 < MemorySize
    ensures WellFormed(t.next)
    ensures t.result != Status(NoError) ==> t.next == s
    ensures t.result.Status? ==> t.result.code in {NoError, IllegalInstruction}
    ensures t.result != Undefined(FetchOutOfRange)
    ensures t.result == Status(IllegalInstruction) <==> ins == Illegal
  {
    if IsFlow(ins) then ExecuteFlow(s, ins)
    else if IsSkip(ins) then ExecuteSkip(s, ins)
    else if IsRegister(ins) then Done(s.(v := Alu(s.v, ins, rnd), pc := s.pc + 2))
    else if IsMemory(ins) then ExecuteMemory(s, ins)
    else ExecuteMisc(s, ins)
  }

  /** 00E0, 00EE, 1nnn, 2nnn and Bnnn. */
  function ExecuteFlow(s: State, ins: Instr): (t: Transition)
    requires WellFormed(s) && s.pc + 1 < MemorySize && IsFlow(ins)
    ensures WellFormed(t.next)
    ensures t.result != Status(NoError) ==> t.next == s
    ensures t.result != Undefined(FetchOutOfRange)
    ensures t.result != Status(IllegalInstruction)
  {
    match ins
    case Cls => Done(s.(pixel := BlankDisplay(), pc := s.pc + 2))
    case Ret =>
      if s.sp == 0 then Transition(s, Undefined(StackUnderflow))
      else Done(s.(sp := s.sp - 1, pc := s.stack[s.sp - 1]))
    case Jump(nnn) => Done(s.(pc := nnn))
    case Call(nnn) =>
      if s.sp == StackDepth then Transition(s, Undefined(StackOverflow))
      else Done(s.(stack := s.stack[s.sp := s.pc + 2], sp := s.sp + 1, pc := nnn))
    case JumpOffset(nnn) => Done(s.(pc := nnn + s.v[0]))
    case _ => assert false; Transition(s, Status(IllegalInstruction))
  }

  /** A key skip names a key by the value of Vx, which must be one of the 16 keys. */
  predicate KeyInRange(s: State, ins: Instr)
    requires WellFormed(s) && IsSkip(ins)
  {
    (ins.SkipKeyDown? || ins.SkipKeyUp?) ==> s.v[ins.x] < KeyCount
  }

  /** The condition under which a skip instruction skips. */
  predicate SkipTaken(s: State, ins: Instr)
    requires WellFormed(s) && IsSkip(ins) && KeyInRange(s, ins)
  {
    match ins
    case SkipEqByte(x, kk) => s.v[x] == kk
    case SkipNeByte(x, kk) => s.v[x] != kk
    case SkipEqReg(x, y) => s.v[x] == s.v[y]
    case SkipNeReg(x, y) => s.v[x] != s.v[y]
    case SkipKeyDown(x) => s.keyboard[s.v[x]]
    case SkipKeyUp(x) => !s.keyboard[s.v[x]]
    case _ => assert false; false
  }

  /** 3xkk, 4xkk, 5xy?, 9xy?, Ex9E and ExA1: PC moves on by 4 or by 2. */
  function ExecuteSkip(s: State, ins: Instr): (t: Transition)
    requires WellFormed(s) && s.pc + 1 < MemorySize && IsSkip(ins)
    ensures WellFormed(t.next)
    ensures t.result != Status(NoError) ==> t.next == s
    ensures t.result != Undefined(FetchOutOfRange)
    ensures t.result != Status(IllegalInstruction)
  {
    if !KeyInRange(s, ins) then Transition(s, Undefined(KeyOutOfRange))
    else Done(s.(pc := SkipIf(s.pc, SkipTaken(s, ins))))
  }

  /** The register file after 6xkk, 7xkk, 8xy? or Cxkk; only VF and Vx can change. */
  function Alu(v: seq<byte>, ins: Instr, rnd: byte): (r: seq<byte>)
    requires |v| == RegisterCount && IsRegister(ins)
    ensures |r| == RegisterCount
  {
    match ins
    case LoadByte(x, kk) => v[x := kk]
    case AddByte(x, kk) => v[x := Trunc8(v[x] + kk)]
    case LoadReg(x, y) => v[x := v[y]]
    case OrReg(x, y) => v[x := Or(v[x], v[y])]
    case AndReg(x, y) => v[x := And(v[x], v[y])]
    case XorReg(x, y) => v[x := Xor(v[x], v[y])]
    case AddReg(x, y) => AddCarry(v, x, y)
    case SubReg(x, y) => SubBorrow(v, x, y)
    case ShiftRight(x, _) => ShiftOutLow(v, x)
    case SubNeg(x, y) => SubNegBorrow(v, x, y)
    case ShiftLeft(x, _) => ShiftOutHigh(v, x)
    case Random(x, kk) => v[x := And(rnd, kk)]
    case _ => assert false; v
  }

  /** Dxyn, Fx33, Fx55 and Fx65. */
  function ExecuteMemory(s: State, ins: Instr): (t: Transition)
    requires WellFormed(s) && s.pc + 1 < MemorySize && IsMemory(ins)
    ensures WellFormed(t.next)
    ensures t.result != Status(NoError) ==> t.next == s
    ensures t.result != Undefined(FetchOutOfRange)
    ensures t.result != Status(IllegalInstruction)
  {
    match ins
    case Draw(x, y, n) =>
      if n > 0 && s.i + n > MemorySize then Transition(s, Undefined(MemoryOutOfRange))
      else
        var c := DrawRows(Canvas(s.v[Flag := 0], s.pixel), s.ram, s.i, x, y, n);
        Done(s.(v := c.v, pixel := c.pixel, pc := s.pc + 2))
    case StoreBcd(x) =>
      if s.i + 2 >= MemorySize then Transition(s, Undefined(MemoryOutOfRange))
      else Done(s.(ram := WriteDigits(s.ram, s.i, s.v[x]), pc := s.pc + 2))
    case StoreRegs(x) =>
      if s.i + x >= MemorySize then Transition(s, Undefined(MemoryOutOfRange))
      else Done(s.(ram := StoreRange(s.ram, s.i, s.v, x), pc := s.pc + 2))
    case LoadRegs(x) =>
      if s.i + x >= MemorySize then Transition(s, Undefined(MemoryOutOfRange))
      else Done(s.(v := LoadRange(s.v, s.ram, s.i, x), pc := s.pc + 2))
    case _ => assert false; Transition(s, Status(IllegalInstruction))
  }

  /** Annn, Fx07, Fx0A, Fx15, Fx18, Fx1E, Fx29, and the words no rule matches. */
  function ExecuteMisc(s: State, ins: Instr): (t: Transition)
    requires WellFormed(s) && s.pc + 1 < MemorySize
    requires !IsFlow(ins) && !IsSkip(ins) && !IsRegister(ins) && !IsMemory(ins)
    ensures WellFormed(t.next)
    ensures t.result != Status(NoError) ==> t.next == s
    ensures t.result != Undefined(FetchOutOfRange)
    ensures t.result == Status(IllegalInstruction) <==> ins == Illegal
  {
    var next := s.pc + 2;
    match ins
    case LoadIndex(nnn) => Done(s.(i := nnn, pc := next))
    case LoadDelay(x) => Done(s.(v := s.v[x := s.dt], pc := next))
    case WaitKey(x) =>
      if s.waitComplete then
        Done(s.(waitForKey := false, waitComplete := false, v := s.v[x := s.lastKey], pc := next))
      else
        Done(s.(waitForKey := true))
    case SetDelay(x) => Done(s.(dt := s.v[x], pc := next))
    case SetSound(x) => Done(s.(st := s.v[x], pc := next))
    case AddIndex(x) => Done(s.(i := Trunc16(s.i + s.v[x]), pc := next))
    case LoadFont(x) => Done(s.(i := s.v[x] as int * 5, pc := next))
    case Illegal => Transition(s, Status(IllegalInstruction))
    case _ => assert false; Transition(s, Status(IllegalInstruction))
  }

  // ----- 8xy4 .. 8xyE: VF is written first -----------------------------------
  // Each of these stores the flag in VF before it reads Vx and Vy for the
  // result, so when x or y is 15 the result is computed from the new flag.

  /** 8xy4: VF := carry out of Vx + Vy, then Vx := Vx + Vy. */
  function AddCarry(v: seq<byte>, x: nibble, y: nibble): (r: seq<byte>)
    requires |v| == RegisterCount
    ensures |r| == RegisterCount
  {
    var f := v[Flag := if v[x] as int + v[y] > 0xFF then 1 else 0];
    f[x := Trunc8(f[x] + f[y])]
  }

  /** 8xy5: VF := (Vx > Vy), then Vx := Vx - Vy. */
  function SubBorrow(v: seq<byte>, x: nibble, y: nibble): (r: seq<byte>)
    requires |v| == RegisterCount
    ensures |r| == RegisterCount
  {
    var f := v[Flag := if v[x] > v[y] then 1 else 0];
    f[x := Trunc8(f[x] - f[y])]
  }

  /** 8xy6: VF := Vx & 1, then Vx := Vx >> 1. */
  function ShiftOutLow(v: seq<byte>, x: nibble): (r: seq<byte>)
    requires |v| == RegisterCount
    ensures |r| == RegisterCount
  {
    var f := v[Flag := And(v[x], 0x01)];
    f[x := f[x] / 2]
  }

  /** 8xy7: VF := (Vy > Vx), then Vx := Vy - Vx. */
  function SubNegBorrow(v: seq<byte>, x: nibble, y: nibble): (r: seq<byte>)
    requires |v| == RegisterCount
    ensures |r| == RegisterCount
  {
    var f := v[Flag := if v[y] > v[x] then 1 else 0];
    f[x := Trunc8(f[y] - f[x])]
  }

  /** 8xyE: VF := Vx & 0x80 (not shifted down to 0 or 1), then Vx := Vx << 1. */
  function ShiftOutHigh(v: seq<byte>, x: nibble): (r: seq<byte>)
    requires |v| == RegisterCount
    ensures |r| == RegisterCount
  {
    var f := v[Flag := And(v[x], 0x80)];
    f[x := Trunc8(2 * f[x])]
  }

  // ----- Dxyn -----------------------------------------------------------------

  /**
   * The two parts of the state Dxyn writes: the registers (VF, which may also
   * be one of the coordinate registers) and the display.
   */
  datatype Canvas = Canvas(v: seq<byte>, pixel: seq<byte>)

  predicate CanvasShape(c: Canvas)
  {
    |c.v| == RegisterCount && DisplayShape(c.pixel)
  }

  /** Only VF and the display may differ between `c` and `r`. */
  predicate FlagAndDisplayOnly(c: Canvas, r: Canvas)
    requires CanvasShape(c)
  {
    CanvasShape(r) && forall k :: 0 <= k < Flag ==> r.v[k] == c.v[k]
  }

  /**
   * The display cell of sprite pixel (row, col) when the sprite is drawn at
   * (vx, vy): the coordinates are `uint8` sums, then wrapped to the display.
   */
  function SpritePos(vx: byte, vy: byte, row: nat, col: nat): (k: nat)
    ensures k < DisplayWidth * DisplayHeight
  {
    At(Trunc8(vx + col) % DisplayWidth, Trunc8(vy + row) % DisplayHeight)
  }

  /** Sprite pixel (row, col) of the sprite stored from `i` on: bit 7 - col of byte `row`. */
  function SpriteBit(ram: seq<byte>, i: word, row: nat, col: nat): (b: byte)
    requires i + row < |ram| && col < 8
    ensures b == 0 || b == 1
  {
    BitAt(ram[i + row], 7 - col)
  }

  /**
   * One pixel of the sprite, as the innermost loop body of Dxyn does it: the
   * cell is recomputed from the current Vx and Vy, the sprite bit is XORed into
   * it, and VF is set when a lit pixel meets a set bit.
   */
  function DrawPixel(c: Canvas, ram: seq<byte>, i: word, x: nibble, y: nibble, row: nat, col: nat): (r: Canvas)
    requires CanvasShape(c) && i + row < |ram| && col < 8
    ensures FlagAndDisplayOnly(c, r)
  {
    Plot(c, SpritePos(c.v[x], c.v[y], row, col), SpriteBit(ram, i, row, col))
  }

  /** XOR `bit` into display cell `k`, setting VF when a lit cell meets a set bit. */
  function Plot(c: Canvas, k: nat, bit: byte): (r: Canvas)
    requires CanvasShape(c) && k < |c.pixel|
    ensures FlagAndDisplayOnly(c, r)
  {
    var lit := c.pixel[k];
    Canvas(if lit == 1 && bit == 1 then c.v[Flag := 1] else c.v, c.pixel[k := Xor(lit, bit)])
  }

  /** The first `cols` pixels of sprite row `row`, left to right. */
  function DrawRow(c: Canvas, ram: seq<byte>, i: word, x: nibble, y: nibble, row: nat, cols: nat): (r: Canvas)
    requires CanvasShape(c) && i + row < |ram| && cols <= 8
    ensures FlagAndDisplayOnly(c, r)
  {
    if cols == 0 then c
    else DrawPixel(DrawRow(c, ram, i, x, y, row, cols - 1), ram, i, x, y, row, cols - 1)
  }

  /** The first `rows` rows of the sprite at `i`, top to bottom. */
  function DrawRows(c: Canvas, ram: seq<byte>, i: word, x: nibble, y: nibble, rows: nat): (r: Canvas)
    requires CanvasShape(c) && (rows == 0 || i + rows <= |ram|)
    ensures FlagAndDisplayOnly(c, r)
  {
    if rows == 0 then c
    else DrawRow(DrawRows(c, ram, i, x, y, rows - 1), ram, i, x, y, rows - 1, 8)
  }

  // ----- Fx33, Fx55, Fx65 -----------------------------------------------------

  /** Memory with the decimal digits of `val` at `at`, `at + 1` and `at + 2`. */
  function WriteDigits(ram: seq<byte>, at: nat, val: byte): (r: seq<byte>)
    requires at + 2 < |ram|
    ensures |r| == |ram|
  {
    ram[at := val / 100][at + 1 := val / 10 % 10][at + 2 := val % 10]
  }

  /** Memory with V0..Vx copied to `at`..`at + x`. */
  function StoreRange(ram: seq<byte>, at: nat, v: seq<byte>, x: nibble): (r: seq<byte>)
    requires at + x < |ram| && x < |v|
    ensures |r| == |ram|
  {
    seq(|ram|, k requires 0 <= k < |ram| => if at <= k <= at + x then v[k - at] else ram[k])
  }

  /** Registers with V0..Vx loaded from `at`..`at + x`. */
  function LoadRange(v: seq<byte>, ram: seq<byte>, at: nat, x: nibble): (r: seq<byte>)
    requires at + x < |ram| && x < |v|
    ensures |r| == |v|
  {
    seq(|v|, k requires 0 <= k < |v| => if k <= x then ram[at + k] else v[k])
  }

  // ----- timer ----------------------------------------------------------------

  /** `timer`: each timer drops by one while it is above zero and stays at zero; nothing else changes. */
  function Tick(s: State): (r: State)
    ensures r == s.(dt := r.dt, st := r.st)
    ensures r.dt <= s.dt <= r.dt + 1 && (r.dt == s.dt <==> s.dt == 0)
    ensures r.st <= s.st <= r.st + 1 && (r.st == s.st <==> s.st == 0)
  {
    s.(dt := if s.dt > 0 then s.dt - 1 else s.dt,
       st := if s.st > 0 then s.st - 1 else s.st)
  }

  // ----- keyboard latch (written by the input driver) -------------------------

  /** A key goes down: it is latched as the last key and completes a pending key wait. */
  function Press(s: State, k: nibble): (r: State)
    requires WellFormed(s)
    ensures WellFormed(r)
    ensures r == s.(keyboard := r.keyboard, lastKey := k, waitComplete := r.waitComplete)
    ensures r.keyboard[k] && forall j :: 0 <= j < KeyCount && j != k ==> r.keyboard[j] == s.keyboard[j]
    ensures r.waitComplete <==> s.waitComplete || s.waitForKey
  {
    s.(keyboard := s.keyboard[k := true], lastKey := k,
       waitComplete := if s.waitForKey then true else s.waitComplete)
  }

  /** A key goes up. */
  function Release(s: State, k: nibble): (r: State)
    requires WellFormed(s)
    ensures WellFormed(r)
    ensures r == s.(keyboard := r.keyboard)
    ensures !r.keyboard[k] && forall j :: 0 <= j < KeyCount && j != k ==> r.keyboard[j] == s.keyboard[j]
  {
    s.(keyboard := s.keyboard[k := false])
  }

  // ----- init -----------------------------------------------------------------

  /** Every register, memory cell, pixel and key cleared; PC at the program start. */
  function Reset(): (s: State)
    ensures WellFormed(s)
  {
    State(
      ram := seq(MemorySize, _ => 0),
      v := seq(RegisterCount, _ => 0),
      i := 0,
      pc := ProgramStart,
      sp := 0,
      stack := seq(StackDepth, _ => 0),
      dt := 0,
      st := 0,
      pixel := BlankDisplay(),
      keyboard := seq(KeyCount, _ => false),
      lastKey := 0,
      waitForKey := false,
      waitComplete := false)
  }

  /** Memory with `bytes` copied in from address `at` on. */
  function Load(ram: seq<byte>, at: nat, bytes: seq<byte>): (r: seq<byte>)
    requires at + |bytes| <= |ram|
    ensures |r| == |ram|
  {
    seq(|ram|, k requires 0 <= k < |ram| => if at <= k < at + |bytes| then bytes[k - at] else ram[k])
  }

  /**
   * `init`: reset, then the font image at address 0, then the program image at
   * 0x200.  A missing file stops the loading with its error code, after the reset.
   */
  function Boot(font: Option<seq<byte>>, program: Option<seq<byte>>): (t: (State, ErrorCode))
    requires font.Some? ==> |font.value| <= MemorySize
    requires program.Some? ==> |program.value| <= MaxProgramSize
    ensures WellFormed(t.0)
  {
    var s := Reset();
    match font
    case None => (s, StdFileNotFound)
    case Some(f) =>
      var s' := s.(ram := Load(s.ram, 0, f));
      match program
      case None => (s', ProgramFileNotFound)
      case Some(p) => (s'.(ram := Load(s'.ram, ProgramStart, p)), NoError)
  }
}
