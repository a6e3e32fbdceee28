/**
 * The engine itself: the `chip8` record with its fixed-size arrays, updated in
 * place by `Init`, `Step` and `Timer`, and by the input driver through
 * `PressKey` and `ReleaseKey`.  Each method is proved to do to `Abs()` exactly
 * what the functions of module Machine say.
 */
module Interpreter {
  import opened Bytes
  import opened Opcodes
  import opened Wrappers
  import opened Machine

  class Chip8 {
    const ram: array<byte>
    const v: array<byte>
    var i: word
    var pc: word
    var sp: byte
    const stack: array<word>
    var dt: byte
    var st: byte
    const pixel: array<byte>     // PIXEL[x][y] at At(x, y)
    const keyboard: array<bool>
    var lastKey: byte
    var waitForKey: bool
    var waitComplete: bool

    ghost predicate Valid()
      reads this
    {
      && ram.Length == MemorySize
      && v.Length == RegisterCount
      && ram != v
      && stack.Length == StackDepth
      && sp <= StackDepth
      && pixel.Length == DisplayWidth * DisplayHeight
      && pixel != ram && pixel != v
      && keyboard.Length == KeyCount
    }

    /** The whole engine state as a value. */
    ghost function Abs(): (s: State)
      reads this, ram, v, stack, pixel, keyboard
      requires Valid()
      ensures WellFormed(s)
    {
      State(ram[..], v[..], i, pc, sp, stack[..], dt, st, pixel[..], keyboard[..],
            lastKey, waitForKey, waitComplete)
    }

    /** The record with its arrays; `Init` gives them their contents. */
    constructor ()
      ensures Valid()
      ensures fresh(ram) && fresh(v) && fresh(stack) && fresh(pixel) && fresh(keyboard)
    {
      ram := new byte[MemorySize];
      v := new byte[RegisterCount];
      stack := new word[StackDepth];
      pixel := new byte[DisplayWidth * DisplayHeight];
      keyboard := new bool[KeyCount];
      sp := 0;
    }

    // ----- init ---------------------------------------------------------------

    /**
     * `init` with the two files already read: `None` stands for a file that
     * could not be opened.
     */
    method Init(font: Option<seq<byte>>, program: Option<seq<byte>>) returns (code: ErrorCode)
      requires Valid()
      requires font.Some? ==> |font.value| <= MemorySize
      requires program.Some? ==> |program.value| <= MaxProgramSize
      modifies this, ram, v, stack, pixel, keyboard
      ensures Valid()
      ensures (Abs(), code) == Boot(font, program)
    {
      Clear();
      if font.None? {
        return StdFileNotFound;
      }
      Copy(font.value, 0);
      if program.None? {
        return ProgramFileNotFound;
      }
      Copy(program.value, ProgramStart);
      return NoError;
    }

    /** The `memset` calls and assignments at the start of `init`. */
    method Clear()
      requires Valid()
      modifies this, ram, v, stack, pixel, keyboard
      ensures Valid()
      ensures Abs() == Reset()
    {
      ClearArrays();
      ClearScreen();
      i := 0;
      pc := ProgramStart;
      sp := 0;
      dt := 0;
      st := 0;
      lastKey := 0;
      waitForKey := false;
      waitComplete := false;
    }

    /** The `memset` calls on memory, registers, stack and keyboard. */
    method ClearArrays()
      requires Valid()
      modifies ram, v, stack, keyboard
      ensures ram[..] == Reset().ram && v[..] == Reset().v
      ensures stack[..] == Reset().stack && keyboard[..] == Reset().keyboard
    {
      forall k | 0 <= k < MemorySize { ram[k] := 0; }
      forall k | 0 <= k < RegisterCount { v[k] := 0; }
      forall k | 0 <= k < StackDepth { stack[k] := 0; }
      forall k | 0 <= k < KeyCount { keyboard[k] := false; }
      assert ram[..] == Reset().ram && v[..] == Reset().v;
      assert stack[..] == Reset().stack && keyboard[..] == Reset().keyboard;
    }

    /** The byte-by-byte read loop of `init`: `bytes` into memory from `at` on. */
    method Copy(bytes: seq<byte>, at: nat)
      requires Valid() && at + |bytes| <= MemorySize
      modifies ram
      ensures ram[..] == Load(old(ram[..]), at, bytes)
    {
      var pos := at;
      while pos < at + |bytes|
        invariant at <= pos <= at + |bytes|
        invariant forall k :: 0 <= k < MemorySize ==>
          ram[k] == if at <= k < pos then bytes[k - at] else old(ram[k])
      {
        ram[pos] := bytes[pos - at];
        pos := pos + 1;
      }
      assert ram[..] == Load(old(ram[..]), at, bytes);
    }

    // ----- step ---------------------------------------------------------------

    /** `step`: fetch, decode and execute one instruction.  `rnd` is the byte `rand()` gives Cxkk. */
    method Step(rnd: byte) returns (r: StepResult)
      requires Valid()
      modifies this, ram, v, stack, pixel
      ensures Valid()
      ensures Transition(Abs(), r) == Machine.Step(old(Abs()), rnd)
    {
      if pc + 1 >= MemorySize {
        return Undefined(FetchOutOfRange);
      }
      var ins := Decode(ram[pc], ram[pc + 1]);
      if IsFlow(ins) {
        r := StepFlow(ins);
      } else if IsSkip(ins) {
        r := StepSkip(ins);
      } else if IsRegister(ins) {
        StepRegister(ins, rnd);
        r := Status(NoError);
      } else if IsMemory(ins) {
        r := StepMemory(ins);
      } else {
        r := StepMisc(ins);
      }
    }

    method StepFlow(ins: Instr) returns (r: StepResult)
      requires Valid() && pc + 1 < MemorySize && IsFlow(ins)
      modifies this, stack, pixel
      ensures Valid()
      ensures Transition(Abs(), r) == ExecuteFlow(old(Abs()), ins)
    {
      r := Status(NoError);
      match ins
      case Cls =>
        ClearScreen();
        pc := pc + 2;
      case Ret =>
        if sp == 0 {
          return Undefined(StackUnderflow);
        }
        sp := sp - 1;
        pc := stack[sp];
      case Jump(nnn) =>
        pc := nnn;
      case Call(nnn) =>
        if sp == StackDepth {
          return Undefined(StackOverflow);
        }
        stack[sp] := pc + 2;
        sp := sp + 1;
        pc := nnn;
      case JumpOffset(nnn) =>
        pc := nnn + v[0];
    }

    method StepSkip(ins: Instr) returns (r: StepResult)
      requires Valid() && pc + 1 < MemorySize && IsSkip(ins)
      modifies this
      ensures Valid()
      ensures Transition(Abs(), r) == ExecuteSkip(old(Abs()), ins)
    {
      if (ins.SkipKeyDown? || ins.SkipKeyUp?) && v[ins.x] >= KeyCount {
        return Undefined(KeyOutOfRange);
      }
      var taken := Taken(ins);
      pc := if taken then pc + 4 else pc + 2;
      r := Status(NoError);
    }

    /** The comparison a skip instruction makes. */
    method Taken(ins: Instr) returns (taken: bool)
      requires Valid() && IsSkip(ins) && KeyInRange(Abs(), ins)
      ensures taken == SkipTaken(Abs(), ins)
    {
      match ins
      case SkipEqByte(x, kk) =>
        taken := v[x] == kk;
      case SkipNeByte(x, kk) =>
        taken := v[x] != kk;
      case SkipEqReg(x, y) =>
        taken := v[x] == v[y];
      case SkipNeReg(x, y) =>
        taken := v[x] != v[y];
      case SkipKeyDown(x) =>
        taken := keyboard[v[x]];
      case SkipKeyUp(x) =>
        taken := !keyboard[v[x]];
    }

    method StepRegister(ins: Instr, rnd: byte)
      requires Valid() && pc + 1 < MemorySize && IsRegister(ins)
      modifies this, v
      ensures Valid()
      ensures Abs() == old(Abs()).(v := Alu(old(v[..]), ins, rnd), pc := old(pc) + 2)
    {
      Compute(ins, rnd);
      pc := pc + 2;
    }

    /** 6xkk, 7xkk, 8xy? and Cxkk on the register file. */
    method Compute(ins: Instr, rnd: byte)
      requires Valid() && IsRegister(ins)
      modifies v
      ensures v[..] == Alu(old(v[..]), ins, rnd)
    {
      match ins
      case LoadByte(x, kk) =>
        SetRegister(x, kk);
      case AddByte(x, kk) =>
        SetRegister(x, Trunc8(v[x] as int + kk));
      case LoadReg(x, y) =>
        SetRegister(x, v[y]);
      case OrReg(x, y) =>
        SetRegister(x, Or(v[x], v[y]));
      case AndReg(x, y) =>
        SetRegister(x, And(v[x], v[y]));
      case XorReg(x, y) =>
        SetRegister(x, Xor(v[x], v[y]));
      case AddReg(x, y) =>
        AddWithCarry(x, y);
      case SubReg(x, y) =>
        SubtractWithBorrow(x, y);
      case ShiftRight(x, _) =>
        ShiftRightOnce(x);
      case SubNeg(x, y) =>
        SubtractReversed(x, y);
      case ShiftLeft(x, _) =>
        ShiftLeftOnce(x);
      case Random(x, kk) =>
        SetRegister(x, And(rnd, kk));
    }

    // 8xy4 .. 8xyE write VF first, then compute Vx from the registers as they now are.

    method AddWithCarry(x: nibble, y: nibble)
      requires Valid()
      modifies v
      ensures v[..] == AddCarry(old(v[..]), x, y)
    {
      SetRegister(Flag, if v[x] as int + v[y] > 0xFF then 1 else 0);
      SetRegister(x, Trunc8(v[x] as int + v[y]));
    }

    method SubtractWithBorrow(x: nibble, y: nibble)
      requires Valid()
      modifies v
      ensures v[..] == SubBorrow(old(v[..]), x, y)
    {
      SetRegister(Flag, if v[x] > v[y] then 1 else 0);
      SetRegister(x, Trunc8(v[x] as int - v[y]));
    }

    method ShiftRightOnce(x: nibble)
      requires Valid()
      modifies v
      ensures v[..] == ShiftOutLow(old(v[..]), x)
    {
      SetRegister(Flag, And(v[x], 0x01));
      SetRegister(x, v[x] / 2);
    }

    method SubtractReversed(x: nibble, y: nibble)
      requires Valid()
      modifies v
      ensures v[..] == SubNegBorrow(old(v[..]), x, y)
    {
      SetRegister(Flag, if v[y] > v[x] then 1 else 0);
      SetRegister(x, Trunc8(v[y] as int - v[x]));
    }

    method ShiftLeftOnce(x: nibble)
      requires Valid()
      modifies v
      ensures v[..] == ShiftOutHigh(old(v[..]), x)
    {
      SetRegister(Flag, And(v[x], 0x80));
      SetRegister(x, Trunc8(2 * v[x] as int));
    }

    /** `V[k] = val`. */
    method SetRegister(k: nibble, val: byte)
      requires Valid()
      modifies v
      ensures v[..] == old(v[..])[k := val]
    {
      v[k] := val;
    }

    method StepMemory(ins: Instr) returns (r: StepResult)
      requires Valid() && pc + 1 < MemorySize && IsMemory(ins)
      modifies this, ram, v, pixel
      ensures Valid()
      ensures Transition(Abs(), r) == ExecuteMemory(old(Abs()), ins)
    {
      match ins
      case Draw(x, y, n) =>
        r := StepDraw(x, y, n);
      case StoreBcd(x) =>
        r := StepStoreBcd(x);
      case StoreRegs(x) =>
        r := StepStoreRegs(x);
      case LoadRegs(x) =>
        r := StepLoadRegs(x);
    }

    method StepStoreBcd(x: nibble) returns (r: StepResult)
      requires Valid() && pc + 1 < MemorySize
      modifies this, ram
      ensures Valid()
      ensures Transition(Abs(), r) == ExecuteMemory(old(Abs()), StoreBcd(x))
    {
      if i + 2 >= MemorySize {
        return Undefined(MemoryOutOfRange);
      }
      StoreDigits(v[x]);
      pc := pc + 2;
      r := Status(NoError);
    }

    method StepStoreRegs(x: nibble) returns (r: StepResult)
      requires Valid() && pc + 1 < MemorySize
      modifies this, ram
      ensures Valid()
      ensures Transition(Abs(), r) == ExecuteMemory(old(Abs()), StoreRegs(x))
    {
      if i + x >= MemorySize {
        return Undefined(MemoryOutOfRange);
      }
      StoreRegisters(x);
      pc := pc + 2;
      r := Status(NoError);
    }

    method StepLoadRegs(x: nibble) returns (r: StepResult)
      requires Valid() && pc + 1 < MemorySize
      modifies this, v
      ensures Valid()
      ensures Transition(Abs(), r) == ExecuteMemory(old(Abs()), LoadRegs(x))
    {
      if i + x >= MemorySize {
        return Undefined(MemoryOutOfRange);
      }
      LoadRegisters(x);
      pc := pc + 2;
      r := Status(NoError);
    }

    method StepDraw(x: nibble, y: nibble, n: nibble) returns (r: StepResult)
      requires Valid() && pc + 1 < MemorySize
      modifies this, v, pixel
      ensures Valid()
      ensures Transition(Abs(), r) == ExecuteMemory(old(Abs()), Draw(x, y, n))
    {
      if n > 0 && i + n > MemorySize {
        return Undefined(MemoryOutOfRange);
      }
      SetRegister(Flag, 0);
      DrawSprite(x, y, n);
      pc := pc + 2;
      r := Status(NoError);
    }

    method StepMisc(ins: Instr) returns (r: StepResult)
      requires Valid() && pc + 1 < MemorySize
      requires !IsFlow(ins) && !IsSkip(ins) && !IsRegister(ins) && !IsMemory(ins)
      modifies this, v
      ensures Valid()
      ensures Transition(Abs(), r) == ExecuteMisc(old(Abs()), ins)
    {
      r := Status(NoError);
      match ins
      case LoadIndex(nnn) =>
        SetIndex(nnn);
      case LoadDelay(x) =>
        ReadDelay(x);
      case WaitKey(x) =>
        AwaitKey(x);
      case SetDelay(x) =>
        WriteDelay(x);
      case SetSound(x) =>
        WriteSound(x);
      case AddIndex(x) =>
        AddToIndex(x);
      case LoadFont(x) =>
        PointAtGlyph(x);
      case Illegal =>
        r := Status(IllegalInstruction);
    }

    /** Annn: I := nnn. */
    method SetIndex(nnn: addr)
      requires Valid() && pc + 1 < MemorySize
      modifies this
      ensures Valid()
      ensures Done(Abs()) == ExecuteMisc(old(Abs()), LoadIndex(nnn))
    {
      i := nnn;
      pc := pc + 2;
    }

    /** Fx07: Vx := DT. */
    method ReadDelay(x: nibble)
      requires Valid() && pc + 1 < MemorySize
      modifies this, v
      ensures Valid()
      ensures Done(Abs()) == ExecuteMisc(old(Abs()), LoadDelay(x))
    {
      SetRegister(x, dt);
      pc := pc + 2;
    }

    /** Fx15: DT := Vx. */
    method WriteDelay(x: nibble)
      requires Valid() && pc + 1 < MemorySize
      modifies this
      ensures Valid()
      ensures Done(Abs()) == ExecuteMisc(old(Abs()), SetDelay(x))
    {
      dt := v[x];
      pc := pc + 2;
    }

    /** Fx18: ST := Vx. */
    method WriteSound(x: nibble)
      requires Valid() && pc + 1 < MemorySize
      modifies this
      ensures Valid()
      ensures Done(Abs()) == ExecuteMisc(old(Abs()), SetSound(x))
    {
      st := v[x];
      pc := pc + 2;
    }

    /** Fx1E: I := I + Vx, kept to 16 bits. */
    method AddToIndex(x: nibble)
      requires Valid() && pc + 1 < MemorySize
      modifies this
      ensures Valid()
      ensures Done(Abs()) == ExecuteMisc(old(Abs()), AddIndex(x))
    {
      i := Trunc16(i + v[x]);
      pc := pc + 2;
    }

    /** Fx29: I := Vx * 5, where the built-in glyph of digit Vx starts. */
    method PointAtGlyph(x: nibble)
      requires Valid() && pc + 1 < MemorySize
      modifies this
      ensures Valid()
      ensures Done(Abs()) == ExecuteMisc(old(Abs()), LoadFont(x))
    {
      i := v[x] as int * 5;
      pc := pc + 2;
    }

    /** Fx0A: wait for a key press, which the key-down handler reports through the two flags. */
    method AwaitKey(x: nibble)
      requires Valid() && pc + 1 < MemorySize
      modifies this, v
      ensures Valid()
      ensures Done(Abs()) == ExecuteMisc(old(Abs()), WaitKey(x))
    {
      waitForKey := true;
      if waitComplete {
        waitForKey := false;
        waitComplete := false;
        SetRegister(x, lastKey);
        pc := pc + 2;
      }
    }

    // ----- 00E0 ---------------------------------------------------------------

    /** `memset(PIXEL, 0, ...)`. */
    method ClearScreen()
      requires Valid()
      modifies pixel
      ensures pixel[..] == BlankDisplay()
    {
      forall k | 0 <= k < pixel.Length {
        pixel[k] := 0;
      }
    }

    // ----- Dxyn ---------------------------------------------------------------

    /** The registers and the display, the part of the state Dxyn writes. */
    ghost function Screen(): (c: Canvas)
      reads this, v, pixel
      requires Valid()
      ensures CanvasShape(c)
    {
      Canvas(v[..], pixel[..])
    }

    /** The outer loop of Dxyn, after VF has been cleared. */
    method DrawSprite(x: nibble, y: nibble, n: nibble)
      requires Valid() && (n == 0 || i + n <= MemorySize)
      modifies v, pixel
      ensures Screen() == DrawRows(old(Screen()), ram[..], i, x, y, n)
    {
      var row := 0;
      while row < n
        invariant 0 <= row <= n
        invariant Screen() == DrawRows(old(Screen()), ram[..], i, x, y, row)
      {
        DrawSpriteRow(x, y, row);
        row := row + 1;
      }
    }

    /** The inner loop of Dxyn: the eight pixels of sprite row `row`. */
    method DrawSpriteRow(x: nibble, y: nibble, row: nat)
      requires Valid() && i + row < MemorySize
      modifies v, pixel
      ensures Screen() == DrawRow(old(Screen()), ram[..], i, x, y, row, 8)
    {
      var col := 0;
      while col < 8
        invariant 0 <= col <= 8
        invariant Screen() == DrawRow(old(Screen()), ram[..], i, x, y, row, col)
      {
        DrawPixel(x, y, row, col);
        col := col + 1;
      }
    }

    /** The body of the inner loop of Dxyn. */
    method DrawPixel(x: nibble, y: nibble, row: nat, col: nat)
      requires Valid() && i + row < MemorySize && col < 8
      modifies v, pixel
      ensures Screen() == Machine.DrawPixel(old(Screen()), ram[..], i, x, y, row, col)
    {
      var px := Wrap(Trunc8(v[x] as int + col), DisplayWidth);
      var py := Wrap(Trunc8(v[y] as int + row), DisplayHeight);
      var bit: byte := BitAt(ram[i + row], 7 - col);
      if pixel[At(px, py)] == 1 && bit == 1 {
        v[Flag] := 1;
      }
      pixel[At(px, py)] := Xor(pixel[At(px, py)], bit);
    }

    // ----- Fx33, Fx55, Fx65 ---------------------------------------------------

    /** Fx33: three counting loops that peel off hundreds, tens and ones. */
    method StoreDigits(val: byte)
      requires Valid() && i + 2 < MemorySize
      modifies ram
      ensures ram[..] == WriteDigits(old(ram[..]), i, val)
    {
      ram[i] := 0;
      ram[i + 1] := 0;
      ram[i + 2] := 0;
      var rest := Peel(i, val, 100);
      rest := Peel(i + 1, rest, 10);
      rest := Peel(i + 2, rest, 1);
      DecimalDigits(val, ram[i], ram[i + 1], ram[i + 2]);
      assert ram[..] == WriteDigits(old(ram[..]), i, val);
    }

    /** `while (val >= unit) { val -= unit; RAM[at]++; }`, starting from `RAM[at] == 0`. */
    method Peel(at: nat, val: byte, unit: nat) returns (rest: byte)
      requires Valid() && at < MemorySize && ram[at] == 0 && unit > 0
      modifies ram
      ensures rest < unit && val == rest + unit * ram[at]
      ensures forall k :: 0 <= k < MemorySize && k != at ==> ram[k] == old(ram[k])
    {
      rest := val;
      while rest >= unit
        invariant val == rest + unit * ram[at]
        invariant forall k :: 0 <= k < MemorySize && k != at ==> ram[k] == old(ram[k])
      {
        MulAtLeast(unit, ram[at] + 1);
        rest := rest - unit;
        ram[at] := ram[at] + 1;
      }
    }

    /** Fx55: V0..Vx into memory from I on. */
    method StoreRegisters(x: nibble)
      requires Valid() && i + x < MemorySize
      modifies ram
      ensures ram[..] == StoreRange(old(ram[..]), i, v[..], x)
    {
      var k := 0;
      while k <= x
        invariant 0 <= k <= x + 1
        invariant forall a :: 0 <= a < MemorySize ==>
          ram[a] == if i <= a < i + k then v[a - i] else old(ram[a])
      {
        ram[i + k] := v[k];
        k := k + 1;
      }
      assert ram[..] == StoreRange(old(ram[..]), i, v[..], x);
    }

    /** Fx65: V0..Vx from memory from I on. */
    method LoadRegisters(x: nibble)
      requires Valid() && i + x < MemorySize
      modifies v
      ensures v[..] == LoadRange(old(v[..]), ram[..], i, x)
    {
      var k := 0;
      while k <= x
        invariant 0 <= k <= x + 1
        invariant forall a :: 0 <= a < RegisterCount ==>
          v[a] == if a < k then ram[i + a] else old(v[a])
      {
        v[k] := ram[i + k];
        k := k + 1;
      }
      assert v[..] == LoadRange(old(v[..]), ram[..], i, x);
    }

    // ----- timer and keyboard -------------------------------------------------

    /** `timer`: both timers count down to zero and stay there. */
    method Timer()
      requires Valid()
      modifies this
      ensures Valid()
      ensures Abs() == Tick(old(Abs()))
    {
      if dt > 0 {
        dt := dt - 1;
      }
      if st > 0 {
        st := st - 1;
      }
    }

    /** The input driver's key-down handler for key `k`. */
    method PressKey(k: nibble)
      requires Valid()
      modifies this, keyboard
      ensures Valid()
      ensures Abs() == Press(old(Abs()), k)
    {
      keyboard[k] := true;
      lastKey := k;
      if waitForKey {
        waitComplete := true;
      }
    }

    /** The input driver's key-up handler for key `k`. */
    method ReleaseKey(k: nibble)
      requires Valid()
      modifies keyboard
      ensures Valid()
      ensures Abs() == Release(old(Abs()), k)
    {
      keyboard[k] := false;
    }
  }

  /** `while (c >= size) c -= size;`: a coordinate wrapped onto the display. */
  method Wrap(c: byte, size: nat) returns (r: nat)
    requires size > 0
    ensures r < size && r == c % size
  {
    r := c;
    ghost var q := 0;
    while r >= size
      invariant c == r + q * size
    {
      r := r - size;
      q := q + 1;
    }
    ModUnique(c, size, q, r);
  }

  /** The digits the three counting loops of Fx33 leave behind are the decimal digits. */
  lemma DecimalDigits(val: nat, a: nat, b: nat, c: nat)
    requires val == 100 * a + 10 * b + c && b < 10 && c < 10
    ensures a == val / 100 && b == val / 10 % 10 && c == val % 10
  {
  }

  /** Euclidean division has exactly one remainder. */
  lemma ModUnique(c: int, size: int, q: int, r: int)
    requires size > 0 && 0 <= r < size && c == r + q * size
    ensures r == c % size
  {
    var q', r' := c / size, c % size;
    assert (q - q') * size == r' - r;
    if q > q' {
      MulAtLeast(q - q', size);
    } else if q < q' {
      MulAtLeast(q' - q, size);
    }
  }

  lemma MulAtLeast(a: int, b: int)
    requires a >= 1 && b > 0
    ensures a * b >= b
  {
  }
}
