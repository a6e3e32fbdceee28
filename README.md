# CHIP-8 engine, modelled and proved in Dafny

This project models the CPU engine of a CHIP-8 interpreter written in C++. It covers three pieces:

- the state record `chip8`: 4096 bytes of RAM, registers V0..VF, I, PC, SP, a 16-entry return stack, the delay and sound timers, a 64 x 32 display, 16 keys, the last key, and the two key-wait flags;
- its three operations: `step` (fetch, decode and execute one instruction), `timer` (tick both timers down) and the reset-and-load part of `init`;
- the key latch that the input driver writes when a key goes down or up.

The modules are:

- `Bytes`: the `uint8`, `uint16`, nibble and 12-bit address types. It also holds explicit truncation to 8 and 16 bits, and `&`, `|`, `^` and bit extraction on unsigned values.
- `Opcodes`: the instruction datatype, and `Decode`, which mirrors the engine's chain of tests in order.
- `Machine`: the state as a value, and the meaning of every operation as a function from the old state to a `Transition` (the new state plus the result `step` returns). Index accesses the engine makes without a bounds check are explicit `Fault` results. Such a step leaves the state unchanged.
- `Interpreter`: class `Chip8`, which holds the state in arrays and scalar fields. Each method updates them in place, as the engine does, and is proved to produce exactly the state the `Machine` function describes. The loops of the engine (the sprite loops, the decimal-digit loops, the register copy loops, the display wrap loops) are `while` loops with invariants.
- `Properties`: what the engine promises, proved about the `Machine` functions. It covers:
  - how PC moves, and the call stack;
  - the arithmetic and its flags;
  - sprite drawing and collision;
  - the decimal and register copies;
  - the key-wait handshake, the timers and the start-up layout.

## Model

| member | source | states |
|---|---|---|
| Bytes.Trunc8 | src/chip8.h:6 | a store into a `uint8` keeps the one byte congruent to the value modulo 256, and leaves a value that fits unchanged |
| Bytes.Trunc16 | src/chip8.h:7 | a store into a `uint16` keeps the one 16-bit value congruent to the value modulo 65536, and leaves a value that fits unchanged |
| Bytes.BitAnd | src/chip8.cpp:143-146 | `a & b` is at most each operand (bit by bit meaning in `Bytes.AndBits`) |
| Bytes.BitOr | src/chip8.cpp:137-140 | the bitwise OR of a and b is at least each operand and at most their sum (bit by bit meaning in `Bytes.OrBits`) |
| Bytes.BitXor | src/chip8.cpp:149-152 | `a ^ b` is at most the sum of the operands (bit by bit meaning in `Bytes.XorBits`) |
| Bytes.BitAt | src/chip8.cpp:254 | `(b >> k) & 1` is 0 or 1 |
| Bytes.AndBits | src/chip8.cpp:143-146 | bit k of `a & b` is set if and only if bit k is set in both operands |
| Bytes.OrBits | src/chip8.cpp:137-140 | bit k of the bitwise OR of a and b is set if and only if bit k is set in either operand |
| Bytes.XorBits | src/chip8.cpp:149-152 | bit k of `a ^ b` is set if and only if bit k is set in exactly one operand |
| Opcodes.Decode | src/chip8.cpp:53-381 | the groups 1-7 and 9-D accept every word; the address of 1nnn, 2nnn, Annn and Bnnn is the low twelve bits of the word (the full decoding is pinned down by `Opcodes.DecodeEncode` for canonical words, `Opcodes.IllegalWords` for the words that decode to `Illegal`, and `Opcodes.SystemGroupIgnoresX` and `Opcodes.RegisterSkipsIgnoreLastNibble` for the non-canonical words that still decode) |
| Opcodes.Address | src/chip8.cpp:68-70 | the 12-bit address has the low nibble of the first byte as its high part and the second byte as its low byte |
| Opcodes.DecodeEncode | src/chip8.cpp:52-382 | every instruction, `Illegal` included, decodes back from its canonical two-byte word, so no two instructions share a canonical word |
| Opcodes.SystemGroupIgnoresX | src/chip8.cpp:56-65 | in the 0x0 group only the second byte is tested, so 0x01E0 decodes like 0x00E0 |
| Opcodes.RegisterSkipsIgnoreLastNibble | src/chip8.cpp:100-208 | 5xy? (lines 100-108) and 9xy? (lines 200-208) decode the same whatever their last nibble |
| Opcodes.IllegalWords | src/chip8.cpp:52-382 | a word decodes to `Illegal` if and only if it is in the 0x0 group without E0/EE, in the 8 group with last nibble 8-D or F, in the E group without 9E/A1, or in the F group without one of its nine second bytes |
| Machine.At | src/chip8.h:28-30 | `PIXEL[x][y]` lies inside the 64 x 32 display |
| Machine.BlankDisplay | src/chip8.cpp:56-59 | the cleared display has the display's 64 x 32 shape and every pixel is 0 |
| Machine.Step | src/chip8.cpp:52-383 | the step faults on the fetch if and only if PC + 1 is past memory; a step keeps every array at its fixed size and SP at most 16; a step that does not return NONE changes nothing, PC included; the only status codes a step returns are NONE and ILLEGAL_INSTRUCTION |
| Machine.Execute | src/chip8.cpp:55-382 | NONE and ILLEGAL_INSTRUCTION are the only status codes, and ILLEGAL_INSTRUCTION is returned exactly for `Illegal`; an unsuccessful instruction changes nothing; no instruction reports a fetch fault; array sizes are kept |
| Machine.ExecuteFlow | src/chip8.cpp:56-77 | 00E0, 00EE, 1nnn, 2nnn (and Bnnn at 217-219) never report an illegal instruction or a fetch fault, and a fault leaves the state alone (when the stack faults occur, SP == 0 for 00EE and SP == 16 for 2nnn, is stated by `Properties.StackBounds`) |
| Machine.ExecuteSkip | src/chip8.cpp:80-108 | skips never report an illegal instruction or a fetch fault, and a fault leaves the state alone (that a key skip faults exactly when Vx is above 15 is stated by `Properties.SkipKeyOutOfRange`) |
| Machine.ExecuteMemory | src/chip8.cpp:230-380 | Dxyn, Fx33, Fx55 and Fx65 never report an illegal instruction or a fetch fault, and a fault leaves the state alone (when each one faults is stated by `Properties.DrawInRange`, `Properties.BcdInRange`, `Properties.StoreRegsEffect` and `Properties.LoadRegsEffect`) |
| Machine.ExecuteMisc | src/chip8.cpp:211-332 | among Annn and the F group, only the unmatched word reports ILLEGAL_INSTRUCTION, and then nothing changes |
| Machine.Alu | src/chip8.cpp:111-227 | 6xkk, 7xkk, 8xy? and Cxkk keep the register file at 16 registers |
| Machine.AddCarry | src/chip8.cpp:155-162 | 8xy4 keeps the register file at 16 registers |
| Machine.SubBorrow | src/chip8.cpp:165-172 | 8xy5 keeps the register file at 16 registers |
| Machine.ShiftOutLow | src/chip8.cpp:175-179 | 8xy6 keeps the register file at 16 registers |
| Machine.SubNegBorrow | src/chip8.cpp:182-189 | 8xy7 keeps the register file at 16 registers |
| Machine.ShiftOutHigh | src/chip8.cpp:192-196 | 8xyE keeps the register file at 16 registers |
| Machine.SkipTaken | src/chip8.cpp:80-108 | no contract of its own: each of the six skip conditions is stated as an if-and-only-if by `Properties.SkipAdvance`, and the pairs as opposites by `Properties.SkipOpposites` |
| Machine.SpritePos | src/chip8.cpp:245-252 | the `uint8` coordinate sums, wrapped by the subtraction loops, always land on a display cell |
| Machine.SpriteBit | src/chip8.cpp:254 | the sprite bit is 0 or 1 |
| Machine.Plot | src/chip8.cpp:257-260 | XORing one bit into a cell changes only VF and the display |
| Machine.DrawPixel | src/chip8.cpp:245-260 | one pass of the inner sprite loop changes only VF and the display |
| Machine.DrawRow | src/chip8.cpp:242-261 | one row of the sprite changes only VF and the display |
| Machine.DrawRows | src/chip8.cpp:239-262 | the whole sprite changes only VF and the display |
| Machine.WriteDigits | src/chip8.cpp:340-357 | Fx33 keeps memory at its size (its digits are stated by `Properties.BcdDigits`) |
| Machine.StoreRange | src/chip8.cpp:366-367 | Fx55 keeps memory at its size (its effect is stated by `Properties.StoreRegsEffect`) |
| Machine.LoadRange | src/chip8.cpp:376-377 | Fx65 keeps the register file at its size (its effect is stated by `Properties.LoadRegsEffect`) |
| Machine.Tick | src/chip8.cpp:385-388 | `timer` lowers each timer by exactly one when it is above zero, leaves a zero timer at zero, and changes nothing else |
| Machine.Press | src/main.cpp:161-176 | a key going down is latched as down and as the last key, sets WAIT_COMPLETE if and only if it was set or a wait is pending, and changes no other key or field |
| Machine.Release | src/main.cpp:182-197 | a key going up is cleared and nothing else changes |
| Machine.Reset | src/chip8.cpp:11-23 | the reset state has every array at its fixed size (its contents are stated by `Properties.ResetState`) |
| Machine.Load | src/chip8.cpp:30-46 | copying a file image into memory keeps memory at 4096 bytes |
| Machine.Boot | src/chip8.cpp:8-50 | `init` yields a well-formed state whichever files are missing |
| Interpreter.Chip8.constructor | src/chip8.h:9-48 | a fresh engine owns fresh arrays of the fixed sizes |
| Interpreter.Chip8.Init | src/chip8.cpp:8-50 | the arrays and fields after `init`, and its error code, are those of `Machine.Boot` |
| Interpreter.Chip8.Clear | src/chip8.cpp:11-23 | after the resets the state is `Machine.Reset()` |
| Interpreter.Chip8.ClearArrays | src/chip8.cpp:11-20 | the memsets zero RAM, V, the stack and the keyboard |
| Interpreter.Chip8.Copy | src/chip8.cpp:30-46 | the byte-by-byte copy loop leaves memory equal to `Machine.Load` of the old memory |
| Interpreter.Chip8.Step | src/chip8.cpp:52-383 | one in-place `step` leaves the fields and the result equal to `Machine.Step` of the old state |
| Interpreter.Chip8.StepFlow | src/chip8.cpp:56-77 | 00E0, 00EE, 1nnn, 2nnn and Bnnn in place agree with `Machine.ExecuteFlow` |
| Interpreter.Chip8.StepSkip | src/chip8.cpp:80-108 | the skips in place agree with `Machine.ExecuteSkip` |
| Interpreter.Chip8.Taken | src/chip8.cpp:267-284 | the skip test read from the arrays is `Machine.SkipTaken` |
| Interpreter.Chip8.StepRegister | src/chip8.cpp:111-227 | the register instructions change only V and PC, V as `Machine.Alu` says and PC by 2 |
| Interpreter.Chip8.Compute | src/chip8.cpp:111-227 | the register file after the in-place update is `Machine.Alu` of the old one |
| Interpreter.Chip8.AddWithCarry | src/chip8.cpp:157-160 | VF is written before the sum is stored, as `Machine.AddCarry` says |
| Interpreter.Chip8.SubtractWithBorrow | src/chip8.cpp:167-170 | VF is written before the difference is stored, as `Machine.SubBorrow` says |
| Interpreter.Chip8.ShiftRightOnce | src/chip8.cpp:176-177 | VF is written before the shift, as `Machine.ShiftOutLow` says |
| Interpreter.Chip8.SubtractReversed | src/chip8.cpp:184-187 | VF is written before the difference is stored, as `Machine.SubNegBorrow` says |
| Interpreter.Chip8.ShiftLeftOnce | src/chip8.cpp:193-194 | VF is written before the shift, as `Machine.ShiftOutHigh` says |
| Interpreter.Chip8.SetRegister | src/chip8.cpp:289 | one register store changes that register only |
| Interpreter.Chip8.StepMemory | src/chip8.cpp:230-380 | Dxyn, Fx33, Fx55 and Fx65 in place agree with `Machine.ExecuteMemory` |
| Interpreter.Chip8.StepStoreBcd | src/chip8.cpp:335-360 | Fx33 in place agrees with `Machine.ExecuteMemory`, fault included |
| Interpreter.Chip8.StepStoreRegs | src/chip8.cpp:363-370 | Fx55 in place agrees with `Machine.ExecuteMemory`, fault included |
| Interpreter.Chip8.StepLoadRegs | src/chip8.cpp:373-380 | Fx65 in place agrees with `Machine.ExecuteMemory`, fault included |
| Interpreter.Chip8.StepDraw | src/chip8.cpp:230-264 | Dxyn in place agrees with `Machine.ExecuteMemory`, fault included |
| Interpreter.Chip8.StepMisc | src/chip8.cpp:211-382 | Annn, the F-group register and timer instructions, Fx0A and the illegal return agree with `Machine.ExecuteMisc` |
| Interpreter.Chip8.SetIndex | src/chip8.cpp:211-214 | Annn in place agrees with `Machine.ExecuteMisc` |
| Interpreter.Chip8.ReadDelay | src/chip8.cpp:287-291 | Fx07 in place agrees with `Machine.ExecuteMisc` |
| Interpreter.Chip8.WriteDelay | src/chip8.cpp:307-311 | Fx15 in place agrees with `Machine.ExecuteMisc` |
| Interpreter.Chip8.WriteSound | src/chip8.cpp:314-318 | Fx18 in place agrees with `Machine.ExecuteMisc` |
| Interpreter.Chip8.AddToIndex | src/chip8.cpp:321-325 | Fx1E in place agrees with `Machine.ExecuteMisc`, the `uint16` sum wrapping |
| Interpreter.Chip8.PointAtGlyph | src/chip8.cpp:328-332 | Fx29 in place agrees with `Machine.ExecuteMisc` |
| Interpreter.Chip8.AwaitKey | src/chip8.cpp:294-304 | Fx0A in place agrees with `Machine.ExecuteMisc` on both paths of the wait |
| Interpreter.Chip8.ClearScreen | src/chip8.cpp:56-59 | every pixel is 0 afterwards |
| Interpreter.Chip8.DrawSprite | src/chip8.cpp:239-262 | the outer sprite loop leaves VF and the display equal to `Machine.DrawRows` |
| Interpreter.Chip8.DrawSpriteRow | src/chip8.cpp:242-261 | the inner sprite loop leaves VF and the display equal to `Machine.DrawRow` |
| Interpreter.Chip8.DrawPixel | src/chip8.cpp:245-260 | one pixel drawn in place, with the wrap loops, agrees with `Machine.DrawPixel` |
| Interpreter.Chip8.StoreDigits | src/chip8.cpp:340-357 | the three counting loops leave in memory exactly the digits of `Machine.WriteDigits` |
| Interpreter.Chip8.Peel | src/chip8.cpp:344-357 | one counting loop leaves a quotient in its cell and returns the remainder below the unit, touching no other cell |
| Interpreter.Chip8.StoreRegisters | src/chip8.cpp:366-367 | the copy loop leaves memory equal to `Machine.StoreRange` |
| Interpreter.Chip8.LoadRegisters | src/chip8.cpp:376-377 | the copy loop leaves the registers equal to `Machine.LoadRange` |
| Interpreter.Chip8.Timer | src/chip8.cpp:385-388 | `timer` in place agrees with `Machine.Tick` |
| Interpreter.Chip8.PressKey | src/main.cpp:161-176 | the key-down latch in place agrees with `Machine.Press` |
| Interpreter.Chip8.ReleaseKey | src/main.cpp:182-197 | the key-up latch in place agrees with `Machine.Release` |
| Interpreter.Wrap | src/chip8.cpp:248-252 | the subtraction loop leaves the coordinate modulo the display size |
| Interpreter.DecimalDigits | src/chip8.cpp:344-357 | hundreds, tens and ones with tens and ones below 10 are the only decimal digits of the value |
| Properties.PcAdvancesByTwo | src/chip8.cpp:56-332 | every successful instruction other than jumps, calls, returns, skips and Fx0A moves PC on by 2 |
| Properties.SkipAdvance | src/chip8.cpp:80-108 | each skip moves PC by 4 if and only if its condition holds (by 2 otherwise) and changes nothing else |
| Properties.SkipKeyOutOfRange | src/chip8.cpp:267-284 | a key skip succeeds if and only if Vx names one of the 16 keys |
| Properties.SkipOpposites | src/chip8.cpp:80-284 | 3xkk and 4xkk, 5xy? and 9xy?, Ex9E and ExA1 test opposite conditions |
| Properties.CallThenReturn | src/chip8.cpp:62-77 | 2nnn pushes PC + 2 and jumps; a following 00EE lands on the call site + 2 with SP restored |
| Properties.StackBounds | src/chip8.cpp:62-77 | a call succeeds if and only if SP < 16, a return if and only if SP > 0 |
| Properties.FlowEffects | src/chip8.cpp:56-219 | 00E0 blanks the display and adds 2 to PC, 1nnn sets PC to nnn, Bnnn sets PC to nnn + V0; each succeeds and changes nothing else |
| Properties.JumpOffsetPastMemory | src/chip8.cpp:217-219 | Bnnn is not truncated to 12 bits: BFFF with V0 = 0xFF puts PC at 0x10FE, and the next fetch faults |
| Properties.IllegalWordsChangeNothing | src/chip8.cpp:382 | `step` returns ILLEGAL_INSTRUCTION exactly for the words no rule matches, and an unsuccessful step changes nothing, PC included |
| Properties.AddByteWraps | src/chip8.cpp:118-122 | 7xkk adds modulo 256, touches no flag and no other register |
| Properties.AddRegCarry | src/chip8.cpp:155-162 | 8xy4 sets VF to 1 if and only if Vx + Vy > 255; Vx is the sum modulo 256; carry and Vx together make up the sum |
| Properties.SubRegBorrow | src/chip8.cpp:165-172 | 8xy5 sets VF to 1 if and only if Vx > Vy (strictly); Vx is the difference modulo 256 |
| Properties.SubNegBorrow | src/chip8.cpp:182-189 | 8xy7 sets VF to 1 if and only if Vy > Vx; Vx is Vy - Vx modulo 256 |
| Properties.ShiftRightFlag | src/chip8.cpp:175-179 | 8xy6 puts the bit shifted out (Vx & 1) in VF and halves Vx; Vy is not read |
| Properties.ShiftLeftFlag | src/chip8.cpp:192-196 | 8xyE puts Vx & 0x80 (0 or 128, not 1) in VF and doubles Vx modulo 256 |
| Properties.AddRegReadsNewFlag | src/chip8.cpp:157-160 | since VF is written first, 8xy4 with y = 15 adds the fresh carry, not the old VF |
| Properties.AddWithFlagOperand | src/chip8.cpp:155-162 | 8xy4 with x or y = 15: the carry comes from the old values, and the sum then reads that carry from VF (into VF itself when x = 15) |
| Properties.SubWithFlagOperand | src/chip8.cpp:165-172 | 8xy5 with x or y = 15: the flag Vx > Vy comes from the old values, and the difference then reads that flag from VF |
| Properties.SubNegWithFlagOperand | src/chip8.cpp:182-189 | 8xy7 with x or y = 15: the flag Vy > Vx comes from the old values, and the difference then reads that flag from VF |
| Properties.ShiftFlagRegister | src/chip8.cpp:175-196 | a shift of VF itself always leaves VF at 0 |
| Properties.OrRegBits | src/chip8.cpp:137-140 | 8xy1 leaves bit k of Vx set if and only if it was set in Vx or Vy, and changes no other register |
| Properties.AndRegBits | src/chip8.cpp:143-146 | 8xy2 leaves bit k of Vx set if and only if it was set in both Vx and Vy, and changes no other register |
| Properties.XorRegBits | src/chip8.cpp:149-152 | 8xy3 leaves bit k of Vx set if and only if it was set in exactly one of Vx and Vy, and changes no other register |
| Properties.XorRegTwice | src/chip8.cpp:149-152 | for x other than y, 8xy3 applied twice restores the registers (with x = y the first one clears Vx) |
| Properties.RandomMasked | src/chip8.cpp:222-227 | Cxkk stores `rand & kk`, which is at most kk and at most the random byte, and changes no other register |
| Properties.WrapDistinct | src/chip8.cpp:245-252 | two offsets below the display size that wrap to the same coordinate are equal |
| Properties.SpritePosInjective | src/chip8.cpp:245-252 | no two pixels of a sprite of at most 16 rows land on the same display cell |
| Properties.DrawnStep | src/chip8.cpp:245-260 | one more pixel keeps the drawing invariant (cells XORed, the others unchanged, VF set on collision) |
| Properties.DrawnRow | src/chip8.cpp:242-261 | a whole sprite row keeps the drawing invariant |
| Properties.DrawnRows | src/chip8.cpp:239-262 | the whole sprite satisfies the drawing invariant |
| Properties.DrawEffect | src/chip8.cpp:230-264 | Dxyn XORs bit 7 - col of RAM[I + row] into the wrapped cell, leaves every other cell, sets VF to 1 if and only if a set bit met a lit cell (else 0), and changes only the display, VF and PC |
| Properties.DrawInRange | src/chip8.cpp:230-264 | Dxyn succeeds if and only if n is 0 or the n sprite bytes from I lie inside memory, whatever x and y are |
| Properties.DrawTwiceRestores | src/chip8.cpp:230-264 | drawing the same sprite twice at the same place restores the display |
| Properties.BcdDigits | src/chip8.cpp:335-360 | Fx33 writes digits a <= 2, b <= 9, c <= 9 with 100a + 10b + c = Vx at I..I + 2 and touches nothing else but PC |
| Properties.BcdInRange | src/chip8.cpp:335-360 | Fx33 succeeds if and only if I + 2 lies inside memory |
| Properties.Bcd255 | src/chip8.cpp:335-360 | 255 is stored as 2, 5, 5 |
| Properties.StoreRegsEffect | src/chip8.cpp:363-370 | Fx55 succeeds if and only if I + x is inside memory; it copies V0..Vx to I..I + x, leaves the rest of memory and I alone |
| Properties.LoadRegsEffect | src/chip8.cpp:373-380 | Fx65 succeeds if and only if I + x is inside memory; it loads V0..Vx from I..I + x and leaves the other registers, memory and I alone |
| Properties.StoreThenLoad | src/chip8.cpp:363-380 | Fx55 then Fx65 with the same I and x gives V0..Vx back, whatever the registers held in between |
| Properties.WaitKeyPending | src/chip8.cpp:294-304 | Fx0A without a completed wait only raises WAIT_FOR_KEY; PC and V stay |
| Properties.WaitKeyComplete | src/chip8.cpp:294-304 | Fx0A after a completed wait stores LAST_KEY in Vx, clears both flags and moves PC on by 2 |
| Properties.PressEndsWait | src/main.cpp:161-176 | Fx0A waits, a key goes down, and the next Fx0A stores that key and moves on |
| Properties.LatchFrame | src/main.cpp:161-197 | a press latches the key as down and as the last key and sets WAIT_COMPLETE only when a wait is pending; a release clears only its key |
| Properties.AddIndexWraps | src/chip8.cpp:321-325 | Fx1E adds Vx to I modulo 65536 and changes nothing else but PC |
| Properties.LoadFontIndex | src/chip8.cpp:328-332 | Fx29 sets I to 5 * Vx without truncation, up to 1275 |
| Properties.Ticks | src/chip8.cpp:385-388 | n calls of `timer` bring each timer down by n, stopping at 0, and change nothing else |
| Properties.TickIdle | src/chip8.cpp:385-388 | `timer` changes the state if and only if a timer is above 0, and never raises one |
| Properties.BootLayout | src/chip8.cpp:8-50 | after `init` everything is clear, PC is 0x200, the program is at 0x200, the font at 0 where the program does not cover it, and the rest of memory is 0 |
| Properties.BootMissingFile | src/chip8.cpp:26-43 | a missing font returns STD_FILE_NOT_FOUND after the reset; a missing program returns PROGRAM_FILE_NOT_FOUND after the font is loaded |
| Properties.ResetState | src/chip8.cpp:11-23 | after the resets RAM, V, display and keys are 0, I, SP and both timers are 0, PC is 0x200 and both wait flags are false |

## Left out

- The SDL driver: window, rendering, audio, pacing and argument parsing are host I/O. Only the key latch it writes is modelled (`Press`, `Release`).
- The scancode-to-key table of the input driver: the latch takes the CHIP-8 key number directly.
- File reading in `init`: the font and program files are inputs of type `Option<seq<byte>>`, with `None` for a file that cannot be opened.
- Machine.Boot: requires the font to fit in memory and the program to fit between 0x200 and the end of memory. The engine's read loops have no bound and would write past RAM.
- `srand(time(NULL))` and `rand()` in Cxkk: the random byte is a parameter, `rnd`.
- Undefined behaviour in the engine is modelled as a `Fault` result that leaves the state unchanged. This covers:
  - a fetch with PC >= 4095;
  - 00EE with SP == 0;
  - 2nnn with SP == 16;
  - Dxyn, Fx33, Fx55 or Fx65 indexing RAM past 4095;
  - Ex9E or ExA1 with Vx > 15.
  The engine itself would read or write outside its arrays.
- Machine.Reset: the stack memset at src/chip8.cpp:16 clears 16 bytes, which is only the first 8 of the 16 `uint16` entries. The model clears all 16. The difference cannot be observed: 00EE reads only entries a 2nnn has written since SP was reset to 0.
- Properties.DrawEffect, Properties.DrawTwiceRestores: stated for x and y other than 15. When a coordinate register is VF, the engine re-reads it after VF changes, so the closed form does not hold. `Machine.DrawRows` and `Interpreter.Chip8.DrawSprite` still follow the engine pixel by pixel in that case.
- Properties.AddRegCarry, Properties.SubRegBorrow, Properties.SubNegBorrow, Properties.ShiftRightFlag, Properties.ShiftLeftFlag: the closed forms are stated for x other than 15, and for the additions and subtractions also for y other than 15. With VF as an operand the engine reads the new flag; `Properties.AddWithFlagOperand`, `Properties.SubWithFlagOperand`, `Properties.SubNegWithFlagOperand` and `Properties.ShiftFlagRegister` state those cases (and `Properties.AddRegReadsNewFlag` the 8xy4 case with y = 15 alone). The shifts with y = 15 and x other than 15 are already covered by the closed forms, since the shifts do not read Vy.
- Where a general description of CHIP-8 and this engine's code differ, the model follows the code:
  - Fx55 and Fx65 leave I unchanged.
  - 8xyE stores Vx & 0x80 in VF.
  - 8xy5 tests Vx > Vy strictly.
  - Fx29 can set I as high as 1275.
  - Bnnn can set PC past 0xFFF.
