# CHIP-8 interpreter core, modelled and verified in Dafny

This project models the core of `chip8-rs`, a CHIP-8 interpreter written in Rust, and proves properties of that model:

- the machine state: `Cpu` in `src/cpu.rs`; `Memory`, with its 4096-byte RAM, 16-entry stack and the built-in hexadecimal font `KEYBOARD`, in `src/memory.rs`; and the `Chip8` struct's 32 x 64 screen, key snapshot and `screen_changed` flag in `src/main.rs`;
- `fetch_opcode`, the opcode decoding, every arm of `execute_opcode` and the single program-counter update after the arms;
- `tick` without `draw`, `next_instruction` and `skip_next_instruction_if`;
- `Memory::new`, `load_fontset` and the copy step of `load_rom`.

The model follows what the code does. Where the code departs from Cowgod's Chip-8 Technical Reference (section 3.1), whose mnemonics the arms use, or from what a reader might expect:

- 8xy7 stores the flag "Vy > Vx" into Vx, not VF, and then computes Vy - Vx from the updated registers.
- 8xyE sets VF to `Vx & 0x80`, so VF is 0 or 128.
- Fx29 sets I to Vx, not to the address of the glyph for digit Vx.
- The ones digit that Fx33 stores is `(Vx % 10) / 10`, which is always 0. So 157 gives 1, 5, 0, not 1, 5, 7.
- Dxyn draws n + 1 sprite bytes, not n.
- Dxyn only ever ORs collisions into VF. It never clears VF first, so VF is not reset to 0 when nothing collides.
- Dxyn reads Vx again for every pixel and Vy again for every row, so with x or y equal to F the collisions found so far move the sprite.
- CALL pushes the current pc, not pc + 2. The `Next` that follows RET supplies the + 2.
- 5xy_ ignores its last nibble.
- Fx1E adds to I modulo 2^16 (`u16`), not within 12 bits.
- The timers are never decremented anywhere.

Module layout:

- **Types** (`types.dfy`): `Byte` and `Word` (`u8` and `u16`), `Option`, `Result`, `Outcome`, and the `Fault`s that end the interpreter.
- **Bits** (`bits.dfy`): the bitwise `&`, `|` and `^` the arms use, defined bit by bit on integers, and `BitAt` for `(a >> k) & 1`. The shifts of 8xy6 and 8xyE and the `<< 8` of `fetch_opcode` are written arithmetically in the Interpreter (`/ 2`, `* 2 % 256`, `* Pow2(8)`).
- **Cpu** (`cpu.dfy`): `struct Cpu` and `Cpu::new`.
- **Opcode** (`opcode.dfy`): the nibble split, `kk`, `nnn`, and the decoding of an opcode into an instruction (`Instr`), with its inverse `Encode`.
- **Memory** (`memory.dfy`): the font table, and the `Memory` class with `load_rom`'s copy and `load_fontset`'s nested loops, specified by the functions `WithRom` and `WithFont`.
- **Interpreter** (`interpreter.dfy`): the whole machine as one value, with each arm of `execute_opcode` as a function on it (`Operate`), then `Execute` and `Tick`.
- **Properties** and **Drawing** (`properties.dfy`, `drawing.dfy`): what the arms do, stated and proved. Drawing brings Dxyn's pixel-by-pixel definition into closed form: cell (r, c) is XOR-ed with the sprite bit that lands on it.
- **Chip8** (`chip8.dfy`): `struct Chip8` as a class whose methods change the screen array, the registers, RAM and the stack in place, with the same loops as the source. Each method is proved to do to the state (`Model()`) what the Interpreter function for the same lines says.

Errors are `Result`/`Outcome` values: an unknown opcode (`exit(1)`), CALL with the stack full, RET with the stack empty, and a RAM index of 4096 or more (a panic). The key-lookup of Ex9E/ExA1, the key snapshot that ends the Fx0A wait loop and the random byte of Cxkk are parameters (`Input`).

## Model

| member | source | states |
|---|---|---|
| Cpu.New | src/cpu.rs:11-20 | pc is 0x200, sp is 0, there are exactly 16 registers and all are 0, and I and both timers are 0 |
| Opcode.Nibbles | src/main.rs:95-100 | the four nibbles, most significant first, recompose the opcode: `op == hi*0x1000 + x*0x100 + y*0x10 + n` |
| Opcode.Kk | src/main.rs:105 | `kk` is the two low nibbles `y*0x10 + n` |
| Opcode.Nnn | src/main.rs:106 | `nnn` is the three low nibbles `x*0x100 + kk` |
| Opcode.NibblesOf | src/main.rs:95-106 | splitting four nibbles joined into a word gives them back, and `kk`/`nnn` of that word are its low two/three nibbles |
| Opcode.Decode | src/main.rs:111-421 | the `match` (`Select` over the nibbles, `kk` and `nnn`) picks one arm per opcode; when it falls through to the catch-all arm, that arm carries the opcode itself |
| Opcode.InvalidExactlyUnlisted | src/main.rs:111-421 | an opcode reaches the catch-all arm exactly when it is unlisted (0nnn other than 00E0/00EE, 8xy8-8xyD, 8xyF, 9xyn with n != 0, unknown E and F forms) |
| Opcode.EncodeDecode | src/main.rs:111-416 | every accepted opcode is the encoding of the instruction it decodes to, so decoding is injective on accepted opcodes |
| Opcode.DecodeEncode | src/main.rs:111-416 | decoding the encoding of any instruction gives the instruction back |
| Memory.Fontset | src/memory.rs:47-54 | the font bytes in write order are exactly 80 bytes long (16 glyphs of 5 rows) |
| Memory.FontsetAt | src/memory.rs:47-54 | the counter `i` of `load_fontset` reaches `5*d + r` at row r of glyph d |
| Memory.WithFont | src/memory.rs:47-56 | RAM after the font is loaded keeps its 4096 bytes |
| Memory.GlyphsFourPixelsWide | src/memory.rs:3-20 | every glyph byte has a zero low nibble, so a glyph row is at most 4 pixels wide |
| Memory.FontsetPlaced | src/memory.rs:47-54 | after `load_fontset`, `ram[0x50 + 5*d + r]` is row r of glyph d, for every digit d < 16 and row r < 5 |
| Memory.FontsetFrame | src/memory.rs:47-54 | `load_fontset` leaves every byte outside 0x50..0xA0 unchanged |
| Memory.FontsetIdempotent | src/memory.rs:47-56 | loading the font twice gives the same RAM as loading it once |
| Memory.WithRom | src/memory.rs:42-43 | the copy into `ram[0x200..0x200 + len]` keeps RAM at 4096 bytes when it succeeds; `RomFits` and `RomPlaced` say when it does and what it writes |
| Memory.RomFits | src/memory.rs:42-43 | the ROM copy fails exactly when the ROM is longer than 4096 - 0x200 = 3584 bytes |
| Memory.RomPlaced | src/memory.rs:42-43 | a ROM that fits is copied to 0x200 byte for byte, and every other byte is unchanged |
| Memory.RomKeepsFont | src/memory.rs:42-56 | loading a ROM after the font leaves the font bytes intact |
| Memory.Memory.constructor | src/memory.rs:31-36 | `Memory::new`: 4096 zero RAM bytes and 16 zero stack entries |
| Memory.Memory.LoadRom | src/memory.rs:38-45 | the copy succeeds exactly when `WithRom` does and then leaves RAM as `WithRom` gives it; an oversize ROM is a slice fault and RAM is untouched |
| Memory.Memory.LoadFontset | src/memory.rs:47-56 | the nested loops always succeed and leave RAM equal to `WithFont` of the old RAM |
| Interpreter.PowerOn | src/main.rs:39-49 | `Chip8::new` yields a well-formed state whose screen is all 0s and 1s |
| Interpreter.Fetch | src/main.rs:51-54 | the opcode is `ram[pc]*256 + ram[pc+1]` when pc + 1 < 4096, and a RAM fault otherwise |
| Interpreter.LowestPressed | src/main.rs:344-359 | the key Fx0A stores is down in the snapshot, and no key with a lower index is |
| Interpreter.KeyDown | src/main.rs:309-320 | Ex9E's test holds only for a byte the key lookup maps to a key |
| Interpreter.KeyUp | src/main.rs:323-334 | ExA1's test holds exactly when the lookup finds a key and that key is not down, so an unknown byte is neither down nor up |
| Interpreter.Control | src/main.rs:125-281 | RET, JP, CALL, Bnnn and the skips change only pc, sp and the stack; all but RET and CALL leave the whole state as it was and act only through the returned pc effect |
| Interpreter.Arithmetic | src/main.rs:177-341 | the register arms keep 16 registers and change none but Vx, and VF only for 8xy4-8xyE |
| Interpreter.FlagArithmetic | src/main.rs:220-258 | 8xy4-8xyE keep 16 registers and change none but Vx and VF |
| Interpreter.Peripheral | src/main.rs:113-416 | 00E0, Annn, Dxyn and the F arms keep the state well-formed and never touch pc, sp or the stack |
| Interpreter.DrawPixel | src/main.rs:297-301 | one pixel step keeps the screen at 2048 cells |
| Interpreter.DrawBits | src/main.rs:296-302 | the inner loop keeps the screen at 2048 cells |
| Interpreter.DrawRows | src/main.rs:295-303 | the outer loop keeps the screen at 2048 cells |
| Interpreter.Draw | src/main.rs:293-306 | Dxyn sets `screen_changed`, keeps RAM, the stack, the keys, pc, sp, I and both timers, and changes no register but VF |
| Interpreter.StoreRegisters | src/main.rs:401-407 | Fx55's writes keep RAM at its size; `SpillOnly` says which bytes change |
| Interpreter.LoadRegisters | src/main.rs:410-416 | Fx65's reads keep 16 registers; `ReloadOnly` says which change |
| Interpreter.Advance | src/main.rs:424-428 | the pc update changes pc and nothing else, and a jump lands on its target |
| Interpreter.Operate | src/main.rs:111-421 | every arm that succeeds keeps the state well-formed: sizes of RAM, stack, registers, screen and keys, and sp < 16 |
| Interpreter.Execute | src/main.rs:94-429 | `execute_opcode` keeps the state well-formed |
| Interpreter.Tick | src/main.rs:431-441 | `tick` keeps the state well-formed |
| Properties.AddRegCarry | src/main.rs:220-226 | 8xy4 with x != F is a full adder: new Vx + 256 * VF equals old Vx + Vy, and VF is 0 or 1 |
| Properties.AddRegIntoFlag | src/main.rs:220-226 | with x = F, 8xy4 writes the flag first and the sum last, so VF ends as the sum modulo 256 |
| Properties.AddByteNoCarry | src/main.rs:184-189 | 7xkk adds kk modulo 256 for every x, so 7Fkk makes VF (VF + kk) mod 256; for x != F it sets no carry and leaves VF alone |
| Properties.SubBorrow | src/main.rs:229-234 | 8xy5 with x, y != F subtracts modulo 256, and VF is 1 exactly when the old Vx was greater than Vy |
| Properties.SubRereadsFlag | src/main.rs:229-234 | 8xy5 with x or y = F: the flag "Vx > Vy" is written first, then the subtraction reads VF back; with y = F, Vx becomes (Vx - flag) mod 256 and VF keeps the flag; with x = F, VF ends (flag - Vy) mod 256 (0 when y = F too); no other register changes |
| Properties.SubnAsWritten | src/main.rs:245-250 | 8xy7 as written: Vx becomes Vy - 1 if Vy > Vx, else Vy, with no wrap-around (Vy - 1 is only taken when Vy > 0); 0 when x = y; VF untouched unless x = F |
| Properties.ShrFlag | src/main.rs:237-242 | 8xy6 with x != F: 2 * new Vx + VF equals old Vx, so VF is the bit shifted out; Vy plays no part |
| Properties.ShlFlag | src/main.rs:253-258 | 8xyE with x != F: new Vx + 2 * VF equals 2 * old Vx, and VF is 0 or 128 |
| Properties.ShiftIntoFlag | src/main.rs:237-258 | 8Fy6 and 8FyE write the shifted-out bit into VF and then shift VF itself, so VF ends 0 either way, and V0-VE are unchanged |
| Properties.RndBounded | src/main.rs:284-290 | Cxkk gives a value at most kk and at most the random byte, which is below 255 |
| Properties.OnlyVxChanges | src/main.rs:177-217 | 6xkk, 7xkk, 8xy0-8xy3, Cxkk and Fx07 change Vx and nothing else, and return `Next` |
| Properties.SkipMovesFourOrTwo | src/main.rs:146-174 | 3xkk, 4xkk, 5xy_, 9xy0, Ex9E and ExA1 move pc by 4 exactly when their test holds and by 2 otherwise, and change nothing else |
| Properties.JumpSetsPc | src/main.rs:133-136 | 1nnn sets pc to `opcode & 0xFFF` and changes nothing else |
| Properties.JumpV0SetsPc | src/main.rs:278-281 | Bnnn sets pc to `(opcode & 0xFFF) + V0` and changes nothing else |
| Properties.StraightLineMovesTwo | src/main.rs:424-428 | every recognised opcode other than the jumps, CALL, RET and the skips moves pc by exactly 2 |
| Properties.UnlistedHalts | src/main.rs:418-421 | an unlisted opcode stops the interpreter with that opcode, whatever the state |
| Properties.CallFault | src/main.rs:139-144 | CALL fails exactly when sp is 15, with a stack overflow |
| Properties.CallPushes | src/main.rs:139-144 | CALL stores the current pc in slot sp + 1, touches no other slot, increments sp and jumps |
| Properties.RetFault | src/main.rs:125-130 | RET fails exactly when sp is 0, with a stack underflow |
| Properties.CallThenReturn | src/main.rs:125-144 | CALL jumps to nnn, and a later RET over the same stack resumes at the call's pc + 2 with sp back where it was |
| Properties.UnknownKeyNeverSkips | src/main.rs:309-334 | when the key lookup finds no key for Vx, neither Ex9E nor ExA1 skips |
| Properties.KnownKeySkipsOnce | src/main.rs:309-334 | for a known key, exactly one of Ex9E and ExA1 skips, and Ex9E skips exactly when the key is down |
| Properties.WaitKeyStoresLowest | src/main.rs:344-359 | Fx0A keeps the snapshot as the keyboard, stores the lowest key that is down in it in Vx, changes nothing else (other registers, I, timers, RAM, stack, screen) and returns `Next` |
| Properties.StoreThenLoad | src/main.rs:401-416 | loading registers 0..=x just stored at I gives the registers back |
| Properties.LoadThenStore | src/main.rs:401-416 | storing registers 0..=x just loaded from I leaves RAM as it was |
| Properties.SpillOnly | src/main.rs:401-407 | Fx55 writes V0..Vx to I..=I+x and changes no other byte, no register and not the stack |
| Properties.ReloadOnly | src/main.rs:410-416 | Fx65 loads V0..Vx from I..=I+x, keeps the other registers, and changes no memory |
| Properties.ReloadSame | src/main.rs:410-416 | Fx65 changes nothing when RAM at I already holds V0..Vx |
| Properties.SpillThenReload | src/main.rs:401-416 | Fx65 right after Fx55 with the same I and x changes nothing |
| Properties.SpillFault | src/main.rs:401-416 | Fx55 and Fx65 fault exactly when I + x is 4096 or more |
| Properties.BcdAsWritten | src/main.rs:392-398 | Fx33 stores two decimal digits and a 0, which spell Vx rounded down to a multiple of 10; I, the registers and all other bytes are unchanged |
| Properties.BcdOf157 | src/main.rs:392-398 | Fx33 on 157 writes 1, 5, 0 |
| Properties.FontAddressAsWritten | src/main.rs:384-389 | Fx29 sets I to Vx itself and changes nothing else; for a digit Vx < 16 that lies below the font's base address 0x50, never at the glyph `0x50 + 5 * Vx` |
| Properties.OperateScreen | src/main.rs:111-421 | only 00E0 and Dxyn change the screen or raise `screen_changed`; 00E0 leaves it blank |
| Properties.TickScreenChanged | src/main.rs:431-441 | after `tick`, `screen_changed` is set exactly when the opcode fetched was 00E0 or Dxyn |
| Drawing.DrawXorsSprite | src/main.rs:293-306 | with x, y != F, Dxyn XORs each cell (r, c) with the sprite bit at row (r - Vy) mod 32 and column (c - Vx) mod 64, which is 0 outside the n + 1 rows and 8 columns |
| Drawing.DrawTwiceRestores | src/main.rs:293-306 | with x, y != F, drawing the same sprite twice gives the screen back |
| Drawing.DrawCollisionFlag | src/main.rs:293-306 | for any x and y, Dxyn never clears VF: it leaves it as it was or ORs 1 into it, so a VF of 0 ends as 0 or 1 |
| Drawing.DrawCollision | src/main.rs:293-306 | with x, y != F, VF ends as the old VF OR 1 exactly when some cell (r, c) holds an odd value under a set sprite bit, and as the old VF otherwise |
| Drawing.DrawOnBlankKeepsFlag | src/main.rs:293-306 | with x, y != F, drawing on a blank screen leaves VF as it was |
| Drawing.DrawKeepsBinary | src/main.rs:293-306 | Dxyn keeps every screen cell in {0, 1}, whatever x and y are |
| Drawing.OperateKeepsBinary | src/main.rs:111-421 | no arm puts anything but 0 or 1 into a screen cell |
| Drawing.TickKeepsBinary | src/main.rs:431-441 | `tick` keeps every screen cell in {0, 1} |
| Chip8.ShowsPixels | src/main.rs:31 | the 32 x 64 screen array and the line-after-line pixel sequence determine each other |
| Chip8.Chip8.constructor | src/main.rs:39-49 | the new state is `PowerOn`: blank screen, `Cpu::new`, `Memory::new`, no key down |
| Chip8.Chip8.FetchOpcode | src/main.rs:51-54 | returns `Fetch` of the state |
| Chip8.Chip8.NextInstruction | src/main.rs:56-58 | moves pc by 2 (modulo 2^16) and changes nothing else |
| Chip8.Chip8.SkipNextInstructionIf | src/main.rs:60-66 | moves pc by 4 when the condition holds and by 2 otherwise, and changes nothing else |
| Chip8.Chip8.ClearScreen | src/main.rs:113-122 | the nested loops leave the screen blank and set `screen_changed`, nothing else changes |
| Chip8.Chip8.PlotPixel | src/main.rs:297-301 | one pixel step: the screen and VF become those of `DrawPixel` |
| Chip8.Chip8.DrawRow | src/main.rs:295-302 | the inner loop draws one sprite byte on line (Vy + row) mod 32 as `DrawBits` does |
| Chip8.Chip8.DrawSpriteRows | src/main.rs:295-303 | the outer loop draws all n + 1 rows as `DrawRows` does |
| Chip8.Chip8.DrawSprite | src/main.rs:293-306 | Dxyn in place leaves the state equal to `Draw` of the old state |
| Chip8.Chip8.WaitForKey | src/main.rs:344-359 | Fx0A's scan stores `LowestPressed` of the snapshot in Vx and keeps the snapshot |
| Chip8.Chip8.StoreRegistersAt | src/main.rs:401-407 | Fx55's loop leaves RAM equal to `StoreRegisters` of the old RAM |
| Chip8.Chip8.LoadRegistersFrom | src/main.rs:410-416 | Fx65's loop leaves the registers equal to `LoadRegisters` of the old registers |
| Chip8.Chip8.ExecuteControl | src/main.rs:125-334 | RET, JP, CALL, the register skips, Bnnn (278-281) and the key skips Ex9E/ExA1 (309-334), and the returned pc effect, agree with `Control`, faults included |
| Chip8.Chip8.ExecuteArithmetic | src/main.rs:177-290 | 6xkk, 7xkk, 8xy0-8xy3, Cxkk and Fx07 (and, through `ExecuteFlagArithmetic`, 8xy4-8xyE) leave the registers equal to `Arithmetic` of the old CPU |
| Chip8.Chip8.ExecuteFlagArithmetic | src/main.rs:220-258 | 8xy4-8xyE leave the registers equal to `FlagArithmetic` of the old ones |
| Chip8.Chip8.ExecutePeripheral | src/main.rs:113-416 | 00E0, Annn, Dxyn and the F arms agree with `Peripheral`, faults included |
| Chip8.Chip8.ExecuteMemoryArm | src/main.rs:392-416 | Fx33, Fx55 and Fx65 agree with `Peripheral`, including the RAM fault |
| Chip8.Chip8.ApplyProgramCounter | src/main.rs:424-428 | pc += 2, pc += 4 (modulo 2^16) or the jump, as `Advance` says |
| Chip8.Chip8.ExecuteOpcode | src/main.rs:94-429 | `execute_opcode` in place succeeds exactly when `Execute` does, and then leaves the state `Execute` gives; on failure it reports `Execute`'s fault |
| Chip8.Chip8.Tick | src/main.rs:431-441 | `tick` in place agrees with `Tick` of the old state, faults included |

## Left out

- `Chip8::draw`, `src/display.rs` and everything SDL: rendering has no state the interpreter reads back.
- `src/events.rs`, `get_key`, `pool` and `keyboard_state`: these are replaced by the `Input` parameter. `keyOf` is the key lookup, `pressed` the keyboard state, and `polled` the snapshot that ends the Fx0A wait.
- The busy-wait loop of Fx0A: only its last poll is modelled. The arm requires a snapshot with some key down, so a wait that never ends is not modelled.
- `thread_rng().gen_range(0..255)`: the random byte is a parameter below 255.
- `main`, argument handling, `File::open`/`read_to_end` in `load_rom` (only the slice copy is modelled) and every `println!`.
- Timers: nothing in the source decrements them, so nothing here does.
- Integer overflow policy: the model takes the release-build reading. 8-bit `-=`, `<<` and `u8` casts wrap modulo 256; `pc += 2/4` and `i +=` wrap modulo 2^16. The debug-build panic on `-=` in 8xy5, and on `+=` in Fx1E and the pc update, is not modelled. (8xy7 uses `-` on values that never go below 0.)
- RET with sp = 0: `sp -= 1` on a `u8` would wrap in a release build. It is modelled as a fatal stack underflow instead.
- Faults mid-arm: a panic partway through Dxyn, Fx33, Fx55 or Fx65 happens after some writes. The model checks the last index first and stops before writing. What the state holds after a fatal fault is not specified, since the process ends.
- Chip8.Chip8.ExecuteOpcode, Chip8.Chip8.Tick: on a fault they state only the fault, not the state left behind, for the reason above.
- `load_fontset` and `load_rom` return `io::Result`. Only the outcome of the copy is modelled; the file errors are I/O.
