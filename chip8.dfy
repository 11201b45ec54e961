/**
 * `struct Chip8` of src/main.rs as a class whose methods update its state
 * in place, as the source does: the 32 x 64 screen array, the CPU, the
 * memory, the key snapshot and the `screen_changed` flag. Each method is
 * proved to do to `Model()`, the value of the whole state, what the
 * interpreter functions say the same source lines do.
 */
module Chip8 {
  import opened Types
  import opened Bits
  import Cpu
  import Memory
  import opened Opcode
  import opened Interpreter

  /** The screen array read line after line, as `Machine.screen` holds it. */
  ghost function Pixels(g: array2<Byte>): (s: seq<Byte>)
    requires g.Length0 == Height && g.Length1 == Width
    reads g
    ensures |s| == Cells
  {
    seq(Cells, p requires 0 <= p < Cells reads g => g[p / 64, p % 64])
  }

  /** The screen array shows the pixels `s`: line `r`, column `c` holds `s[Cell(r, c)]`. */
  ghost predicate Shows(g: array2<Byte>, s: seq<Byte>)
    requires g.Length0 == Height && g.Length1 == Width && |s| == Cells
    reads g
  {
    forall r, c :: 0 <= r < Height && 0 <= c < Width ==> g[r, c] == s[Cell(r, c)]
  }

  /** The array shows exactly its own reading, and no other pixel sequence. */
  lemma ShowsPixels(g: array2<Byte>, s: seq<Byte>)
    requires g.Length0 == Height && g.Length1 == Width && |s| == Cells
    ensures Shows(g, Pixels(g))
    ensures Shows(g, s) <==> Pixels(g) == s
  {
    forall r, c | 0 <= r < Height && 0 <= c < Width
      ensures Cell(r, c) / 64 == r && Cell(r, c) % 64 == c
    {
      DivMod(Cell(r, c), 64, r, c);
    }
    if Shows(g, s) {
      forall p | 0 <= p < Cells
        ensures Pixels(g)[p] == s[p]
      {
        assert p == Cell(p / 64, p % 64);
      }
    }
  }

  class Chip8 {
    const screen: array2<Byte>
    const memory: Memory.Memory
    var cpu: Cpu.Cpu
    var keyboard: seq<bool>
    var screenChanged: bool

    ghost predicate Valid()
      reads this
    {
      screen.Length0 == Height && screen.Length1 == Width &&
      memory.ram.Length == Memory.RamSize && memory.stack.Length == Memory.StackSize &&
      |cpu.v| == Cpu.RegisterCount && cpu.sp < Memory.StackSize && |keyboard| == 16
    }

    /** The state as one value. */
    ghost function Model(): (m: Machine)
      requires Valid()
      reads this, screen, memory.ram, memory.stack
      ensures WellFormed(m)
    {
      Machine(cpu, memory.ram[..], memory.stack[..], Pixels(screen), keyboard, screenChanged)
    }

    /** `Chip8::new`: a blank screen, a fresh CPU and memory, no key down. */
    constructor ()
      ensures Valid() && fresh(screen) && fresh(memory.ram) && fresh(memory.stack)
      ensures Model() == PowerOn()
    {
      memory := new Memory.Memory();
      screen := new Byte[Height, Width]((_, _) => 0);
      cpu := Cpu.New();
      keyboard := seq(16, _ => false);
      screenChanged := false;
      new;
      ShowsPixels(screen, BlankScreen());
      assert memory.ram[..] == PowerOn().ram;
      assert memory.stack[..] == PowerOn().stack;
    }

    /** `fetch_opcode`: the big-endian word at pc, or a fault when pc + 1 is past the end of RAM. */
    method FetchOpcode() returns (r: Result<Word>)
      requires Valid()
      ensures r == Fetch(Model())
    {
      if cpu.pc + 1 >= memory.ram.Length {
        return Err(RamOutOfBounds);
      }
      var high := memory.ram[cpu.pc] as int;
      var low := memory.ram[cpu.pc + 1] as int;
      r := Ok(high * 0x100 + low);
    }

    /** `next_instruction`: pc += 2. */
    method NextInstruction()
      requires Valid()
      modifies this
      ensures Valid() && Model() == Advance(old(Model()), Next)
    {
      cpu := cpu.(pc := (cpu.pc + 2) % 0x1_0000);
    }

    /** `skip_next_instruction_if`: pc += 4 when the condition holds, pc += 2 otherwise. */
    method SkipNextInstructionIf(condition: bool)
      requires Valid()
      modifies this
      ensures Valid() && Model() == Advance(old(Model()), if condition then Skip else Next)
    {
      if condition {
        cpu := cpu.(pc := (cpu.pc + 4) % 0x1_0000);
      } else {
        cpu := cpu.(pc := (cpu.pc + 2) % 0x1_0000);
      }
    }

    /** 00E0: the two loops that zero every pixel, then `screen_changed`. */
    method ClearScreen()
      requires Valid()
      modifies this, screen
      ensures Valid() && Model() == old(Model()).(screen := BlankScreen(), screenChanged := true)
    {
      for r := 0 to Height
        modifies screen
        invariant forall r', c :: 0 <= r' < r && 0 <= c < Width ==> screen[r', c] == 0
      {
        for c := 0 to Width
          modifies screen
          invariant forall r', c' :: 0 <= r' < r && 0 <= c' < Width ==> screen[r', c'] == 0
          invariant forall c' :: 0 <= c' < c ==> screen[r, c'] == 0
        {
          screen[r, c] := 0;
        }
      }
      screenChanged := true;
      ShowsPixels(screen, BlankScreen());
    }

    /**
     * One step of the inner loop of Dxyn: the pixel for bit `bit` of sprite
     * byte `sb`, at column `(Vx + bit) % 64` of line `yAxis`, with Vx read
     * afresh: VF |= color & pixel, then pixel ^= color. `c` is the canvas
     * the screen and VF hold before the step.
     */
    method PlotPixel(ghost v0: seq<Byte>, ghost c: Canvas, x: Nibble, sb: Byte, yAxis: int, bit: nat)
      requires Valid() && CanvasOk(c) && |v0| == Cpu.RegisterCount && 0 <= yAxis < Height && bit < 8
      requires Shows(screen, c.screen) && cpu.v == v0[VF := c.vf]
      modifies this, screen
      ensures Valid() && keyboard == old(keyboard) && screenChanged == old(screenChanged)
      ensures var c' := DrawPixel(c, v0, x, sb, yAxis, bit);
        Shows(screen, c'.screen) && cpu == old(cpu).(v := v0[VF := c'.vf])
    {
      var xAxis := (cpu.v[x] + bit) % Width;
      var color := BitAt(sb, 7 - bit);
      ghost var p := Cell(yAxis, xAxis);
      assert xAxis == SpriteColumn(v0, c, x, bit);
      ghost var c' := DrawPixel(c, v0, x, sb, yAxis, bit);
      cpu := cpu.(v := cpu.v[VF := OrBit(cpu.v[VF], AndBit(color, screen[yAxis, xAxis]))]);
      screen[yAxis, xAxis] := XorBit(screen[yAxis, xAxis], color);
      forall r, col | 0 <= r < Height && 0 <= col < Width
        ensures screen[r, col] == c'.screen[Cell(r, col)]
      {
        if r != yAxis || col != xAxis {
          assert Cell(r, col) != p;
        }
      }
    }

    /**
     * The body of the outer loop of Dxyn: sprite byte `sb` goes to line
     * `(Vy + row) % 32`, Vy read now, bit by bit in the inner loop.
     */
    method DrawRow(ghost v0: seq<Byte>, ghost k: Canvas, x: Nibble, y: Nibble, row: nat, sb: Byte)
      requires Valid() && CanvasOk(k) && |v0| == Cpu.RegisterCount
      requires Shows(screen, k.screen) && cpu.v == v0[VF := k.vf]
      modifies this, screen
      ensures Valid() && keyboard == old(keyboard) && screenChanged == old(screenChanged)
      ensures var k' := DrawBits(k, v0, x, sb, SpriteLine(v0, k, y, row), 0);
        Shows(screen, k'.screen) && cpu == old(cpu).(v := v0[VF := k'.vf])
    {
      var yAxis := (cpu.v[y] + row) % Height;
      assert yAxis == SpriteLine(v0, k, y, row);
      ghost var c := k;
      for bit := 0 to 8
        invariant Valid() && keyboard == old(keyboard) && screenChanged == old(screenChanged)
        invariant CanvasOk(c) && DrawBits(c, v0, x, sb, yAxis, bit) == DrawBits(k, v0, x, sb, yAxis, 0)
        invariant Shows(screen, c.screen) && cpu == old(cpu).(v := v0[VF := c.vf])
      {
        PlotPixel(v0, c, x, sb, yAxis, bit);
        c := DrawPixel(c, v0, x, sb, yAxis, bit);
      }
    }

    /** The outer loop of Dxyn: sprite byte `row` for each `row` in `0..=n`. */
    method DrawSpriteRows(ghost v0: seq<Byte>, ghost k0: Canvas, x: Nibble, y: Nibble, n: Nibble, ghost sprite: seq<Byte>)
      requires Valid() && CanvasOk(k0) && |v0| == Cpu.RegisterCount && cpu.i + n < Memory.RamSize
      requires sprite == memory.ram[cpu.i .. cpu.i + n + 1]
      requires Shows(screen, k0.screen) && cpu.v == v0[VF := k0.vf]
      modifies this, screen
      ensures Valid() && keyboard == old(keyboard) && screenChanged == old(screenChanged)
      ensures var k := DrawRows(k0, v0, x, y, sprite, 0);
        Shows(screen, k.screen) && cpu == old(cpu).(v := v0[VF := k.vf])
    {
      ghost var k := k0;
      for row := 0 to n + 1
        invariant Valid() && keyboard == old(keyboard) && screenChanged == old(screenChanged)
        invariant CanvasOk(k) && DrawRows(k, v0, x, y, sprite, row) == DrawRows(k0, v0, x, y, sprite, 0)
        invariant Shows(screen, k.screen) && cpu == old(cpu).(v := v0[VF := k.vf])
      {
        var sb := memory.ram[cpu.i + row];
        assert sb == sprite[row];
        DrawRow(v0, k, x, y, row, sb);
        k := DrawBits(k, v0, x, sprite[row], SpriteLine(v0, k, y, row), 0);
      }
    }

    /** Dxyn: n + 1 sprite bytes from I, one per line, then `screen_changed`. */
    method DrawSprite(x: Nibble, y: Nibble, n: Nibble)
      requires Valid() && cpu.i + n < Memory.RamSize
      modifies this, screen
      ensures Valid() && Model() == Draw(old(Model()), x, y, n)
    {
      ghost var m := Model();
      ghost var k0 := Canvas(m.screen, m.cpu.v[VF]);
      ShowsPixels(screen, m.screen);
      assert m.cpu.v == m.cpu.v[VF := k0.vf];
      DrawSpriteRows(m.cpu.v, k0, x, y, n, m.ram[m.cpu.i .. m.cpu.i + n + 1]);
      ghost var k := DrawRows(k0, m.cpu.v, x, y, m.ram[m.cpu.i .. m.cpu.i + n + 1], 0);
      screenChanged := true;
      ShowsPixels(screen, k.screen);
      assert memory.ram[..] == m.ram && memory.stack[..] == m.stack;
      assert Model() == Machine(m.cpu.(v := m.cpu.v[VF := k.vf]), m.ram, m.stack, k.screen, m.keyboard, true);
      DrawIs(m, x, y, n, k);
    }

    /**
     * Fx0A: the snapshot becomes the keyboard, and the scan stores the
     * first key it finds down in Vx.
     */
    method WaitForKey(x: Nibble, polled: seq<bool>)
      requires Valid() && |polled| == 16 && AnyPressed(polled)
      modifies this
      ensures Valid()
      ensures Model() == SetV(old(Model()), x, LowestPressed(polled)).(keyboard := polled)
    {
      keyboard := polled;
      var k := 0;
      while !keyboard[k]
        invariant 0 <= k <= LowestPressed(polled)
        invariant forall j :: 0 <= j < k ==> !keyboard[j]
        decreases LowestPressed(polled) - k
      {
        k := k + 1;
      }
      cpu := cpu.(v := cpu.v[x := k]);
    }

    /** Fx55: `ram[i + I] := V[i]` for `i` in `0..=x`. */
    method StoreRegistersAt(x: Nibble)
      requires Valid() && cpu.i + x < Memory.RamSize
      modifies memory.ram
      ensures Valid() && Model() == old(Model()).(ram := StoreRegisters(old(memory.ram[..]), cpu.i, cpu.v, x))
    {
      for k := 0 to x + 1
        invariant forall a :: 0 <= a < Memory.RamSize ==>
          memory.ram[a] == if cpu.i <= a < cpu.i + k then cpu.v[a - cpu.i] else old(memory.ram[a])
      {
        memory.ram[k + cpu.i] := cpu.v[k];
      }
      assert memory.ram[..] == StoreRegisters(old(memory.ram[..]), cpu.i, cpu.v, x);
    }

    /** Fx65: `V[i] := ram[i + I]` for `i` in `0..=x`. */
    method LoadRegistersFrom(x: Nibble)
      requires Valid() && cpu.i + x < Memory.RamSize
      modifies this
      ensures Valid()
      ensures Model() == old(Model().(cpu := cpu.(v := LoadRegisters(cpu.v, memory.ram[..], cpu.i, x))))
    {
      for k := 0 to x + 1
        invariant Valid() && keyboard == old(keyboard) && screenChanged == old(screenChanged)
        invariant cpu == old(cpu).(v := cpu.v)
        invariant forall j :: 0 <= j < Cpu.RegisterCount ==>
          cpu.v[j] == if j < k then memory.ram[cpu.i + j] else old(cpu.v[j])
      {
        cpu := cpu.(v := cpu.v[k := memory.ram[k + cpu.i]]);
      }
      assert cpu.v == LoadRegisters(old(cpu.v), memory.ram[..], cpu.i, x);
    }
  
    /** The control-flow arms: RET, JP, CALL, the skips and JP V0; what they ask of the program counter. */
    method ExecuteControl(instr: Instr, inp: Input) returns (r: Outcome, pc: ProgramCounter)
      requires Valid() && ValidInput(inp) && IsControl(instr)
      modifies this, memory.stack
      ensures Valid()
      ensures r.Pass? <==> Control(old(Model()), instr, inp).Ok?
      ensures r.Pass? ==> Control(old(Model()), instr, inp).value == (Model(), pc)
      ensures r.Fail? ==> Control(old(Model()), instr, inp) == Err(r.fault)
    {
      r, pc := Pass, Next;
      match instr
      case Ret =>
        if cpu.sp == 0 {
          return Fail(StackUnderflow), Next;
        }
        cpu := cpu.(pc := memory.stack[cpu.sp]);
        cpu := cpu.(sp := cpu.sp - 1);
      case Jp(a) =>
        pc := Jump(a);
      case Call(a) =>
        if cpu.sp + 1 >= Memory.StackSize {
          return Fail(StackOverflow), Next;
        }
        cpu := cpu.(sp := cpu.sp + 1);
        memory.stack[cpu.sp] := cpu.pc;
        pc := Jump(a);
      case SeByte(x, kk) =>
        if cpu.v[x] == kk { pc := Skip; }
      case SneByte(x, kk) =>
        if cpu.v[x] != kk { pc := Skip; }
      case SeReg(x, y, _) =>
        if cpu.v[x] == cpu.v[y] { pc := Skip; }
      case SneReg(x, y) =>
        if cpu.v[x] != cpu.v[y] { pc := Skip; }
      case JpV0(a) =>
        pc := Jump(a + cpu.v[0]);
      case Skp(x) =>
        var key := inp.keyOf(cpu.v[x]);
        if key.Some? && inp.pressed[key.value] { pc := Skip; }
      case Sknp(x) =>
        var key := inp.keyOf(cpu.v[x]);
        if key.Some? && !inp.pressed[key.value] { pc := Skip; }
    }

    /** The register arms that leave VF alone (unless x is F). */
    method ExecuteArithmetic(instr: Instr, random: Byte)
      requires Valid() && IsArithmetic(instr)
      modifies this
      ensures keyboard == old(keyboard) && screenChanged == old(screenChanged)
      ensures cpu == old(cpu.(v := Arithmetic(cpu, instr, random)))
    {
      match instr
      case LdByte(x, kk) =>
        cpu := cpu.(v := cpu.v[x := kk]);
      case AddByte(x, kk) =>
        var result := cpu.v[x] as int + kk as int;
        cpu := cpu.(v := cpu.v[x := result % 0x100]);
      case LdReg(x, y) =>
        cpu := cpu.(v := cpu.v[x := cpu.v[y]]);
      case Or(x, y) =>
        cpu := cpu.(v := cpu.v[x := Or8(cpu.v[x], cpu.v[y])]);
      case And(x, y) =>
        cpu := cpu.(v := cpu.v[x := And8(cpu.v[x], cpu.v[y])]);
      case Xor(x, y) =>
        cpu := cpu.(v := cpu.v[x := Xor8(cpu.v[x], cpu.v[y])]);
      case Rnd(x, kk) =>
        cpu := cpu.(v := cpu.v[x := And8(kk, random)]);
      case LdVxDt(x) =>
        cpu := cpu.(v := cpu.v[x := cpu.delayTimer]);
      case AddReg(_, _) | Sub(_, _) | Shr(_, _) | Subn(_, _) | Shl(_, _) =>
        ExecuteFlagArithmetic(instr);
    }

    /**
     * The register arms that write a flag first (8xy4, 8xy5, 8xy6, 8xy7 and
     * 8xyE). Those that then read Vx and Vy again read the updated
     * registers; 8xy4, and the flag of 8xy5 and 8xy7, use the values read
     * before the arm.
     */
    method ExecuteFlagArithmetic(instr: Instr)
      requires Valid() && SetsFlag(instr)
      modifies this
      ensures keyboard == old(keyboard) && screenChanged == old(screenChanged)
      ensures cpu == old(cpu.(v := FlagArithmetic(cpu.v, instr)))
    {
      match instr
      case AddReg(x, y) =>
        var result := cpu.v[x] as int + cpu.v[y] as int;
        cpu := cpu.(v := cpu.v[VF := if result > 0xFF then 1 else 0]);
        cpu := cpu.(v := cpu.v[x := result % 0x100]);
      case Sub(x, y) =>
        var vx, vy := cpu.v[x], cpu.v[y];
        cpu := cpu.(v := cpu.v[VF := if vx > vy then 1 else 0]);
        cpu := cpu.(v := cpu.v[x := (cpu.v[x] as int - cpu.v[y] as int) % 0x100]);
      case Shr(x, _) =>
        cpu := cpu.(v := cpu.v[VF := And8(cpu.v[x], 1)]);
        cpu := cpu.(v := cpu.v[x := cpu.v[x] / 2]);
      case Subn(x, y) =>
        var vx, vy := cpu.v[x], cpu.v[y];
        cpu := cpu.(v := cpu.v[x := if vy > vx then 1 else 0]);
        cpu := cpu.(v := cpu.v[x := (cpu.v[y] as int - cpu.v[x] as int) % 0x100]);
      case Shl(x, _) =>
        cpu := cpu.(v := cpu.v[VF := And8(cpu.v[x], 0x80)]);
        cpu := cpu.(v := cpu.v[x := (cpu.v[x] as int * 2) % 0x100]);
    }

    /** The remaining arms: the screen, the key wait, the timers, I and RAM. */
    method ExecutePeripheral(instr: Instr, inp: Input) returns (r: Outcome)
      requires Valid() && ValidInput(inp) && CanRun(instr, inp)
      requires !IsControl(instr) && !IsArithmetic(instr) && !instr.Invalid?
      modifies this, screen, memory.ram
      ensures Valid()
      ensures r.Pass? <==> Peripheral(old(Model()), instr, inp).Ok?
      ensures r.Pass? ==> Model() == Peripheral(old(Model()), instr, inp).value
      ensures r.Fail? ==> Peripheral(old(Model()), instr, inp) == Err(r.fault)
    {
      r := Pass;
      match instr
      case Cls =>
        ClearScreen();
      case LdI(a) =>
        cpu := cpu.(i := a);
      case Drw(x, y, n) =>
        if cpu.i + n >= memory.ram.Length {
          return Fail(RamOutOfBounds);
        }
        DrawSprite(x, y, n);
      case LdVxK(x) =>
        WaitForKey(x, inp.polled);
      case LdDtVx(x) =>
        cpu := cpu.(delayTimer := cpu.v[x]);
      case LdStVx(x) =>
        cpu := cpu.(soundTimer := cpu.v[x]);
      case AddI(x) =>
        cpu := cpu.(i := (cpu.i + cpu.v[x]) % 0x1_0000);
      case LdF(x) =>
        cpu := cpu.(i := cpu.v[x]);
      case LdB(_) | LdIVx(_) | LdVxI(_) =>
        r := ExecuteMemoryArm(instr, inp);
    }

    /** Fx33, Fx55 and Fx65: the arms that index RAM from I. */
    method ExecuteMemoryArm(instr: Instr, inp: Input) returns (r: Outcome)
      requires Valid() && ValidInput(inp) && (instr.LdB? || instr.LdIVx? || instr.LdVxI?)
      modifies this, memory.ram
      ensures Valid() && keyboard == old(keyboard) && screenChanged == old(screenChanged)
      ensures r.Pass? <==> Peripheral(old(Model()), instr, inp).Ok?
      ensures r.Pass? ==> Model() == Peripheral(old(Model()), instr, inp).value
      ensures r.Fail? ==> Peripheral(old(Model()), instr, inp) == Err(r.fault)
    {
      r := Pass;
      match instr
      case LdB(x) =>
        if cpu.i + 2 >= memory.ram.Length {
          return Fail(RamOutOfBounds);
        }
        memory.ram[cpu.i] := cpu.v[x] / 100;
        memory.ram[cpu.i + 1] := (cpu.v[x] % 100) / 10;
        memory.ram[cpu.i + 2] := (cpu.v[x] % 10) / 10;
      case LdIVx(x) =>
        if cpu.i + x >= memory.ram.Length {
          return Fail(RamOutOfBounds);
        }
        StoreRegistersAt(x);
      case LdVxI(x) =>
        if cpu.i + x >= memory.ram.Length {
          return Fail(RamOutOfBounds);
        }
        LoadRegistersFrom(x);
    }

    /**
     * `execute_opcode`: decode, run the arm, then apply the program-counter
     * effect once. An unlisted opcode ends the interpreter (`exit(1)`).
     */
    method ExecuteOpcode(opcode: Word, inp: Input) returns (r: Outcome)
      requires Valid() && ValidInput(inp) && CanRun(Decode(opcode), inp)
      modifies this, screen, memory.ram, memory.stack
      ensures Valid()
      ensures r.Pass? <==> Execute(old(Model()), opcode, inp).Ok?
      ensures r.Pass? ==> Model() == Execute(old(Model()), opcode, inp).value
      ensures r.Fail? ==> Execute(old(Model()), opcode, inp) == Err(r.fault)
    {
      ghost var m := Model();
      var instr := Decode(opcode);
      var pc := Next;
      if instr.Invalid? {
        InvalidExactlyUnlisted(opcode);
        return Fail(InvalidOpcode(opcode));
      } else if IsControl(instr) {
        r, pc := ExecuteControl(instr, inp);
        if r.Fail? {
          return;
        }
      } else if IsArithmetic(instr) {
        ExecuteArithmetic(instr, inp.random);
        assert Model() == m.(cpu := m.cpu.(v := Arithmetic(m.cpu, instr, inp.random)));
        r := Pass;
      } else {
        r := ExecutePeripheral(instr, inp);
        if r.Fail? {
          return;
        }
      }
      assert Operate(m, instr, inp) == Ok((Model(), pc));
      ApplyProgramCounter(pc);
    }

    /** The `match program_counter` that ends `execute_opcode`: pc += 2, pc += 4, or a jump. */
    method ApplyProgramCounter(pc: ProgramCounter)
      requires Valid()
      modifies this
      ensures Valid() && Model() == Advance(old(Model()), pc)
    {
      match pc
      case Next => cpu := cpu.(pc := (cpu.pc + 2) % 0x1_0000);
      case Skip => cpu := cpu.(pc := (cpu.pc + 4) % 0x1_0000);
      case Jump(target) => cpu := cpu.(pc := target);
    }

    /** `tick` without `draw`: clear `screen_changed`, fetch, execute. */
    method Tick(inp: Input) returns (r: Outcome)
      requires Valid() && ValidInput(inp)
      requires WaitsForKey(Model()) ==> AnyPressed(inp.polled)
      modifies this, screen, memory.ram, memory.stack
      ensures Valid()
      ensures r.Pass? <==> Interpreter.Tick(old(Model()), inp).Ok?
      ensures r.Pass? ==> Model() == Interpreter.Tick(old(Model()), inp).value
      ensures r.Fail? ==> Interpreter.Tick(old(Model()), inp) == Err(r.fault)
    {
      ghost var m := Model();
      screenChanged := false;
      assert Model() == m.(screenChanged := false);
      var op := FetchOpcode();
      if op.Err? {
        return Fail(op.fault);
      }
      r := ExecuteOpcode(op.value, inp);
    }
  }
}
