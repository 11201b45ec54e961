/**
 * The interpreter of src/main.rs as functions on a value of the whole
 * machine state: `fetch_opcode`, each arm of `execute_opcode`, the single
 * program-counter update that follows the arms, and `tick`.
 */
module Interpreter {
  import opened Types
  import opened Bits
  import Cpu
  import Memory
  import opened Opcode

  /** Screen size in pixels (`WIDTH`, `HEIGHT`), and the number of cells. */
  const Width := 64
  const Height := 32
  const Cells := 2048

  /** VF, the flag register. */
  const VF := 0xF

  /** `enum ProgramCounter`: how an arm asks the program counter to move. */
  datatype ProgramCounter = Next | Skip | Jump(target: Word)

  /** One of the sixteen CHIP-8 keys. */
  type Key = k: int | 0 <= k < 16

  /**
   * What the interpreter reads from outside during one instruction:
   * `polled` is the key snapshot that ends the wait loop of Fx0A;
   * `keyOf` is the key lookup used by Ex9E and ExA1 and `pressed` the
   * keyboard state it is checked against; `random` is the byte drawn by
   * `gen_range(0..255)` for Cxkk.
   */
  datatype Input = Input(polled: seq<bool>, keyOf: Byte -> Option<Key>, pressed: seq<bool>, random: Byte)

  predicate ValidInput(inp: Input)
  {
    |inp.polled| == 16 && |inp.pressed| == 16 && inp.random < 255
  }

  /**
   * `struct Chip8` without its display and event pump: CPU, memory, screen
   * and keys. The 32 lines of 64 pixels are laid out line after line, the
   * pixel of line `r` and column `c` at `Cell(r, c)`.
   */
  datatype Machine = Machine(
    cpu: Cpu.Cpu,
    ram: seq<Byte>,
    stack: seq<Word>,
    screen: seq<Byte>,
    keyboard: seq<bool>,
    screenChanged: bool)

  /**
   * The shape every reachable state has: fixed sizes, and a stack pointer
   * that indexes the stack.
   */
  predicate WellFormed(m: Machine)
  {
    |m.ram| == Memory.RamSize && |m.stack| == Memory.StackSize &&
    |m.cpu.v| == Cpu.RegisterCount && m.cpu.sp < Memory.StackSize &&
    |m.screen| == Cells &&
    |m.keyboard| == 16
  }

  /** Every pixel is 0 or 1. */
  predicate Binary(screen: seq<Byte>)
  {
    forall p :: 0 <= p < |screen| ==> screen[p] < 2
  }

  predicate ScreenBinary(m: Machine)
  {
    Binary(m.screen)
  }

  /** Where the pixel of line `r`, column `c` is kept (`64` written out so the arithmetic stays linear). */
  function Cell(r: int, c: int): (p: int)
    requires 0 <= r < Height && 0 <= c < Width
    ensures 0 <= p < Cells
  {
    r * 64 + c
  }

  /** A screen of zeros. */
  function BlankScreen(): (s: seq<Byte>)
    ensures |s| == Cells
  {
    seq(Cells, _ => 0)
  }

  /** `Chip8::new`: blank screen, fresh CPU and memory, no key down. */
  function PowerOn(): (m: Machine)
    ensures WellFormed(m) && ScreenBinary(m)
  {
    Machine(Cpu.New(), seq(Memory.RamSize, _ => 0), seq(Memory.StackSize, _ => 0),
            BlankScreen(), seq(16, _ => false), false)
  }

  /** `fetch_opcode`: the big-endian word at pc, `(ram[pc] as u16) << 8 | ram[pc + 1]`. */
  function Fetch(m: Machine): (r: Result<Word>)
    requires WellFormed(m)
    ensures r.Ok? <==> m.cpu.pc + 1 < Memory.RamSize
    ensures r.Err? ==> r.fault == RamOutOfBounds
    ensures r.Ok? ==> r.value == m.ram[m.cpu.pc] as int * 0x100 + m.ram[m.cpu.pc + 1] as int
  {
    var pc := m.cpu.pc;
    if pc + 1 >= |m.ram| then Err(RamOutOfBounds)
    else
      Pow2Values();
      OrDisjoint(m.ram[pc], m.ram[pc + 1], 8, 16);
      Ok(BitOr(m.ram[pc] * Pow2(8), m.ram[pc + 1], 16))
  }

  /** Register `k` := `b`. */
  function SetV(m: Machine, k: Nibble, b: Byte): (r: Machine)
    requires WellFormed(m)
    ensures WellFormed(r)
  {
    m.(cpu := m.cpu.(v := m.cpu.v[k := b]))
  }

  /** Some key of the snapshot is down. */
  predicate AnyPressed(keys: seq<bool>)
  {
    exists k :: 0 <= k < |keys| && keys[k]
  }

  /** The first key the Fx0A loop finds down, scanning from key 0. */
  function LowestPressed(keys: seq<bool>): (k: nat)
    requires AnyPressed(keys)
    ensures k < |keys| && keys[k]
    ensures forall j :: 0 <= j < k ==> !keys[j]
  {
    if keys[0] then 0
    else
      var w :| 0 <= w < |keys| && keys[w];
      assert keys[1..][w - 1];
      1 + LowestPressed(keys[1..])
  }

  /** Ex9E's test: the lookup finds a key for `b` and it is down. */
  predicate KeyDown(inp: Input, b: Byte): (down: bool)
    requires ValidInput(inp)
    ensures down ==> inp.keyOf(b).Some?
  {
    match inp.keyOf(b)
    case Some(k) => inp.pressed[k]
    case None => false
  }

  /** ExA1's test: the lookup finds a key for `b` and it is up; an unknown byte is neither down nor up. */
  predicate KeyUp(inp: Input, b: Byte): (up: bool)
    requires ValidInput(inp)
    ensures up <==> inp.keyOf(b).Some? && !KeyDown(inp, b)
  {
    match inp.keyOf(b)
    case Some(k) => !inp.pressed[k]
    case None => false
  }

  /** A column index wrapped onto the screen, `% WIDTH` (written with the literal so the arithmetic stays linear). */
  function WrapColumn(a: int): (c: int)
    ensures 0 <= c < Width
  {
    a % 64
  }

  /** A line index wrapped onto the screen, `% HEIGHT`. */
  function WrapLine(a: int): (l: int)
    ensures 0 <= l < Height
  {
    a % 32
  }

  /**
   * What Dxyn changes while it runs: the screen, and VF, which collects
   * collisions. Every other register stays as it was.
   */
  datatype Canvas = Canvas(screen: seq<Byte>, vf: Byte)

  predicate CanvasOk(k: Canvas)
  {
    |k.screen| == Cells
  }

  /** Register `x` as Dxyn reads it mid-draw: VF is the canvas's, the others are fixed. */
  function Reg(v: seq<Byte>, k: Canvas, x: Nibble): Byte
    requires |v| == Cpu.RegisterCount
  {
    if x == VF then k.vf else v[x]
  }

  /** The line row `row` of the sprite goes to: `(Vy + row) % 32`, Vy read when the row starts. */
  function SpriteLine(v: seq<Byte>, k: Canvas, y: Nibble, row: nat): (l: int)
    requires |v| == Cpu.RegisterCount
    ensures 0 <= l < Height
  {
    WrapLine(Reg(v, k, y) + row)
  }

  /** The column bit `bit` of a sprite row goes to: `(Vx + bit) % 64`, Vx read afresh. */
  function SpriteColumn(v: seq<Byte>, k: Canvas, x: Nibble, bit: nat): (c: int)
    requires |v| == Cpu.RegisterCount
    ensures 0 <= c < Width
  {
    WrapColumn(Reg(v, k, x) + bit)
  }

  /**
   * One pixel of Dxyn: bit `7 - bit` of the sprite byte is XOR-ed into the
   * cell at column `(Vx + bit) % 64` of line `yAxis`, after VF is OR-ed
   * with that bit AND the cell. Vx is read afresh for every pixel.
   */
  function DrawPixel(k: Canvas, v: seq<Byte>, x: Nibble, spriteByte: Byte, yAxis: int, bit: nat): (r: Canvas)
    requires CanvasOk(k) && |v| == Cpu.RegisterCount && 0 <= yAxis < Height && bit < 8
    ensures CanvasOk(r)
  {
    var p := Cell(yAxis, SpriteColumn(v, k, x, bit));
    var color := BitAt(spriteByte, 7 - bit);
    Canvas(k.screen[p := XorBit(k.screen[p], color)], OrBit(k.vf, AndBit(color, k.screen[p])))
  }

  /** The inner loop of Dxyn: bits `bit..8` of one sprite byte. */
  function DrawBits(k: Canvas, v: seq<Byte>, x: Nibble, spriteByte: Byte, yAxis: int, bit: nat): (r: Canvas)
    requires CanvasOk(k) && |v| == Cpu.RegisterCount && 0 <= yAxis < Height && bit <= 8
    ensures CanvasOk(r)
    decreases 8 - bit
  {
    if bit == 8 then k
    else DrawBits(DrawPixel(k, v, x, spriteByte, yAxis, bit), v, x, spriteByte, yAxis, bit + 1)
  }

  /**
   * The outer loop of Dxyn: sprite bytes `row..` (the source's range
   * `0..=n` gives n + 1 of them), each on line `(Vy + row) % 32` with Vy
   * read at the start of the row.
   */
  function DrawRows(k: Canvas, v: seq<Byte>, x: Nibble, y: Nibble, sprite: seq<Byte>, row: nat): (r: Canvas)
    requires CanvasOk(k) && |v| == Cpu.RegisterCount && row <= |sprite|
    ensures CanvasOk(r)
    decreases |sprite| - row
  {
    if row == |sprite| then k
    else DrawRows(DrawBits(k, v, x, sprite[row], SpriteLine(v, k, y, row), 0), v, x, y, sprite, row + 1)
  }

  /** Dxyn on the machine: the sprite is the n + 1 bytes at I. */
  function Draw(m: Machine, x: Nibble, y: Nibble, n: Nibble): (r: Machine)
    requires WellFormed(m) && m.cpu.i + n < |m.ram|
    ensures WellFormed(r)
    ensures r.screenChanged && r.ram == m.ram && r.stack == m.stack && r.keyboard == m.keyboard
    ensures r.cpu.pc == m.cpu.pc && r.cpu.sp == m.cpu.sp && r.cpu.i == m.cpu.i
    ensures r.cpu.delayTimer == m.cpu.delayTimer && r.cpu.soundTimer == m.cpu.soundTimer
    ensures forall k :: 0 <= k < Cpu.RegisterCount && k != VF ==> r.cpu.v[k] == m.cpu.v[k]
  {
    var k := DrawRows(Canvas(m.screen, m.cpu.v[VF]), m.cpu.v, x, y, m.ram[m.cpu.i .. m.cpu.i + n + 1], 0);
    SetV(m, VF, k.vf).(screen := k.screen, screenChanged := true)
  }

  /** Dxyn's result, given the canvas its two loops end with. */
  lemma DrawIs(m: Machine, x: Nibble, y: Nibble, n: Nibble, k: Canvas)
    requires WellFormed(m) && m.cpu.i + n < |m.ram|
    requires k == DrawRows(Canvas(m.screen, m.cpu.v[VF]), m.cpu.v, x, y, m.ram[m.cpu.i .. m.cpu.i + n + 1], 0)
    ensures Draw(m, x, y, n) == Machine(m.cpu.(v := m.cpu.v[VF := k.vf]), m.ram, m.stack, k.screen, m.keyboard, true)
  {
    var sprite := m.ram[m.cpu.i .. m.cpu.i + n + 1];
    var r := SetV(m, VF, k.vf).(screen := k.screen, screenChanged := true);
    assert Draw(m, x, y, n) == r;
  }

  /** Fx55: `ram[I + k] := V[k]` for `k` in `0..=x`. */
  function StoreRegisters(ram: seq<Byte>, i: nat, v: seq<Byte>, x: Nibble): (r: seq<Byte>)
    requires i + x < |ram| && x < |v|
    ensures |r| == |ram|
  {
    seq(|ram|, a requires 0 <= a < |ram| => if i <= a <= i + x then v[a - i] else ram[a])
  }

  /** Fx65: `V[k] := ram[I + k]` for `k` in `0..=x`. */
  function LoadRegisters(v: seq<Byte>, ram: seq<Byte>, i: nat, x: Nibble): (r: seq<Byte>)
    requires i + x < |ram|
    ensures |r| == |v|
  {
    seq(|v|, k requires 0 <= k < |v| => if k <= x then ram[i + k] else v[k])
  }

  /** The precondition of an instruction: Fx0A returns only once some key is down. */
  predicate CanRun(instr: Instr, inp: Input)
  {
    instr.LdVxK? ==> AnyPressed(inp.polled)
  }

  /** Arms that only decide where the program counter goes (and CALL/RET's stack). */
  predicate IsControl(instr: Instr)
  {
    instr.Ret? || instr.Jp? || instr.Call? || instr.SeByte? || instr.SneByte? || instr.SeReg? ||
    instr.SneReg? || instr.JpV0? || instr.Skp? || instr.Sknp?
  }

  /** Arms that only write registers. */
  predicate IsArithmetic(instr: Instr)
  {
    instr.LdByte? || instr.AddByte? || instr.LdReg? || instr.Or? || instr.And? || instr.Xor? ||
    instr.AddReg? || instr.Sub? || instr.Shr? || instr.Subn? || instr.Shl? || instr.Rnd? || instr.LdVxDt?
  }

  /** The control-flow arms: returns, jumps, calls and the conditional skips. */
  function Control(m: Machine, instr: Instr, inp: Input): (r: Result<(Machine, ProgramCounter)>)
    requires WellFormed(m) && ValidInput(inp) && IsControl(instr)
    ensures r.Ok? ==> WellFormed(r.value.0)
    ensures r.Ok? ==> var m' := r.value.0;
      m' == m.(cpu := m'.cpu, stack := m'.stack) && m'.cpu == m.cpu.(pc := m'.cpu.pc, sp := m'.cpu.sp) &&
      (!instr.Ret? && !instr.Call? ==> m' == m)
  {
    var v := m.cpu.v;
    match instr
    case Ret =>
      if m.cpu.sp == 0 then Err(StackUnderflow)
      else Ok((m.(cpu := m.cpu.(pc := m.stack[m.cpu.sp], sp := m.cpu.sp - 1)), Next))
    case Jp(a) => Ok((m, Jump(a)))
    case Call(a) =>
      if m.cpu.sp + 1 >= Memory.StackSize then Err(StackOverflow)
      else
        var sp := m.cpu.sp + 1;
        Ok((m.(cpu := m.cpu.(sp := sp), stack := m.stack[sp := m.cpu.pc]), Jump(a)))
    case SeByte(x, kk) => Ok((m, if v[x] == kk then Skip else Next))
    case SneByte(x, kk) => Ok((m, if v[x] != kk then Skip else Next))
    case SeReg(x, y, _) => Ok((m, if v[x] == v[y] then Skip else Next))
    case SneReg(x, y) => Ok((m, if v[x] != v[y] then Skip else Next))
    case JpV0(a) => Ok((m, Jump(a + v[0])))
    case Skp(x) => Ok((m, if KeyDown(inp, v[x]) then Skip else Next))
    case Sknp(x) => Ok((m, if KeyUp(inp, v[x]) then Skip else Next))
  }

  /** Register arms that write VF (or, for 8xy7, a flag into Vx) before they write Vx. */
  predicate SetsFlag(instr: Instr)
  {
    instr.AddReg? || instr.Sub? || instr.Shr? || instr.Subn? || instr.Shl?
  }

  /** The register arms: the new register file. */
  function Arithmetic(c: Cpu.Cpu, instr: Instr, random: Byte): (v': seq<Byte>)
    requires |c.v| == Cpu.RegisterCount && IsArithmetic(instr)
    ensures |v'| == Cpu.RegisterCount
    ensures forall k :: 0 <= k < Cpu.RegisterCount && k != instr.x && (k != VF || !SetsFlag(instr)) ==> v'[k] == c.v[k]
  {
    var v := c.v;
    match instr
    case LdByte(x, kk) => v[x := kk]
    case AddByte(x, kk) => v[x := (v[x] as int + kk as int) % 0x100]
    case LdReg(x, y) => v[x := v[y]]
    case Or(x, y) => v[x := Or8(v[x], v[y])]
    case And(x, y) => v[x := And8(v[x], v[y])]
    case Xor(x, y) => v[x := Xor8(v[x], v[y])]
    case Rnd(x, kk) => v[x := And8(kk, random)]
    case LdVxDt(x) => v[x := c.delayTimer]
    case AddReg(_, _) | Sub(_, _) | Shr(_, _) | Subn(_, _) | Shl(_, _) => FlagArithmetic(v, instr)
  }

  /**
   * The flag-writing register arms. `v` holds the registers as they were
   * before the arm; the arms that read Vx and Vy again after writing the
   * flag read them from the updated registers, as the source does.
   */
  function FlagArithmetic(v: seq<Byte>, instr: Instr): (v': seq<Byte>)
    requires |v| == Cpu.RegisterCount && SetsFlag(instr)
    ensures |v'| == Cpu.RegisterCount
    ensures forall k :: 0 <= k < Cpu.RegisterCount && k != instr.x && k != VF ==> v'[k] == v[k]
  {
    match instr
    case AddReg(x, y) =>
      var sum := v[x] as int + v[y] as int;
      v[VF := if sum > 0xFF then 1 else 0][x := sum % 0x100]
    case Sub(x, y) =>
      var v1 := v[VF := if v[x] > v[y] then 1 else 0];
      v1[x := (v1[x] as int - v1[y] as int) % 0x100]
    case Shr(x, _) =>
      var v1 := v[VF := And8(v[x], 1)];
      v1[x := v1[x] / 2]
    case Subn(x, y) =>
      var v1 := v[x := if v[y] > v[x] then 1 else 0];
      v1[x := (v1[y] as int - v1[x] as int) % 0x100]
    case Shl(x, _) =>
      var v1 := v[VF := And8(v[x], 0x80)];
      v1[x := (v1[x] as int * 2) % 0x100]
  }

  /** The remaining arms: the screen, the key wait, the timers, I and RAM. */
  function Peripheral(m: Machine, instr: Instr, inp: Input): (r: Result<Machine>)
    requires WellFormed(m) && ValidInput(inp) && CanRun(instr, inp)
    requires !IsControl(instr) && !IsArithmetic(instr) && !instr.Invalid?
    ensures r.Ok? ==> WellFormed(r.value)
    ensures r.Ok? ==> r.value.stack == m.stack && r.value.cpu.pc == m.cpu.pc && r.value.cpu.sp == m.cpu.sp
  {
    var v := m.cpu.v;
    match instr
    case Cls => Ok(m.(screen := BlankScreen(), screenChanged := true))
    case LdI(a) => Ok(m.(cpu := m.cpu.(i := a)))
    case Drw(x, y, n) =>
      if m.cpu.i + n >= |m.ram| then Err(RamOutOfBounds)
      else Ok(Draw(m, x, y, n))
    case LdVxK(x) => Ok(SetV(m, x, LowestPressed(inp.polled)).(keyboard := inp.polled))
    case LdDtVx(x) => Ok(m.(cpu := m.cpu.(delayTimer := v[x])))
    case LdStVx(x) => Ok(m.(cpu := m.cpu.(soundTimer := v[x])))
    case AddI(x) => Ok(m.(cpu := m.cpu.(i := (m.cpu.i + v[x]) % 0x1_0000)))
    case LdF(x) => Ok(m.(cpu := m.cpu.(i := v[x])))
    case LdB(x) =>
      var i := m.cpu.i;
      if i + 2 >= |m.ram| then Err(RamOutOfBounds)
      else Ok(m.(ram := m.ram[i := v[x] / 100][i + 1 := (v[x] % 100) / 10][i + 2 := (v[x] % 10) / 10]))
    case LdIVx(x) =>
      if m.cpu.i + x >= |m.ram| then Err(RamOutOfBounds)
      else Ok(m.(ram := StoreRegisters(m.ram, m.cpu.i, v, x)))
    case LdVxI(x) =>
      if m.cpu.i + x >= |m.ram| then Err(RamOutOfBounds)
      else Ok(m.(cpu := m.cpu.(v := LoadRegisters(v, m.ram, m.cpu.i, x))))
  }

  /**
   * The arms of `execute_opcode`: the new state and the program-counter
   * effect the arm returns, or the fault that stops the interpreter. Every
   * arm other than the control-flow ones returns `Next`.
   */
  function Operate(m: Machine, instr: Instr, inp: Input): (r: Result<(Machine, ProgramCounter)>)
    requires WellFormed(m) && ValidInput(inp) && CanRun(instr, inp)
    ensures r.Ok? ==> WellFormed(r.value.0)
  {
    if instr.Invalid? then Err(InvalidOpcode(instr.opcode))
    else if IsControl(instr) then Control(m, instr, inp)
    else if IsArithmetic(instr) then Ok((m.(cpu := m.cpu.(v := Arithmetic(m.cpu, instr, inp.random))), Next))
    else
      match Peripheral(m, instr, inp)
      case Err(f) => Err(f)
      case Ok(m') => Ok((m', Next))
  }

  /** The `match program_counter` after the arms: +2, +4 (u16 arithmetic), or a jump. */
  function Advance(m: Machine, pc: ProgramCounter): (r: Machine)
    ensures r == m.(cpu := m.cpu.(pc := r.cpu.pc))
    ensures pc.Jump? ==> r.cpu.pc == pc.target
  {
    match pc
    case Next => m.(cpu := m.cpu.(pc := (m.cpu.pc + 2) % 0x1_0000))
    case Skip => m.(cpu := m.cpu.(pc := (m.cpu.pc + 4) % 0x1_0000))
    case Jump(target) => m.(cpu := m.cpu.(pc := target))
  }

  /** `execute_opcode`: run the arm of the decoded instruction, then move the program counter once. */
  function Execute(m: Machine, op: Word, inp: Input): (r: Result<Machine>)
    requires WellFormed(m) && ValidInput(inp) && CanRun(Decode(op), inp)
    ensures r.Ok? ==> WellFormed(r.value)
  {
    match Operate(m, Decode(op), inp)
    case Err(f) => Err(f)
    case Ok((m', pc)) => Ok(Advance(m', pc))
  }

  /** The instruction at pc waits for a key. */
  predicate WaitsForKey(m: Machine)
    requires WellFormed(m)
  {
    Fetch(m).Ok? && Decode(Fetch(m).value).LdVxK?
  }

  /** `tick` without `draw`: clear `screen_changed`, fetch, execute. */
  function Tick(m: Machine, inp: Input): (r: Result<Machine>)
    requires WellFormed(m) && ValidInput(inp)
    requires WaitsForKey(m) ==> AnyPressed(inp.polled)
    ensures r.Ok? ==> WellFormed(r.value)
  {
    var m0 := m.(screenChanged := false);
    match Fetch(m0)
    case Err(f) => Err(f)
    case Ok(op) => Execute(m0, op, inp)
  }
}
