/**
 * What the instruction arms of src/main.rs do, stated against the
 * interpreter functions: register arithmetic and its flags, the call
 * stack, key tests, register spills, the BCD store, the program counter
 * and the boot sequence. Sprite drawing has a module of its own, Drawing.
 */
module Properties {
  import opened Types
  import opened Bits
  import Cpu
  import Memory
  import opened Opcode
  import opened Interpreter

  // ---------------------------------------------------------------- registers

  /**
   * 8xy4 is a full 8-bit adder: the new Vx and the carry left in VF
   * together hold the exact sum (when Vx is not VF itself).
   */
  lemma AddRegCarry(m: Machine, x: Nibble, y: Nibble, inp: Input)
    requires WellFormed(m) && ValidInput(inp) && x != VF
    ensures Operate(m, AddReg(x, y), inp).Ok?
    ensures var r := Operate(m, AddReg(x, y), inp).value.0;
      r.cpu.v[x] as int + 0x100 * r.cpu.v[VF] as int == m.cpu.v[x] as int + m.cpu.v[y] as int && r.cpu.v[VF] < 2
  {
  }

  /**
   * 7xkk adds modulo 256 and, unlike 8xy4, sets no carry: VF is left alone
   * unless it is Vx itself (7Fkk), when it takes the sum.
   */
  lemma AddByteNoCarry(m: Machine, x: Nibble, kk: Byte, inp: Input)
    requires WellFormed(m) && ValidInput(inp)
    ensures Operate(m, AddByte(x, kk), inp).Ok?
    ensures var r := Operate(m, AddByte(x, kk), inp).value.0;
      (r.cpu.v[x] as int - m.cpu.v[x] as int - kk as int) % 0x100 == 0 &&
      (x != VF ==> r.cpu.v[VF] == m.cpu.v[VF])
  {
  }

  /** 8xy5 subtracts modulo 256 and sets VF to "Vx was greater than Vy". */
  lemma SubBorrow(m: Machine, x: Nibble, y: Nibble, inp: Input)
    requires WellFormed(m) && ValidInput(inp) && x != VF && y != VF
    ensures Operate(m, Sub(x, y), inp).Ok?
    ensures var r := Operate(m, Sub(x, y), inp).value.0;
      (r.cpu.v[x] as int + m.cpu.v[y] as int - m.cpu.v[x] as int) % 0x100 == 0 &&
      (r.cpu.v[VF] == 1 <==> m.cpu.v[x] > m.cpu.v[y]) && r.cpu.v[VF] < 2
  {
  }

  /**
   * 8xy7 as written: the flag "Vy > Vx" is stored into Vx, not VF, and
   * then subtracted from Vy, so Vx ends up as Vy or Vy - 1 and VF is
   * untouched. With x == y the result is always 0.
   */
  lemma SubnAsWritten(m: Machine, x: Nibble, y: Nibble, inp: Input)
    requires WellFormed(m) && ValidInput(inp)
    ensures Operate(m, Subn(x, y), inp).Ok?
    ensures var r := Operate(m, Subn(x, y), inp).value.0;
      var flag := if m.cpu.v[y] > m.cpu.v[x] then 1 else 0;
      (x != y ==> r.cpu.v[x] as int == m.cpu.v[y] as int - flag) &&
      (x == y ==> r.cpu.v[x] == 0) &&
      (x != VF ==> r.cpu.v[VF] == m.cpu.v[VF])
  {
  }

  /** 8xy6 halves Vx and keeps the bit shifted out in VF; Vy plays no part. */
  lemma ShrFlag(m: Machine, x: Nibble, y: Nibble, inp: Input)
    requires WellFormed(m) && ValidInput(inp) && x != VF
    ensures Operate(m, Shr(x, y), inp).Ok?
    ensures var r := Operate(m, Shr(x, y), inp).value.0;
      r.cpu.v[x] as int * 2 + r.cpu.v[VF] as int == m.cpu.v[x] as int && r.cpu.v[VF] < 2
  {
    AndOne(m.cpu.v[x], 8);
  }

  /**
   * 8xyE doubles Vx modulo 256 and keeps in VF the bit shifted out, as
   * the mask `0b1000_0000` leaves it: 128 rather than 1.
   */
  lemma ShlFlag(m: Machine, x: Nibble, y: Nibble, inp: Input)
    requires WellFormed(m) && ValidInput(inp) && x != VF
    ensures Operate(m, Shl(x, y), inp).Ok?
    ensures var r := Operate(m, Shl(x, y), inp).value.0;
      r.cpu.v[x] as int + 2 * r.cpu.v[VF] as int == 2 * m.cpu.v[x] as int &&
      (r.cpu.v[VF] == 0 || r.cpu.v[VF] == 0x80)
  {
    Pow2Values();
    assert Pow2(7) == 0x80 && Pow2(8) == Pow2(7 + 1);
    AndPow2(m.cpu.v[x], 7, 8);
    BitAtTop(m.cpu.v[x], 7);
  }

  /** Cxkk: the random byte is masked by kk, and `gen_range(0..255)` never yields 255. */
  lemma RndBounded(m: Machine, x: Nibble, kk: Byte, inp: Input)
    requires WellFormed(m) && ValidInput(inp)
    ensures Operate(m, Rnd(x, kk), inp).Ok?
    ensures var r := Operate(m, Rnd(x, kk), inp).value.0;
      r.cpu.v[x] <= kk && r.cpu.v[x] <= inp.random < 0xFF
  {
    AndBound(kk, inp.random, 8);
    AndCommutative(kk, inp.random, 8);
    AndBound(inp.random, kk, 8);
  }

  /** The arms that write one register. */
  predicate WritesVx(instr: Instr)
  {
    instr.LdByte? || instr.AddByte? || instr.LdReg? || instr.Or? || instr.And? ||
    instr.Xor? || instr.Rnd? || instr.LdVxDt?
  }

  /** Those arms change Vx and nothing else, and never move the program counter specially. */
  lemma OnlyVxChanges(m: Machine, instr: Instr, inp: Input)
    requires WellFormed(m) && ValidInput(inp) && WritesVx(instr)
    ensures Operate(m, instr, inp).Ok?
    ensures var (r, pc) := Operate(m, instr, inp).value;
      pc == Next && r == m.(cpu := r.cpu) && r.cpu == m.cpu.(v := r.cpu.v) &&
      forall k :: 0 <= k < 16 && k != instr.x ==> r.cpu.v[k] == m.cpu.v[k]
  {
  }

  /** With x == VF, 8xy4 writes the flag first and the sum last, so VF ends up holding the sum. */
  lemma AddRegIntoFlag(m: Machine, y: Nibble, inp: Input)
    requires WellFormed(m) && ValidInput(inp)
    ensures Operate(m, AddReg(VF, y), inp).Ok?
    ensures Operate(m, AddReg(VF, y), inp).value.0.cpu.v[VF] == (m.cpu.v[VF] as int + m.cpu.v[y] as int) % 0x100
  {
  }

  /**
   * 8xy5 writes VF before it subtracts and reads both registers again
   * after: with y == VF, Vx loses the flag just written, not the old VF;
   * with x == VF, the flag itself is what Vy is taken from.
   */
  lemma SubRereadsFlag(m: Machine, x: Nibble, y: Nibble, inp: Input)
    requires WellFormed(m) && ValidInput(inp) && (x == VF || y == VF)
    ensures Operate(m, Sub(x, y), inp).Ok?
    ensures var r := Operate(m, Sub(x, y), inp).value.0;
      var flag := if m.cpu.v[x] > m.cpu.v[y] then 1 else 0;
      (x != VF ==> r.cpu.v[x] == (m.cpu.v[x] as int - flag) % 0x100 && r.cpu.v[VF] == flag) &&
      (x == VF ==> r.cpu.v[VF] == if y == VF then 0 else (flag - m.cpu.v[y] as int) % 0x100) &&
      forall k :: 0 <= k < Cpu.RegisterCount && k != x && k != VF ==> r.cpu.v[k] == m.cpu.v[k]
  {
  }

  /**
   * With x == VF, 8xy6 and 8xyE shift the flag they have just written
   * into VF, and the bit kept there is shifted out again: VF ends 0.
   */
  lemma ShiftIntoFlag(m: Machine, y: Nibble, inp: Input)
    requires WellFormed(m) && ValidInput(inp)
    ensures Operate(m, Shr(VF, y), inp).Ok? && Operate(m, Shl(VF, y), inp).Ok?
    ensures Operate(m, Shr(VF, y), inp).value.0.cpu.v[VF] == 0
    ensures Operate(m, Shl(VF, y), inp).value.0.cpu.v[VF] == 0
    ensures forall k :: 0 <= k < VF ==>
      Operate(m, Shr(VF, y), inp).value.0.cpu.v[k] == m.cpu.v[k] &&
      Operate(m, Shl(VF, y), inp).value.0.cpu.v[k] == m.cpu.v[k]
  {
    AndOne(m.cpu.v[VF], 8);
    Pow2Values();
    assert Pow2(7) == 0x80 && Pow2(8) == Pow2(7 + 1);
    AndPow2(m.cpu.v[VF], 7, 8);
    BitAtTop(m.cpu.v[VF], 7);
  }

  // ---------------------------------------------------------- program counter

  /** The arms that skip the next instruction when their test holds. */
  predicate IsSkip(instr: Instr)
  {
    instr.SeByte? || instr.SneByte? || instr.SeReg? || instr.SneReg? || instr.Skp? || instr.Sknp?
  }

  /** The test of each skipping arm, as section 3.1 of Cowgod's Chip-8 Technical Reference words it. */
  predicate SkipTaken(m: Machine, instr: Instr, inp: Input)
    requires WellFormed(m) && ValidInput(inp)
  {
    match instr
    case SeByte(x, kk) => m.cpu.v[x] == kk
    case SneByte(x, kk) => m.cpu.v[x] != kk
    case SeReg(x, y, _) => m.cpu.v[x] == m.cpu.v[y]
    case SneReg(x, y) => m.cpu.v[x] != m.cpu.v[y]
    case Skp(x) => inp.keyOf(m.cpu.v[x]).Some? && inp.pressed[inp.keyOf(m.cpu.v[x]).value]
    case Sknp(x) => inp.keyOf(m.cpu.v[x]).Some? && !inp.pressed[inp.keyOf(m.cpu.v[x]).value]
    case _ => false
  }

  /**
   * 3xkk, 4xkk, 5xy_, 9xy0, Ex9E and ExA1 move the program counter by 4
   * when their test holds and by 2 otherwise (modulo 2^16), and change
   * nothing else.
   */
  lemma SkipMovesFourOrTwo(m: Machine, op: Word, inp: Input)
    requires WellFormed(m) && ValidInput(inp) && IsSkip(Decode(op))
    ensures Execute(m, op, inp).Ok?
    ensures var step := if SkipTaken(m, Decode(op), inp) then 4 else 2;
      Execute(m, op, inp).value == m.(cpu := m.cpu.(pc := (m.cpu.pc + step) % 0x1_0000))
  {
  }

  /** 1nnn jumps to `opcode & 0xFFF` and changes nothing else. */
  lemma JumpSetsPc(m: Machine, op: Word, inp: Input)
    requires WellFormed(m) && ValidInput(inp) && Decode(op).Jp?
    ensures Execute(m, op, inp) == Ok(m.(cpu := m.cpu.(pc := op % 0x1000)))
  {
  }

  /** Bnnn jumps to `(opcode & 0xFFF) + V0` and changes nothing else. */
  lemma JumpV0SetsPc(m: Machine, op: Word, inp: Input)
    requires WellFormed(m) && ValidInput(inp) && Decode(op).JpV0?
    ensures Execute(m, op, inp) == Ok(m.(cpu := m.cpu.(pc := op % 0x1000 + m.cpu.v[0])))
  {
  }

  /** Every recognised opcode other than the jumps, calls, returns and skips moves the program counter by exactly 2. */
  lemma StraightLineMovesTwo(m: Machine, op: Word, inp: Input)
    requires WellFormed(m) && ValidInput(inp) && CanRun(Decode(op), inp)
    requires !Decode(op).Invalid? && !IsControl(Decode(op))
    requires Execute(m, op, inp).Ok?
    ensures Execute(m, op, inp).value.cpu.pc == (m.cpu.pc + 2) % 0x1_0000
  {
    var r := Operate(m, Decode(op), inp);
    assert r.Ok? && r.value.1 == Next;
    assert Execute(m, op, inp).value == Advance(r.value.0, Next);
  }

  /** An unlisted opcode stops the interpreter with that opcode, whatever the state. */
  lemma UnlistedHalts(m: Machine, op: Word, inp: Input)
    requires WellFormed(m) && ValidInput(inp) && Unlisted(op)
    ensures Execute(m, op, inp) == Err(InvalidOpcode(op))
  {
    InvalidExactlyUnlisted(op);
  }

  // -------------------------------------------------------------------- stack

  /** 2nnn fails exactly when the stack pointer is already at the last slot. */
  lemma CallFault(m: Machine, a: Address, inp: Input)
    requires WellFormed(m) && ValidInput(inp)
    ensures Operate(m, Call(a), inp).Err? <==> m.cpu.sp == Memory.StackSize - 1
    ensures Operate(m, Call(a), inp).Err? ==> Operate(m, Call(a), inp).fault == StackOverflow
  {
  }

  /**
   * 2nnn below the last stack slot stores the current program counter in
   * slot sp + 1, leaves every other slot alone, and moves sp up by one.
   */
  lemma CallPushes(m: Machine, a: Address, inp: Input)
    requires WellFormed(m) && ValidInput(inp) && m.cpu.sp < Memory.StackSize - 1
    ensures Operate(m, Call(a), inp).Ok?
    ensures var (r, pc) := Operate(m, Call(a), inp).value;
      pc == Jump(a) && r.cpu == m.cpu.(sp := m.cpu.sp + 1) &&
      r.stack[m.cpu.sp + 1] == m.cpu.pc &&
      (forall j :: 0 <= j < Memory.StackSize && j != m.cpu.sp + 1 ==> r.stack[j] == m.stack[j]) &&
      r.ram == m.ram && r.screen == m.screen
  {
  }

  /** 00EE fails exactly when the stack is empty. */
  lemma RetFault(m: Machine, inp: Input)
    requires WellFormed(m) && ValidInput(inp)
    ensures Operate(m, Ret, inp).Err? <==> m.cpu.sp == 0
    ensures Operate(m, Ret, inp).Err? ==> Operate(m, Ret, inp).fault == StackUnderflow
  {
  }

  /**
   * A call jumps to its address, and a return executed in any later state
   * that left the stack as the call made it resumes at the instruction after
   * the call, with the stack pointer back where it was.
   */
  lemma CallThenReturn(m: Machine, call: Word, m': Machine, ret: Word, inp: Input)
    requires WellFormed(m) && ValidInput(inp) && Decode(call).Call?
    requires Execute(m, call, inp).Ok?
    requires WellFormed(m') && Decode(ret).Ret?
    requires m'.stack == Execute(m, call, inp).value.stack
    requires m'.cpu.sp == Execute(m, call, inp).value.cpu.sp
    ensures Execute(m, call, inp).value.cpu.pc == Decode(call).addr
    ensures Execute(m', ret, inp).Ok?
    ensures Execute(m', ret, inp).value.cpu.pc == (m.cpu.pc + 2) % 0x1_0000
    ensures Execute(m', ret, inp).value.cpu.sp == m.cpu.sp
  {
  }

  // --------------------------------------------------------------------- keys

  /** Ex9E and ExA1 never skip when the lookup knows no key for Vx. */
  lemma UnknownKeyNeverSkips(m: Machine, x: Nibble, inp: Input)
    requires WellFormed(m) && ValidInput(inp) && inp.keyOf(m.cpu.v[x]).None?
    ensures Operate(m, Skp(x), inp) == Ok((m, Next))
    ensures Operate(m, Sknp(x), inp) == Ok((m, Next))
  {
  }

  /** For a known key exactly one of Ex9E and ExA1 skips, and Ex9E skips iff the key is down. */
  lemma KnownKeySkipsOnce(m: Machine, x: Nibble, inp: Input)
    requires WellFormed(m) && ValidInput(inp) && inp.keyOf(m.cpu.v[x]).Some?
    ensures Operate(m, Skp(x), inp).Ok? && Operate(m, Sknp(x), inp).Ok?
    ensures (Operate(m, Skp(x), inp).value.1 == Skip) != (Operate(m, Sknp(x), inp).value.1 == Skip)
    ensures Operate(m, Skp(x), inp).value.1 == Skip <==> inp.pressed[inp.keyOf(m.cpu.v[x]).value]
  {
  }

  /**
   * Fx0A stores the lowest key down in the snapshot, keeps the snapshot,
   * changes nothing else and returns `Next`.
   */
  lemma WaitKeyStoresLowest(m: Machine, x: Nibble, inp: Input)
    requires WellFormed(m) && ValidInput(inp) && AnyPressed(inp.polled)
    ensures Operate(m, LdVxK(x), inp).Ok?
    ensures var r := Operate(m, LdVxK(x), inp).value.0;
      r.keyboard == inp.polled && r.keyboard[r.cpu.v[x]] &&
      forall k :: 0 <= k < r.cpu.v[x] ==> !r.keyboard[k]
    ensures var r := Operate(m, LdVxK(x), inp).value.0;
      r == m.(cpu := r.cpu, keyboard := inp.polled) &&
      r.cpu == m.cpu.(v := m.cpu.v[x := LowestPressed(inp.polled)])
    ensures Operate(m, LdVxK(x), inp).value.1 == Next
  {
  }

  // ---------------------------------------------------------- register spills

  /** Loading back registers just stored at the same address gives the registers. */
  lemma StoreThenLoad(ram: seq<Byte>, i: nat, v: seq<Byte>, x: Nibble)
    requires i + x < |ram| && x < |v|
    ensures LoadRegisters(v, StoreRegisters(ram, i, v, x), i, x) == v
  {
  }

  /** Storing registers just loaded from the same address leaves RAM as it was. */
  lemma LoadThenStore(ram: seq<Byte>, i: nat, v: seq<Byte>, x: Nibble)
    requires i + x < |ram| && x < |v|
    ensures StoreRegisters(ram, i, LoadRegisters(v, ram, i, x), x) == ram
  {
  }

  /** Fx55 writes registers 0..=x at I and changes nothing else. */
  lemma SpillWrites(m: Machine, x: Nibble, inp: Input)
    requires WellFormed(m) && ValidInput(inp)
    requires m.cpu.i + x < Memory.RamSize
    ensures Operate(m, LdIVx(x), inp) == Ok((m.(ram := StoreRegisters(m.ram, m.cpu.i, m.cpu.v, x)), Next))
  {
  }

  /** Fx65 changes nothing when RAM at I already holds registers 0..=x. */
  lemma ReloadSame(m: Machine, x: Nibble, inp: Input)
    requires WellFormed(m) && ValidInput(inp)
    requires m.cpu.i + x < Memory.RamSize
    requires forall k :: 0 <= k <= x ==> m.ram[m.cpu.i + k] == m.cpu.v[k]
    ensures Operate(m, LdVxI(x), inp) == Ok((m, Next))
  {
    assert LoadRegisters(m.cpu.v, m.ram, m.cpu.i, x) == m.cpu.v;
  }

  /** Fx55 writes V0..Vx to `I..=I + x`, and changes no other byte and no register. */
  lemma SpillOnly(m: Machine, x: Nibble, inp: Input)
    requires WellFormed(m) && ValidInput(inp)
    requires m.cpu.i + x < Memory.RamSize
    ensures Operate(m, LdIVx(x), inp).Ok?
    ensures var r := Operate(m, LdIVx(x), inp).value.0; var i := m.cpu.i;
      r.cpu == m.cpu && r.stack == m.stack &&
      (forall k :: 0 <= k <= x ==> r.ram[i + k] == m.cpu.v[k]) &&
      (forall a :: 0 <= a < Memory.RamSize && !(i <= a <= i + x) ==> r.ram[a] == m.ram[a])
  {
    SpillWrites(m, x, inp);
  }

  /** Fx65 loads V0..Vx from `I..=I + x`, and changes no other register and no memory. */
  lemma ReloadOnly(m: Machine, x: Nibble, inp: Input)
    requires WellFormed(m) && ValidInput(inp)
    requires m.cpu.i + x < Memory.RamSize
    ensures Operate(m, LdVxI(x), inp).Ok?
    ensures var r := Operate(m, LdVxI(x), inp).value.0;
      r.ram == m.ram && r.stack == m.stack && r.cpu == m.cpu.(v := r.cpu.v) &&
      (forall k :: 0 <= k <= x ==> r.cpu.v[k] == m.ram[m.cpu.i + k]) &&
      (forall k :: x < k < Cpu.RegisterCount ==> r.cpu.v[k] == m.cpu.v[k])
  {
  }

  /** Fx65 right after Fx55 with the same x changes nothing but the program counter. */
  lemma SpillThenReload(m: Machine, x: Nibble, inp: Input)
    requires WellFormed(m) && ValidInput(inp)
    requires m.cpu.i + x < Memory.RamSize
    ensures Operate(m, LdIVx(x), inp).Ok?
    ensures var m1 := Operate(m, LdIVx(x), inp).value.0;
      Operate(m1, LdVxI(x), inp) == Ok((m1, Next))
  {
    SpillWrites(m, x, inp);
    var m1 := m.(ram := StoreRegisters(m.ram, m.cpu.i, m.cpu.v, x));
    assert forall k :: 0 <= k <= x ==> m1.ram[m1.cpu.i + k] == m1.cpu.v[k];
    ReloadSame(m1, x, inp);
  }

  /** Fx55 and Fx65 fault exactly when the last address `I + x` is outside RAM. */
  lemma SpillFault(m: Machine, x: Nibble, inp: Input)
    requires WellFormed(m) && ValidInput(inp)
    ensures Operate(m, LdIVx(x), inp).Err? <==> m.cpu.i + x >= Memory.RamSize
    ensures Operate(m, LdVxI(x), inp).Err? <==> m.cpu.i + x >= Memory.RamSize
  {
  }

  // ---------------------------------------------------------------------- BCD

  /**
   * Fx33 as written: the hundreds and tens digits of Vx land at I and I + 1,
   * but the third byte is `(Vx % 10) / 10`, which is always 0, so the three
   * bytes spell Vx rounded down to a multiple of ten.
   */
  lemma BcdAsWritten(m: Machine, x: Nibble, inp: Input)
    requires WellFormed(m) && ValidInput(inp) && m.cpu.i + 2 < Memory.RamSize
    ensures Operate(m, LdB(x), inp).Ok?
    ensures var r := Operate(m, LdB(x), inp).value.0; var i := m.cpu.i;
      r.ram[i] < 10 && r.ram[i + 1] < 10 && r.ram[i + 2] == 0 &&
      100 * r.ram[i] as int + 10 * r.ram[i + 1] as int + r.ram[i + 2] as int == m.cpu.v[x] as int - m.cpu.v[x] as int % 10 &&
      r.cpu == m.cpu &&
      forall a :: 0 <= a < Memory.RamSize && !(i <= a <= i + 2) ==> r.ram[a] == m.ram[a]
  {
  }

  /** Fx33 on 157 writes 1, 5, 0. */
  lemma BcdOf157(m: Machine, x: Nibble, inp: Input)
    requires WellFormed(m) && ValidInput(inp) && m.cpu.i + 2 < Memory.RamSize && m.cpu.v[x] == 157
    ensures Operate(m, LdB(x), inp).Ok?
    ensures var r := Operate(m, LdB(x), inp).value.0;
      r.ram[m.cpu.i .. m.cpu.i + 3] == [1, 5, 0]
  {
  }

  /**
   * Fx29 as written: I becomes Vx itself, for every Vx, and nothing else
   * changes; for a digit Vx that is below the font, not the address of
   * the glyph for digit Vx.
   */
  lemma FontAddressAsWritten(m: Machine, x: Nibble, inp: Input)
    requires WellFormed(m) && ValidInput(inp)
    ensures Operate(m, LdF(x), inp).Ok?
    ensures var r := Operate(m, LdF(x), inp).value.0;
      r.cpu.i == m.cpu.v[x] && r == m.(cpu := m.cpu.(i := r.cpu.i)) &&
      (m.cpu.v[x] < 16 ==> r.cpu.i < Memory.StartingAddressFont &&
                           r.cpu.i != Memory.StartingAddressFont + Memory.GlyphHeight * m.cpu.v[x])
  {
  }

  // ------------------------------------------------------------------- screen

  /**
   * Only 00E0 and Dxyn touch the screen, and they are the only arms that
   * raise `screen_changed`; every other arm leaves both as they were.
   */
  lemma OperateScreen(m: Machine, instr: Instr, inp: Input)
    requires WellFormed(m) && ValidInput(inp) && CanRun(instr, inp)
    requires Operate(m, instr, inp).Ok?
    ensures var r := Operate(m, instr, inp).value.0;
      (r.screenChanged <==> m.screenChanged || instr.Cls? || instr.Drw?) &&
      (!instr.Cls? && !instr.Drw? ==> r.screen == m.screen) &&
      (instr.Cls? ==> r.screen == BlankScreen())
  {
  }

  /**
   * `tick` clears `screen_changed` before running one opcode, so afterwards
   * the flag is set exactly when that opcode was 00E0 or Dxyn.
   */
  lemma TickScreenChanged(m: Machine, inp: Input)
    requires WellFormed(m) && ValidInput(inp)
    requires WaitsForKey(m) ==> AnyPressed(inp.polled)
    requires Tick(m, inp).Ok?
    ensures Fetch(m).Ok?
    ensures var instr := Decode(Fetch(m).value);
      Tick(m, inp).value.screenChanged <==> instr.Cls? || instr.Drw?
  {
    var m0 := m.(screenChanged := false);
    assert Fetch(m0) == Fetch(m);
    OperateScreen(m0, Decode(Fetch(m).value), inp);
  }
}
