/**
 * Decoding of a 16-bit CHIP-8 opcode (`execute_opcode`, src/main.rs): the
 * nibble split and the operand fields, and the opcode patterns its `match`
 * accepts. Mnemonics follow section 3.1 of Cowgod's Chip-8 Technical Reference.
 */
module Opcode {
  import opened Types
  import Bits

  /** A 4-bit field: a register index or the small immediate `n`. */
  type Nibble = k: int | 0 <= k < 0x10

  /** A 12-bit address `nnn`. */
  type Address = a: int | 0 <= a < 0x1000

  /** The instruction named by each arm of the `match`; `Invalid` is the catch-all arm. */
  datatype Instr =
    | Cls                               // 00E0
    | Ret                               // 00EE
    | Jp(addr: Address)                 // 1nnn
    | Call(addr: Address)               // 2nnn
    | SeByte(x: Nibble, kk: Byte)       // 3xkk
    | SneByte(x: Nibble, kk: Byte)      // 4xkk
    | SeReg(x: Nibble, y: Nibble, n: Nibble)  // 5xy_: the last nibble is not examined
    | LdByte(x: Nibble, kk: Byte)       // 6xkk
    | AddByte(x: Nibble, kk: Byte)      // 7xkk
    | LdReg(x: Nibble, y: Nibble)       // 8xy0
    | Or(x: Nibble, y: Nibble)          // 8xy1
    | And(x: Nibble, y: Nibble)         // 8xy2
    | Xor(x: Nibble, y: Nibble)         // 8xy3
    | AddReg(x: Nibble, y: Nibble)      // 8xy4
    | Sub(x: Nibble, y: Nibble)         // 8xy5
    | Shr(x: Nibble, y: Nibble)         // 8xy6: y is not used
    | Subn(x: Nibble, y: Nibble)        // 8xy7
    | Shl(x: Nibble, y: Nibble)         // 8xyE: y is not used
    | SneReg(x: Nibble, y: Nibble)      // 9xy0
    | LdI(addr: Address)                // Annn
    | JpV0(addr: Address)               // Bnnn
    | Rnd(x: Nibble, kk: Byte)          // Cxkk
    | Drw(x: Nibble, y: Nibble, n: Nibble)  // Dxyn
    | Skp(x: Nibble)                    // Ex9E
    | Sknp(x: Nibble)                   // ExA1
    | LdVxDt(x: Nibble)                 // Fx07
    | LdVxK(x: Nibble)                  // Fx0A
    | LdDtVx(x: Nibble)                 // Fx15
    | LdStVx(x: Nibble)                 // Fx18
    | AddI(x: Nibble)                   // Fx1E
    | LdF(x: Nibble)                    // Fx29
    | LdB(x: Nibble)                    // Fx33
    | LdIVx(x: Nibble)                  // Fx55
    | LdVxI(x: Nibble)                  // Fx65
    | Invalid(opcode: Word)             // any other opcode

  /**
   * The nibbles `((opcode & 0xF000) >> 12, (opcode & 0x0F00) >> 8,
   * (opcode & 0x00F0) >> 4, opcode & 0x000F)`.
   */
  function Nibbles(op: Word): (n: (Nibble, Nibble, Nibble, Nibble))
    ensures op == n.0 * 0x1000 + n.1 * 0x100 + n.2 * 0x10 + n.3
  {
    var low := op % 0x10;
    var q1 := op / 0x10;
    assert op == q1 * 0x10 + low;
    assert q1 == (op / 0x100) * 0x10 + (op / 0x10) % 0x10;
    assert op / 0x100 == (op / 0x1000) * 0x10 + (op / 0x100) % 0x10;
    (op / 0x1000, (op / 0x100) % 0x10, (op / 0x10) % 0x10, op % 0x10)
  }

  /** `kk = opcode & 0x00FF`: the two low nibbles. */
  function Kk(op: Word): (kk: Byte)
    ensures kk == Nibbles(op).2 * 0x10 + Nibbles(op).3
  {
    op % 0x100
  }

  /** `nnn = opcode & 0x0FFF`: the three low nibbles. */
  function Nnn(op: Word): (nnn: Address)
    ensures nnn == Nibbles(op).1 * 0x100 + Kk(op)
  {
    op % 0x1000
  }

  type Nibbles4 = (Nibble, Nibble, Nibble, Nibble)

  /** The opcode made of four nibbles, most significant first. */
  function FromNibbles(t: Nibbles4): Word
  {
    t.0 * 0x1000 + t.1 * 0x100 + t.2 * 0x10 + t.3
  }

  /** Splitting an opcode into nibbles and joining them again are inverse. */
  lemma NibblesOf(t: Nibbles4)
    ensures Nibbles(FromNibbles(t)) == t
    ensures Kk(FromNibbles(t)) == t.2 * 0x10 + t.3
    ensures Nnn(FromNibbles(t)) == t.1 * 0x100 + t.2 * 0x10 + t.3
  {
    var (hi, x, y, n) := t;
    var op := FromNibbles(t);
    Bits.DivMod(op, 0x1000, hi, x * 0x100 + y * 0x10 + n);
    Bits.DivMod(op, 0x100, hi * 0x10 + x, y * 0x10 + n);
    Bits.DivMod(hi * 0x10 + x, 0x10, hi, x);
    Bits.DivMod(op, 0x10, hi * 0x100 + x * 0x10 + y, n);
    Bits.DivMod(hi * 0x100 + x * 0x10 + y, 0x10, hi * 0x10 + x, y);
  }

  /**
   * The `match` of `execute_opcode`: an opcode's instruction, chosen by its
   * nibbles; an opcode no arm accepts is carried by the catch-all arm.
   */
  function Decode(op: Word): (r: Instr)
    ensures r.Invalid? ==> r.opcode == op
  {
    Select(Nibbles(op), Kk(op), Nnn(op), op)
  }

  /** The arms of the `match`, given the nibbles and the operands `kk` and `nnn`. */
  function Select(t: Nibbles4, kk: Byte, nnn: Address, op: Word): Instr
  {
    var (hi, x, y, n) := t;
    match hi
    case 0x0 =>
      if x == 0x0 && y == 0xE && n == 0x0 then Cls
      else if x == 0x0 && y == 0xE && n == 0xE then Ret
      else Invalid(op)
    case 0x1 => Jp(nnn)
    case 0x2 => Call(nnn)
    case 0x3 => SeByte(x, kk)
    case 0x4 => SneByte(x, kk)
    case 0x5 => SeReg(x, y, n)
    case 0x6 => LdByte(x, kk)
    case 0x7 => AddByte(x, kk)
    case 0x8 =>
      (match n
       case 0x0 => LdReg(x, y)
       case 0x1 => Or(x, y)
       case 0x2 => And(x, y)
       case 0x3 => Xor(x, y)
       case 0x4 => AddReg(x, y)
       case 0x5 => Sub(x, y)
       case 0x6 => Shr(x, y)
       case 0x7 => Subn(x, y)
       case 0xE => Shl(x, y)
       case _ => Invalid(op))
    case 0x9 => if n == 0x0 then SneReg(x, y) else Invalid(op)
    case 0xA => LdI(nnn)
    case 0xB => JpV0(nnn)
    case 0xC => Rnd(x, kk)
    case 0xD => Drw(x, y, n)
    case 0xE =>
      if y == 0x9 && n == 0xE then Skp(x)
      else if y == 0xA && n == 0x1 then Sknp(x)
      else Invalid(op)
    case 0xF =>
      (match (y, n)
       case (0x0, 0x7) => LdVxDt(x)
       case (0x0, 0xA) => LdVxK(x)
       case (0x1, 0x5) => LdDtVx(x)
       case (0x1, 0x8) => LdStVx(x)
       case (0x1, 0xE) => AddI(x)
       case (0x2, 0x9) => LdF(x)
       case (0x3, 0x3) => LdB(x)
       case (0x5, 0x5) => LdIVx(x)
       case (0x6, 0x5) => LdVxI(x)
       case _ => Invalid(op))
  }

  /** The nibbles of a 12-bit address, most significant first. */
  function AddressNibbles(a: Address): (t: (Nibble, Nibble, Nibble))
    ensures a == t.0 * 0x100 + t.1 * 0x10 + t.2
  {
    var (_, x, y, n) := Nibbles(a);
    (x, y, n)
  }

  /** The nibbles of an instruction's opcode: its arm's pattern with the operands filled in. */
  function EncodeNibbles(i: Instr): Nibbles4
    requires !i.Invalid?
  {
    match i
    case Cls => (0x0, 0x0, 0xE, 0x0)
    case Ret => (0x0, 0x0, 0xE, 0xE)
    case Jp(a) => var (x, y, n) := AddressNibbles(a); (0x1, x, y, n)
    case Call(a) => var (x, y, n) := AddressNibbles(a); (0x2, x, y, n)
    case SeByte(x, kk) => (0x3, x, kk / 0x10, kk % 0x10)
    case SneByte(x, kk) => (0x4, x, kk / 0x10, kk % 0x10)
    case SeReg(x, y, n) => (0x5, x, y, n)
    case LdByte(x, kk) => (0x6, x, kk / 0x10, kk % 0x10)
    case AddByte(x, kk) => (0x7, x, kk / 0x10, kk % 0x10)
    case LdReg(x, y) => (0x8, x, y, 0x0)
    case Or(x, y) => (0x8, x, y, 0x1)
    case And(x, y) => (0x8, x, y, 0x2)
    case Xor(x, y) => (0x8, x, y, 0x3)
    case AddReg(x, y) => (0x8, x, y, 0x4)
    case Sub(x, y) => (0x8, x, y, 0x5)
    case Shr(x, y) => (0x8, x, y, 0x6)
    case Subn(x, y) => (0x8, x, y, 0x7)
    case Shl(x, y) => (0x8, x, y, 0xE)
    case SneReg(x, y) => (0x9, x, y, 0x0)
    case LdI(a) => var (x, y, n) := AddressNibbles(a); (0xA, x, y, n)
    case JpV0(a) => var (x, y, n) := AddressNibbles(a); (0xB, x, y, n)
    case Rnd(x, kk) => (0xC, x, kk / 0x10, kk % 0x10)
    case Drw(x, y, n) => (0xD, x, y, n)
    case Skp(x) => (0xE, x, 0x9, 0xE)
    case Sknp(x) => (0xE, x, 0xA, 0x1)
    case LdVxDt(x) => (0xF, x, 0x0, 0x7)
    case LdVxK(x) => (0xF, x, 0x0, 0xA)
    case LdDtVx(x) => (0xF, x, 0x1, 0x5)
    case LdStVx(x) => (0xF, x, 0x1, 0x8)
    case AddI(x) => (0xF, x, 0x1, 0xE)
    case LdF(x) => (0xF, x, 0x2, 0x9)
    case LdB(x) => (0xF, x, 0x3, 0x3)
    case LdIVx(x) => (0xF, x, 0x5, 0x5)
    case LdVxI(x) => (0xF, x, 0x6, 0x5)
  }

  /** The opcode of an instruction. */
  function Encode(i: Instr): Word
    requires !i.Invalid?
  {
    FromNibbles(EncodeNibbles(i))
  }

  /**
   * The opcodes no arm accepts, listed by form: 0nnn other than 00E0 and
   * 00EE, 8xy8..8xyD and 8xyF, 9xyn with n != 0, and the E and F forms that
   * are not listed.
   */
  predicate Unlisted(op: Word)
  {
    var hi := op / 0x1000;
    var n := op % 0x10;
    var kk := op % 0x100;
    (hi == 0x0 && op != 0x00E0 && op != 0x00EE)
    || (hi == 0x8 && ((0x8 <= n <= 0xD) || n == 0xF))
    || (hi == 0x9 && n != 0x0)
    || (hi == 0xE && kk != 0x9E && kk != 0xA1)
    || (hi == 0xF && kk != 0x07 && kk != 0x0A && kk != 0x15 && kk != 0x18 && kk != 0x1E
        && kk != 0x29 && kk != 0x33 && kk != 0x55 && kk != 0x65)
  }

  /** Exactly the unlisted opcodes fall through to the catch-all arm. */
  lemma InvalidExactlyUnlisted(op: Word)
    ensures Decode(op).Invalid? <==> Unlisted(op)
  {
    var t := Nibbles(op);
    var kk := Kk(op);
    assert op / 0x1000 == t.0 && op % 0x10 == t.3 && op % 0x100 == kk;
    Bits.DivMod(kk, 0x10, t.2, t.3);
    if t.0 == 0x0 {
      assert op == kk as int + t.1 as int * 0x100;
    } else if t.0 == 0xE {
      assert Decode(op).Invalid? <==> !(t.2 == 0x9 && t.3 == 0xE) && !(t.2 == 0xA && t.3 == 0x1);
    } else if t.0 == 0xF {
      assert Decode(op).Invalid? <==> Select(t, kk, Nnn(op), op).Invalid?;
    }
  }

  /** Every accepted opcode is the encoding of the instruction it decodes to. */
  lemma EncodeDecode(op: Word)
    requires !Decode(op).Invalid?
    ensures Encode(Decode(op)) == op
  {
    var t := Nibbles(op);
    assert op == FromNibbles(t);
    NibblesOf((0x0, t.1, t.2, t.3));
    Bits.DivMod(Kk(op), 0x10, t.2, t.3);
    SelectThenEncode(t, Kk(op), Nnn(op), op);
    assert Encode(Decode(op)) == FromNibbles(t);
  }

  lemma SelectThenEncode(t: Nibbles4, kk: Byte, nnn: Address, op: Word)
    requires kk / 0x10 == t.2 && kk % 0x10 == t.3
    requires AddressNibbles(nnn) == (t.1, t.2, t.3)
    requires !Select(t, kk, nnn, op).Invalid?
    ensures EncodeNibbles(Select(t, kk, nnn, op)) == t
  {
  }

  /** Decoding the encoding of an instruction gives the instruction back. */
  lemma DecodeEncode(i: Instr)
    requires !i.Invalid?
    ensures Decode(Encode(i)) == i
  {
    var t := EncodeNibbles(i);
    NibblesOf(t);
    if i.Jp? || i.Call? || i.LdI? || i.JpV0? {
      assert t.1 as int * 0x100 + t.2 as int * 0x10 + t.3 as int == i.addr as int;
    }
    EncodeThenSelect(i, Kk(Encode(i)), Nnn(Encode(i)));
  }

  lemma EncodeThenSelect(i: Instr, kk: Byte, nnn: Address)
    requires !i.Invalid?
    requires kk == EncodeNibbles(i).2 * 0x10 + EncodeNibbles(i).3
    requires (i.Jp? || i.Call? || i.LdI? || i.JpV0?) ==> nnn == i.addr
    ensures Select(EncodeNibbles(i), kk, nnn, Encode(i)) == i
  {
  }
}
