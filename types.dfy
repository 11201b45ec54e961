/** Machine-word types and the error outcomes shared by the whole model. */
module Types {

  /** A Rust `u8`. */
  type Byte = b: int | 0 <= b < 0x100

  /** A Rust `u16`. */
  type Word = w: int | 0 <= w < 0x1_0000

  datatype Option<+T> = None | Some(value: T)

  /** The ways the interpreter stops: `exit(1)` on an unknown opcode, or a Rust panic. */
  datatype Fault =
    | InvalidOpcode(opcode: Word)   // the catch-all arm of `execute_opcode`
    | StackOverflow                 // CALL indexes `stack[16]`
    | StackUnderflow                // RET decrements a `u8` stack pointer that is 0
    | RamOutOfBounds                // an index into the 4096-byte `ram` vector is too large
    | SliceOutOfRange               // `load_rom` slices past the end of `ram`

  datatype Result<+T> = Ok(value: T) | Err(fault: Fault)

  /** A result that carries no value: Rust's `Result<(), _>` or a panic. */
  datatype Outcome = Pass | Fail(fault: Fault)
}
