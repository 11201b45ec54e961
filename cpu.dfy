/** The register file of `src/cpu.rs`. */
module Cpu {
  import opened Types

  /** Number of general registers V0..VF. */
  const RegisterCount := 16

  /** Address at which execution starts (the ROM load address). */
  const EntryPoint := 0x200

  /**
   * `struct Cpu`: program counter, stack pointer, the general registers,
   * the address register I and the two timers. Every field is updated in
   * place by the interpreter, which here means replacing the value.
   */
  datatype Cpu = Cpu(pc: Word, sp: Byte, v: seq<Byte>, i: Word, delayTimer: Byte, soundTimer: Byte)

  /** `Cpu::new`. */
  function New(): (c: Cpu)
    ensures c.pc == EntryPoint
    ensures c.sp == 0
    ensures |c.v| == RegisterCount && forall k :: 0 <= k < |c.v| ==> c.v[k] == 0
    ensures c.i == 0 && c.delayTimer == 0 && c.soundTimer == 0
  {
    Cpu(EntryPoint, 0, seq(RegisterCount, _ => 0), 0, 0, 0)
  }
}
