/** The fixed-width unsigned integers the source stores counters and times in. */
module MachineInts {

  /** Rust `u32`: request counters and budgets. */
  type u32 = x: int | 0 <= x < 0x1_0000_0000

  /** Rust `u64`: seconds since the Unix epoch, and window lengths. */
  type u64 = x: int | 0 <= x < 0x1_0000_0000_0000_0000
}
