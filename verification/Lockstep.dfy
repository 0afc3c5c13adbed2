/** The two cores side by side. */
module Lockstep {
  import opened Isa
  import opened Machine
  import Core6510
  import CoreDtv

  /**
   * From equal registers, flags, memory and clock, any number of instructions leaves the two
   * cores equal, whatever the program does to its own code.  The instruction-stepped core wrote
   * each read-modify-write result once and the cycle-stepped one twice, and only the latter
   * ticked its clock exactly once for each access to its bus.
   */
  method RunBoth(byInstruction: Cpu, byCycle: Cpu, n: nat)
    requires byInstruction != byCycle && byInstruction.ram != byCycle.ram
    requires byInstruction.ram.Length == 0x10000 && byCycle.ram.Length == 0x10000
    requires byInstruction.St() == byCycle.St()
    modifies byInstruction, byInstruction.ram, byCycle, byCycle.ram
    ensures byInstruction.St() == byCycle.St() == Run(old(byCycle.St()), n)
    ensures byCycle.clk - old(byCycle.clk) == byCycle.bus - old(byCycle.bus)
  {
    hide Run, R;
    Core6510.Run(byInstruction, n);
    CoreDtv.Run(byCycle, n);
  }
}
