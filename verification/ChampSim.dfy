/** The ChampSim v2 trace record and its explicit branch-type contract. */
module ChampSim {
  import opened Bytes

  const NUM_INSTR_SOURCES: nat := 4
  const NUM_INSTR_DESTINATIONS: nat := 2
  const MAX_MEM_VALUE_SIZE: nat := 64
  const RECORD_SIZE: nat := 512

  const INSTR_TYPE_INT: Byte := 0

  // branch_type, 0-based
  const DIRECT_JUMP: Byte := 0
  const INDIRECT: Byte := 1
  const CONDITIONAL: Byte := 2
  const DIRECT_CALL: Byte := 3
  const INDIRECT_CALL: Byte := 4
  const RETURN: Byte := 5
  const OTHER: Byte := 6
  const NOT_BRANCH: Byte := 7

  const EXPLICIT_BRANCH_TYPE: Byte := 1
  const FLAGS_REGISTER: Byte := 2
  const TRACER_ID_QEMU: Byte := 4

  /** A control transfer that is taken by definition. */
  predicate KnownTaken(t: Byte)
  {
    t == DIRECT_JUMP || t == INDIRECT || t == DIRECT_CALL || t == INDIRECT_CALL || t == RETURN
  }

  /** One memory slot: address, physical address (0 if unknown), size, zero-padded value. */
  datatype Slot = Slot(addr: U64, pa: U64, size: Byte, value: seq<Byte>)

  const NO_SLOT: Slot := Slot(0, 0, 0, Fit([], MAX_MEM_VALUE_SIZE))

  /** The reserved bytes carry the branch type, the feature bits and the tracer id. */
  datatype OutRecord = OutRecord(
    ip: U64, isBranch: bool, taken: bool,
    dstRegs: seq<Byte>, srcRegs: seq<Byte>,
    dst: seq<Slot>, src: seq<Slot>,
    privilege: nat, instrType: Byte,
    branchType: Byte, features: Byte, tracerId: Byte)

  predicate ExplicitType(o: OutRecord)
  {
    o.features % 2 == EXPLICIT_BRANCH_TYPE
  }

  /** Whether the direction is known without seeing the next instruction. */
  predicate Decidable(o: OutRecord)
  {
    !o.isBranch || KnownTaken(o.branchType)
  }
}
