/** Memory-operation vocabulary shared by the data cache and its byte lanes (machine.vh, rob.vh). */
module MemoryTypes {

  /** One cache line: LG_L1D_CL_LEN = 4, so sixteen bytes, byte k of the line in bits 8k+7..8k. */
  type Line = bv128

  /** The 64-bit data field of a request or a response. */
  type Word = bv64

  /** The memory operations the cache distinguishes. */
  datatype MemOp =
    | LB | LBU | LH | LHU | LW | LWR | LWL | LWC1Merge | LDC1
    | SB | SH | SW | SWR | SWL | SC | SWC1Merge | SDC1
    | MTC1Merge | MFC1Merge | DeadLoad

  /** What the data path needs from a request: the operation, the byte offset in the line,
      the register operand and the half selector of the merged FP moves. */
  datatype Payload = Payload(op: MemOp, off: bv4, data: Word, lo: bool)

  /** exec.sv raises is_store for exactly these operations. */
  predicate IsStoreOp(op: MemOp) {
    op.SB? || op.SH? || op.SW? || op.SWR? || op.SWL? || op.SC? || op.SWC1Merge? || op.SDC1?
  }

  /** Register moves that travel through the memory port but never touch memory. */
  predicate IsMoveOp(op: MemOp) {
    op.MTC1Merge? || op.MFC1Merge?
  }

  datatype Option<+T> = None | Some(value: T)
}
