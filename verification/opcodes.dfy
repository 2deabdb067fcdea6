/** The byte values of the EVM instructions the analyzer names, as listed in
    Appendix H.2 of the Ethereum Yellow Paper, and the instruction families
    (push, dup, swap, log, jump) the walker dispatches on. */
module Opcodes {
  import opened Base

  const STOP: Byte := 0x00
  const ADD: Byte := 0x01
  const POP: Byte := 0x50
  const SLOAD: Byte := 0x54
  const SSTORE: Byte := 0x55
  const JUMP: Byte := 0x56
  const JUMPI: Byte := 0x57
  const JUMPDEST: Byte := 0x5b
  const PUSH1: Byte := 0x60
  const PUSH4: Byte := 0x63
  const PUSH32: Byte := 0x7f
  const DUP1: Byte := 0x80
  const DUP16: Byte := 0x8f
  const SWAP1: Byte := 0x90
  const SWAP16: Byte := 0x9f
  const LOG0: Byte := 0xa0
  const LOG4: Byte := 0xa4
  const CREATE: Byte := 0xf0
  const RETURN: Byte := 0xf3
  const REVERT: Byte := 0xfd

  predicate IsPush(op: Byte) { PUSH1 <= op <= PUSH32 }
  predicate IsDup(op: Byte) { DUP1 <= op <= DUP16 }
  predicate IsSwap(op: Byte) { SWAP1 <= op <= SWAP16 }
  predicate IsLog(op: Byte) { LOG0 <= op <= LOG4 }
  predicate IsJump(op: Byte) { op == JUMP || op == JUMPI }

  /** Number of immediate bytes of PUSHn, i.e. n. */
  function PushSize(op: Byte): (n: nat)
    requires IsPush(op)
    ensures 1 <= n <= 32
  {
    op - PUSH1 + 1
  }

  /** Bytes that follow the opcode as data: n for PUSHn, none otherwise. */
  function ImmediateSize(op: Byte): (n: nat)
    ensures n <= 32
    ensures n > 0 <==> IsPush(op)
  {
    if IsPush(op) then PushSize(op) else 0
  }

  /** The n of DUPn and of SWAPn. */
  function DupDepth(op: Byte): (n: nat)
    requires IsDup(op)
    ensures 1 <= n <= 16
  {
    op - DUP1 + 1
  }

  function SwapDepth(op: Byte): (n: nat)
    requires IsSwap(op)
    ensures 1 <= n <= 16
  {
    op - SWAP1 + 1
  }
}
