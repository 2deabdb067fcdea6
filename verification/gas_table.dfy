/** The flat per-opcode gas table and its lookup with a default of 0
    (analyzer/gas_table.go). */
module Gas {
  import opened Base
  import opened Opcodes

  /** The table itself: `Some(cost)` for every listed opcode, `None` for the
      opcodes the table does not mention. */
  function GasTable(op: Byte): Option<nat>
  {
    if IsPush(op) || IsDup(op) || IsSwap(op) then Some(3)
    else match op
      case 0x00 => Some(0)      // STOP
      case 0x01 => Some(3)      // ADD
      case 0x02 => Some(5)      // MUL
      case 0x03 => Some(3)      // SUB
      case 0x04 => Some(5)      // DIV
      case 0x05 => Some(5)      // SDIV
      case 0x06 => Some(5)      // MOD
      case 0x07 => Some(5)      // SMOD
      case 0x08 => Some(8)      // ADDMOD
      case 0x09 => Some(8)      // MULMOD
      case 0x0a => Some(10)     // EXP
      case 0x0b => Some(5)      // SIGNEXTEND
      case 0x10 => Some(3)      // LT
      case 0x11 => Some(3)      // GT
      case 0x12 => Some(3)      // SLT
      case 0x13 => Some(3)      // SGT
      case 0x14 => Some(3)      // EQ
      case 0x15 => Some(3)      // ISZERO
      case 0x16 => Some(3)      // AND
      case 0x17 => Some(3)      // OR
      case 0x18 => Some(3)      // XOR
      case 0x19 => Some(3)      // NOT
      case 0x1a => Some(3)      // BYTE
      case 0x1b => Some(3)      // SHL
      case 0x1c => Some(3)      // SHR
      case 0x1d => Some(3)      // SAR
      case 0x20 => Some(30)     // KECCAK256
      case 0x30 => Some(2)      // ADDRESS
      case 0x31 => Some(100)    // BALANCE
      case 0x32 => Some(2)      // ORIGIN
      case 0x33 => Some(2)      // CALLER
      case 0x34 => Some(2)      // CALLVALUE
      case 0x35 => Some(3)      // CALLDATALOAD
      case 0x36 => Some(2)      // CALLDATASIZE
      case 0x37 => Some(3)      // CALLDATACOPY
      case 0x38 => Some(2)      // CODESIZE
      case 0x39 => Some(3)      // CODECOPY
      case 0x3a => Some(2)      // GASPRICE
      case 0x3b => Some(100)    // EXTCODESIZE
      case 0x3c => Some(100)    // EXTCODECOPY
      case 0x3d => Some(2)      // RETURNDATASIZE
      case 0x3e => Some(3)      // RETURNDATACOPY
      case 0x40 => Some(20)     // BLOCKHASH
      case 0x41 => Some(2)      // COINBASE
      case 0x42 => Some(2)      // TIMESTAMP
      case 0x43 => Some(2)      // NUMBER
      case 0x44 => Some(2)      // DIFFICULTY
      case 0x45 => Some(2)      // GASLIMIT
      case 0x50 => Some(2)      // POP
      case 0x51 => Some(3)      // MLOAD
      case 0x52 => Some(3)      // MSTORE
      case 0x53 => Some(3)      // MSTORE8
      case 0x54 => Some(100)    // SLOAD
      case 0x55 => Some(20000)  // SSTORE
      case 0x56 => Some(8)      // JUMP
      case 0x57 => Some(10)     // JUMPI
      case 0x58 => Some(2)      // PC
      case 0x59 => Some(2)      // MSIZE
      case 0x5a => Some(2)      // GAS
      case 0x5b => Some(1)      // JUMPDEST
      case 0xa0 => Some(375)    // LOG0
      case 0xa1 => Some(750)    // LOG1
      case 0xa2 => Some(1125)   // LOG2
      case 0xa3 => Some(1500)   // LOG3
      case 0xa4 => Some(1875)   // LOG4
      case 0xf0 => Some(32000)  // CREATE
      case 0xf1 => Some(700)    // CALL
      case 0xf2 => Some(700)    // CALLCODE
      case 0xf3 => Some(0)      // RETURN
      case 0xf4 => Some(700)    // DELEGATECALL
      case 0xfa => Some(700)    // STATICCALL
      case 0xfd => Some(0)      // REVERT
      case 0xff => Some(5000)   // SELFDESTRUCT
      case _ => None
  }

  /** The byte values the table leaves out, described by ranges rather
      than by the table's own listing. */
  predicate Unlisted(op: Byte)
  {
    || 0x0c <= op <= 0x0f
    || 0x1e <= op <= 0x1f
    || 0x21 <= op <= 0x2f
    || op == 0x3f
    || 0x46 <= op <= 0x4f
    || 0x5c <= op <= 0x5f
    || 0xa5 <= op <= 0xef
    || 0xf5 <= op <= 0xf9
    || op == 0xfb || op == 0xfc || op == 0xfe
  }

  /** GetGasCost: the table's cost, or 0 for an opcode it does not list. */
  function GetGasCost(op: Byte): (cost: nat)
    ensures GasTable(op).None? ==> cost == 0
    ensures GasTable(op).Some? ==> cost == GasTable(op).value
    ensures cost <= 32000
  {
    match GasTable(op)
    case Some(c) => c
    case None => 0
  }

  /** The opcodes missing from the table are exactly the unlisted ranges,
      and each of them costs 0. */
  lemma UnknownOpcodesAreFree(op: Byte)
    ensures GasTable(op).None? <==> Unlisted(op)
    ensures Unlisted(op) ==> GetGasCost(op) == 0
  {
  }

  /** Every PUSH1..PUSH32, DUP1..DUP16 and SWAP1..SWAP16 costs 3. */
  lemma StackShapeOpcodesCostThree(op: Byte)
    requires IsPush(op) || IsDup(op) || IsSwap(op)
    ensures GetGasCost(op) == 3
  {
  }

  /** LOGk costs 375 per topic slot, k + 1 slots. */
  lemma LogCost(k: nat)
    requires k <= 4
    ensures IsLog(LOG0 + k)
    ensures GetGasCost(LOG0 + k) == 375 * (k + 1)
  {
  }

  /** The fixed costs the walker's storage, stack and jump handling relies on. */
  lemma FixedCosts()
    ensures GetGasCost(SLOAD) == 100
    ensures GetGasCost(SSTORE) == 20000
    ensures GetGasCost(POP) == 2
    ensures GetGasCost(JUMP) == 8
    ensures GetGasCost(JUMPI) == 10
    ensures GetGasCost(JUMPDEST) == 1
    ensures GetGasCost(ADD) == 3
  {
    assert GasTable(SLOAD) == Some(100);
    assert GasTable(SSTORE) == Some(20000);
    assert GasTable(POP) == Some(2);
    assert GasTable(JUMP) == Some(8);
    assert GasTable(JUMPI) == Some(10);
    assert GasTable(JUMPDEST) == Some(1);
    assert GasTable(ADD) == Some(3);
  }

  /** Halting opcodes are free and CREATE is the most expensive entry. */
  lemma CostExtremes(op: Byte)
    ensures GetGasCost(STOP) == 0 && GetGasCost(RETURN) == 0 && GetGasCost(REVERT) == 0
    ensures GetGasCost(CREATE) == 32000
    ensures GetGasCost(op) <= GetGasCost(CREATE)
  {
  }
}
