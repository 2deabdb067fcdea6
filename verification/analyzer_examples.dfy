/** Worked inputs for the walker. Each is taken one decoded opcode at a
    time: a small lemma per step establishes the state after it field by
    field, a second lemma links the steps into the walk, and the example
    lemma reads the facts off the final state. */
module AnalyzerExamples {
  import opened Base
  import opened Opcodes
  import opened Gas
  import opened StackEngine
  import opened Storage
  import opened LoopTracker
  import opened FunctionTracker
  import opened Analyzer
  import opened AnalyzerProofs

  /** One more byte of a big-endian reading. */
  lemma BigEndianPrefix(bs: seq<Byte>, k: nat, v: nat)
    requires 0 < k <= |bs| && BigEndian(bs[..k - 1]) == v
    ensures BigEndian(bs[..k]) == v * 256 + bs[k - 1]
  {
    assert bs[..k][..k - 1] == bs[..k - 1];
  }

  /** A one-byte operand is pushed as is. */
  lemma OneByte(v: Byte)
    ensures FoldU64([v]) == v
  {
    assert [v][..0] == [];
  }

  // ---------------------------------------------------------------------
  // PUSH1 1, PUSH1 2, ADD
  // ---------------------------------------------------------------------

  const AddCode: seq<Byte> := [0x60, 0x01, 0x60, 0x02, 0x01]
  const Add1: Analysis := Analysis(3, map[0x60 := 1], map[0x60 := 3], [1], NewStorageTracker, [], [], 0, 0)
  const Add2: Analysis := Analysis(6, map[0x60 := 2], map[0x60 := 6], [1, 2], NewStorageTracker, [], [], 0, 0)
  const Add3: Analysis :=
    Analysis(9, map[0x60 := 2, 0x01 := 1], map[0x60 := 6, 0x01 := 3], [1, 2], NewStorageTracker, [], [], 0, 0)

  lemma AddStep1()
    ensures Step(AddCode, 0, Init) == Add1
  {
    StackShapeOpcodesCostThree(PUSH1);
    assert PushOperand(AddCode, 0) == [1];
    OneByte(1);
    StepIs(AddCode, 0, Init, Add1);
  }

  lemma AddStep2()
    ensures Step(AddCode, 2, Add1) == Add2
  {
    StackShapeOpcodesCostThree(PUSH1);
    assert PushOperand(AddCode, 2) == [2];
    OneByte(2);
    assert Push([1], 2) == [1, 2];
    StepIs(AddCode, 2, Add1, Add2);
  }

  lemma AddStep3()
    ensures Step(AddCode, 4, Add2) == Add3
  {
    FixedCosts();
    StepIs(AddCode, 4, Add2, Add3);
  }

  lemma AddWalk(code: seq<Byte>)
    requires code == AddCode
    ensures Walk(code, 0, Init) == Add3
    ensures Decoded(code, 0) == [0, 2, 4]
  {
    AddStep1();
    AddStep2();
    AddStep3();
    WalkLink(code, 0, Init, Add1, 2);
    WalkLink(code, 2, Add1, Add2, 4);
    WalkLink(code, 4, Add2, Add3, 5);
    assert Decoded(code, 5) == [];
    assert Decoded(code, 4) == [4] + Decoded(code, 5);
    assert Decoded(code, 2) == [2] + Decoded(code, 4);
    assert Decoded(code, 0) == [0] + Decoded(code, 2);
  }

  /** Positions 0, 2 and 4 are decoded, the total is 9, and the frequency
      map is {PUSH1: 2, ADD: 1}. */
  lemma AddTwoConstants()
    ensures Decoded(AddCode, 0) == [0, 2, 4]
    ensures Analyze(AddCode).totalGas == 9
    ensures Analyze(AddCode).opcodeCount == map[0x60 := 2, 0x01 := 1]
    ensures Analyze(AddCode).stack == [1, 2]
  {
    AddWalk(AddCode);
  }

  // ---------------------------------------------------------------------
  // POP on an empty stack
  // ---------------------------------------------------------------------

  const PopCode: seq<Byte> := [0x50]
  const Pop1: Analysis := Analysis(2, map[0x50 := 1], map[0x50 := 2], [], NewStorageTracker, [], [], 0, 0)

  lemma PopWalk(code: seq<Byte>)
    requires code == PopCode
    ensures Walk(code, 0, Init) == Pop1
  {
    FixedCosts();
    StepIs(code, 0, Init, Pop1);
    WalkLink(code, 0, Init, Pop1, 1);
  }

  /** The underflowing pop completes normally: gas 2 and an empty stack. */
  lemma PopOnEmptyStack()
    ensures Analyze(PopCode).totalGas == 2
    ensures Analyze(PopCode).stack == []
  {
    PopWalk(PopCode);
  }

  // ---------------------------------------------------------------------
  // PUSH1 0, JUMPDEST, PUSH1 2, JUMP
  // ---------------------------------------------------------------------

  const MissedJumpCode: seq<Byte> := [0x60, 0x00, 0x5b, 0x60, 0x02, 0x56]
  const Miss1: Analysis := Analysis(3, map[0x60 := 1], map[0x60 := 3], [0], NewStorageTracker, [], [], 0, 0)
  const Miss2: Analysis :=
    Analysis(4, map[0x60 := 1, 0x5b := 1], map[0x60 := 3, 0x5b := 1], [0], NewStorageTracker, [], [], 0, 0)
  const Miss3: Analysis :=
    Analysis(7, map[0x60 := 2, 0x5b := 1], map[0x60 := 6, 0x5b := 1], [0, 2], NewStorageTracker, [], [], 0, 0)
  const Miss4: Analysis :=
    Analysis(15, map[0x60 := 2, 0x5b := 1, 0x56 := 1], map[0x60 := 6, 0x5b := 1, 0x56 := 8], [0, 2],
             NewStorageTracker, [], [], 0, 0)

  lemma MissedJumpStep1()
    ensures Step(MissedJumpCode, 0, Init) == Miss1
  {
    StackShapeOpcodesCostThree(PUSH1);
    assert PushOperand(MissedJumpCode, 0) == [0];
    OneByte(0);
    StepIs(MissedJumpCode, 0, Init, Miss1);
  }

  lemma MissedJumpStep2()
    ensures Step(MissedJumpCode, 2, Miss1) == Miss2
  {
    FixedCosts();
    StepIs(MissedJumpCode, 2, Miss1, Miss2);
  }

  lemma MissedJumpStep3()
    ensures Step(MissedJumpCode, 3, Miss2) == Miss3
  {
    StackShapeOpcodesCostThree(PUSH1);
    assert PushOperand(MissedJumpCode, 3) == [2];
    OneByte(2);
    assert Push([0], 2) == [0, 2];
    StepIs(MissedJumpCode, 3, Miss2, Miss3);
  }

  lemma MissedJumpStep4()
    ensures Step(MissedJumpCode, 5, Miss3) == Miss4
  {
    FixedCosts();
    assert !IsPush(MissedJumpCode[4]);
    assert JumpTarget(MissedJumpCode, 5) == None;
    StepIs(MissedJumpCode, 5, Miss3, Miss4);
  }

  lemma MissedJumpWalk(code: seq<Byte>)
    requires code == MissedJumpCode
    ensures Walk(code, 0, Init) == Miss4
  {
    MissedJumpStep1();
    MissedJumpStep2();
    MissedJumpStep3();
    MissedJumpStep4();
    WalkLink(code, 0, Init, Miss1, 2);
    WalkLink(code, 2, Miss1, Miss2, 3);
    WalkLink(code, 3, Miss2, Miss3, 5);
    WalkLink(code, 5, Miss3, Miss4, 6);
  }

  /** The byte before the JUMP is the operand 0x02, not a push opcode, so
      no loop is reported; the total is 3 + 1 + 3 + 8. */
  lemma MissedBackwardJump()
    ensures Analyze(MissedJumpCode).loops == []
    ensures Analyze(MissedJumpCode).totalGas == 15
    ensures Analyze(MissedJumpCode).opcodeCount == map[0x60 := 2, 0x5b := 1, 0x56 := 1]
  {
    MissedJumpWalk(MissedJumpCode);
  }

  // ---------------------------------------------------------------------
  // PUSH4 aabbccdd, PUSH4 11223344, ADD
  // ---------------------------------------------------------------------

  const TwoSelectorsCode: seq<Byte> := [0x63, 0xaa, 0xbb, 0xcc, 0xdd, 0x63, 0x11, 0x22, 0x33, 0x44, 0x01]
  const Sel1: Selector := [0xaa, 0xbb, 0xcc, 0xdd]
  const Sel2: Selector := [0x11, 0x22, 0x33, 0x44]
  const Two1: Analysis :=
    Analysis(3, map[0x63 := 1], map[0x63 := 3], [0xaabbccdd], NewStorageTracker, [],
             [FunctionInfo(Sel1, 0, 3)], 0, 0)
  const Two2: Analysis :=
    Analysis(6, map[0x63 := 2], map[0x63 := 6], [0xaabbccdd, 0x11223344], NewStorageTracker, [],
             [FunctionInfo(Sel1, 0, 6), FunctionInfo(Sel2, 5, 3)], 0, 0)
  const Two3: Analysis :=
    Analysis(9, map[0x63 := 2, 0x01 := 1], map[0x63 := 6, 0x01 := 3], [0xaabbccdd, 0x11223344],
             NewStorageTracker, [], [FunctionInfo(Sel1, 0, 9), FunctionInfo(Sel2, 5, 6)], 0, 0)

  lemma SelectorValues()
    ensures FoldU64(Sel1) == 0xaabbccdd && FoldU64(Sel2) == 0x11223344
  {
    assert Sel1[..0] == [] && Sel2[..0] == [];
    BigEndianPrefix(Sel1, 1, 0);
    BigEndianPrefix(Sel1, 2, 0xaa);
    BigEndianPrefix(Sel1, 3, 0xaabb);
    BigEndianPrefix(Sel1, 4, 0xaabbcc);
    BigEndianPrefix(Sel2, 1, 0);
    BigEndianPrefix(Sel2, 2, 0x11);
    BigEndianPrefix(Sel2, 3, 0x1122);
    BigEndianPrefix(Sel2, 4, 0x112233);
    assert Sel1[..4] == Sel1 && Sel2[..4] == Sel2;
    ShortOperandIsExact(Sel1);
    ShortOperandIsExact(Sel2);
  }

  lemma TwoSelectorsStep1()
    ensures Step(TwoSelectorsCode, 0, Init) == Two1
  {
    StackShapeOpcodesCostThree(PUSH4);
    assert IsSelectorSite(TwoSelectorsCode, 0) && SelectorAt(TwoSelectorsCode, 0) == Sel1;
    assert PushOperand(TwoSelectorsCode, 0) == Sel1;
    SelectorValues();
    StepIs(TwoSelectorsCode, 0, Init, Two1);
  }

  lemma TwoSelectorsStep2()
    ensures Step(TwoSelectorsCode, 5, Two1) == Two2
  {
    StackShapeOpcodesCostThree(PUSH4);
    assert IsSelectorSite(TwoSelectorsCode, 5) && SelectorAt(TwoSelectorsCode, 5) == Sel2;
    assert PushOperand(TwoSelectorsCode, 5) == Sel2;
    SelectorValues();
    assert Push([0xaabbccdd], 0x11223344) == [0xaabbccdd, 0x11223344];
    StepIs(TwoSelectorsCode, 5, Two1, Two2);
  }

  lemma TwoSelectorsStep3()
    ensures Step(TwoSelectorsCode, 10, Two2) == Two3
  {
    FixedCosts();
    StepIs(TwoSelectorsCode, 10, Two2, Two3);
  }

  lemma TwoSelectorsWalk(code: seq<Byte>)
    requires code == TwoSelectorsCode
    ensures Walk(code, 0, Init) == Two3
  {
    TwoSelectorsStep1();
    TwoSelectorsStep2();
    TwoSelectorsStep3();
    WalkLink(code, 0, Init, Two1, 5);
    WalkLink(code, 5, Two1, Two2, 10);
    WalkLink(code, 10, Two2, Two3, 11);
  }

  /** Two function records in encounter order; the ADD is credited to both,
      so together they hold 15 gas out of a total of 9. */
  lemma TwoSelectors()
    ensures Analyze(TwoSelectorsCode).functions == [FunctionInfo(Sel1, 0, 9), FunctionInfo(Sel2, 5, 6)]
    ensures Analyze(TwoSelectorsCode).totalGas == 9
  {
    TwoSelectorsWalk(TwoSelectorsCode);
  }

  // ---------------------------------------------------------------------
  // PUSH2 with one byte left
  // ---------------------------------------------------------------------

  const TruncatedCode: seq<Byte> := [0x61, 0x01]
  const Trunc1: Analysis := Analysis(3, map[0x61 := 1], map[0x61 := 3], [], NewStorageTracker, [], [], 0, 0)

  lemma TruncatedWalk(code: seq<Byte>)
    requires code == TruncatedCode
    ensures Truncated(code, 0)
    ensures Walk(code, 0, Init) == Trunc1
    ensures Decoded(code, 0) == [0]
  {
    StackShapeOpcodesCostThree(0x61);
    StepIs(code, 0, Init, Trunc1);
    WalkUnfold(code, 0, Init);
  }

  /** The truncated push is counted and charged, pushes nothing, and ends
      the walk. */
  lemma TruncatedPush()
    ensures Decoded(TruncatedCode, 0) == [0]
    ensures Analyze(TruncatedCode).totalGas == 3
    ensures Analyze(TruncatedCode).opcodeCount == map[0x61 := 1]
    ensures Analyze(TruncatedCode).stack == []
  {
    TruncatedWalk(TruncatedCode);
  }

  // ---------------------------------------------------------------------
  // PUSH1 7, SLOAD, PUSH1 9, SSTORE
  // ---------------------------------------------------------------------

  const StorageCode: seq<Byte> := [0x60, 0x07, 0x54, 0x60, 0x09, 0x55]
  const Sto1: Analysis := Analysis(3, map[0x60 := 1], map[0x60 := 3], [7], NewStorageTracker, [], [], 0, 0)
  const Sto2: Analysis :=
    Analysis(103, map[0x60 := 1, 0x54 := 1], map[0x60 := 3, 0x54 := 100], [0],
             StorageTracker(map[7 := 1], map[]), [], [], 0, 0)
  const Sto3: Analysis :=
    Analysis(106, map[0x60 := 2, 0x54 := 1], map[0x60 := 6, 0x54 := 100], [0, 9],
             StorageTracker(map[7 := 1], map[]), [], [], 0, 0)
  const Sto4: Analysis :=
    Analysis(20106, map[0x60 := 2, 0x54 := 1, 0x55 := 1], map[0x60 := 6, 0x54 := 100, 0x55 := 20000], [],
             StorageTracker(map[7 := 1], map[9 := 1]), [], [], 1, 1)

  lemma StorageStep1()
    ensures Step(StorageCode, 0, Init) == Sto1
  {
    StackShapeOpcodesCostThree(PUSH1);
    assert PushOperand(StorageCode, 0) == [7];
    OneByte(7);
    StepIs(StorageCode, 0, Init, Sto1);
  }

  lemma StorageStep2()
    ensures Step(StorageCode, 2, Sto1) == Sto2
  {
    FixedCosts();
    assert [7][..0] == [];
    assert Pop([7]) == (7, []);
    assert RecordRead(NewStorageTracker, 7) == StorageTracker(map[7 := 1], map[]);
    assert StackEffect(StorageCode, 2, [7], NewStorageTracker) == ([0], StorageTracker(map[7 := 1], map[]));
    StepIs(StorageCode, 2, Sto1, Sto2);
  }

  lemma StorageStep3()
    ensures Step(StorageCode, 3, Sto2) == Sto3
  {
    StackShapeOpcodesCostThree(PUSH1);
    assert PushOperand(StorageCode, 3) == [9];
    OneByte(9);
    assert Push([0], 9) == [0, 9];
    StepIs(StorageCode, 3, Sto2, Sto3);
  }

  lemma StorageStep4()
    ensures Step(StorageCode, 5, Sto3) == Sto4
  {
    FixedCosts();
    assert [0, 9][..1] == [0] && [0][..0] == [];
    assert Pop([0, 9]) == (9, [0]) && Pop([0]) == (0, []);
    var st := StorageTracker(map[7 := 1], map[]);
    assert RecordWrite(st, 9) == StorageTracker(map[7 := 1], map[9 := 1]);
    assert StackEffect(StorageCode, 5, [0, 9], st) == ([], StorageTracker(map[7 := 1], map[9 := 1]));
    StepIs(StorageCode, 5, Sto3, Sto4);
  }

  lemma StorageWalk(code: seq<Byte>)
    requires code == StorageCode
    ensures Walk(code, 0, Init) == Sto4
  {
    StorageStep1();
    StorageStep2();
    StorageStep3();
    StorageStep4();
    WalkLink(code, 0, Init, Sto1, 2);
    WalkLink(code, 2, Sto1, Sto2, 3);
    WalkLink(code, 3, Sto2, Sto3, 5);
    WalkLink(code, 5, Sto3, Sto4, 6);
  }

  /** SLOAD reads slot 7 and leaves 0 on the stack; SSTORE then takes its
      slot (9) from the top and its value from below. */
  lemma LoadThenStore()
    ensures ReadCount(Analyze(StorageCode).storage, 7) == 1
    ensures WriteCount(Analyze(StorageCode).storage, 9) == 1
    ensures WriteCount(Analyze(StorageCode).storage, 0) == 0
    ensures Analyze(StorageCode).stack == []
    ensures Analyze(StorageCode).maxSStoreRun == 1
  {
    StorageWalk(StorageCode);
  }

  // ---------------------------------------------------------------------
  // PUSH8 8000000000000067, JUMP
  // ---------------------------------------------------------------------

  const WrappedJumpCode: seq<Byte> := [0x67, 0x80, 0x00, 0x00, 0x00, 0x00, 0x00, 0x00, 0x67, 0x56]

  /** The PUSH8 operand, which the JUMP at 9 also reads as its destination. */
  const WrappedValue: nat := 0x8000_0000_0000_0067

  /** That operand read as a signed 64-bit integer. */
  const WrappedDest: int := WrappedValue - TWO_64

  const Wrap1: Analysis :=
    Analysis(3, map[0x67 := 1], map[0x67 := 3], [WrappedValue], NewStorageTracker, [], [], 0, 0)
  const Wrap2: Analysis :=
    Analysis(11, map[0x67 := 1, 0x56 := 1], map[0x67 := 3, 0x56 := 8], [WrappedValue], NewStorageTracker,
             [Loop(WrappedDest, 9, 1)], [], 0, 0)

  lemma WrappedOperand()
    ensures BigEndian(WrappedJumpCode[1..9]) == WrappedValue
    ensures FoldU64(WrappedJumpCode[1..9]) == WrappedValue
  {
    var bs := WrappedJumpCode[1..9];
    assert bs == [0x80, 0x00, 0x00, 0x00, 0x00, 0x00, 0x00, 0x67];
    assert bs[..0] == [];
    BigEndianPrefix(bs, 1, 0);
    BigEndianPrefix(bs, 2, 0x80);
    BigEndianPrefix(bs, 3, 0x8000);
    BigEndianPrefix(bs, 4, 0x80_0000);
    BigEndianPrefix(bs, 5, 0x8000_0000);
    BigEndianPrefix(bs, 6, 0x80_0000_0000);
    BigEndianPrefix(bs, 7, 0x8000_0000_0000);
    BigEndianPrefix(bs, 8, 0x80_0000_0000_0000);
    assert bs[..8] == bs;
    FoldU64IsBigEndianMod(bs);
  }

  lemma WrappedJumpStep1()
    ensures Step(WrappedJumpCode, 0, Init) == Wrap1
  {
    StackShapeOpcodesCostThree(0x67);
    assert PushOperand(WrappedJumpCode, 0) == WrappedJumpCode[1..9];
    WrappedOperand();
    StepIs(WrappedJumpCode, 0, Init, Wrap1);
  }

  lemma WrappedJumpStep2()
    ensures JumpTarget(WrappedJumpCode, 9) == Some(WrappedDest)
    ensures Step(WrappedJumpCode, 9, Wrap1) == Wrap2
  {
    FixedCosts();
    WrappedOperand();
    assert JumpTarget(WrappedJumpCode, 9) == Some(WrappedDest);
    StepIs(WrappedJumpCode, 9, Wrap1, Wrap2);
  }

  lemma WrappedJumpWalk(code: seq<Byte>)
    requires code == WrappedJumpCode
    ensures Walk(code, 0, Init) == Wrap2
  {
    WrappedJumpStep1();
    WrappedJumpStep2();
    WalkLink(code, 0, Init, Wrap1, 9);
    WalkLink(code, 9, Wrap1, Wrap2, 10);
  }

  /** The last operand byte 0x67 is itself the PUSH8 opcode, so the JUMP
      reads the eight bytes before it, which here are the operand
      8000000000000067; its top bit is set, the signed destination is
      negative and hence below 9, and a loop is reported. */
  lemma NegativeDestination()
    ensures WrappedDest < 0
    ensures Analyze(WrappedJumpCode).loops == [Loop(WrappedDest, 9, 1)]
  {
    WrappedJumpWalk(WrappedJumpCode);
  }
}
