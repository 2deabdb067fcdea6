/** The single-pass bytecode walker of analyzer/analyzer.go.

    `Walk` follows the Go `for pc < len(code)` loop step by step: each step
    decodes the opcode at `pc`, applies it to the abstract stack and the
    trackers, charges its gas, and advances `pc` past the opcode and, for a
    PUSHn, past its n immediate bytes; a PUSHn whose immediate bytes run off
    the end is still charged, pushes nothing, and ends the walk.

    `Decoded` lists the positions the walk decodes and `Replay` folds `Step`
    over any list of positions; `WalkIsReplay` shows the walk is the replay of
    its decoded positions, which is what the lemmas of AnalyzerProofs build on. */
module Analyzer {
  import opened Base
  import opened Opcodes
  import opened Gas
  import opened StackEngine
  import opened Storage
  import opened LoopTracker
  import opened FunctionTracker

  /** Everything the walk accumulates: the counterpart of the local
      variables of AnalyzeBytecode once its loop ends. */
  datatype Analysis = Analysis(
    totalGas: nat,
    opcodeCount: map<Byte, nat>,
    opcodeGas: map<Byte, nat>,
    stack: Stack,
    storage: StorageTracker,
    loops: seq<Loop>,
    functions: seq<FunctionInfo>,
    sstoreRun: nat,
    maxSStoreRun: nat)

  /** Fresh trackers, empty stack, zero counters. */
  const Init: Analysis :=
    Analysis(0, map[], map[], Empty, NewStorageTracker, NewLoopTracker, NewFunctionTracker, 0, 0)

  /** Go's `m[op]` on a `map[vm.OpCode]…`: 0 when absent. */
  function Tally(m: map<Byte, nat>, op: Byte): nat
  {
    if op in m then m[op] else 0
  }

  /** A PUSH4 with its four selector bytes inside the code. */
  predicate IsSelectorSite(code: seq<Byte>, pc: nat)
    requires pc < |code|
  {
    code[pc] == PUSH4 && pc + 5 <= |code|
  }

  function SelectorAt(code: seq<Byte>, pc: nat): (sel: Selector)
    requires pc + 5 <= |code|
    ensures |sel| == 4
  {
    code[pc + 1..pc + 5]
  }

  /** A PUSHn at `pc` whose n immediate bytes do not all fit in the code. */
  predicate Truncated(code: seq<Byte>, pc: nat)
    requires pc < |code|
  {
    IsPush(code[pc]) && pc + 1 + PushSize(code[pc]) > |code|
  }

  /** The immediate bytes of a complete PUSHn at `pc`. */
  function PushOperand(code: seq<Byte>, pc: nat): (bs: seq<Byte>)
    requires pc < |code| && IsPush(code[pc]) && !Truncated(code, pc)
    ensures |bs| == PushSize(code[pc])
  {
    code[pc + 1..pc + 1 + PushSize(code[pc])]
  }

  /** The effect of the opcode at `pc` on the abstract stack and the storage
      counters (the `switch` of the walk). Opcodes outside these families
      leave both alone. */
  function StackEffect(code: seq<Byte>, pc: nat, stack: Stack, storage: StorageTracker): (Stack, StorageTracker)
    requires pc < |code|
  {
    var op := code[pc];
    if IsPush(op) then
      if !Truncated(code, pc) then (Push(stack, FoldU64(PushOperand(code, pc))), storage)
      else (stack, storage)
    else if op == POP then (Pop(stack).1, storage)
    else if IsDup(op) then (Dup(stack, DupDepth(op)), storage)
    else if IsSwap(op) then (Swap(stack, SwapDepth(op)), storage)
    else if op == SLOAD then
      var (slot, rest) := Pop(stack);
      (Push(rest, 0), RecordRead(storage, slot))
    else if op == SSTORE then
      var (slot, rest) := Pop(stack);
      var (_, rest') := Pop(rest);
      (rest', RecordWrite(storage, slot))
    else (stack, storage)
  }

  /** The backward-jump heuristic at a JUMP/JUMPI at `pc`: the byte just
      before it is read AS IF it were a PUSHn opcode, the n bytes ending just
      before `pc` (that byte included) are read as a Go `int` destination,
      and a destination below `pc` is reported. The byte at `pc - 1` is the
      last immediate byte of a preceding push, not its opcode, so this
      rarely recovers the real operand. */
  function JumpTarget(code: seq<Byte>, pc: nat): Option<int>
    requires pc < |code|
  {
    if IsJump(code[pc]) && pc > 0 && IsPush(code[pc - 1]) && pc - PushSize(code[pc - 1]) >= 0 then
      var dest := ToSigned64(FoldU64(code[pc - PushSize(code[pc - 1])..pc]));
      if dest < pc then Some(dest) else None
    else None
  }

  /** One iteration of the loop body, at a position inside the code. */
  function Step(code: seq<Byte>, pc: nat, a: Analysis): Analysis
    requires pc < |code|
  {
    var op := code[pc];
    var functions :=
      if IsSelectorSite(code, pc) then AddFunction(a.functions, SelectorAt(code, pc), pc) else a.functions;
    var (stack, storage) := StackEffect(code, pc, a.stack, a.storage);
    var gas := GetGasCost(op);
    var run := if op == SSTORE then a.sstoreRun + 1 else 0;
    Analysis(
      totalGas := a.totalGas + gas,
      opcodeCount := a.opcodeCount[op := Tally(a.opcodeCount, op) + 1],
      opcodeGas := a.opcodeGas[op := Tally(a.opcodeGas, op) + gas],
      stack := stack,
      storage := storage,
      loops := match JumpTarget(code, pc)
        case Some(dest) => RecordLoop(a.loops, dest, pc)
        case None => a.loops,
      functions := AddGas(functions, pc, gas),
      sstoreRun := run,
      maxSStoreRun := if run > a.maxSStoreRun then run else a.maxSStoreRun)
  }

  /** The walk from `pc` on. After the step, `pc` moves past the opcode;
      a PUSHn then also skips its n immediate bytes, unless they run past
      the end of the code (`Truncated`), which ends the loop. */
  function Walk(code: seq<Byte>, pc: nat, a: Analysis): Analysis
    decreases |code| - pc
  {
    if pc >= |code| then a
    else if Truncated(code, pc) then Step(code, pc, a)
    else Walk(code, pc + 1 + ImmediateSize(code[pc]), Step(code, pc, a))
  }


  /** AnalyzeBytecode without its printing. */
  function Analyze(code: seq<Byte>): Analysis
  {
    Walk(code, 0, Init)
  }

  /** The positions the walk decodes from `pc` on, in order. */
  function Decoded(code: seq<Byte>, pc: nat): seq<nat>
    decreases |code| - pc
  {
    if pc >= |code| then []
    else if Truncated(code, pc) then [pc]
    else [pc] + Decoded(code, pc + 1 + ImmediateSize(code[pc]))
  }

  predicate InCode(code: seq<Byte>, ps: seq<nat>)
  {
    forall i :: 0 <= i < |ps| ==> ps[i] < |code|
  }

  predicate Increasing(ps: seq<nat>)
  {
    forall i, j :: 0 <= i < j < |ps| ==> ps[i] < ps[j]
  }

  /** `Step` applied at each of `ps` in turn, starting from `a`. */
  function Replay(code: seq<Byte>, ps: seq<nat>, a: Analysis): Analysis
    requires InCode(code, ps)
    decreases |ps|
  {
    if ps == [] then a
    else Step(code, ps[|ps| - 1], Replay(code, ps[..|ps| - 1], a))
  }

  lemma {:induction false} ReplaySnoc(code: seq<Byte>, ps: seq<nat>, p: nat, a: Analysis)
    requires InCode(code, ps) && p < |code|
    ensures InCode(code, ps + [p])
    ensures Replay(code, ps + [p], a) == Step(code, p, Replay(code, ps, a))
  {
    assert (ps + [p])[..|ps|] == ps;
  }

  /** Every decoded position lies in [pc, |code|). */
  lemma {:induction false} DecodedInCode(code: seq<Byte>, pc: nat)
    ensures InCode(code, Decoded(code, pc))
    ensures forall i :: 0 <= i < |Decoded(code, pc)| ==> pc <= Decoded(code, pc)[i]
    decreases |code| - pc
  {
    if pc < |code| && !Truncated(code, pc) {
      DecodedInCode(code, pc + 1 + ImmediateSize(code[pc]));
    }
  }

  /** One turn of the loop: decode at `pc`, then either stop (truncated
      push) or continue at the next opcode. */
  lemma WalkUnfold(code: seq<Byte>, pc: nat, a: Analysis)
    requires pc < |code|
    ensures Truncated(code, pc) ==> Walk(code, pc, a) == Step(code, pc, a)
    ensures !Truncated(code, pc) ==>
      Walk(code, pc, a) == Walk(code, pc + 1 + ImmediateSize(code[pc]), Step(code, pc, a))
  {
  }

  /** One link of a walk whose step results are already known. */
  lemma WalkLink(code: seq<Byte>, pc: nat, a: Analysis, b: Analysis, next: nat)
    requires pc < |code| && !Truncated(code, pc)
    requires Step(code, pc, a) == b && next == pc + 1 + ImmediateSize(code[pc])
    ensures Walk(code, pc, a) == Walk(code, next, b)
  {
    WalkUnfold(code, pc, a);
  }

  lemma DecodedUnfold(code: seq<Byte>, pc: nat, ps: seq<nat>)
    requires pc < |code| && !Truncated(code, pc)
    ensures ps + Decoded(code, pc) == (ps + [pc]) + Decoded(code, pc + 1 + ImmediateSize(code[pc]))
  {
    assert Decoded(code, pc) == [pc] + Decoded(code, pc + 1 + ImmediateSize(code[pc]));
  }

  /** Walking from `pc` after replaying `ps` is replaying `ps` followed by
      the positions decoded from `pc`. */
  lemma {:induction false} WalkIsReplayFrom(code: seq<Byte>, pc: nat, ps: seq<nat>, a: Analysis)
    requires InCode(code, ps)
    ensures InCode(code, ps + Decoded(code, pc))
    ensures Walk(code, pc, Replay(code, ps, a)) == Replay(code, ps + Decoded(code, pc), a)
    decreases |code| - pc
  {
    DecodedInCode(code, pc);
    var b := Replay(code, ps, a);
    if pc >= |code| {
      assert ps + Decoded(code, pc) == ps;
    } else {
      ReplaySnoc(code, ps, pc, a);
      WalkUnfold(code, pc, b);
      if !Truncated(code, pc) {
        var next := pc + 1 + ImmediateSize(code[pc]);
        WalkIsReplayFrom(code, next, ps + [pc], a);
        DecodedUnfold(code, pc, ps);
      }
    }
  }

  /** The walk is the replay of its decoded positions on fresh state. */
  lemma WalkIsReplay(code: seq<Byte>)
    ensures InCode(code, Decoded(code, 0))
    ensures Analyze(code) == Replay(code, Decoded(code, 0), Init)
  {
    WalkIsReplayFrom(code, 0, [], Init);
    assert [] + Decoded(code, 0) == Decoded(code, 0);
  }
}
