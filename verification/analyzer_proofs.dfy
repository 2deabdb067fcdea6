/** What the walk of analyzer/analyzer.go computes, stated against
    independent definitions over the list of decoded positions: the decoding
    schedule itself, gas additivity, the opcode frequency and gas maps, the
    function records with their (overlapping) gas attribution, the loop
    records, the longest SSTORE run, and the per-opcode stack effects. */
module AnalyzerProofs {
  import opened Base
  import opened Opcodes
  import opened Gas
  import opened StackEngine
  import opened Storage
  import opened LoopTracker
  import opened FunctionTracker
  import opened Analyzer

  // ---------------------------------------------------------------------
  // The decoding schedule
  // ---------------------------------------------------------------------

  /** Decoded positions strictly increase. */
  lemma {:induction false} DecodedIncreasing(code: seq<Byte>, pc: nat)
    ensures Increasing(Decoded(code, pc))
    decreases |code| - pc
  {
    if pc < |code| && !Truncated(code, pc) {
      var next := pc + 1 + ImmediateSize(code[pc]);
      DecodedIncreasing(code, next);
      DecodedInCode(code, next);
      var d := Decoded(code, pc);
      assert d == [pc] + Decoded(code, next);
      forall i, j | 0 <= i < j < |d|
        ensures d[i] < d[j]
      {
        if i > 0 {
          assert d[i] == Decoded(code, next)[i - 1];
        }
        assert d[j] == Decoded(code, next)[j - 1];
      }
    }
  }

  /** Consecutive decoded positions are one opcode plus its immediate bytes
      apart, and only the last decoded opcode can be a truncated push. */
  lemma {:induction false} DecodedGaps(code: seq<Byte>, pc: nat)
    ensures var d := Decoded(code, pc);
      InCode(code, d) &&
      forall i :: 0 <= i < |d| - 1 ==>
        !Truncated(code, d[i]) && d[i + 1] == d[i] + 1 + ImmediateSize(code[d[i]])
    decreases |code| - pc
  {
    DecodedInCode(code, pc);
    if pc < |code| && !Truncated(code, pc) {
      var next := pc + 1 + ImmediateSize(code[pc]);
      DecodedGaps(code, next);
      var d := Decoded(code, pc);
      var d' := Decoded(code, next);
      assert d == [pc] + d';
      forall i | 0 <= i < |d| - 1
        ensures !Truncated(code, d[i]) && d[i + 1] == d[i] + 1 + ImmediateSize(code[d[i]])
      {
        if i > 0 {
          assert d[i] == d'[i - 1] && d[i + 1] == d'[i];
        }
      }
    }
  }

  /** The walk starts at 0 and stops only when the next opcode would start
      at or beyond the end of the code. */
  lemma {:induction false} DecodedEnds(code: seq<Byte>, pc: nat)
    ensures var d := Decoded(code, pc);
      InCode(code, d)
      && (pc < |code| ==> |d| > 0 && d[0] == pc)
      && (|d| > 0 ==> d[|d| - 1] + 1 + ImmediateSize(code[d[|d| - 1]]) >= |code|)
    decreases |code| - pc
  {
    DecodedInCode(code, pc);
    if pc < |code| && !Truncated(code, pc) {
      var next := pc + 1 + ImmediateSize(code[pc]);
      DecodedEnds(code, next);
      var d' := Decoded(code, next);
      assert Decoded(code, pc) == [pc] + d';
      if |d'| > 0 {
        assert Decoded(code, pc)[|Decoded(code, pc)| - 1] == d'[|d'| - 1];
      }
    }
  }

  /** The walk takes at most one step per byte of code. */
  lemma {:induction false} DecodedLength(code: seq<Byte>, pc: nat)
    ensures pc <= |code| ==> |Decoded(code, pc)| <= |code| - pc
    ensures pc >= |code| ==> Decoded(code, pc) == []
    decreases |code| - pc
  {
    if pc < |code| && !Truncated(code, pc) {
      DecodedLength(code, pc + 1 + ImmediateSize(code[pc]));
    }
  }

  /** The immediate bytes of a decoded PUSHn are never decoded themselves. */
  lemma ImmediatesNeverDecoded(code: seq<Byte>)
    ensures InCode(code, Decoded(code, 0))
    ensures var d := Decoded(code, 0);
      forall i, q :: 0 <= i < |d| && d[i] < q <= d[i] + ImmediateSize(code[d[i]]) ==> q !in d
  {
    var d := Decoded(code, 0);
    DecodedInCode(code, 0);
    DecodedIncreasing(code, 0);
    DecodedGaps(code, 0);
    forall i, q | 0 <= i < |d| && d[i] < q <= d[i] + ImmediateSize(code[d[i]])
      ensures q !in d
    {
      forall j | 0 <= j < |d|
        ensures d[j] != q
      {
        if j > i {
          assert d[j] >= d[i + 1];
        }
      }
    }
  }

  // ---------------------------------------------------------------------
  // Reference definitions over a list of positions
  // ---------------------------------------------------------------------

  /** Sum of the table costs of the opcodes at `ps`. */
  function CostSum(code: seq<Byte>, ps: seq<nat>): nat
    requires InCode(code, ps)
    decreases |ps|
  {
    if ps == [] then 0 else CostSum(code, ps[..|ps| - 1]) + GetGasCost(code[ps[|ps| - 1]])
  }

  /** How many of the positions `ps` hold `op`. */
  function OpTimes(code: seq<Byte>, ps: seq<nat>, op: Byte): nat
    requires InCode(code, ps)
    decreases |ps|
  {
    if ps == [] then 0
    else OpTimes(code, ps[..|ps| - 1], op) + (if code[ps[|ps| - 1]] == op then 1 else 0)
  }

  /** Sum of the table costs of the opcodes at `ps` whose value is below `k`. */
  function CostBelow(code: seq<Byte>, ps: seq<nat>, k: nat): nat
    requires InCode(code, ps)
    decreases |ps|
  {
    if ps == [] then 0
    else CostBelow(code, ps[..|ps| - 1], k) + (if code[ps[|ps| - 1]] < k then GetGasCost(code[ps[|ps| - 1]]) else 0)
  }

  /** Sum of the table costs of those of `ps` that hold `op`. */
  function OpGas(code: seq<Byte>, ps: seq<nat>, op: Byte): nat
    requires InCode(code, ps)
    decreases |ps|
  {
    if ps == [] then 0
    else OpGas(code, ps[..|ps| - 1], op) + (if code[ps[|ps| - 1]] == op then GetGasCost(op) else 0)
  }

  /** Sum of the table costs of the opcodes at those of `ps` at or after `e`. */
  function CostFrom(code: seq<Byte>, ps: seq<nat>, e: int): nat
    requires InCode(code, ps)
    decreases |ps|
  {
    if ps == [] then 0
    else CostFrom(code, ps[..|ps| - 1], e) + (if ps[|ps| - 1] >= e then GetGasCost(code[ps[|ps| - 1]]) else 0)
  }

  /** The PUSH4 positions among `ps` with four bytes after them, in order. */
  function SelectorSites(code: seq<Byte>, ps: seq<nat>): (sites: seq<nat>)
    requires InCode(code, ps)
    ensures forall i :: 0 <= i < |sites| ==> sites[i] in ps && IsSelectorSite(code, sites[i])
    decreases |ps|
  {
    if ps == [] then []
    else
      var p := ps[|ps| - 1];
      SelectorSites(code, ps[..|ps| - 1]) + (if IsSelectorSite(code, p) then [p] else [])
  }

  /** The function records expected after decoding `ps`: one per selector
      site, carrying the four bytes after it, its position, and the cost of
      every decoded opcode at or after it. */
  predicate FunctionsMatch(code: seq<Byte>, ps: seq<nat>, fs: seq<FunctionInfo>)
    requires InCode(code, ps)
  {
    var sites := SelectorSites(code, ps);
    |fs| == |sites| && forall i :: 0 <= i < |fs| ==> fs[i] == Expected(code, ps, sites[i])
  }

  /** The record expected for the selector site `e`. */
  function Expected(code: seq<Byte>, ps: seq<nat>, e: nat): FunctionInfo
    requires InCode(code, ps) && e + 5 <= |code|
  {
    FunctionInfo(SelectorAt(code, e), e, CostFrom(code, ps, e))
  }

  /** The loop records expected after decoding `ps`, each jump once. */
  function LoopsAt(code: seq<Byte>, ps: seq<nat>): (loops: seq<Loop>)
    requires InCode(code, ps)
    ensures forall j :: 0 <= j < |loops| ==>
      loops[j].endPC in ps && loops[j].count == 1
      && JumpTarget(code, loops[j].endPC) == Some(loops[j].startPC)
    decreases |ps|
  {
    if ps == [] then []
    else
      var p := ps[|ps| - 1];
      LoopsAt(code, ps[..|ps| - 1])
        + (match JumpTarget(code, p) case Some(dest) => [Loop(dest, p, 1)] case None => [])
  }

  /** Number of SSTOREs at the end of `ps`. */
  function TrailingSStores(code: seq<Byte>, ps: seq<nat>): (n: nat)
    requires InCode(code, ps)
    ensures n <= |ps|
    decreases |ps|
  {
    if ps == [] || code[ps[|ps| - 1]] != SSTORE then 0
    else TrailingSStores(code, ps[..|ps| - 1]) + 1
  }

  /** Positions i..j-1 of `ps` all hold SSTORE. */
  predicate AllSStore(code: seq<Byte>, ps: seq<nat>, i: nat, j: nat)
    requires InCode(code, ps) && i <= j <= |ps|
  {
    forall k :: i <= k < j ==> code[ps[k]] == SSTORE
  }

  /** Positions i..i+m-1 of `ps` exist and all hold SSTORE. */
  predicate RunAt(code: seq<Byte>, ps: seq<nat>, i: nat, m: nat)
    requires InCode(code, ps)
  {
    i + m <= |ps| && AllSStore(code, ps, i, i + m)
  }

  /** `m` is the longest run of consecutive SSTOREs in `ps`. */
  ghost predicate LongestSStoreRun(code: seq<Byte>, ps: seq<nat>, m: nat)
    requires InCode(code, ps)
  {
    && (exists i :: RunAt(code, ps, i, m))
    && (forall i, j :: 0 <= i <= j <= |ps| && AllSStore(code, ps, i, j) ==> j - i <= m)
  }

  /** Sum over all 256 byte values of a per-opcode map. */
  function SumByOpcode(m: map<Byte, nat>, k: nat): nat
    requires k <= 256
    decreases k
  {
    if k == 0 then 0 else SumByOpcode(m, k - 1) + Tally(m, k - 1)
  }

  // ---------------------------------------------------------------------
  // One step, field by field
  // ---------------------------------------------------------------------

  lemma StepCounters(code: seq<Byte>, p: nat, a: Analysis)
    requires p < |code|
    ensures Step(code, p, a).totalGas == a.totalGas + GetGasCost(code[p])
    ensures Step(code, p, a).opcodeCount == a.opcodeCount[code[p] := Tally(a.opcodeCount, code[p]) + 1]
    ensures Step(code, p, a).opcodeGas == a.opcodeGas[code[p] := Tally(a.opcodeGas, code[p]) + GetGasCost(code[p])]
  {
    StepTotalGas(code, p, a);
    StepOpcodeCount(code, p, a);
    StepOpcodeGas(code, p, a);
  }

  lemma StepTotalGas(code: seq<Byte>, p: nat, a: Analysis)
    requires p < |code|
    ensures Step(code, p, a).totalGas == a.totalGas + GetGasCost(code[p])
  {
  }

  lemma StepOpcodeCount(code: seq<Byte>, p: nat, a: Analysis)
    requires p < |code|
    ensures Step(code, p, a).opcodeCount == a.opcodeCount[code[p] := Tally(a.opcodeCount, code[p]) + 1]
  {
  }

  lemma StepOpcodeGas(code: seq<Byte>, p: nat, a: Analysis)
    requires p < |code|
    ensures Step(code, p, a).opcodeGas == a.opcodeGas[code[p] := Tally(a.opcodeGas, code[p]) + GetGasCost(code[p])]
  {
  }

  lemma StepFunctions(code: seq<Byte>, p: nat, a: Analysis)
    requires p < |code|
    ensures Step(code, p, a).functions ==
      AddGas(if IsSelectorSite(code, p) then AddFunction(a.functions, SelectorAt(code, p), p) else a.functions,
             p, GetGasCost(code[p]))
  {
  }

  lemma StepLoops(code: seq<Byte>, p: nat, a: Analysis)
    requires p < |code|
    ensures JumpTarget(code, p).None? ==> Step(code, p, a).loops == a.loops
    ensures JumpTarget(code, p).Some? ==>
      Step(code, p, a).loops == RecordLoop(a.loops, JumpTarget(code, p).value, p)
  {
  }

  lemma StepRun(code: seq<Byte>, p: nat, a: Analysis)
    requires p < |code|
    ensures code[p] == SSTORE ==> Step(code, p, a).sstoreRun == a.sstoreRun + 1
    ensures code[p] != SSTORE ==> Step(code, p, a).sstoreRun == 0
    ensures Step(code, p, a).maxSStoreRun ==
      (if Step(code, p, a).sstoreRun > a.maxSStoreRun then Step(code, p, a).sstoreRun else a.maxSStoreRun)
  {
  }

  lemma StepMachine(code: seq<Byte>, p: nat, a: Analysis)
    requires p < |code|
    ensures (Step(code, p, a).stack, Step(code, p, a).storage) == StackEffect(code, p, a.stack, a.storage)
  {
  }

  /** Step, field by field: a state that agrees with each field of the
      step's result is that result. */
  lemma StepIs(code: seq<Byte>, pc: nat, a: Analysis, b: Analysis)
    requires pc < |code|
    requires b.totalGas == a.totalGas + GetGasCost(code[pc])
    requires b.opcodeCount == a.opcodeCount[code[pc] := Tally(a.opcodeCount, code[pc]) + 1]
    requires b.opcodeGas == a.opcodeGas[code[pc] := Tally(a.opcodeGas, code[pc]) + GetGasCost(code[pc])]
    requires (b.stack, b.storage) == StackEffect(code, pc, a.stack, a.storage)
    requires b.loops == match JumpTarget(code, pc)
      case Some(dest) => RecordLoop(a.loops, dest, pc)
      case None => a.loops
    requires b.functions == AddGas(
      if IsSelectorSite(code, pc) then AddFunction(a.functions, SelectorAt(code, pc), pc) else a.functions,
      pc, GetGasCost(code[pc]))
    requires b.sstoreRun == if code[pc] == SSTORE then a.sstoreRun + 1 else 0
    requires b.maxSStoreRun == if b.sstoreRun > a.maxSStoreRun then b.sstoreRun else a.maxSStoreRun
    ensures Step(code, pc, a) == b
  {
    StepCounters(code, pc, a);
    StepMachine(code, pc, a);
    StepLoops(code, pc, a);
    StepFunctions(code, pc, a);
    StepRun(code, pc, a);
  }

  // ---------------------------------------------------------------------
  // Replays, field by field
  // ---------------------------------------------------------------------

  /** Gas additivity: the total is the table cost summed over the decoded
      opcodes. */
  lemma {:induction false} ReplayTotalGas(code: seq<Byte>, ps: seq<nat>, a: Analysis)
    requires InCode(code, ps)
    ensures Replay(code, ps, a).totalGas == a.totalGas + CostSum(code, ps)
    decreases |ps|
  {
    if ps != [] {
      var init := ps[..|ps| - 1];
      ReplayTotalGas(code, init, a);
      StepCounters(code, ps[|ps| - 1], Replay(code, init, a));
    }
  }

  /** Bumping one opcode's entry of a per-opcode map. */
  lemma TallyBump(m: map<Byte, nat>, x: Byte, c: nat, op: Byte)
    ensures op in m[x := Tally(m, x) + c] <==> op in m || op == x
    ensures Tally(m[x := Tally(m, x) + c], op) == Tally(m, op) + (if op == x then c else 0)
  {
  }

  lemma {:induction false} ReplayOpcodeCountAt(code: seq<Byte>, ps: seq<nat>, op: Byte)
    requires InCode(code, ps)
    ensures op in Replay(code, ps, Init).opcodeCount <==> OpTimes(code, ps, op) > 0
    ensures Tally(Replay(code, ps, Init).opcodeCount, op) == OpTimes(code, ps, op)
    decreases |ps|
  {
    if ps != [] {
      var init := ps[..|ps| - 1];
      var p := ps[|ps| - 1];
      var prev := Replay(code, init, Init);
      ReplayOpcodeCountAt(code, init, op);
      StepCounters(code, p, prev);
      TallyBump(prev.opcodeCount, code[p], 1, op);
    }
  }

  lemma {:induction false} ReplayOpcodeGasAt(code: seq<Byte>, ps: seq<nat>, op: Byte)
    requires InCode(code, ps)
    ensures op in Replay(code, ps, Init).opcodeGas <==> OpTimes(code, ps, op) > 0
    ensures Tally(Replay(code, ps, Init).opcodeGas, op) == OpGas(code, ps, op)
    decreases |ps|
  {
    if ps != [] {
      var init := ps[..|ps| - 1];
      var p := ps[|ps| - 1];
      var prev := Replay(code, init, Init);
      ReplayOpcodeGasAt(code, init, op);
      StepCounters(code, p, prev);
      TallyBump(prev.opcodeGas, code[p], GetGasCost(code[p]), op);
    }
  }

  /** The gas spent on one opcode is its cost times its frequency. */
  lemma {:induction false} OpGasIsTimesCost(code: seq<Byte>, ps: seq<nat>, op: Byte)
    requires InCode(code, ps)
    ensures OpGas(code, ps, op) == OpTimes(code, ps, op) * GetGasCost(op)
    decreases |ps|
  {
    if ps != [] {
      var init := ps[..|ps| - 1];
      OpGasIsTimesCost(code, init, op);
      var n := OpTimes(code, init, op);
      var c := GetGasCost(op);
      assert (n + 1) * c == n * c + c;
    }
  }

  /** The frequency map counts each decoded opcode, the gas map holds count
      times cost, and both have exactly the decoded opcodes as keys. */
  lemma ReplayOpcodeMaps(code: seq<Byte>, ps: seq<nat>)
    requires InCode(code, ps)
    ensures var r := Replay(code, ps, Init);
      forall op: Byte ::
        && (op in r.opcodeCount <==> OpTimes(code, ps, op) > 0)
        && (op in r.opcodeGas <==> OpTimes(code, ps, op) > 0)
        && Tally(r.opcodeCount, op) == OpTimes(code, ps, op)
        && Tally(r.opcodeGas, op) == OpTimes(code, ps, op) * GetGasCost(op)
  {
    forall op: Byte
      ensures var r := Replay(code, ps, Init);
        && (op in r.opcodeCount <==> OpTimes(code, ps, op) > 0)
        && (op in r.opcodeGas <==> OpTimes(code, ps, op) > 0)
        && Tally(r.opcodeCount, op) == OpTimes(code, ps, op)
        && Tally(r.opcodeGas, op) == OpTimes(code, ps, op) * GetGasCost(op)
    {
      ReplayOpcodeCountAt(code, ps, op);
      ReplayOpcodeGasAt(code, ps, op);
      OpGasIsTimesCost(code, ps, op);
    }
  }

  lemma {:induction false} SumByOpcodeUpdate(m: map<Byte, nat>, op: Byte, c: nat, k: nat)
    requires k <= 256
    ensures SumByOpcode(m[op := Tally(m, op) + c], k) == SumByOpcode(m, k) + (if op < k then c else 0)
    decreases k
  {
    if k > 0 {
      SumByOpcodeUpdate(m, op, c, k - 1);
    }
  }

  lemma StepGasMapSum(code: seq<Byte>, p: nat, a: Analysis, k: nat)
    requires p < |code| && k <= 256
    ensures SumByOpcode(Step(code, p, a).opcodeGas, k)
      == SumByOpcode(a.opcodeGas, k) + (if code[p] < k then GetGasCost(code[p]) else 0)
  {
    StepCounters(code, p, a);
    SumByOpcodeUpdate(a.opcodeGas, code[p], GetGasCost(code[p]), k);
  }

  /** Summed over the opcodes below any bound `k`, the gas map holds the
      cost of the decoded opcodes below `k`. */
  lemma {:induction false} ReplayGasMapSumBelow(code: seq<Byte>, ps: seq<nat>, k: nat)
    requires InCode(code, ps) && k <= 256
    ensures SumByOpcode(Replay(code, ps, Init).opcodeGas, k) == CostBelow(code, ps, k)
    decreases |ps|
  {
    if ps == [] {
      SumByOpcodeZero(k);
    } else {
      var init := ps[..|ps| - 1];
      var p := ps[|ps| - 1];
      var prev := Replay(code, init, Init);
      ReplayGasMapSumBelow(code, init, k);
      StepGasMapSum(code, p, prev, k);
    }
  }

  /** Every opcode is below 256. */
  lemma {:induction false} CostBelowAll(code: seq<Byte>, ps: seq<nat>, k: nat)
    requires InCode(code, ps) && k >= 256
    ensures CostBelow(code, ps, k) == CostSum(code, ps)
    decreases |ps|
  {
    if ps != [] {
      CostBelowAll(code, ps[..|ps| - 1], k);
    }
  }

  /** The total gas is also the sum of the per-opcode gas map. */
  lemma ReplayGasMapSum(code: seq<Byte>, ps: seq<nat>)
    requires InCode(code, ps)
    ensures Replay(code, ps, Init).totalGas == SumByOpcode(Replay(code, ps, Init).opcodeGas, 256)
  {
    ReplayTotalGas(code, ps, Init);
    ReplayGasMapSumBelow(code, ps, 256);
    CostBelowAll(code, ps, 256);
  }

  lemma {:induction false} SumByOpcodeZero(k: nat)
    requires k <= 256
    ensures SumByOpcode(map[], k) == 0
    decreases k
  {
    if k > 0 {
      SumByOpcodeZero(k - 1);
    }
  }

  // ---------------------------------------------------------------------
  // Function records
  // ---------------------------------------------------------------------

  lemma Prefix(ps: seq<nat>)
    requires Increasing(ps) && ps != []
    ensures Increasing(ps[..|ps| - 1])
    ensures LastHighest(ps)
  {
  }

  /** No position of `ps` is at or after `e`: nothing is charged from `e` on. */
  lemma {:induction false} CostFromNone(code: seq<Byte>, ps: seq<nat>, e: int)
    requires InCode(code, ps)
    requires forall i :: 0 <= i < |ps| ==> ps[i] < e
    ensures CostFrom(code, ps, e) == 0
    decreases |ps|
  {
    if ps != [] {
      CostFromNone(code, ps[..|ps| - 1], e);
    }
  }

  /** The cost from any entry point is at most the total cost. */
  lemma {:induction false} CostFromBound(code: seq<Byte>, ps: seq<nat>, e: int)
    requires InCode(code, ps)
    ensures CostFrom(code, ps, e) <= CostSum(code, ps)
    decreases |ps|
  {
    if ps != [] {
      CostFromBound(code, ps[..|ps| - 1], e);
    }
  }

  /** The last of `ps` lies after all the others. */
  predicate LastHighest(ps: seq<nat>)
  {
    ps != [] && forall k :: 0 <= k < |ps| - 1 ==> ps[k] < ps[|ps| - 1]
  }

  /** One more decoded position keeps the function records in line with
      the reference: a new record at a selector site, and the step's cost
      credited to every record, the new one included. */
  lemma FunctionsStepMatch(code: seq<Byte>, ps: seq<nat>, fs: seq<FunctionInfo>)
    requires InCode(code, ps) && LastHighest(ps)
    requires FunctionsMatch(code, ps[..|ps| - 1], fs)
    ensures var p := ps[|ps| - 1];
      FunctionsMatch(code, ps,
        AddGas(if IsSelectorSite(code, p) then AddFunction(fs, SelectorAt(code, p), p) else fs,
               p, GetGasCost(code[p])))
  {
    var p := ps[|ps| - 1];
    var c := GetGasCost(code[p]);
    var sites' := SelectorSites(code, ps);
    assert sites' == SelectorSites(code, ps[..|ps| - 1]) + (if IsSelectorSite(code, p) then [p] else []);
    var fs1 := if IsSelectorSite(code, p) then AddFunction(fs, SelectorAt(code, p), p) else fs;
    var r := AddGas(fs1, p, c);
    forall i | 0 <= i < |r|
      ensures r[i] == Expected(code, ps, sites'[i])
    {
      AddGasAt(fs1, p, c, i);
      if i < |fs| {
        assert fs1[i] == fs[i];
        StepOldRecord(code, ps, fs, i);
      } else {
        StepNewRecord(code, ps, fs);
      }
    }
  }

  /** A record already present gains the step's cost: its entry point
      precedes the new position. */
  lemma StepOldRecord(code: seq<Byte>, ps: seq<nat>, fs: seq<FunctionInfo>, i: nat)
    requires InCode(code, ps) && LastHighest(ps)
    requires FunctionsMatch(code, ps[..|ps| - 1], fs)
    requires i < |fs|
    ensures |SelectorSites(code, ps)| > i
    ensures Credit(fs[i], ps[|ps| - 1], GetGasCost(code[ps[|ps| - 1]]))
      == Expected(code, ps, SelectorSites(code, ps)[i])
  {
    var init := ps[..|ps| - 1];
    var p := ps[|ps| - 1];
    var sites := SelectorSites(code, init);
    assert SelectorSites(code, ps) == sites + (if IsSelectorSite(code, p) then [p] else []);
    var e := sites[i];
    assert e in init;
    assert CostFrom(code, ps, e) == CostFrom(code, init, e) + GetGasCost(code[p]);
  }

  /** The record a selector site adds holds exactly that opcode's cost. */
  lemma StepNewRecord(code: seq<Byte>, ps: seq<nat>, fs: seq<FunctionInfo>)
    requires InCode(code, ps) && LastHighest(ps)
    requires FunctionsMatch(code, ps[..|ps| - 1], fs)
    requires IsSelectorSite(code, ps[|ps| - 1])
    ensures |SelectorSites(code, ps)| == |fs| + 1
    ensures var p := ps[|ps| - 1];
      Credit(FunctionInfo(SelectorAt(code, p), p, 0), p, GetGasCost(code[p]))
      == Expected(code, ps, SelectorSites(code, ps)[|fs|])
  {
    var init := ps[..|ps| - 1];
    var p := ps[|ps| - 1];
    assert SelectorSites(code, ps) == SelectorSites(code, init) + [p];
    CostFromNone(code, init, p);
  }



  /** Over increasing positions, the function records are exactly the
      selector sites in order, each with the cost of every position at or
      after it. */
  lemma {:induction false} ReplayFunctions(code: seq<Byte>, ps: seq<nat>)
    requires InCode(code, ps) && Increasing(ps)
    ensures FunctionsMatch(code, ps, Replay(code, ps, Init).functions)
    decreases |ps|
  {
    if ps != [] {
      var init := ps[..|ps| - 1];
      var p := ps[|ps| - 1];
      var prev := Replay(code, init, Init);
      Prefix(ps);
      ReplayFunctions(code, init);
      StepFunctions(code, p, prev);
      FunctionsStepMatch(code, ps, prev.functions);
    }
  }

  // ---------------------------------------------------------------------
  // Loop records
  // ---------------------------------------------------------------------

  /** A pair is among the expected records exactly when its end is one of
      the positions and the heuristic reports its start there. */
  lemma {:induction false} LoopsAtMembership(code: seq<Byte>, ps: seq<nat>, start: int, end: int)
    requires InCode(code, ps)
    ensures Loop(start, end, 1) in LoopsAt(code, ps) <==> end in ps && JumpTarget(code, end) == Some(start)
    decreases |ps|
  {
    if ps != [] {
      var init := ps[..|ps| - 1];
      LoopsAtMembership(code, init, start, end);
      assert ps == init + [ps[|ps| - 1]];
    }
  }

  /** A jump past every recorded end point is always a new record. */
  lemma LoopsStep(code: seq<Byte>, ps: seq<nat>, dest: int)
    requires InCode(code, ps) && Increasing(ps) && ps != []
    requires JumpTarget(code, ps[|ps| - 1]) == Some(dest)
    ensures RecordLoop(LoopsAt(code, ps[..|ps| - 1]), dest, ps[|ps| - 1]) == LoopsAt(code, ps)
  {
    var init := ps[..|ps| - 1];
    var p := ps[|ps| - 1];
    var loops := LoopsAt(code, init);
    Prefix(ps);
    forall j | 0 <= j < |loops|
      ensures !Matches(loops[j], dest, p)
    {
      assert loops[j].endPC in init;
    }
    FindLoopIsFirst(loops, dest, p, |loops|);
  }

  /** Over increasing positions, the loop records are the reported jumps in
      order, each with count 1: no position is decoded twice, so no pair is
      ever met again within one walk. */
  lemma {:induction false} ReplayLoops(code: seq<Byte>, ps: seq<nat>)
    requires InCode(code, ps) && Increasing(ps)
    ensures Replay(code, ps, Init).loops == LoopsAt(code, ps)
    decreases |ps|
  {
    if ps != [] {
      var init := ps[..|ps| - 1];
      var p := ps[|ps| - 1];
      var prev := Replay(code, init, Init);
      Prefix(ps);
      ReplayLoops(code, init);
      StepLoops(code, p, prev);
      match JumpTarget(code, p)
      case None =>
      case Some(dest) => LoopsStep(code, ps, dest);
    }
  }

  // ---------------------------------------------------------------------
  // SSTORE runs
  // ---------------------------------------------------------------------

  /** The longest run of SSTOREs in `ps`, by recursion on its last position. */
  function MaxRun(code: seq<Byte>, ps: seq<nat>): nat
    requires InCode(code, ps)
    decreases |ps|
  {
    if ps == [] then 0
    else
      var m := MaxRun(code, ps[..|ps| - 1]);
      var t := TrailingSStores(code, ps);
      if t > m then t else m
  }

  /** The trailing SSTOREs form a run ending at the last position. */
  lemma {:induction false} TrailingIsRun(code: seq<Byte>, ps: seq<nat>)
    requires InCode(code, ps)
    ensures RunAt(code, ps, |ps| - TrailingSStores(code, ps), TrailingSStores(code, ps))
    decreases |ps|
  {
    if ps != [] && code[ps[|ps| - 1]] == SSTORE {
      var init := ps[..|ps| - 1];
      TrailingIsRun(code, init);
      assert forall k :: |ps| - TrailingSStores(code, ps) <= k < |ps| - 1 ==> ps[k] == init[k];
    }
  }

  /** A run ending at the last position is no longer than the trailing one. */
  lemma {:induction false} WindowAtEnd(code: seq<Byte>, ps: seq<nat>, i: nat)
    requires InCode(code, ps) && i <= |ps| && AllSStore(code, ps, i, |ps|)
    ensures |ps| - i <= TrailingSStores(code, ps)
    decreases |ps|
  {
    if i < |ps| {
      var init := ps[..|ps| - 1];
      assert code[ps[|ps| - 1]] == SSTORE;
      assert forall k :: i <= k < |init| ==> init[k] == ps[k];
      WindowAtEnd(code, init, i);
    }
  }

  /** MaxRun is the longest run: one of that length exists, and none is longer. */
  lemma {:induction false} MaxRunIsLongest(code: seq<Byte>, ps: seq<nat>)
    requires InCode(code, ps)
    ensures LongestSStoreRun(code, ps, MaxRun(code, ps))
    decreases |ps|
  {
    if ps == [] {
      assert RunAt(code, ps, 0, 0);
    } else {
      var init := ps[..|ps| - 1];
      var m := MaxRun(code, init);
      var t := TrailingSStores(code, ps);
      MaxRunIsLongest(code, init);
      TrailingIsRun(code, ps);
      if t <= m {
        var i :| RunAt(code, init, i, m);
        assert forall k :: i <= k < i + m ==> init[k] == ps[k];
        assert RunAt(code, ps, i, m);
      }
      forall i, j | 0 <= i <= j <= |ps| && AllSStore(code, ps, i, j)
        ensures j - i <= MaxRun(code, ps)
      {
        if j == |ps| {
          WindowAtEnd(code, ps, i);
        } else {
          assert forall k :: i <= k < j ==> init[k] == ps[k];
          assert AllSStore(code, init, i, j);
        }
      }
    }
  }

  /** The running counter is the number of trailing SSTOREs and the maximum
      is the longest run. */
  lemma {:induction false} ReplaySStoreRun(code: seq<Byte>, ps: seq<nat>)
    requires InCode(code, ps)
    ensures Replay(code, ps, Init).sstoreRun == TrailingSStores(code, ps)
    ensures Replay(code, ps, Init).maxSStoreRun == MaxRun(code, ps)
    decreases |ps|
  {
    if ps != [] {
      var init := ps[..|ps| - 1];
      var p := ps[|ps| - 1];
      var prev := Replay(code, init, Init);
      ReplaySStoreRun(code, init);
      StepRun(code, p, prev);
    }
  }

  // ---------------------------------------------------------------------
  // Stack and storage effects of one step
  // ---------------------------------------------------------------------

  /** A complete PUSHn pushes the big-endian value of its n bytes modulo
      2^64; a truncated one leaves stack and storage as they were. Either
      way the push is counted and charged. */
  lemma PushEffect(code: seq<Byte>, p: nat, a: Analysis)
    requires p < |code| && IsPush(code[p])
    ensures !Truncated(code, p) ==>
      Step(code, p, a).stack == a.stack + [BigEndian(PushOperand(code, p)) % TWO_64]
    ensures Truncated(code, p) ==> Step(code, p, a).stack == a.stack
    ensures Step(code, p, a).storage == a.storage
    ensures Step(code, p, a).totalGas == a.totalGas + 3
    ensures Tally(Step(code, p, a).opcodeCount, code[p]) == Tally(a.opcodeCount, code[p]) + 1
  {
    StepMachine(code, p, a);
    StepCounters(code, p, a);
    StackShapeOpcodesCostThree(code[p]);
    if !Truncated(code, p) {
      FoldU64IsBigEndianMod(PushOperand(code, p));
    }
  }

  /** POP drops the top element, and on an empty stack does nothing. */
  lemma PopEffect(code: seq<Byte>, p: nat, a: Analysis)
    requires p < |code| && code[p] == POP
    ensures |a.stack| > 0 ==> Step(code, p, a).stack == a.stack[..|a.stack| - 1]
    ensures |a.stack| == 0 ==> Step(code, p, a).stack == []
    ensures Step(code, p, a).storage == a.storage
  {
    StepMachine(code, p, a);
    if |a.stack| > 0 {
      assert Pop(a.stack).1 == (Pop(a.stack).1 + [Pop(a.stack).0])[..|a.stack| - 1];
    }
  }

  /** DUPn pushes a copy of the element n - 1 below the top (0 when there
      is none). */
  lemma DupEffect(code: seq<Byte>, p: nat, a: Analysis)
    requires p < |code| && IsDup(code[p])
    ensures Step(code, p, a).stack == a.stack + [Peek(a.stack, DupDepth(code[p]) - 1)]
    ensures Step(code, p, a).storage == a.storage
  {
    StepMachine(code, p, a);
    var r := Step(code, p, a).stack;
    assert r == r[..|a.stack|] + [r[|a.stack|]];
  }

  /** SWAPn exchanges the top and the element n below it when there is
      one, and is the identity otherwise. */
  lemma SwapEffect(code: seq<Byte>, p: nat, a: Analysis)
    requires p < |code| && IsSwap(code[p])
    ensures var n := SwapDepth(code[p]); var s := a.stack;
      |s| > n ==> Step(code, p, a).stack == s[|s| - 1 - n := s[|s| - 1]][|s| - 1 := s[|s| - 1 - n]]
    ensures |a.stack| <= SwapDepth(code[p]) ==> Step(code, p, a).stack == a.stack
    ensures Step(code, p, a).storage == a.storage
  {
    StepMachine(code, p, a);
    var n := SwapDepth(code[p]);
    var s := a.stack;
    if |s| > n {
      var r := Step(code, p, a).stack;
      var e := s[|s| - 1 - n := s[|s| - 1]][|s| - 1 := s[|s| - 1 - n]];
      assert forall i :: 0 <= i < |s| ==> r[i] == e[i];
    }
  }

  /** SLOAD pops the slot (0 on an empty stack), pushes 0 in place of the
      loaded value, and counts one read of that slot and nothing else. */
  lemma SLoadEffect(code: seq<Byte>, p: nat, a: Analysis)
    requires p < |code| && code[p] == SLOAD
    ensures var s := a.stack;
      Step(code, p, a).stack == (if |s| > 0 then s[..|s| - 1] else []) + [0]
    ensures var slot := Peek(a.stack, 0);
      && ReadCount(Step(code, p, a).storage, slot) == ReadCount(a.storage, slot) + 1
      && (forall other :: other != slot ==>
            ReadCount(Step(code, p, a).storage, other) == ReadCount(a.storage, other))
      && Step(code, p, a).storage.sstoreCount == a.storage.sstoreCount
  {
    StepMachine(code, p, a);
    var s := a.stack;
    if |s| > 0 {
      assert Pop(s).1 == (Pop(s).1 + [Pop(s).0])[..|s| - 1];
      assert Pop(s).0 == (Pop(s).1 + [Pop(s).0])[|s| - 1];
    }
  }

  /** SSTORE pops the slot, then the value (0 for each missing one), and
      counts one write of the slot and nothing else. */
  lemma SStoreEffect(code: seq<Byte>, p: nat, a: Analysis)
    requires p < |code| && code[p] == SSTORE
    ensures var s := a.stack;
      Step(code, p, a).stack == if |s| >= 2 then s[..|s| - 2] else []
    ensures var slot := Peek(a.stack, 0);
      && WriteCount(Step(code, p, a).storage, slot) == WriteCount(a.storage, slot) + 1
      && (forall other :: other != slot ==>
            WriteCount(Step(code, p, a).storage, other) == WriteCount(a.storage, other))
      && Step(code, p, a).storage.sloadCount == a.storage.sloadCount
  {
    StepMachine(code, p, a);
    var s := a.stack;
    if |s| > 0 {
      var rest := Pop(s).1;
      assert rest == (rest + [Pop(s).0])[..|s| - 1];
      assert Pop(s).0 == (rest + [Pop(s).0])[|s| - 1];
      if |rest| > 0 {
        assert Pop(rest).1 == (Pop(rest).1 + [Pop(rest).0])[..|rest| - 1];
        assert s[..|s| - 2] == rest[..|rest| - 1];
      }
    }
  }

  /** Every other opcode leaves the stack and the storage counters alone. */
  lemma OtherEffect(code: seq<Byte>, p: nat, a: Analysis)
    requires p < |code|
    requires !IsPush(code[p]) && !IsDup(code[p]) && !IsSwap(code[p])
    requires code[p] !in {POP, SLOAD, SSTORE}
    ensures Step(code, p, a).stack == a.stack && Step(code, p, a).storage == a.storage
  {
    StepMachine(code, p, a);
  }

  // ---------------------------------------------------------------------
  // The backward-jump heuristic
  // ---------------------------------------------------------------------

  /** A jump at `jpc` is reported exactly when it is a JUMP or JUMPI, the
      byte before it lies in the PUSH range with some size n, the n bytes
      ending just before `jpc` fit in the code, and their big-endian value,
      cut to 64 bits and read as a signed integer, is below `jpc`. */
  lemma JumpTargetSpec(code: seq<Byte>, jpc: nat, dest: int)
    requires jpc < |code|
    ensures JumpTarget(code, jpc) == Some(dest) <==>
      && IsJump(code[jpc])
      && jpc > 0
      && IsPush(code[jpc - 1])
      && jpc - PushSize(code[jpc - 1]) >= 0
      && dest == ToSigned64(BigEndian(code[jpc - PushSize(code[jpc - 1])..jpc]) % TWO_64)
      && dest < jpc
  {
    if jpc > 0 && IsPush(code[jpc - 1]) && jpc - PushSize(code[jpc - 1]) >= 0 {
      FoldU64IsBigEndianMod(code[jpc - PushSize(code[jpc - 1])..jpc]);
    }
  }

  /** With fewer than eight bytes the destination is the plain big-endian
      value, so it is reported exactly when that value is below `jpc`. */
  lemma ShortJumpTarget(code: seq<Byte>, jpc: nat)
    requires jpc < |code| && IsJump(code[jpc]) && jpc > 0 && IsPush(code[jpc - 1])
    requires PushSize(code[jpc - 1]) <= 7 && jpc - PushSize(code[jpc - 1]) >= 0
    ensures var v := BigEndian(code[jpc - PushSize(code[jpc - 1])..jpc]);
      JumpTarget(code, jpc) == if v < jpc then Some(v) else None
  {
    ShortOperandIsExact(code[jpc - PushSize(code[jpc - 1])..jpc]);
  }

  // ---------------------------------------------------------------------
  // The whole walk
  // ---------------------------------------------------------------------

  /** Gas additivity: the total is the table cost summed over the decoded
      opcodes, and also the sum of the per-opcode gas map. */
  lemma AnalyzeGas(code: seq<Byte>)
    ensures InCode(code, Decoded(code, 0))
    ensures Analyze(code).totalGas == CostSum(code, Decoded(code, 0))
    ensures Analyze(code).totalGas == SumByOpcode(Analyze(code).opcodeGas, 256)
  {
    var d := Decoded(code, 0);
    WalkIsReplay(code);
    ReplayTotalGas(code, d, Init);
    ReplayGasMapSum(code, d);
  }

  /** The frequency map counts each decoded opcode, the gas map holds its
      frequency times its cost, and the keys of both are exactly the opcodes
      that were decoded. */
  lemma AnalyzeOpcodeMaps(code: seq<Byte>, op: Byte)
    ensures InCode(code, Decoded(code, 0))
    ensures var d := Decoded(code, 0);
      && (op in Analyze(code).opcodeCount <==> OpTimes(code, d, op) > 0)
      && (op in Analyze(code).opcodeGas <==> OpTimes(code, d, op) > 0)
      && Tally(Analyze(code).opcodeCount, op) == OpTimes(code, d, op)
      && Tally(Analyze(code).opcodeGas, op) == OpTimes(code, d, op) * GetGasCost(op)
  {
    var d := Decoded(code, 0);
    WalkIsReplay(code);
    ReplayOpcodeCountAt(code, d, op);
    ReplayOpcodeGasAt(code, d, op);
    OpGasIsTimesCost(code, d, op);
  }

  /** One function record per decoded PUSH4 with four bytes after it, in
      encounter order, each with the cost of every decoded opcode from its
      entry point on, and so never more than the total. */
  lemma AnalyzeFunctions(code: seq<Byte>)
    ensures InCode(code, Decoded(code, 0))
    ensures FunctionsMatch(code, Decoded(code, 0), Analyze(code).functions)
    ensures forall i :: 0 <= i < |Analyze(code).functions| ==>
      Analyze(code).functions[i].gas <= Analyze(code).totalGas
  {
    var d := Decoded(code, 0);
    WalkIsReplay(code);
    DecodedIncreasing(code, 0);
    ReplayFunctions(code, d);
    ReplayTotalGas(code, d, Init);
    var fs := Analyze(code).functions;
    var sites := SelectorSites(code, d);
    forall i | 0 <= i < |fs|
      ensures fs[i].gas <= Analyze(code).totalGas
    {
      assert fs[i] == Expected(code, d, sites[i]);
      CostFromBound(code, d, sites[i]);
    }
  }

  /** One loop record per decoded jump the heuristic reports, in order,
      each with count 1; a record (s, e) is present exactly when e is a
      decoded position whose jump target is s. */
  lemma AnalyzeLoops(code: seq<Byte>)
    ensures InCode(code, Decoded(code, 0))
    ensures Analyze(code).loops == LoopsAt(code, Decoded(code, 0))
    ensures forall l :: l in Analyze(code).loops ==> l.count == 1
    ensures forall start, end ::
      Loop(start, end, 1) in Analyze(code).loops
      <==> end in Decoded(code, 0) && JumpTarget(code, end) == Some(start)
  {
    var d := Decoded(code, 0);
    WalkIsReplay(code);
    DecodedIncreasing(code, 0);
    ReplayLoops(code, d);
    forall start, end
      ensures Loop(start, end, 1) in LoopsAt(code, d) <==> end in d && JumpTarget(code, end) == Some(start)
    {
      LoopsAtMembership(code, d, start, end);
    }
  }

  /** The reported maximum is the longest run of consecutively decoded
      SSTOREs. */
  lemma AnalyzeSStoreRun(code: seq<Byte>)
    ensures InCode(code, Decoded(code, 0))
    ensures LongestSStoreRun(code, Decoded(code, 0), Analyze(code).maxSStoreRun)
  {
    var d := Decoded(code, 0);
    WalkIsReplay(code);
    ReplaySStoreRun(code, d);
    MaxRunIsLongest(code, d);
  }
}
