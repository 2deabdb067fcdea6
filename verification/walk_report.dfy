/** What analyzer/analyzer.go reports once the walk is over, and how the
    advice of analyzer/reporter.go reads when it is fed the walk's own
    results: the consecutive-SSTORE notice, the storage hotspot lists, the
    storage totals, and which suggestions a walk can and cannot produce. */
module WalkReport {
  import opened Base
  import opened Opcodes
  import opened Gas
  import opened StackEngine
  import opened Storage
  import opened LoopTracker
  import opened MapOrder
  import opened Analyzer
  import opened AnalyzerProofs
  import Reporter

  /** A longer run than this of consecutive SSTOREs earns the packing notice. */
  const PACKING_RUN: nat := 1
  /** A slot written more often than this is a write hotspot. */
  const WRITE_HOTSPOT: nat := 1
  /** A slot read more often than this is a repeated read. */
  const REPEATED_READ: nat := 2

  /** The consecutive-SSTORE notice: the run length, when it is worth
      printing. */
  function PackingNotice(a: Analysis): (r: Option<nat>)
    ensures r.Some? <==> a.maxSStoreRun > PACKING_RUN
    ensures r.Some? ==> r.value == a.maxSStoreRun
  {
    if a.maxSStoreRun > PACKING_RUN then Some(a.maxSStoreRun) else None
  }

  /** The slots of a counter map, in the range loop's visiting order, whose
      count is above `threshold`, each with its count. */
  function Hotspots(m: map<U64, nat>, order: seq<U64>, threshold: nat): (r: seq<(U64, nat)>)
    requires forall i :: 0 <= i < |order| ==> order[i] in m
    ensures |r| <= |order|
    ensures forall slot, n :: (slot, n) in r <==> slot in order && Count(m, slot) == n && n > threshold
    decreases |order|
  {
    if order == [] then []
    else
      var slot := order[|order| - 1];
      Hotspots(m, order[..|order| - 1], threshold)
      + (if m[slot] > threshold then [(slot, m[slot])] else [])
  }

  /** The lists printed after the walk, for one choice of map visiting
      orders. */
  datatype WalkSummary = WalkSummary(
    packing: Option<nat>,
    writeHotspots: seq<(U64, nat)>,
    repeatedReads: seq<(U64, nat)>,
    loops: seq<Loop>)

  function Summarize(code: seq<Byte>, writeOrder: seq<U64>, readOrder: seq<U64>): (r: WalkSummary)
    requires Enumerates(writeOrder, Analyze(code).storage.sstoreCount.Keys)
    requires Enumerates(readOrder, Analyze(code).storage.sloadCount.Keys)
  {
    var a := Analyze(code);
    WalkSummary(
      PackingNotice(a),
      Hotspots(a.storage.sstoreCount, writeOrder, WRITE_HOTSPOT),
      Hotspots(a.storage.sloadCount, readOrder, REPEATED_READ),
      a.loops)
  }

  /** The notice appears exactly when two or more SSTOREs are decoded back
      to back, and then names the longest such run. */
  lemma SummaryPacking(code: seq<Byte>, writeOrder: seq<U64>, readOrder: seq<U64>)
    requires Enumerates(writeOrder, Analyze(code).storage.sstoreCount.Keys)
    requires Enumerates(readOrder, Analyze(code).storage.sloadCount.Keys)
    ensures InCode(code, Decoded(code, 0))
    ensures var p := Summarize(code, writeOrder, readOrder).packing;
      && (p.Some? ==> p.value > PACKING_RUN && LongestSStoreRun(code, Decoded(code, 0), p.value))
      && (p.None? ==> forall i, j :: 0 <= i <= j <= |Decoded(code, 0)| && AllSStore(code, Decoded(code, 0), i, j)
                        ==> j - i <= PACKING_RUN)
  {
    AnalyzeSStoreRun(code);
  }

  /** A slot is listed as a write hotspot, with its count, exactly when the
      walk counted more than one SSTORE to it; likewise a repeated read for
      more than two SLOADs. Whatever the visiting order, no slot is missed. */
  lemma SummaryHotspots(code: seq<Byte>, writeOrder: seq<U64>, readOrder: seq<U64>, slot: U64, n: nat)
    requires Enumerates(writeOrder, Analyze(code).storage.sstoreCount.Keys)
    requires Enumerates(readOrder, Analyze(code).storage.sloadCount.Keys)
    ensures var s := Summarize(code, writeOrder, readOrder);
      && ((slot, n) in s.writeHotspots <==> WriteCount(Analyze(code).storage, slot) == n && n > WRITE_HOTSPOT)
      && ((slot, n) in s.repeatedReads <==> ReadCount(Analyze(code).storage, slot) == n && n > REPEATED_READ)
  {
  }

  // ---------------------------------------------------------------------
  // Storage totals
  // ---------------------------------------------------------------------

  /** One step adds one to the total of the read counters on an SLOAD and
      leaves it alone otherwise. */
  lemma StepReadTotal(code: seq<Byte>, p: nat, a: Analysis)
    requires p < |code|
    ensures Total(Step(code, p, a).storage.sloadCount) == Total(a.storage.sloadCount) + (if code[p] == SLOAD then 1 else 0)
  {
    StepMachine(code, p, a);
    var m := a.storage.sloadCount;
    if code[p] == SLOAD {
      var slot := Pop(a.stack).0;
      assert Step(code, p, a).storage.sloadCount == m[slot := Count(m, slot) + 1];
      TotalBump(m, slot, Count(m, slot));
    } else {
      assert Step(code, p, a).storage.sloadCount == m;
    }
  }

  /** One step adds one to the total of the write counters on an SSTORE and
      leaves it alone otherwise. */
  lemma StepWriteTotal(code: seq<Byte>, p: nat, a: Analysis)
    requires p < |code|
    ensures Total(Step(code, p, a).storage.sstoreCount) == Total(a.storage.sstoreCount) + (if code[p] == SSTORE then 1 else 0)
  {
    StepMachine(code, p, a);
    var m := a.storage.sstoreCount;
    if code[p] == SSTORE {
      var slot := Pop(a.stack).0;
      assert Step(code, p, a).storage.sstoreCount == m[slot := Count(m, slot) + 1];
      TotalBump(m, slot, Count(m, slot));
    } else {
      assert Step(code, p, a).storage.sstoreCount == m;
    }
  }

  lemma {:induction false} ReplayStorageTotals(code: seq<Byte>, ps: seq<nat>)
    requires InCode(code, ps)
    ensures Total(Replay(code, ps, Init).storage.sloadCount) == OpTimes(code, ps, SLOAD)
    ensures Total(Replay(code, ps, Init).storage.sstoreCount) == OpTimes(code, ps, SSTORE)
    decreases |ps|
  {
    if ps != [] {
      var init := ps[..|ps| - 1];
      var p := ps[|ps| - 1];
      ReplayStorageTotals(code, init);
      StepReadTotal(code, p, Replay(code, init, Init));
      StepWriteTotal(code, p, Replay(code, init, Init));
    }
  }

  /** Every decoded SLOAD is one read of some slot and every decoded SSTORE
      one write: the per-slot counters add up to the opcode counts. */
  lemma AnalyzeStorageTotals(code: seq<Byte>)
    ensures InCode(code, Decoded(code, 0))
    ensures Total(Analyze(code).storage.sloadCount) == OpTimes(code, Decoded(code, 0), SLOAD)
    ensures Total(Analyze(code).storage.sstoreCount) == OpTimes(code, Decoded(code, 0), SSTORE)
  {
    WalkIsReplay(code);
    ReplayStorageTotals(code, Decoded(code, 0));
  }

  // ---------------------------------------------------------------------
  // Suggestions for a walk
  // ---------------------------------------------------------------------

  /** A loop list with no count above the threshold yields no hot loop. */
  lemma {:induction false} NoHotLoops(loops: seq<Loop>)
    requires forall i :: 0 <= i < |loops| ==> loops[i].count <= Reporter.HOT_LOOP_COUNT
    ensures Reporter.HotLoops(loops) == []
    decreases |loops|
  {
    if loops != [] {
      NoHotLoops(loops[1..]);
    }
  }

  /** Fed the walk's own results, the suggestions never include a hot loop:
      each loop record of a walk has count 1. */
  lemma WalkHasNoHotLoops(code: seq<Byte>, readOrder: seq<U64>)
    requires Enumerates(readOrder, Analyze(code).storage.sloadCount.Keys)
    ensures var a := Analyze(code);
      Reporter.HotLoopsIn(Reporter.GenerateOptimizationSuggestions(a.storage, a.loops, a.opcodeGas, readOrder)) == []
  {
    var a := Analyze(code);
    AnalyzeLoops(code);
    assert forall i :: 0 <= i < |a.loops| ==> a.loops[i] in a.loops;
    NoHotLoops(a.loops);
    Reporter.LoopAdvice(a.storage, a.loops, a.opcodeGas, readOrder);
  }

  /** Fed the walk's own results, the suggestions warn about SSTORE exactly
      when more than five SSTOREs were decoded: 20000 gas each against a
      threshold of 100000. */
  lemma WalkSStoreWarning(code: seq<Byte>, readOrder: seq<U64>)
    requires Enumerates(readOrder, Analyze(code).storage.sloadCount.Keys)
    ensures InCode(code, Decoded(code, 0))
    ensures var a := Analyze(code);
      Reporter.HighSStore in Reporter.GenerateOptimizationSuggestions(a.storage, a.loops, a.opcodeGas, readOrder)
      <==> OpTimes(code, Decoded(code, 0), SSTORE) > 5
  {
    var a := Analyze(code);
    Reporter.WarningAdvice(a.storage, a.loops, a.opcodeGas, readOrder);
    AnalyzeOpcodeMaps(code, SSTORE);
    assert GetGasCost(SSTORE) == 20000;
  }

  /** Fed the walk's own results, the suggestions warn about SLOAD exactly
      when more than five hundred SLOADs were decoded: 100 gas each against
      a threshold of 50000. */
  lemma WalkSLoadWarning(code: seq<Byte>, readOrder: seq<U64>)
    requires Enumerates(readOrder, Analyze(code).storage.sloadCount.Keys)
    ensures InCode(code, Decoded(code, 0))
    ensures var a := Analyze(code);
      Reporter.HighSLoad in Reporter.GenerateOptimizationSuggestions(a.storage, a.loops, a.opcodeGas, readOrder)
      <==> OpTimes(code, Decoded(code, 0), SLOAD) > 500
  {
    var a := Analyze(code);
    Reporter.WarningAdvice(a.storage, a.loops, a.opcodeGas, readOrder);
    AnalyzeOpcodeMaps(code, SLOAD);
    assert GetGasCost(SLOAD) == 100;
  }
}
