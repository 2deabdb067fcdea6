/** The heuristics run after the walk: topExpensiveOpcodes
    (analyzer/analyzer.go), GenerateOptimizationSuggestions and
    GetTopExpensiveFunctions (analyzer/reporter.go). Suggestions are kept as
    a datatype and rendered to the strings the Go code formats by `Render`. */
module Reporter {
  import opened Base
  import opened Opcodes
  import opened Storage
  import opened LoopTracker
  import opened FunctionTracker
  import opened MapOrder
  import opened Ranking
  import opened Text

  // ---------------------------------------------------------------------
  // topExpensiveOpcodes
  // ---------------------------------------------------------------------

  /** An opcode and the gas charged to it (`opGasPair`). */
  datatype OpGasPair = OpGasPair(op: Byte, gas: nat)

  function PairGas(p: OpGasPair): nat
  {
    p.gas
  }

  /** The pairs the range over the gas map appends, in visiting order. */
  function Pairs(opcodeGas: map<Byte, nat>, order: seq<Byte>): (ps: seq<OpGasPair>)
    requires forall i :: 0 <= i < |order| ==> order[i] in opcodeGas
    ensures |ps| == |order|
    ensures forall i :: 0 <= i < |ps| ==> ps[i] == OpGasPair(order[i], opcodeGas[order[i]])
    decreases |order|
  {
    if order == [] then []
    else Pairs(opcodeGas, order[..|order| - 1]) + [OpGasPair(order[|order| - 1], opcodeGas[order[|order| - 1]])]
  }

  /** Some pair of `r` is for `op`. */
  predicate Listed(r: seq<OpGasPair>, op: Byte)
  {
    exists k :: 0 <= k < |r| && r[k].op == op
  }

  /** The `topN` opcodes with the most gas, as (opcode, gas) pairs taken from
      the map, most expensive first; `order` is the order the range over the
      map visits its keys in, which only decides the order among equal gas. */
  function TopExpensiveOpcodes(opcodeGas: map<Byte, nat>, order: seq<Byte>, topN: nat): (r: seq<OpGasPair>)
    requires Enumerates(order, opcodeGas.Keys)
    ensures |r| == Min(topN, |opcodeGas|)
    ensures forall i :: 0 <= i < |r| ==> r[i].op in opcodeGas && r[i].gas == opcodeGas[r[i].op]
    ensures forall i, j :: 0 <= i < j < |r| ==> r[i].op != r[j].op
    ensures forall i, j :: 0 <= i < j < |r| ==> r[i].gas >= r[j].gas
    ensures forall op, i :: op in opcodeGas && !Listed(r, op) && 0 <= i < |r| ==> opcodeGas[op] <= r[i].gas
  {
    TopOpcodesFacts(opcodeGas, order, topN);
    TopOpcodesLargest(opcodeGas, order, topN);
    TopN(Pairs(opcodeGas, order), PairGas, topN)
  }

  lemma TopOpcodesFacts(opcodeGas: map<Byte, nat>, order: seq<Byte>, topN: nat)
    requires Enumerates(order, opcodeGas.Keys)
    ensures var r := TopN(Pairs(opcodeGas, order), PairGas, topN);
      && |r| == Min(topN, |opcodeGas|)
      && (forall i :: 0 <= i < |r| ==> r[i].op in opcodeGas && r[i].gas == opcodeGas[r[i].op])
      && (forall i, j :: 0 <= i < j < |r| ==> r[i].op != r[j].op)
  {
    var ps := Pairs(opcodeGas, order);
    var r := TopN(ps, PairGas, topN);
    EnumerationSize(order, opcodeGas.Keys);
    assert |opcodeGas| == |opcodeGas.Keys|;
    PicksFromMap(opcodeGas, order, r);
    PicksDistinct(opcodeGas, order, r);
  }

  lemma TopOpcodesLargest(opcodeGas: map<Byte, nat>, order: seq<Byte>, topN: nat)
    requires Enumerates(order, opcodeGas.Keys)
    ensures var r := TopN(Pairs(opcodeGas, order), PairGas, topN);
      forall op, i :: op in opcodeGas && !Listed(r, op) && 0 <= i < |r| ==> opcodeGas[op] <= r[i].gas
  {
    var ps := Pairs(opcodeGas, order);
    assert forall p :: PairGas(p) == p.gas;
    TopNKeepsLargest(ps, PairGas, topN);
    PicksLargest(opcodeGas, order, TopN(ps, PairGas, topN), PairGas);
  }

  /** Pairs drawn from the visited pairs carry the map's gas. */
  lemma PicksFromMap(opcodeGas: map<Byte, nat>, order: seq<Byte>, r: seq<OpGasPair>)
    requires Enumerates(order, opcodeGas.Keys)
    requires multiset(r) <= multiset(Pairs(opcodeGas, order))
    ensures forall i :: 0 <= i < |r| ==> r[i].op in opcodeGas && r[i].gas == opcodeGas[r[i].op]
  {
    var ps := Pairs(opcodeGas, order);
    forall i | 0 <= i < |r| ensures r[i].op in opcodeGas && r[i].gas == opcodeGas[r[i].op] {
      assert r[i] in multiset(ps);
    }
  }

  /** Since the range visits each key once, no opcode is picked twice. */
  lemma PicksDistinct(opcodeGas: map<Byte, nat>, order: seq<Byte>, r: seq<OpGasPair>)
    requires Enumerates(order, opcodeGas.Keys)
    requires multiset(r) <= multiset(Pairs(opcodeGas, order))
    requires forall i :: 0 <= i < |r| ==> r[i].op in opcodeGas && r[i].gas == opcodeGas[r[i].op]
    ensures forall i, j :: 0 <= i < j < |r| ==> r[i].op != r[j].op
  {
    var ps := Pairs(opcodeGas, order);
    assert NoRepeats(ps);
    SubOfNoRepeats(r, ps);
  }

  /** Every pair left out has no more gas than any pair picked. */
  lemma PicksLargest(opcodeGas: map<Byte, nat>, order: seq<Byte>, r: seq<OpGasPair>, key: OpGasPair -> nat)
    requires Enumerates(order, opcodeGas.Keys)
    requires forall p :: key(p) == p.gas
    requires forall x, i | x in multiset(Pairs(opcodeGas, order)) - multiset(r) && 0 <= i < |r| :: key(x) <= key(r[i])
    ensures forall op, i :: op in opcodeGas && !Listed(r, op) && 0 <= i < |r| ==> opcodeGas[op] <= r[i].gas
  {
    var ps := Pairs(opcodeGas, order);
    forall op, i | op in opcodeGas && !Listed(r, op) && 0 <= i < |r| ensures opcodeGas[op] <= r[i].gas {
      var p := OpGasPair(op, opcodeGas[op]);
      var k :| 0 <= k < |order| && order[k] == op;
      assert ps[k] == p;
      assert p !in multiset(r);
      assert p in multiset(ps);
      assert p in multiset(ps) - multiset(r);
      assert key(p) <= key(r[i]);
    }
  }

  // ---------------------------------------------------------------------
  // GetTopExpensiveFunctions
  // ---------------------------------------------------------------------

  function FunctionGas(f: FunctionInfo): nat
  {
    f.gas
  }

  /** The `topN` function records with the most gas, most expensive first.
      The input is a value and is left as it was, as the Go copy does. */
  function GetTopExpensiveFunctions(functions: seq<FunctionInfo>, topN: nat): (r: seq<FunctionInfo>)
    ensures |r| == Min(topN, |functions|)
    ensures multiset(r) <= multiset(functions)
    ensures forall i, j :: 0 <= i < j < |r| ==> r[i].gas >= r[j].gas
    ensures forall f, i | f in multiset(functions) - multiset(r) && 0 <= i < |r| :: f.gas <= r[i].gas
    ensures |functions| <= topN ==> multiset(r) == multiset(functions)
  {
    TopNKeepsLargest(functions, FunctionGas, topN);
    TopN(functions, FunctionGas, topN)
  }

  // ---------------------------------------------------------------------
  // GenerateOptimizationSuggestions
  // ---------------------------------------------------------------------

  /** One suggestion string, before formatting. */
  datatype Suggestion =
    | CacheSlot(slot: U64, readCount: nat)
    | BoundLoops
    | HotLoop(startPC: int, endPC: int, count: nat)
    | HighSStore
    | HighSLoad

  /** A slot read more than this many times gets a cache suggestion. */
  const CACHE_READS: nat := 3
  /** A loop recorded more than this many times gets its own suggestion. */
  const HOT_LOOP_COUNT: nat := 5
  const HIGH_SSTORE_GAS: nat := 100000
  const HIGH_SLOAD_GAS: nat := 50000

  /** The strings the Go code formats. The fixed messages are written as
      their leading words followed by the rest, which keeps the leading
      words easy to reason about. */
  function Render(s: Suggestion): string
  {
    match s
    case CacheSlot(slot, n) =>
      "Cache storage slot " + NatText(slot) + " in memory (read " + NatText(n) + " times)"
    case BoundLoops => "Consider" + " gas limits for loops to prevent out-of-gas errors"
    case HotLoop(startPC, endPC, count) =>
      "Loop at PC " + IntText(startPC) + "-" + IntText(endPC) + " executed " + NatText(count)
      + " times - consider optimization"
    case HighSStore => "High SSTORE" + " usage detected - consider struct packing"
    case HighSLoad => "High SLOAD" + " usage detected - cache frequently accessed storage"
  }

  /** The four groups, in the order the Go code emits them. */
  function Group(s: Suggestion): nat
  {
    match s
    case CacheSlot(_, _) => 0
    case BoundLoops => 1
    case HotLoop(_, _, _) => 1
    case HighSStore => 2
    case HighSLoad => 3
  }

  /** The range over the read map, visiting the slots in `order`. */
  function CacheSuggestions(readMap: map<U64, nat>, order: seq<U64>): (r: seq<Suggestion>)
    requires forall i :: 0 <= i < |order| ==> order[i] in readMap
    ensures forall i :: 0 <= i < |r| ==>
      r[i].CacheSlot? && r[i].slot in order && readMap[r[i].slot] > CACHE_READS && r[i].readCount == readMap[r[i].slot]
    ensures forall i :: 0 <= i < |order| && readMap[order[i]] > CACHE_READS ==>
      CacheSlot(order[i], readMap[order[i]]) in r
    ensures NoRepeats(order) ==>
      forall i, j :: 0 <= i < j < |r| ==> r[i].slot != r[j].slot
    decreases |order|
  {
    if order == [] then []
    else
      var n := |order| - 1;
      var slot := order[n];
      var init := CacheSuggestions(readMap, order[..n]);
      assert forall i :: 0 <= i < |init| ==> init[i].slot in order;
      assert NoRepeats(order) ==> slot !in order[..n];
      init + (if readMap[slot] > CACHE_READS then [CacheSlot(slot, readMap[slot])] else [])
  }

  /** One suggestion per loop recorded more than HOT_LOOP_COUNT times, in
      the order of the loop list. */
  function HotLoops(loops: seq<Loop>): (r: seq<Suggestion>)
    ensures forall i :: 0 <= i < |r| ==> r[i].HotLoop?
    ensures forall s, e, c: nat :: HotLoop(s, e, c) in r <==> c > HOT_LOOP_COUNT && Loop(s, e, c) in loops
    decreases |loops|
  {
    if loops == [] then []
    else
      var l := loops[0];
      assert loops == [l] + loops[1..];
      (if l.count > HOT_LOOP_COUNT then [HotLoop(l.startPC, l.endPC, l.count)] else []) + HotLoops(loops[1..])
  }

  /** HotLoops keeps the order of the loop list: it maps a concatenation to
      the concatenation of the results. */
  lemma {:induction false} HotLoopsAppend(a: seq<Loop>, b: seq<Loop>)
    ensures HotLoops(a + b) == HotLoops(a) + HotLoops(b)
    decreases |a|
  {
    if a == [] {
      assert a + b == b;
    } else {
      assert (a + b)[1..] == a[1..] + b;
      HotLoopsAppend(a[1..], b);
    }
  }

  /** The loop group: the generic advice, then the hot loops, when there is
      any loop at all. */
  function LoopSuggestions(loops: seq<Loop>): seq<Suggestion>
  {
    if |loops| > 0 then [BoundLoops] + HotLoops(loops) else []
  }

  /** The suggestions of a sequence that belong to HotLoop, in order. */
  function HotLoopsIn(r: seq<Suggestion>): (h: seq<Suggestion>)
    decreases |r|
  {
    if r == [] then []
    else (if r[0].HotLoop? then [r[0]] else []) + HotLoopsIn(r[1..])
  }

  lemma {:induction false} HotLoopsInAppend(a: seq<Suggestion>, b: seq<Suggestion>)
    ensures HotLoopsIn(a + b) == HotLoopsIn(a) + HotLoopsIn(b)
    decreases |a|
  {
    if a == [] {
      assert a + b == b;
    } else {
      assert (a + b)[1..] == a[1..] + b;
      HotLoopsInAppend(a[1..], b);
    }
  }

  lemma {:induction false} HotLoopsInNone(a: seq<Suggestion>)
    requires forall i :: 0 <= i < |a| ==> !a[i].HotLoop?
    ensures HotLoopsIn(a) == []
    decreases |a|
  {
    if a != [] {
      HotLoopsInNone(a[1..]);
    }
  }

  lemma {:induction false} HotLoopsInAll(a: seq<Suggestion>)
    requires forall i :: 0 <= i < |a| ==> a[i].HotLoop?
    ensures HotLoopsIn(a) == a
    decreases |a|
  {
    if a != [] {
      HotLoopsInAll(a[1..]);
      assert a == [a[0]] + a[1..];
    }
  }

  /** Group numbers never decrease along the sequence. */
  predicate GroupsInOrder(r: seq<Suggestion>)
  {
    forall i, j :: 0 <= i < j < |r| ==> Group(r[i]) <= Group(r[j])
  }

  predicate AllInGroup(r: seq<Suggestion>, g: nat)
  {
    forall i :: 0 <= i < |r| ==> Group(r[i]) == g
  }

  lemma ConcatInOrder(a: seq<Suggestion>, b: seq<Suggestion>, ga: nat, gb: nat)
    requires AllInGroup(a, ga) && GroupsInOrder(b) && forall i :: 0 <= i < |b| ==> ga <= Group(b[i])
    ensures GroupsInOrder(a + b)
  {
    var r := a + b;
    forall i, j | 0 <= i < j < |r| ensures Group(r[i]) <= Group(r[j]) {
      if j < |a| {
        assert r[i] == a[i] && r[j] == a[j];
      } else if i < |a| {
        assert r[i] == a[i] && r[j] == b[j - |a|];
      } else {
        assert r[i] == b[i - |a|] && r[j] == b[j - |a|];
      }
    }
  }

  /** Whether the gas map holds `op` with more than `limit` gas. */
  predicate Exceeds(opcodeGas: map<Byte, nat>, op: Byte, limit: nat)
  {
    op in opcodeGas && opcodeGas[op] > limit
  }

  /** GenerateOptimizationSuggestions: per-slot cache advice (in the order
      the range visits the read map), then the loop group, then the SSTORE
      and SLOAD warnings. What the list holds is stated by the lemmas
      below, one property each. */
  function GenerateOptimizationSuggestions(
    storage: StorageTracker, loops: seq<Loop>, opcodeGas: map<Byte, nat>, readOrder: seq<U64>): seq<Suggestion>
    requires Enumerates(readOrder, storage.sloadCount.Keys)
  {
    CacheSuggestions(storage.sloadCount, readOrder) + (LoopSuggestions(loops) + Warnings(opcodeGas))
  }

  /** The suggestions come in four groups: cache advice, loops, SSTORE,
      SLOAD. */
  lemma SuggestionsGrouped(storage: StorageTracker, loops: seq<Loop>, opcodeGas: map<Byte, nat>, readOrder: seq<U64>)
    requires Enumerates(readOrder, storage.sloadCount.Keys)
    ensures GroupsInOrder(GenerateOptimizationSuggestions(storage, loops, opcodeGas, readOrder))
  {
    SuggestionGroups(CacheSuggestions(storage.sloadCount, readOrder), LoopSuggestions(loops), Warnings(opcodeGas));
  }

  /** A slot gets cache advice exactly when it was read more than three
      times, the advice carries its read count, and no slot is advised
      twice; which order the read map is visited in changes only the order
      of this advice. */
  lemma CacheAdvice(storage: StorageTracker, loops: seq<Loop>, opcodeGas: map<Byte, nat>, readOrder: seq<U64>)
    requires Enumerates(readOrder, storage.sloadCount.Keys)
    ensures var r := GenerateOptimizationSuggestions(storage, loops, opcodeGas, readOrder);
      && (forall slot, n :: CacheSlot(slot, n) in r <==>
           slot in storage.sloadCount && storage.sloadCount[slot] > CACHE_READS && n == storage.sloadCount[slot])
      && (forall i, j :: 0 <= i < j < |r| && r[i].CacheSlot? && r[j].CacheSlot? ==> r[i].slot != r[j].slot)
  {
    SuggestionCacheSlots(storage.sloadCount, readOrder, CacheSuggestions(storage.sloadCount, readOrder),
      LoopSuggestions(loops) + Warnings(opcodeGas));
  }

  /** The generic loop advice appears exactly when some loop was recorded,
      and before any per-loop advice; the per-loop advice is HotLoops of
      the loop list, in the list's order. */
  lemma LoopAdvice(storage: StorageTracker, loops: seq<Loop>, opcodeGas: map<Byte, nat>, readOrder: seq<U64>)
    requires Enumerates(readOrder, storage.sloadCount.Keys)
    ensures var r := GenerateOptimizationSuggestions(storage, loops, opcodeGas, readOrder);
      && (BoundLoops in r <==> |loops| > 0)
      && (forall i, j :: 0 <= i < |r| && 0 <= j < |r| && r[i] == BoundLoops && r[j].HotLoop? ==> i < j)
      && HotLoopsIn(r) == HotLoops(loops)
  {
    SuggestionLoops(CacheSuggestions(storage.sloadCount, readOrder), loops, Warnings(opcodeGas));
  }

  /** The SSTORE and SLOAD warnings appear exactly when the opcode's total
      gas passes its threshold. */
  lemma WarningAdvice(storage: StorageTracker, loops: seq<Loop>, opcodeGas: map<Byte, nat>, readOrder: seq<U64>)
    requires Enumerates(readOrder, storage.sloadCount.Keys)
    ensures var r := GenerateOptimizationSuggestions(storage, loops, opcodeGas, readOrder);
      && (HighSStore in r <==> Exceeds(opcodeGas, SSTORE, HIGH_SSTORE_GAS))
      && (HighSLoad in r <==> Exceeds(opcodeGas, SLOAD, HIGH_SLOAD_GAS))
  {
    SuggestionWarnings(CacheSuggestions(storage.sloadCount, readOrder), LoopSuggestions(loops), opcodeGas);
  }

  /** Only per-loop advice can repeat (two loop records with the same
      bounds and count). */
  lemma SuggestionsOnce(storage: StorageTracker, loops: seq<Loop>, opcodeGas: map<Byte, nat>, readOrder: seq<U64>)
    requires Enumerates(readOrder, storage.sloadCount.Keys)
    ensures var r := GenerateOptimizationSuggestions(storage, loops, opcodeGas, readOrder);
      forall i, j :: 0 <= i < j < |r| && r[i] == r[j] ==> r[i].HotLoop?
  {
    var cache := CacheSuggestions(storage.sloadCount, readOrder);
    SuggestionCacheSlots(storage.sloadCount, readOrder, cache, []);
    assert cache + [] == cache;
    SuggestionRepeats(cache, LoopSuggestions(loops), Warnings(opcodeGas));
  }

  /** The SSTORE warning, then the SLOAD warning, each when its opcode
      was charged more than its threshold. */
  function Warnings(opcodeGas: map<Byte, nat>): (w: seq<Suggestion>)
    ensures GroupsInOrder(w)
    ensures forall i :: 0 <= i < |w| ==> w[i] == HighSStore || w[i] == HighSLoad
    ensures HighSStore in w <==> Exceeds(opcodeGas, SSTORE, HIGH_SSTORE_GAS)
    ensures HighSLoad in w <==> Exceeds(opcodeGas, SLOAD, HIGH_SLOAD_GAS)
    ensures forall i, j :: 0 <= i < j < |w| ==> w[i] != w[j]
  {
    (if Exceeds(opcodeGas, SSTORE, HIGH_SSTORE_GAS) then [HighSStore] else [])
    + (if Exceeds(opcodeGas, SLOAD, HIGH_SLOAD_GAS) then [HighSLoad] else [])
  }

  lemma SuggestionGroups(cache: seq<Suggestion>, loopPart: seq<Suggestion>, warnings: seq<Suggestion>)
    requires forall i :: 0 <= i < |cache| ==> cache[i].CacheSlot?
    requires exists loops :: loopPart == LoopSuggestions(loops)
    requires GroupsInOrder(warnings)
    requires forall i :: 0 <= i < |warnings| ==> warnings[i] == HighSStore || warnings[i] == HighSLoad
    ensures GroupsInOrder(cache + (loopPart + warnings))
  {
    assert AllInGroup(cache, 0);
    assert AllInGroup(loopPart, 1);
    ConcatInOrder(loopPart, warnings, 1, 2);
    ConcatInOrder(cache, loopPart + warnings, 0, 1);
  }

  lemma SuggestionCacheSlots(readMap: map<U64, nat>, readOrder: seq<U64>, cache: seq<Suggestion>, tail: seq<Suggestion>)
    requires Enumerates(readOrder, readMap.Keys)
    requires cache == CacheSuggestions(readMap, readOrder)
    requires forall i :: 0 <= i < |tail| ==> !tail[i].CacheSlot?
    ensures forall slot, n :: CacheSlot(slot, n) in cache + tail <==>
      slot in readMap && readMap[slot] > CACHE_READS && n == readMap[slot]
    ensures var r := cache + tail;
      forall i, j :: 0 <= i < j < |r| && r[i].CacheSlot? && r[j].CacheSlot? ==> r[i].slot != r[j].slot
  {
    var r := cache + tail;
    forall slot, n ensures CacheSlot(slot, n) in r <==> slot in readMap && readMap[slot] > CACHE_READS && n == readMap[slot] {
      if CacheSlot(slot, n) in r {
        assert CacheSlot(slot, n) !in tail;
      }
      if slot in readMap && readMap[slot] > CACHE_READS && n == readMap[slot] {
        var k :| 0 <= k < |readOrder| && readOrder[k] == slot;
      }
    }
    assert NoRepeats(readOrder);
    forall i, j | 0 <= i < j < |r| && r[i].CacheSlot? && r[j].CacheSlot? ensures r[i].slot != r[j].slot {
      assert r[i] == cache[i] && r[j] == cache[j];
    }
  }

  lemma SuggestionLoops(cache: seq<Suggestion>, loops: seq<Loop>, warnings: seq<Suggestion>)
    requires forall i :: 0 <= i < |cache| ==> cache[i].CacheSlot?
    requires forall i :: 0 <= i < |warnings| ==> warnings[i] == HighSStore || warnings[i] == HighSLoad
    ensures var r := cache + (LoopSuggestions(loops) + warnings);
      && (BoundLoops in r <==> |loops| > 0)
      && (forall i, j :: 0 <= i < |r| && 0 <= j < |r| && r[i] == BoundLoops && r[j].HotLoop? ==> i < j)
      && HotLoopsIn(r) == HotLoops(loops)
  {
    var loopPart := LoopSuggestions(loops);
    var r := cache + (loopPart + warnings);
    HotLoopsInAppend(cache, loopPart + warnings);
    HotLoopsInAppend(loopPart, warnings);
    HotLoopsInNone(cache);
    HotLoopsInNone(warnings);
    if |loops| > 0 {
      HotLoopsInAppend([BoundLoops], HotLoops(loops));
      HotLoopsInAll(HotLoops(loops));
      assert HotLoopsIn([BoundLoops]) == [];
      assert r[|cache|] == BoundLoops;
    } else {
      assert loopPart == [];
    }
    assert BoundLoops !in cache && BoundLoops !in warnings;
    forall i, j | 0 <= i < |r| && 0 <= j < |r| && r[i] == BoundLoops && r[j].HotLoop? ensures i < j {
      assert i == |cache|;
      assert j > |cache|;
    }
  }

  lemma SuggestionWarnings(cache: seq<Suggestion>, loopPart: seq<Suggestion>, opcodeGas: map<Byte, nat>)
    requires forall i :: 0 <= i < |cache| ==> cache[i].CacheSlot?
    requires exists loops :: loopPart == LoopSuggestions(loops)
    ensures HighSStore in cache + (loopPart + Warnings(opcodeGas)) <==> Exceeds(opcodeGas, SSTORE, HIGH_SSTORE_GAS)
    ensures HighSLoad in cache + (loopPart + Warnings(opcodeGas)) <==> Exceeds(opcodeGas, SLOAD, HIGH_SLOAD_GAS)
  {
    assert HighSStore !in cache && HighSLoad !in cache;
    assert HighSStore !in loopPart && HighSLoad !in loopPart;
  }

  lemma SuggestionRepeats(cache: seq<Suggestion>, loopPart: seq<Suggestion>, warnings: seq<Suggestion>)
    requires forall i :: 0 <= i < |cache| ==> cache[i].CacheSlot?
    requires forall i, j :: 0 <= i < j < |cache| ==> cache[i].slot != cache[j].slot
    requires exists loops :: loopPart == LoopSuggestions(loops)
    requires forall i :: 0 <= i < |warnings| ==> warnings[i] == HighSStore || warnings[i] == HighSLoad
    requires forall i, j :: 0 <= i < j < |warnings| ==> warnings[i] != warnings[j]
    ensures var r := cache + (loopPart + warnings);
      forall i, j :: 0 <= i < j < |r| && r[i] == r[j] ==> r[i].HotLoop?
  {
    var tail := loopPart + warnings;
    var r := cache + tail;
    forall i, j | 0 <= i < j < |r| && r[i] == r[j] ensures r[i].HotLoop? {
      if j < |cache| {
      } else if i < |cache| {
        assert r[i] == cache[i] && r[j] == tail[j - |cache|];
      } else if j - |cache| < |loopPart| {
        assert r[i] == loopPart[i - |cache|] && r[j] == loopPart[j - |cache|];
        assert i - |cache| > 0;
      } else if i - |cache| < |loopPart| {
        assert r[i] == loopPart[i - |cache|];
      }
    }
  }
}
