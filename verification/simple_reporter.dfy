/** The decisions behind the plain-language report of
    analyzer/simple_reporter.go: the efficiency rating, how many of the top
    operations and functions are listed, the storage totals and warnings,
    and which short tips the suggestion strings turn into. The emoji labels
    and the printing are rendered by enums and records here. */
module SimpleReporter {
  import opened Base
  import opened FunctionTracker
  import opened MapOrder
  import opened Ranking
  import opened Text
  import Reporter

  // ---------------------------------------------------------------------
  // getGasRating
  // ---------------------------------------------------------------------

  datatype Rating = Excellent | Good | Fair | Poor

  /** The position of a rating from best to worst. */
  function Rank(r: Rating): nat
  {
    match r
    case Excellent => 0
    case Good => 1
    case Fair => 2
    case Poor => 3
  }

  /** The switch of getGasRating: the first tier whose bound the total is
      below. */
  function GasRating(gas: nat): (r: Rating)
    ensures r == Excellent <==> gas < 50000
    ensures r == Good <==> 50000 <= gas < 100000
    ensures r == Fair <==> 100000 <= gas < 200000
    ensures r == Poor <==> 200000 <= gas
  {
    if gas < 50000 then Excellent
    else if gas < 100000 then Good
    else if gas < 200000 then Fair
    else Poor
  }

  /** More gas never earns a better rating. */
  lemma RatingMonotone(g1: nat, g2: nat)
    requires g1 <= g2
    ensures Rank(GasRating(g1)) <= Rank(GasRating(g2))
  {
  }

  // ---------------------------------------------------------------------
  // printTopOperations
  // ---------------------------------------------------------------------

  /** A numbered line of a listing. */
  datatype Line<T> = Line(number: nat, item: T)

  /** Either the "nothing found" message or the numbered lines shown. */
  datatype Listing<T> = NoneFound | Shown(lines: seq<Line<T>>)

  /** The range over `ops` from index `i`, stopping at `limit`. */
  function ShowFrom<T>(ops: seq<T>, limit: int, i: nat): (lines: seq<Line<T>>)
    requires i <= |ops|
    ensures |lines| <= |ops| - i
    ensures forall k :: 0 <= k < |lines| ==> lines[k] == Line(i + k + 1, ops[i + k])
    ensures i <= limit ==> |lines| == Min(|ops|, limit) - i
    ensures limit <= i ==> lines == []
    decreases |ops| - i
  {
    if i == |ops| || i >= limit then []
    else [Line(i + 1, ops[i])] + ShowFrom(ops, limit, i + 1)
  }

  /** printTopOperations: the message when there is nothing, otherwise the
      first `limit` pairs, numbered from one. */
  function TopOperations<T>(ops: seq<T>, limit: int): (r: Listing<T>)
    ensures r == NoneFound <==> ops == []
    ensures r.Shown? ==> |r.lines| == if limit <= 0 then 0 else Min(|ops|, limit)
    ensures r.Shown? ==> forall k :: 0 <= k < |r.lines| ==> r.lines[k] == Line(k + 1, ops[k])
  {
    if ops == [] then NoneFound else Shown(ShowFrom(ops, limit, 0))
  }

  // ---------------------------------------------------------------------
  // printStorageEfficiency
  // ---------------------------------------------------------------------

  /** The message when nothing was counted, or the two totals with the
      write and read warnings. */
  datatype StorageSummary =
    | NoStorage
    | Usage(totalReads: nat, totalWrites: nat, highWrites: bool, manyReads: bool)

  const HIGH_WRITES: nat := 5
  const MANY_READS: nat := 10

  /** printStorageEfficiency, summing each map in the order its range
      visits it. */
  function StorageEfficiency(
    readMap: map<U64, nat>, writeMap: map<U64, nat>, readOrder: seq<U64>, writeOrder: seq<U64>): (r: StorageSummary)
    requires Enumerates(readOrder, readMap.Keys) && Enumerates(writeOrder, writeMap.Keys)
    ensures r == NoStorage <==>
      (forall k :: k in readMap ==> readMap[k] == 0) && (forall k :: k in writeMap ==> writeMap[k] == 0)
    ensures r.Usage? ==> r.totalReads == Total(readMap) && r.totalWrites == Total(writeMap)
    ensures r.Usage? ==> (r.highWrites <==> Total(writeMap) > HIGH_WRITES)
    ensures r.Usage? ==> (r.manyReads <==> Total(readMap) > MANY_READS)
  {
    var totalReads := SumOver(readMap, readOrder);
    var totalWrites := SumOver(writeMap, writeOrder);
    SumOverIsTotal(readMap, readOrder);
    SumOverIsTotal(writeMap, writeOrder);
    TotalZero(readMap);
    TotalZero(writeMap);
    if totalReads == 0 && totalWrites == 0 then NoStorage
    else Usage(totalReads, totalWrites, totalWrites > HIGH_WRITES, totalReads > MANY_READS)
  }

  // ---------------------------------------------------------------------
  // printSimpleOptimizations
  // ---------------------------------------------------------------------

  /** The three short tips. */
  datatype Tip = StoreInMemory | GroupVariables | LoopGasLimits

  /** The key of the tip map: a suggestion starting with it gets the tip. */
  function KeyOf(t: Tip): string
  {
    match t
    case StoreInMemory => "Cache storage"
    case GroupVariables => "High SSTORE"
    case LoopGasLimits => "Loop"
  }

  predicate Matches(opt: string, t: Tip)
  {
    HasPrefix(opt, KeyOf(t))
  }

  /** The keys start with different letters, so a string matches at most
      one of them. */
  lemma AtMostOneTip(opt: string, t: Tip, u: Tip)
    requires Matches(opt, t) && Matches(opt, u)
    ensures t == u
  {
    assert opt[0] == KeyOf(t)[0] && opt[0] == KeyOf(u)[0];
  }

  /** The range over the tip map: the first tip, in `order`, whose key
      the suggestion starts with. */
  function TipFor(opt: string, order: seq<Tip>): (r: Option<Tip>)
    ensures r.Some? ==> Matches(opt, r.value) && r.value in order
    ensures r.None? ==> forall i :: 0 <= i < |order| ==> !Matches(opt, order[i])
    decreases |order|
  {
    if order == [] then None
    else if Matches(opt, order[0]) then Some(order[0])
    else TipFor(opt, order[1..])
  }

  /** The tip of a suggestion, stated without any order. */
  function Classify(opt: string): Option<Tip>
  {
    if Matches(opt, StoreInMemory) then Some(StoreInMemory)
    else if Matches(opt, GroupVariables) then Some(GroupVariables)
    else if Matches(opt, LoopGasLimits) then Some(LoopGasLimits)
    else None
  }

  /** Whatever order the range visits the tip map in, a suggestion gets the
      same tip. */
  lemma TipForAnyOrder(opt: string, order: seq<Tip>)
    requires Enumerates(order, {StoreInMemory, GroupVariables, LoopGasLimits})
    ensures TipFor(opt, order) == Classify(opt)
  {
    var r := TipFor(opt, order);
    if r.Some? {
      if Classify(opt).Some? {
        AtMostOneTip(opt, r.value, Classify(opt).value);
      }
    } else {
      assert StoreInMemory in order && GroupVariables in order && LoopGasLimits in order;
    }
  }

  /** A numbered tip. */
  datatype TipLine = TipLine(number: nat, tip: Tip)

  /** The message for no suggestions, or the numbered tips. */
  datatype TipsOutcome = NothingNeeded | TipList(lines: seq<TipLine>)

  /** The most tips shown. */
  const MAX_TIPS: nat := 3

  /** The loop over the suggestions; `count` is the number the next tip
      gets, and the loop stops once it passes MAX_TIPS. */
  function TipLines(opts: seq<string>, order: seq<Tip>, count: nat): seq<TipLine>
    decreases |opts|
  {
    if opts == [] then []
    else
      match TipFor(opts[0], order)
      case Some(t) =>
        if count + 1 > MAX_TIPS then [TipLine(count, t)]
        else [TipLine(count, t)] + TipLines(opts[1..], order, count + 1)
      case None =>
        if count > MAX_TIPS then [] else TipLines(opts[1..], order, count)
  }

  /** printSimpleOptimizations. */
  function SimpleOptimizations(opts: seq<string>, order: seq<Tip>): (r: TipsOutcome)
    ensures r == NothingNeeded <==> opts == []
  {
    if opts == [] then NothingNeeded else TipList(TipLines(opts, order, 1))
  }

  /** The tips of the suggestions that have one, in order. */
  function Matched(opts: seq<string>): (ts: seq<Tip>)
    ensures |ts| <= |opts|
    decreases |opts|
  {
    if opts == [] then []
    else
      match Classify(opts[0])
      case Some(t) => [t] + Matched(opts[1..])
      case None => Matched(opts[1..])
  }

  /** `ts` numbered from `start`. */
  function Numbered(ts: seq<Tip>, start: nat): (lines: seq<TipLine>)
    ensures |lines| == |ts|
    ensures forall i :: 0 <= i < |ts| ==> lines[i] == TipLine(start + i, ts[i])
    decreases |ts|
  {
    if ts == [] then [] else [TipLine(start, ts[0])] + Numbered(ts[1..], start + 1)
  }

  /** From tip number `count` on, the loop shows the next matched tips up
      to number MAX_TIPS. */
  lemma {:induction false} TipLinesAreFirstMatches(opts: seq<string>, order: seq<Tip>, count: nat)
    requires Enumerates(order, {StoreInMemory, GroupVariables, LoopGasLimits})
    requires 1 <= count <= MAX_TIPS
    ensures TipLines(opts, order, count) == Numbered(Matched(opts)[..Min(MAX_TIPS + 1 - count, |Matched(opts)|)], count)
    decreases |opts|
  {
    if opts != [] {
      TipForAnyOrder(opts[0], order);
      var m := Matched(opts[1..]);
      if Classify(opts[0]).Some? {
        var t := Classify(opts[0]).value;
        TipLinesOnMatch(opts, order, count, t);
        assert Matched(opts) == [t] + m;
        NumberedTake(t, m, MAX_TIPS + 1 - count, count);
        if count < MAX_TIPS {
          TipLinesAreFirstMatches(opts[1..], order, count + 1);
        }
      } else {
        TipLinesOnMiss(opts, order, count);
        assert Matched(opts) == m;
        TipLinesAreFirstMatches(opts[1..], order, count);
      }
    }
  }

  lemma TipLinesOnMatch(opts: seq<string>, order: seq<Tip>, count: nat, t: Tip)
    requires opts != [] && TipFor(opts[0], order) == Some(t) && count <= MAX_TIPS
    ensures TipLines(opts, order, count)
      == [TipLine(count, t)] + if count < MAX_TIPS then TipLines(opts[1..], order, count + 1) else []
  {
  }

  lemma TipLinesOnMiss(opts: seq<string>, order: seq<Tip>, count: nat)
    requires opts != [] && TipFor(opts[0], order) == None && count <= MAX_TIPS
    ensures TipLines(opts, order, count) == TipLines(opts[1..], order, count)
  {
  }

  /** Numbering the first `k` of `[t] + m` from `start` numbers `t`, then
      the first `k - 1` of `m` from the next number. */
  lemma NumberedTake(t: Tip, m: seq<Tip>, k: nat, start: nat)
    requires k >= 1
    ensures Numbered(([t] + m)[..Min(k, |m| + 1)], start)
      == [TipLine(start, t)] + Numbered(m[..Min(k - 1, |m|)], start + 1)
  {
    var taken := ([t] + m)[..Min(k, |m| + 1)];
    assert taken == [t] + m[..Min(k - 1, |m|)];
    assert taken[1..] == m[..Min(k - 1, |m|)];
  }

  /** With any order of the tip map: no suggestions gives the "nothing
      needed" message; otherwise the tips of the first three suggestions
      that have one are shown, numbered 1, 2, 3. */
  lemma FirstThreeTips(opts: seq<string>, order: seq<Tip>)
    requires Enumerates(order, {StoreInMemory, GroupVariables, LoopGasLimits})
    ensures opts != [] ==>
      SimpleOptimizations(opts, order) == TipList(Numbered(Matched(opts)[..Min(MAX_TIPS, |Matched(opts)|)], 1))
  {
    if opts != [] {
      TipLinesAreFirstMatches(opts, order, 1);
    }
  }

  /** A string that differs from `p` at some position inside both does not
      start with `p`. */
  lemma DiffersAt(s: string, p: string, i: nat)
    requires i < |s| && i < |p| && s[i] != p[i]
    ensures !HasPrefix(s, p)
  {
    if |s| >= |p| {
      assert s[..|p|][i] != p[i];
    }
  }

  /** `p` followed by anything starts with `p`. */
  lemma StartsWith(p: string, rest: string)
    ensures HasPrefix(p + rest, p)
  {
    assert (p + rest)[..|p|] == p;
  }

  /** A string starting with `p` still does after more text is appended. */
  lemma KeepsPrefix(a: string, b: string, p: string)
    requires HasPrefix(a, p)
    ensures HasPrefix(a + b, p)
  {
    PrefixOfAppend(a, b, p);
  }

  /** The tip each kind of suggestion turns into. */
  function TipOfSuggestion(s: Reporter.Suggestion): Option<Tip>
  {
    match s
    case CacheSlot(_, _) => Some(StoreInMemory)
    case BoundLoops => None
    case HotLoop(_, _, _) => Some(LoopGasLimits)
    case HighSStore => Some(GroupVariables)
    case HighSLoad => None
  }

  /** Cache advice becomes the memory tip, per-loop advice the loop tip and
      the SSTORE warning the grouping tip; the generic loop advice and the
      SLOAD warning match no key and get no tip. */
  lemma RenderedTip(s: Reporter.Suggestion)
    ensures Classify(Reporter.Render(s)) == TipOfSuggestion(s)
  {
    match s
    case CacheSlot(slot, n) => CacheSlotTip(slot, n);
    case BoundLoops => BoundLoopsTip();
    case HotLoop(startPC, endPC, count) => HotLoopTip(startPC, endPC, count);
    case HighSStore => HighSStoreTip();
    case HighSLoad => HighSLoadTip();
  }

  lemma CacheSlotTip(slot: U64, n: nat)
    ensures Classify(Reporter.Render(Reporter.CacheSlot(slot, n))) == Some(StoreInMemory)
  {
    var head := "Cache storage slot ";
    assert head == "Cache storage" + " slot ";
    StartsWith("Cache storage", " slot ");
    var a := head + NatText(slot);
    var b := a + " in memory (read ";
    var c := b + NatText(n);
    assert Reporter.Render(Reporter.CacheSlot(slot, n)) == c + " times)";
    KeepsPrefix(head, NatText(slot), "Cache storage");
    KeepsPrefix(a, " in memory (read ", "Cache storage");
    KeepsPrefix(b, NatText(n), "Cache storage");
    KeepsPrefix(c, " times)", "Cache storage");
  }

  lemma BoundLoopsTip()
    ensures Classify(Reporter.Render(Reporter.BoundLoops)) == None
  {
    var text := Reporter.Render(Reporter.BoundLoops);
    assert text[0] == 'C' && text[1] == 'o';
    DiffersAt(text, KeyOf(StoreInMemory), 1);
    DiffersAt(text, KeyOf(GroupVariables), 0);
    DiffersAt(text, KeyOf(LoopGasLimits), 0);
  }

  lemma HotLoopTip(startPC: int, endPC: int, count: nat)
    ensures Classify(Reporter.Render(Reporter.HotLoop(startPC, endPC, count))) == Some(LoopGasLimits)
  {
    var text := Reporter.Render(Reporter.HotLoop(startPC, endPC, count));
    var head := "Loop at PC ";
    assert head == "Loop" + " at PC ";
    StartsWith("Loop", " at PC ");
    var a := head + IntText(startPC);
    var b := a + "-";
    var c := b + IntText(endPC);
    var d := c + " executed ";
    var e := d + NatText(count);
    assert text == e + " times - consider optimization";
    KeepsPrefix(head, IntText(startPC), "Loop");
    KeepsPrefix(a, "-", "Loop");
    KeepsPrefix(b, IntText(endPC), "Loop");
    KeepsPrefix(c, " executed ", "Loop");
    KeepsPrefix(d, NatText(count), "Loop");
    KeepsPrefix(e, " times - consider optimization", "Loop");
    DiffersAt(text, KeyOf(StoreInMemory), 0);
    DiffersAt(text, KeyOf(GroupVariables), 0);
  }

  lemma HighSStoreTip()
    ensures Classify(Reporter.Render(Reporter.HighSStore)) == Some(GroupVariables)
  {
    var text := Reporter.Render(Reporter.HighSStore);
    StartsWith("High SSTORE", " usage detected - consider struct packing");
    DiffersAt(text, KeyOf(StoreInMemory), 0);
  }

  lemma HighSLoadTip()
    ensures Classify(Reporter.Render(Reporter.HighSLoad)) == None
  {
    var text := Reporter.Render(Reporter.HighSLoad);
    assert text[0] == 'H' && text[6] == 'L';
    DiffersAt(text, KeyOf(StoreInMemory), 0);
    DiffersAt(text, KeyOf(GroupVariables), 6);
    DiffersAt(text, KeyOf(LoopGasLimits), 0);
  }

  // ---------------------------------------------------------------------
  // printFunctionCosts
  // ---------------------------------------------------------------------

  datatype CostLevel = Cheap | Moderate | Expensive

  function LevelRank(c: CostLevel): nat
  {
    match c
    case Cheap => 0
    case Moderate => 1
    case Expensive => 2
  }

  /** Cheap, raised to Moderate above 50000 gas and to Expensive above
      100000; the later of the two `if`s wins. */
  function CostLevelOf(gas: nat): (c: CostLevel)
    ensures c == Cheap <==> gas <= 50000
    ensures c == Moderate <==> 50000 < gas <= 100000
    ensures c == Expensive <==> 100000 < gas
  {
    if gas > 100000 then Expensive else if gas > 50000 then Moderate else Cheap
  }

  /** More gas never gives a cheaper level. */
  lemma CostLevelMonotone(g1: nat, g2: nat)
    requires g1 <= g2
    ensures LevelRank(CostLevelOf(g1)) <= LevelRank(CostLevelOf(g2))
  {
  }

  /** A line of the function table. */
  datatype FunctionLine = FunctionLine(number: nat, function_: FunctionInfo, level: CostLevel)

  /** The range over the sorted copy from index `i`, stopping at `limit`. */
  function FunctionLinesFrom(sorted: seq<FunctionInfo>, limit: int, i: nat): (lines: seq<FunctionLine>)
    requires i <= |sorted|
    ensures |lines| == if limit <= i then 0 else Min(limit, |sorted|) - i
    ensures forall k :: 0 <= k < |lines| ==>
      lines[k] == FunctionLine(i + k + 1, sorted[i + k], CostLevelOf(sorted[i + k].gas))
    decreases |sorted| - i
  {
    if i == |sorted| || i >= limit then []
    else [FunctionLine(i + 1, sorted[i], CostLevelOf(sorted[i].gas))] + FunctionLinesFrom(sorted, limit, i + 1)
  }

  /** printFunctionCosts: a copy of the list sorted by gas, most expensive
      first, of which the first `limit` are shown with their cost level. */
  function FunctionCosts(fs: seq<FunctionInfo>, limit: int): (lines: seq<FunctionLine>)
    ensures |lines| == if limit <= 0 then 0 else Min(limit, |fs|)
    ensures forall i :: 0 <= i < |lines| ==>
      lines[i].number == i + 1 && lines[i].level == CostLevelOf(lines[i].function_.gas)
    ensures forall i, j :: 0 <= i < j < |lines| ==> lines[i].function_.gas >= lines[j].function_.gas
  {
    var sorted := SortDesc(fs, Reporter.FunctionGas);
    assert forall f :: Reporter.FunctionGas(f) == f.gas;
    FunctionLinesFrom(sorted, limit, 0)
  }

  /** printFunctionCosts shows exactly the functions GetTopExpensiveFunctions
      returns for the same limit, in the same order; so nothing it leaves
      out costs more than a function it shows. */
  lemma FunctionCostsPicksTopFunctions(fs: seq<FunctionInfo>, limit: int)
    ensures var lines := FunctionCosts(fs, limit);
      var top := Reporter.GetTopExpensiveFunctions(fs, if limit <= 0 then 0 else limit);
      |lines| == |top| && forall i :: 0 <= i < |lines| ==> lines[i].function_ == top[i]
  {
    var n := if limit <= 0 then 0 else limit;
    var sorted := SortDesc(fs, Reporter.FunctionGas);
    assert Reporter.GetTopExpensiveFunctions(fs, n) == TopN(fs, Reporter.FunctionGas, n);
    assert TopN(fs, Reporter.FunctionGas, n) == sorted[..Min(n, |sorted|)];
  }

  // ---------------------------------------------------------------------
  // PrintSimpleReport
  // ---------------------------------------------------------------------

  /** The fields of AnalysisReport that the simple report reads. */
  datatype AnalysisReport = AnalysisReport(
    totalGas: nat,
    storageReads: map<U64, nat>,
    storageWrites: map<U64, nat>,
    functions: seq<FunctionInfo>,
    topExpensiveOps: seq<Reporter.OpGasPair>,
    optimizations: seq<string>)

  /** What the simple report shows, section by section; the function
      section is absent when there are no functions. */
  datatype SimpleReport = SimpleReport(
    rating: Rating,
    topOperations: Listing<Reporter.OpGasPair>,
    storage: StorageSummary,
    tips: TipsOutcome,
    functionCosts: Option<seq<FunctionLine>>)

  /** The number of operations and of functions the report lists. */
  const SHOWN: nat := 3

  /** PrintSimpleReport. */
  function PrintSimpleReport(
    report: AnalysisReport, readOrder: seq<U64>, writeOrder: seq<U64>, tipOrder: seq<Tip>): (r: SimpleReport)
    requires Enumerates(readOrder, report.storageReads.Keys)
    requires Enumerates(writeOrder, report.storageWrites.Keys)
    ensures r.rating == GasRating(report.totalGas)
    ensures r.topOperations.Shown? ==> |r.topOperations.lines| == Min(SHOWN, |report.topExpensiveOps|)
    ensures r.functionCosts.Some? <==> report.functions != []
    ensures r.functionCosts.Some? ==> |r.functionCosts.value| == Min(SHOWN, |report.functions|)
    ensures r.tips == SimpleOptimizations(report.optimizations, tipOrder)
  {
    SimpleReport(
      GasRating(report.totalGas),
      TopOperations(report.topExpensiveOps, SHOWN),
      StorageEfficiency(report.storageReads, report.storageWrites, readOrder, writeOrder),
      SimpleOptimizations(report.optimizations, tipOrder),
      if report.functions != [] then Some(FunctionCosts(report.functions, SHOWN)) else None)
  }
}
