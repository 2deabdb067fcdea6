# gaslens analyzer core, in Dafny

gaslens is an Ethereum smart-contract gas analyzer. Given EVM bytecode, it
makes a single linear pass over the code. At each opcode it:

- charges the opcode a fixed approximate cost from a table;
- keeps a frequency map and a per-opcode gas map;
- runs a toy stack machine for PUSH, POP, DUPn, SWAPn, SLOAD and SSTORE,
  which counts storage reads and writes per slot;
- records a function record for every PUSH4 whose four operand bytes are all
  present in the code (the bytes are read as a selector), and credits each
  opcode's gas to every record whose entry point it has passed;
- guesses loops at JUMP/JUMPI opcodes: the byte just before the jump is read
  as if it were a PUSHn opcode, and the n bytes ending at the jump are read as
  the destination; a destination below the jump is recorded as a loop (see
  below);
- tracks the longest run of back-to-back SSTOREs.

After the pass it reports:

- the five most expensive opcodes;
- storage hotspots and repeated reads;
- the loops and the functions found.

Two report helpers turn these results into advice:

- GenerateOptimizationSuggestions produces optimisation suggestions;
- GetTopExpensiveFunctions ranks the functions.

The "simple" reporter condenses a report into:

- a gas rating;
- the top three operations;
- a storage summary;
- up to three short tips;
- a function-cost list.

The model is a set of pure functions over immutable data.

- `Analyzer.Walk` follows the Go loop step by step. `Analyzer.Step` is one
  iteration of its body.
- `Analyzer.Decoded` lists the positions the walk decodes.
- `Analyzer.WalkIsReplay` shows that the walk equals `Step` folded over those
  positions. The whole-walk theorems of `AnalyzerProofs` rest on it. They
  state each accumulated value independently of the loop:
  - the gas and opcode maps;
  - the function records;
  - the loop records;
  - the SSTORE run.
- `WalkReport` connects the walk's own results to what is printed and
  suggested afterwards. For example, a walk can never produce a "hot loop"
  suggestion, because every loop record it makes has count 1.

Go's `for k, v := range m` visits a map's keys in an unspecified order. Where
output depends on that order, the order is a parameter that must enumerate
the keys (`MapOrder.Enumerates`). The lemmas then say what holds for every
order. `sort.Slice` is not stable, so the sorts are modelled by an insertion
sort. `Ranking.SortedKeysAgree` and `Ranking.TopNKeysAgree` show that any
other descending arrangement of the same elements has the same sequence of
gas values.

The backward-jump heuristic is modelled as written:

- the byte just before a JUMP/JUMPI is read as if it were a PUSHn opcode;
- the n bytes ending at the jump are read as a Go `int`, wrapping at 64
  bits, so a destination can be negative (`AnalyzerExamples.NegativeDestination`).

In real bytecode the byte before the jump is the last immediate byte of the
push, so the heuristic rarely recovers the real operand. The model keeps
that behaviour.

## Model

| member | source | states |
|---|---|---|
| Base.ToSigned64 | analyzer/analyzer.go:97-100 | A 64-bit pattern read as a Go `int` lies in the signed 64-bit range and is congruent to the pattern modulo 2^64. It is negative exactly when the top bit is set. |
| Base.FoldU64IsBigEndianMod | analyzer/analyzer.go:43-46 | Folding bytes with `v = v<<8 \| b` in 64 bits gives the big-endian value of the bytes modulo 2^64. Leading bytes beyond eight are shifted out. |
| Base.ShortOperandIsExact | analyzer/analyzer.go:96-100 | With at most seven bytes, the fold neither wraps nor turns negative: it is the plain big-endian value. |
| Base.BigEndianBound | analyzer/analyzer.go:43-46 | n bytes encode a value below 256^n. |
| Opcodes.ImmediateSize | analyzer/analyzer.go:109-110 | An opcode carries immediate bytes exactly when it is a PUSHn. There are at most 32 of them. |
| StackEngine.Push | analyzer/stack.go:7-9 | The new value sits on top and the old stack is kept below it. |
| StackEngine.Pop | analyzer/stack.go:11-18 | Popping an empty stack yields 0 and leaves it empty. Otherwise it yields the top value, and the rest followed by that value is the old stack. |
| StackEngine.Peek | analyzer/stack.go:20-26 | Returns the n-th value from the top, or 0 when the stack is not that deep. |
| StackEngine.Dup | analyzer/stack.go:28-31 | Pushes a copy of the (n-1)-th value from the top (0 when missing), keeping the rest. Popping it gives that copy and the old stack back. |
| StackEngine.Swap | analyzer/stack.go:33-40 | Exchanges the top with the value n below it, leaving every other entry in place. Does nothing when the stack is not deeper than n. |
| StackEngine.PushPop | analyzer/stack.go:7-18 | Pop undoes Push. |
| StackEngine.PopPush | analyzer/stack.go:7-18 | On a non-empty stack, pushing back what was popped restores the stack. |
| StackEngine.SwapInvolution | analyzer/stack.go:33-40 | Swapping twice with the same depth restores the stack. |
| Gas.GasTable | analyzer/gas_table.go:6-26 | No contract of its own. It is the cost map. Its entries are stated by GetGasCost, UnknownOpcodesAreFree, StackShapeOpcodesCostThree, LogCost, FixedCosts and CostExtremes. |
| Gas.GetGasCost | analyzer/gas_table.go:29-34 | Unknown opcodes cost 0 and listed opcodes cost their table value. No opcode costs more than 32000. |
| Gas.UnknownOpcodesAreFree | analyzer/gas_table.go:6-34 | The table misses exactly the unlisted byte values, and these are charged 0. |
| Gas.StackShapeOpcodesCostThree | analyzer/gas_table.go:15-22 | Every PUSHn, DUPn and SWAPn costs 3. |
| Gas.LogCost | analyzer/gas_table.go:23 | LOGk costs 375·(k+1). |
| Gas.FixedCosts | analyzer/gas_table.go:7-14 | The costs the reports depend on: SLOAD 100, SSTORE 20000, POP 2, JUMP 8, JUMPI 10, JUMPDEST 1, ADD 3. |
| Gas.CostExtremes | analyzer/gas_table.go:6-26 | STOP, RETURN and REVERT are free. CREATE, at 32000, is the most expensive opcode. |
| Storage.Increment | analyzer/analyzer.go:61-69 | `m[slot]++` on a counter map: that slot's count rises by one, every other slot's count is unchanged, and the slot becomes a key. |
| Storage.RecordRead | analyzer/analyzer.go:61-64 | An SLOAD adds one read to its slot only and leaves the write counters alone. |
| Storage.RecordWrite | analyzer/analyzer.go:66-69 | An SSTORE adds one write to its slot only and leaves the read counters alone. |
| Storage.NewTrackerIsEmpty | analyzer/storage.go:8-13 | A new tracker has no keys and reports zero reads and writes for every slot. |
| LoopTracker.FindLoop | analyzer/loop.go:20-25 | Finds the first record with the given bounds, or the end of the list when there is none. |
| LoopTracker.RecordLoop | analyzer/loop.go:19-31 | A loop already recorded has its first matching record's count raised by one, and nothing else changes. A new loop is appended with count 1. |
| LoopTracker.RecordLoopCounts | analyzer/loop.go:19-31 | Recording (start, end) raises the count of exactly that pair by one. |
| LoopTracker.RecordLoopInvariant | analyzer/loop.go:19-31 | Recording keeps the bounds of the records pairwise distinct and every count positive. It raises the total count by one. |
| LoopTracker.RecordAllSummary | analyzer/loop.go:19-31 | After recording a sequence of calls, the records are distinct with positive counts. Their counts total the number of calls, and each pair's count is its number of occurrences. |
| FunctionTracker.AddFunction | analyzer/function_tracker.go:19-25 | Appends a record with the selector, the entry point and zero gas, keeping the earlier records. |
| FunctionTracker.AddGas | analyzer/function_tracker.go:27-33 | Credits the gas to every record whose entry point is at or before pc and leaves the others unchanged. |
| FunctionTracker.NoDeduplication | analyzer/function_tracker.go:19-25 | The same selector added twice gives two records. |
| FunctionTracker.OverlappingCredit | analyzer/function_tracker.go:27-33 | An opcode after two entry points is credited to both records, so the records' gas can add up to more than was spent. |
| Analyzer.Walk | analyzer/analyzer.go:30-117 | No contract of its own. It is the loop: a step at each position, then a move past the opcode and a PUSHn's immediates, stopping at a truncated push. What it computes is stated by WalkIsReplay, DecodedGaps, DecodedEnds and the Analyze* lemmas. |
| Analyzer.Step | analyzer/analyzer.go:31-108 | No contract of its own. It is one iteration of the loop body. Per opcode family it is stated by PushEffect, PopEffect, DupEffect, SwapEffect, SLoadEffect, SStoreEffect and OtherEffect. Over a whole walk it is stated by AnalyzeGas, AnalyzeOpcodeMaps, AnalyzeFunctions, AnalyzeLoops and AnalyzeSStoreRun. |
| Analyzer.Analyze | analyzer/analyzer.go:16-118 | No contract of its own. It is AnalyzeBytecode without its printing. Its results are stated by AnalyzeGas, AnalyzeOpcodeMaps, AnalyzeFunctions, AnalyzeLoops, AnalyzeSStoreRun and WalkReport.AnalyzeStorageTotals. |
| Analyzer.JumpTarget | analyzer/analyzer.go:87-108 | No contract of its own. When a loop is reported, and with what destination, is stated by AnalyzerProofs.JumpTargetSpec and AnalyzerProofs.ShortJumpTarget. |
| Analyzer.StackEffect | analyzer/analyzer.go:38-70 | No contract of its own. It is the `switch` on the opcode. Its effect is stated case by case by PushEffect, PopEffect, DupEffect, SwapEffect, SLoadEffect, SStoreEffect and OtherEffect. |
| Analyzer.WalkIsReplay | analyzer/analyzer.go:30-117 | The walk's result is `Step` applied in turn at each decoded position, starting from the fresh state. |
| AnalyzerProofs.DecodedIncreasing | analyzer/analyzer.go:86-116 | The decoded positions strictly increase. |
| AnalyzerProofs.DecodedGaps | analyzer/analyzer.go:86-116 | Consecutive decoded positions are one opcode plus its immediate bytes apart. Only the last one can be a push that runs off the end. |
| AnalyzerProofs.DecodedEnds | analyzer/analyzer.go:30-116 | Decoding starts at the first position and stops only when the next opcode would start at or beyond the end of the code. |
| AnalyzerProofs.DecodedLength | analyzer/analyzer.go:30-116 | The walk makes at most one step per byte. |
| AnalyzerProofs.ImmediatesNeverDecoded | analyzer/analyzer.go:109-116 | No immediate byte of a decoded PUSHn is ever decoded as an opcode. |
| AnalyzerProofs.PushEffect | analyzer/analyzer.go:39-48 | A complete PUSHn pushes its operand folded to 64 bits. A push that runs off the end pushes nothing. Either way storage is untouched and 3 gas is charged. |
| AnalyzerProofs.PopEffect | analyzer/analyzer.go:50-51 | POP drops the top value, and does nothing on an empty stack. |
| AnalyzerProofs.DupEffect | analyzer/analyzer.go:53-55 | DUPn pushes a copy of the n-th value from the top (0 when missing). |
| AnalyzerProofs.SwapEffect | analyzer/analyzer.go:57-59 | SWAPn exchanges the top with the value n below it, or does nothing on a shallower stack. |
| AnalyzerProofs.SLoadEffect | analyzer/analyzer.go:61-64 | SLOAD replaces the top with 0 and counts one read of the popped slot (0 for an empty stack) and nothing else. |
| AnalyzerProofs.SStoreEffect | analyzer/analyzer.go:66-69 | SSTORE pops the slot and then the value, and counts one write of the slot and nothing else. |
| AnalyzerProofs.OtherEffect | analyzer/analyzer.go:38-70 | Every other opcode leaves the stack and the storage counters alone. |
| AnalyzerProofs.JumpTargetSpec | analyzer/analyzer.go:87-105 | A loop (dest, pc) is reported exactly when all of these hold: the opcode is JUMP or JUMPI; the byte before it lies in the PUSH range with size n; the n bytes ending at the jump fit in the code; their 64-bit signed value is dest; and dest < pc. |
| AnalyzerProofs.ShortJumpTarget | analyzer/analyzer.go:91-104 | With a size below eight, the destination is the plain big-endian value of the bytes. |
| AnalyzerProofs.AnalyzeGas | analyzer/analyzer.go:71-75 | The total gas is the table cost summed over the decoded opcodes. It also equals the sum of the per-opcode gas map. |
| AnalyzerProofs.AnalyzeOpcodeMaps | analyzer/analyzer.go:71-74 | The frequency map counts every decoded opcode. Its gas entry is that count times the opcode's cost. Both maps have exactly the decoded opcodes as keys. |
| AnalyzerProofs.AnalyzeFunctions | analyzer/analyzer.go:33-75 | There is one record per decoded PUSH4 with four bytes after it, in order. Each record holds those bytes, its position, and the cost of every decoded opcode from that position on, so it never exceeds the total. |
| AnalyzerProofs.AnalyzeLoops | analyzer/analyzer.go:87-108 | There is one loop record per decoded jump the heuristic reports, in order, each with count 1. A record (s, e) is present exactly when e is decoded and its target is s. |
| AnalyzerProofs.AnalyzeSStoreRun | analyzer/analyzer.go:76-83 | The reported maximum is the longest run of consecutively decoded SSTOREs. |
| AnalyzerProofs.MaxRunIsLongest | analyzer/analyzer.go:76-83 | The run measure over decoded positions is attained by some all-SSTORE window, and no all-SSTORE window is longer. |
| AnalyzerExamples.AddTwoConstants | analyzer/analyzer.go:30-117 | `PUSH1 1 PUSH1 2 ADD` decodes three opcodes, costs 9 and leaves both constants on the stack. |
| AnalyzerExamples.PopOnEmptyStack | analyzer/stack.go:11-18 | POP on an empty stack is charged 2 gas and leaves the stack empty. |
| AnalyzerExamples.MissedBackwardJump | analyzer/analyzer.go:87-108 | `PUSH1 0 JUMPDEST PUSH1 2 JUMP` jumps back to PC 2, but records no loop: the byte before the JUMP is the operand 2, not a push opcode. It costs 15 gas. |
| AnalyzerExamples.TwoSelectors | analyzer/analyzer.go:33-37 | Two PUSH4 selectors give two records. The first is credited with every opcode, including those after the second entry point. |
| AnalyzerExamples.TruncatedPush | analyzer/analyzer.go:109-113 | A PUSH2 with one byte left is charged, pushes nothing and ends the walk. |
| AnalyzerExamples.LoadThenStore | analyzer/analyzer.go:61-69 | SLOAD then SSTORE count one read and one write of the popped slots and leave an empty stack. |
| AnalyzerExamples.WrappedOperand | analyzer/analyzer.go:43-46 | An eight-byte operand with the top bit set folds to its full 64-bit value. |
| AnalyzerExamples.NegativeDestination | analyzer/analyzer.go:96-104 | The same bytes read as a jump destination wrap to a negative `int`, which the heuristic records as a loop. |
| WalkReport.PackingNotice | analyzer/analyzer.go:120-122 | The notice appears exactly when the maximum run exceeds 1, and it carries that run. |
| WalkReport.Hotspots | analyzer/analyzer.go:144-156 | A (slot, count) pair is listed exactly when the range visits the slot and its count exceeds the threshold. |
| WalkReport.Summarize | analyzer/analyzer.go:120-170 | No contract of its own. It is the list of post-walk notices. It is stated by SummaryPacking and SummaryHotspots. |
| WalkReport.SummaryPacking | analyzer/analyzer.go:120-122 | After a walk, the notice names the longest SSTORE run when it is at least 2. Otherwise no two SSTOREs are decoded back to back. |
| WalkReport.SummaryHotspots | analyzer/analyzer.go:144-156 | Whatever the visiting order, a slot is a write hotspot exactly when written more than once, and a repeated read exactly when read more than twice, with its count. |
| WalkReport.AnalyzeStorageTotals | analyzer/analyzer.go:61-69 | The read counters add up to the number of decoded SLOADs, and the write counters to the number of decoded SSTOREs. |
| WalkReport.NoHotLoops | analyzer/reporter.go:88-92 | Loops whose counts are all at most 5 yield no per-loop suggestion. |
| WalkReport.WalkHasNoHotLoops | analyzer/reporter.go:86-93 | The suggestions for a walk's own results never include a per-loop suggestion. |
| WalkReport.WalkSStoreWarning | analyzer/reporter.go:96-98 | For a walk's own results, the SSTORE warning appears exactly when more than five SSTOREs were decoded. |
| WalkReport.WalkSLoadWarning | analyzer/reporter.go:100-102 | For a walk's own results, the SLOAD warning appears exactly when more than five hundred SLOADs were decoded. |
| MapOrder.SumOverIsTotal | analyzer/simple_reporter.go:98-103 | Summing a map's counts with a range loop gives the same total whatever the visiting order. |
| MapOrder.TotalZero | analyzer/simple_reporter.go:105 | The total is zero exactly when every count is zero. |
| MapOrder.TotalBump | analyzer/analyzer.go:63 | `m[k]++` adds one to the total of the counts. |
| Text.NatText | analyzer/reporter.go:81 | The `%d` text of a number is a non-empty string of digits without a leading zero. NatTextRoundTrip shows it parses back to the number. |
| Text.NatTextRoundTrip | analyzer/reporter.go:81 | The decimal text of a number parses back to it. |
| Text.NatTextInjective | analyzer/reporter.go:81 | Different numbers have different decimal texts. |
| Text.HasPrefixMeans | analyzer/simple_reporter.go:172-174 | `contains` holds exactly when the string is the key followed by something. |
| Text.PrefixOfAppend | analyzer/simple_reporter.go:172-174 | Appending to a string at least as long as the key does not change whether it starts with the key. |
| Text.PrefixesComparable | analyzer/simple_reporter.go:172-174 | Two keys a string starts with are prefixes of one another. |
| Ranking.SortDesc | analyzer/analyzer.go:194 | The result is a permutation of the input, ordered by non-increasing key. |
| Ranking.TopN | analyzer/analyzer.go:194-198 | Takes min(n, length) elements of the input, ordered by non-increasing key. |
| Ranking.TopNKeepsLargest | analyzer/analyzer.go:194-198 | Nothing left out has a larger key than anything kept. When the input fits, nothing is left out. |
| Ranking.SortedKeysAgree | analyzer/analyzer.go:194 | Any non-increasing permutation of the input has the same sequence of keys as the model's sort, so unstable ties cannot change the keys. |
| Ranking.TopNKeysAgree | analyzer/reporter.go:111-118 | Truncating any non-increasing permutation to n gives the same keys as TopN. |
| Reporter.Pairs | analyzer/analyzer.go:190-193 | The range over the gas map yields one (opcode, gas) pair per visited key, in visiting order. |
| Reporter.TopExpensiveOpcodes | analyzer/analyzer.go:189-199 | Returns min(topN, number of opcodes) distinct opcodes with their mapped gas, most expensive first. No opcode left out costs more than any listed one. |
| Reporter.GetTopExpensiveFunctions | analyzer/reporter.go:107-119 | Returns min(topN, length) of the records by non-increasing gas. No record left out has more gas than a listed one. When all fit, every record is listed. |
| Reporter.CacheSuggestions | analyzer/reporter.go:79-83 | Each slot read more than three times gets one cache suggestion with its read count. Slots read three times or fewer get none. With distinct keys, no slot gets two. |
| Reporter.HotLoops | analyzer/reporter.go:88-92 | A per-loop suggestion is present exactly for the loop records with a count above 5. |
| Reporter.HotLoopsAppend | analyzer/reporter.go:88-92 | The per-loop suggestions follow the order of the loop list. |
| Reporter.Warnings | analyzer/reporter.go:96-102 | The SSTORE warning appears, once, exactly when SSTORE's gas is above 100000. The SLOAD warning appears, once and after it, exactly when SLOAD's gas is above 50000. |
| Reporter.GenerateOptimizationSuggestions | analyzer/reporter.go:75-105 | No contract of its own. What the list holds is stated by SuggestionsGrouped, CacheAdvice, LoopAdvice, WarningAdvice and SuggestionsOnce. |
| Reporter.Render | analyzer/reporter.go:81-101 | No contract of its own. It gives the five suggestion strings. Which tip each string gets is stated by SimpleReporter.RenderedTip. The decimal numbers in them are stated by Text.NatTextRoundTrip and Text.NatTextInjective. |
| Reporter.SuggestionsGrouped | analyzer/reporter.go:75-105 | Suggestions come in order: cache advice, then loop advice, then the SSTORE warning, then the SLOAD warning. |
| Reporter.CacheAdvice | analyzer/reporter.go:79-83 | For every visiting order, a slot gets cache advice exactly when read more than three times, with its count, and never twice. |
| Reporter.LoopAdvice | analyzer/reporter.go:86-93 | The generic loop advice appears exactly when a loop was recorded, and before any per-loop advice. The per-loop advice is the hot loops in list order. |
| Reporter.WarningAdvice | analyzer/reporter.go:96-102 | The SSTORE and SLOAD warnings appear exactly when their opcode's gas passes its threshold. |
| Reporter.SuggestionsOnce | analyzer/reporter.go:75-105 | Only per-loop advice can appear twice. |
| SimpleReporter.GasRating | analyzer/simple_reporter.go:46-57 | The rating is Excellent below 50000, Good below 100000 and Fair below 200000. From 200000 up it is Poor. |
| SimpleReporter.RatingMonotone | analyzer/simple_reporter.go:46-57 | More gas never earns a better rating. |
| SimpleReporter.ShowFrom | analyzer/simple_reporter.go:65-72 | Lists the operations from position i on, numbered from i+1, stopping at the limit. |
| SimpleReporter.TopOperations | analyzer/simple_reporter.go:59-73 | No operations gives the "none found" message. Otherwise the first min(limit, length) operations are listed, numbered from 1. |
| SimpleReporter.StorageEfficiency | analyzer/simple_reporter.go:94-119 | "No storage" appears exactly when every count is zero. Otherwise the totals are shown for any visiting order, with the write warning above 5 and the read warning above 10. |
| SimpleReporter.AtMostOneTip | analyzer/simple_reporter.go:127-130 | No suggestion starts with two different tip keys. |
| SimpleReporter.TipFor | analyzer/simple_reporter.go:134-140 | The inner range finds a matching tip whenever one exists, and only a matching one. |
| SimpleReporter.TipForAnyOrder | analyzer/simple_reporter.go:127-140 | The tip found is the same for every visiting order of the tip map. |
| SimpleReporter.SimpleOptimizations | analyzer/simple_reporter.go:121-125 | The "nothing needed" message appears exactly when there are no suggestions. |
| SimpleReporter.Numbered | analyzer/simple_reporter.go:136-137 | Tip lines are numbered consecutively from the starting count. |
| SimpleReporter.TipLines | analyzer/simple_reporter.go:132-144 | No contract of its own. It is the outer loop over the suggestions. It is stated by TipLinesAreFirstMatches and FirstThreeTips. |
| SimpleReporter.TipLinesAreFirstMatches | analyzer/simple_reporter.go:132-144 | The printed tips are the matched suggestions in order, numbered from the current count, cut off once three are printed. |
| SimpleReporter.FirstThreeTips | analyzer/simple_reporter.go:121-145 | With any suggestions, the printed tips are the first three that match a key, numbered 1 to 3, for every order of the tip map. |
| SimpleReporter.RenderedTip | analyzer/simple_reporter.go:127-140 | Which tip each suggestion string gets: cache advice gets "store in memory", the SSTORE warning gets "group variables", and per-loop advice gets "gas limits". The generic loop advice and the SLOAD warning get none. |
| SimpleReporter.CostLevelOf | analyzer/simple_reporter.go:160-166 | The level is Cheap up to 50000, Moderate up to 100000, and Expensive above. |
| SimpleReporter.CostLevelMonotone | analyzer/simple_reporter.go:160-166 | More gas never gives a cheaper level. |
| SimpleReporter.FunctionLinesFrom | analyzer/simple_reporter.go:155-168 | Lists sorted records from position i on, each numbered and with its cost level, up to the limit. |
| SimpleReporter.FunctionCosts | analyzer/simple_reporter.go:147-170 | min(limit, length) lines are listed by non-increasing gas, numbered from 1, each with its cost level. |
| SimpleReporter.FunctionCostsPicksTopFunctions | analyzer/simple_reporter.go:147-158 | The listed functions are exactly GetTopExpensiveFunctions with the same limit. |
| SimpleReporter.PrintSimpleReport | analyzer/simple_reporter.go:9-38 | Every report gets a rating and the simple tips. The function section appears exactly when there are functions, and each list shows at most three entries. |

## Left out

- The printing itself is not modelled: `fmt` output, column layout, the opcode frequency listing (analyzer/analyzer.go:125-128), the loop and function listings (158-183) and `printBarChart`. The model returns the values that would be printed.
- estimateUSDCost: floating-point arithmetic is not modelled. The simple report does not carry the dollar figure.
- getOperationDescription: display text only, and no property depends on it.
- ExportToJSON and ExportToCSV: file output.
- The CLI, the Etherscan client, the file reader and the web server (main.go, cmd/web, utils/) are outside the analyzer core.
- Analyzer.Step: `totalGas`, the per-opcode gas and the function gas are `uint64` in Go. The model uses unbounded naturals, because a wrap needs more than 5·10^14 opcodes at the maximum cost of 32000. The operand and jump-destination folds, which do wrap in practice, are modelled exactly.
- Reporter.TopExpensiveOpcodes: `topN` is a natural. A negative `topN` makes the Go slice expression panic.
- Reporter.GetTopExpensiveFunctions: `topN` is a natural, for the same reason.
- Reporter.GenerateOptimizationSuggestions: its function contract is empty. Its properties are stated by SuggestionsGrouped, CacheAdvice, LoopAdvice, WarningAdvice and SuggestionsOnce, one lemma each.
- WalkReport.Summarize: its function contract is empty. Its properties are stated by SummaryPacking and SummaryHotspots.
- The opcode byte values (for example SLOAD = 0x54) follow appendix H.2 of the Ethereum Yellow Paper, because go-ethereum's `vm` package is not part of this model.
- The result of AnalyzeBytecode is a value (`Analyzer.Analysis`). The Go function fills no `AnalysisReport`, so the report functions take their inputs as parameters.
- The selector string `fmt.Sprintf("0x%x", …)` is kept as its four bytes.
- The opcode name in `OpGasPair` is kept as the opcode byte.
- The emoji strings of the simple report are kept as enumerations (`Rating`, `CostLevel`, `Tip`).
- The suggestion strings are kept as a datatype, `Reporter.Suggestion`, and rendered by `Reporter.Render`.
- Go map iteration order and the tie order of `sort.Slice` are parameters or a fixed model sort. The lemmas hold for every order.
