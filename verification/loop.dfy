/** Backward-jump records keyed by (start, end) with an occurrence count
    (analyzer/loop.go). */
module LoopTracker {

  datatype Loop = Loop(startPC: int, endPC: int, count: nat)

  const NewLoopTracker: seq<Loop> := []

  predicate Matches(l: Loop, start: int, end: int)
  {
    l.startPC == start && l.endPC == end
  }

  /** The linear search of RecordLoop: the first record with the pair, or
      |loops| when there is none. */
  function FindLoop(loops: seq<Loop>, start: int, end: int): (k: nat)
    ensures k <= |loops|
    ensures forall j :: 0 <= j < k ==> !Matches(loops[j], start, end)
    ensures k < |loops| ==> Matches(loops[k], start, end)
    decreases |loops|
  {
    if loops == [] then 0
    else if Matches(loops[0], start, end) then 0
    else 1 + FindLoop(loops[1..], start, end)
  }

  /** Some record carries the pair (start, end). */
  predicate Recorded(loops: seq<Loop>, start: int, end: int)
  {
    FindLoop(loops, start, end) < |loops|
  }

  lemma RecordedMeansPresent(loops: seq<Loop>, start: int, end: int)
    ensures Recorded(loops, start, end) <==> exists i :: 0 <= i < |loops| && Matches(loops[i], start, end)
  {
  }

  /** RecordLoop: bump the count of the existing (start, end) record, or
      append a new one with count 1. */
  function RecordLoop(loops: seq<Loop>, start: int, end: int): (r: seq<Loop>)
    ensures Recorded(loops, start, end) ==> |r| == |loops|
    ensures Recorded(loops, start, end) ==> forall j :: 0 <= j < |loops| ==>
      r[j].startPC == loops[j].startPC && r[j].endPC == loops[j].endPC
      && r[j].count == loops[j].count + (if Matches(loops[j], start, end) && j == FindLoop(loops, start, end) then 1 else 0)
    ensures !Recorded(loops, start, end) ==> r == loops + [Loop(start, end, 1)]
  {
    var k := FindLoop(loops, start, end);
    if k < |loops| then loops[k := loops[k].(count := loops[k].count + 1)]
    else loops + [Loop(start, end, 1)]
  }

  /** The count stored for a pair (that of its first record), 0 if absent. */
  function CountOf(loops: seq<Loop>, start: int, end: int): nat
  {
    var k := FindLoop(loops, start, end);
    if k < |loops| then loops[k].count else 0
  }

  /** The first matching index is unique: any k with no match before it and
      a match at it (or k == |loops|) is what FindLoop returns. */
  lemma {:induction false} FindLoopIsFirst(loops: seq<Loop>, start: int, end: int, k: nat)
    requires k <= |loops|
    requires forall j :: 0 <= j < k ==> !Matches(loops[j], start, end)
    requires k < |loops| ==> Matches(loops[k], start, end)
    ensures FindLoop(loops, start, end) == k
    decreases |loops|
  {
    if loops != [] && k > 0 {
      assert !Matches(loops[0], start, end);
      FindLoopIsFirst(loops[1..], start, end, k - 1);
    }
  }

  /** RecordLoop adds one to the count of its own pair and leaves every
      other pair's count alone. */
  lemma RecordLoopCounts(loops: seq<Loop>, start: int, end: int, s: int, e: int)
    ensures CountOf(RecordLoop(loops, start, end), s, e)
      == CountOf(loops, s, e) + (if (s, e) == (start, end) then 1 else 0)
  {
    var r := RecordLoop(loops, start, end);
    var k := FindLoop(loops, start, end);
    var k' := FindLoop(loops, s, e);
    assert forall j :: 0 <= j < |loops| ==> (Matches(r[j], s, e) <==> Matches(loops[j], s, e));
    if k' < |loops| {
      FindLoopIsFirst(r, s, e, k');
    } else if (s, e) == (start, end) {
      FindLoopIsFirst(r, s, e, |loops|);
    } else {
      FindLoopIsFirst(r, s, e, |r|);
    }
  }

  /** No two records share a (start, end) pair. */
  predicate Distinct(loops: seq<Loop>)
  {
    forall i, j :: 0 <= i < j < |loops| ==>
      !(loops[i].startPC == loops[j].startPC && loops[i].endPC == loops[j].endPC)
  }

  predicate CountsPositive(loops: seq<Loop>)
  {
    forall i :: 0 <= i < |loops| ==> loops[i].count >= 1
  }

  function TotalCount(loops: seq<Loop>): nat
    decreases |loops|
  {
    if loops == [] then 0 else TotalCount(loops[..|loops| - 1]) + loops[|loops| - 1].count
  }

  lemma {:induction false} TotalCountAppend(loops: seq<Loop>, l: Loop)
    ensures TotalCount(loops + [l]) == TotalCount(loops) + l.count
  {
    assert (loops + [l])[..|loops|] == loops;
  }

  lemma {:induction false} TotalCountBump(loops: seq<Loop>, k: nat)
    requires k < |loops|
    ensures TotalCount(loops[k := loops[k].(count := loops[k].count + 1)]) == TotalCount(loops) + 1
    decreases |loops|
  {
    var r := loops[k := loops[k].(count := loops[k].count + 1)];
    var n := |loops| - 1;
    if k == n {
      assert r[..n] == loops[..n];
    } else {
      TotalCountBump(loops[..n], k);
      assert r[..n] == loops[..n][k := loops[k].(count := loops[k].count + 1)];
    }
  }

  /** RecordLoop keeps the records distinct and positive, and adds exactly
      one to the total count. */
  lemma RecordLoopInvariant(loops: seq<Loop>, start: int, end: int)
    requires Distinct(loops) && CountsPositive(loops)
    ensures Distinct(RecordLoop(loops, start, end))
    ensures CountsPositive(RecordLoop(loops, start, end))
    ensures TotalCount(RecordLoop(loops, start, end)) == TotalCount(loops) + 1
  {
    var k := FindLoop(loops, start, end);
    var r := RecordLoop(loops, start, end);
    if k < |loops| {
      TotalCountBump(loops, k);
      assert forall j :: 0 <= j < |r| ==> r[j].startPC == loops[j].startPC && r[j].endPC == loops[j].endPC;
    } else {
      TotalCountAppend(loops, Loop(start, end, 1));
      assert forall j :: 0 <= j < |loops| ==> !Matches(loops[j], start, end);
    }
  }

  /** Replaying a list of (start, end) calls on a new tracker. */
  function RecordAll(calls: seq<(int, int)>): seq<Loop>
    decreases |calls|
  {
    if calls == [] then NewLoopTracker
    else
      var last := calls[|calls| - 1];
      RecordLoop(RecordAll(calls[..|calls| - 1]), last.0, last.1)
  }

  function Occurrences(calls: seq<(int, int)>, start: int, end: int): nat
    decreases |calls|
  {
    if calls == [] then 0
    else Occurrences(calls[..|calls| - 1], start, end) + (if calls[|calls| - 1] == (start, end) then 1 else 0)
  }

  /** After any sequence of calls: the records are distinct, every count is
      at least 1, the counts add up to the number of calls, and the count of
      each pair is the number of calls that named it. */
  lemma {:induction false} RecordAllSummary(calls: seq<(int, int)>)
    ensures Distinct(RecordAll(calls))
    ensures CountsPositive(RecordAll(calls))
    ensures TotalCount(RecordAll(calls)) == |calls|
    ensures forall start, end :: CountOf(RecordAll(calls), start, end) == Occurrences(calls, start, end)
    decreases |calls|
  {
    if calls != [] {
      var init := calls[..|calls| - 1];
      var last := calls[|calls| - 1];
      RecordAllSummary(init);
      RecordLoopInvariant(RecordAll(init), last.0, last.1);
      forall start, end
        ensures CountOf(RecordAll(calls), start, end) == Occurrences(calls, start, end)
      {
        RecordLoopCounts(RecordAll(init), last.0, last.1, start, end);
      }
    }
  }
}
