/** Function-selector records and their gas attribution
    (analyzer/function_tracker.go). */
module FunctionTracker {
  import opened Base

  /** The four raw bytes that follow a PUSH4. */
  type Selector = seq<Byte>

  datatype FunctionInfo = FunctionInfo(selector: Selector, entryPC: int, gas: nat)

  const NewFunctionTracker: seq<FunctionInfo> := []

  /** Appends one record with no gas yet; earlier records, including ones
      with the same selector, are kept as they are. */
  function AddFunction(fs: seq<FunctionInfo>, selector: Selector, pc: int): (r: seq<FunctionInfo>)
    ensures |r| == |fs| + 1
    ensures r[..|fs|] == fs
    ensures r[|fs|] == FunctionInfo(selector, pc, 0)
  {
    fs + [FunctionInfo(selector, pc, 0)]
  }

  /** The gas a record receives from an opcode at `pc`: all of it when the
      record's entry point is at or before `pc`. */
  function Credit(f: FunctionInfo, pc: int, gas: nat): FunctionInfo
  {
    if pc >= f.entryPC then f.(gas := f.gas + gas) else f
  }

  /** AddGas credits `gas` to EVERY record whose entry point is at or before
      `pc`, not only the nearest one, and changes nothing else. */
  function AddGas(fs: seq<FunctionInfo>, pc: int, gas: nat): (r: seq<FunctionInfo>)
    ensures |r| == |fs|
    ensures forall i :: 0 <= i < |fs| ==>
      r[i].selector == fs[i].selector && r[i].entryPC == fs[i].entryPC
    ensures forall i :: 0 <= i < |fs| && fs[i].entryPC <= pc ==> r[i].gas == fs[i].gas + gas
    ensures forall i :: 0 <= i < |fs| && fs[i].entryPC > pc ==> r[i] == fs[i]
    decreases |fs|
  {
    if fs == [] then [] else [Credit(fs[0], pc, gas)] + AddGas(fs[1..], pc, gas)
  }

  /** Each record is credited on its own. */
  lemma {:induction false} AddGasAt(fs: seq<FunctionInfo>, pc: int, gas: nat, i: nat)
    requires i < |fs|
    ensures AddGas(fs, pc, gas)[i] == Credit(fs[i], pc, gas)
    decreases i
  {
    if i > 0 {
      AddGasAt(fs[1..], pc, gas, i - 1);
    }
  }

  /** Registering the same selector twice keeps two records. */
  lemma NoDeduplication(fs: seq<FunctionInfo>, selector: Selector, p: int, q: int)
    ensures var r := AddFunction(AddFunction(fs, selector, p), selector, q);
      |r| == |fs| + 2 && r[|fs|].selector == selector && r[|fs| + 1].selector == selector
  {
  }

  /** Two overlapping records: an opcode after the later entry point is
      credited to both, so their gas sums to more than was spent. */
  lemma OverlappingCredit(sel1: Selector, sel2: Selector, e1: nat, e2: nat, pc: nat, g: nat)
    requires e1 < e2 <= pc
    ensures var fs := AddGas(AddFunction(AddFunction(NewFunctionTracker, sel1, e1), sel2, e2), pc, g);
      fs == [FunctionInfo(sel1, e1, g), FunctionInfo(sel2, e2, g)]
  {
  }
}
