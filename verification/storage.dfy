/** Per-slot storage access counters (analyzer/storage.go): one map for
    reads (SLOAD), a separate one for writes (SSTORE), keyed by the 64-bit
    slot value. A slot that is absent from a map has count 0. */
module Storage {
  import opened Base

  datatype StorageTracker = StorageTracker(sloadCount: map<U64, nat>, sstoreCount: map<U64, nat>)

  const NewStorageTracker: StorageTracker := StorageTracker(map[], map[])

  /** Go's `m[slot]` on a `map[uint64]int`: the zero value when absent. */
  function Count(m: map<U64, nat>, slot: U64): nat
  {
    if slot in m then m[slot] else 0
  }

  /** `m[slot]++`: the slot becomes present with one more; other slots keep
      their counts and presence. */
  function Increment(m: map<U64, nat>, slot: U64): (r: map<U64, nat>)
    ensures r.Keys == m.Keys + {slot}
    ensures Count(r, slot) == Count(m, slot) + 1
    ensures forall other :: other != slot ==> Count(r, other) == Count(m, other)
  {
    m[slot := Count(m, slot) + 1]
  }

  function ReadCount(t: StorageTracker, slot: U64): nat { Count(t.sloadCount, slot) }
  function WriteCount(t: StorageTracker, slot: U64): nat { Count(t.sstoreCount, slot) }

  /** One SLOAD of `slot`: only that slot's read count moves. */
  function RecordRead(t: StorageTracker, slot: U64): (r: StorageTracker)
    ensures ReadCount(r, slot) == ReadCount(t, slot) + 1
    ensures forall other :: other != slot ==> ReadCount(r, other) == ReadCount(t, other)
    ensures r.sstoreCount == t.sstoreCount
  {
    t.(sloadCount := Increment(t.sloadCount, slot))
  }

  /** One SSTORE to `slot`: only that slot's write count moves. */
  function RecordWrite(t: StorageTracker, slot: U64): (r: StorageTracker)
    ensures WriteCount(r, slot) == WriteCount(t, slot) + 1
    ensures forall other :: other != slot ==> WriteCount(r, other) == WriteCount(t, other)
    ensures r.sloadCount == t.sloadCount
  {
    t.(sstoreCount := Increment(t.sstoreCount, slot))
  }

  /** A new tracker has no slot in either map, so every count reads as 0. */
  lemma NewTrackerIsEmpty(slot: U64)
    ensures NewStorageTracker.sloadCount.Keys == {} && NewStorageTracker.sstoreCount.Keys == {}
    ensures ReadCount(NewStorageTracker, slot) == 0 && WriteCount(NewStorageTracker, slot) == 0
  {
  }
}
