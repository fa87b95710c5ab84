/** The usage counters over every run of creations and closes. */
module BodyUsageRuns {
  import opened BodyUsage

  datatype Slot = Slot(disk: bool, size: nat, open: bool)

  /** Every store ever made, and the counters. */
  datatype Pool = Pool(slots: seq<Slot>, stats: Stats)

  datatype Action =
    | FromReader(size: nat, declared: int, maxBytes: int, diskOk: bool)
    | FromBytes(size: nat, diskOk: bool)
    | CloseSlot(i: nat)

  function Made(c: Config, s: Stats, a: Action): Creation
    requires !a.CloseSlot?
  {
    if a.FromReader? then CreateFromReader(c, s, a.size, a.declared, a.maxBytes, a.diskOk)
    else CreateFromBytes(c, s, a.size, a.diskOk)
  }

  function Removed(s: Stats, slot: Slot): Stats {
    if slot.disk then RemoveDisk(s, slot.size) else RemoveMemory(s, slot.size)
  }

  function Step(c: Config, p: Pool, a: Action): Pool {
    if a.CloseSlot? then
      if a.i >= |p.slots| || !p.slots[a.i].open then p
      else Pool(p.slots[a.i := p.slots[a.i].(open := false)], Removed(p.stats, p.slots[a.i]))
    else
      var r := Made(c, p.stats, a);
      Pool(if r.Stored? then p.slots + [Slot(r.disk, r.size, true)] else p.slots, Count(p.stats, r))
  }

  const EMPTY := Pool([], Stats(0, 0, 0, 0))

  function Run(c: Config, actions: seq<Action>): Pool {
    if actions == [] then EMPTY else Step(c, Run(c, actions[..|actions| - 1]), actions[|actions| - 1])
  }

  // ---------------------------------------------------------------- the counters are exact

  // What one store contributes while it is open.

  function DiskFile(s: Slot): nat { if s.open && s.disk then 1 else 0 }

  function DiskBytes(s: Slot): nat { if s.open && s.disk then s.size else 0 }

  function MemoryBuffer(s: Slot): nat { if s.open && !s.disk then 1 else 0 }

  function MemoryBytes(s: Slot): nat { if s.open && !s.disk then s.size else 0 }

  function Sum(slots: seq<Slot>, share: Slot -> nat): nat {
    if slots == [] then 0 else Sum(slots[..|slots| - 1], share) + share(slots[|slots| - 1])
  }

  /** The number and the total size of the open stores. */
  function Measured(slots: seq<Slot>): Stats {
    Stats(Sum(slots, DiskFile), Sum(slots, DiskBytes), Sum(slots, MemoryBuffer), Sum(slots, MemoryBytes))
  }

  lemma {:induction false} SumCovers(slots: seq<Slot>, share: Slot -> nat, i: nat)
    requires i < |slots|
    ensures Sum(slots, share) >= share(slots[i])
  {
    if i < |slots| - 1 {
      SumCovers(slots[..|slots| - 1], share, i);
    }
  }

  lemma {:induction false} SumChange(slots: seq<Slot>, share: Slot -> nat, i: nat, slot: Slot)
    requires i < |slots|
    ensures Sum(slots[i := slot], share) == Sum(slots, share) - share(slots[i]) + share(slot)
  {
    var n := |slots| - 1;
    var changed := slots[i := slot];
    if i < n {
      SumChange(slots[..n], share, i, slot);
      assert changed[..n] == slots[..n][i := slot];
    } else {
      assert changed[..n] == slots[..n];
    }
  }

  lemma SumMore(slots: seq<Slot>, share: Slot -> nat, slot: Slot)
    ensures Sum(slots + [slot], share) == Sum(slots, share) + share(slot)
  {
    assert (slots + [slot])[..|slots|] == slots;
  }

  lemma MeasuredClose(slots: seq<Slot>, i: nat)
    requires i < |slots| && slots[i].open
    ensures Measured(slots[i := slots[i].(open := false)]) == Removed(Measured(slots), slots[i])
    ensures Covers(Measured(slots), slots[i])
  {
    var slot := slots[i].(open := false);
    SumChange(slots, DiskFile, i, slot);
    SumChange(slots, DiskBytes, i, slot);
    SumChange(slots, MemoryBuffer, i, slot);
    SumChange(slots, MemoryBytes, i, slot);
    SumCovers(slots, DiskFile, i);
    SumCovers(slots, DiskBytes, i);
    SumCovers(slots, MemoryBuffer, i);
    SumCovers(slots, MemoryBytes, i);
  }

  /** Taking the store off the counters leaves nothing below zero. */
  predicate Covers(s: Stats, slot: Slot) {
    if slot.disk then s.diskFiles >= 1 && s.diskBytes >= slot.size
    else s.memoryBuffers >= 1 && s.memoryBytes >= slot.size
  }

  lemma MeasuredMore(slots: seq<Slot>, r: Creation)
    requires r.Stored?
    ensures Measured(slots + [Slot(r.disk, r.size, true)]) == Count(Measured(slots), r)
  {
    var slot := Slot(r.disk, r.size, true);
    SumMore(slots, DiskFile, slot);
    SumMore(slots, DiskBytes, slot);
    SumMore(slots, MemoryBuffer, slot);
    SumMore(slots, MemoryBytes, slot);
  }

  lemma StepIsExact(c: Config, p: Pool, a: Action)
    requires p.stats == Measured(p.slots)
    ensures Step(c, p, a).stats == Measured(Step(c, p, a).slots)
  {
    if a.CloseSlot? {
      if a.i < |p.slots| && p.slots[a.i].open {
        MeasuredClose(p.slots, a.i);
      }
    } else {
      var r := Made(c, p.stats, a);
      if r.Stored? {
        MeasuredMore(p.slots, r);
      }
    }
  }

  /** After every run of creations and closes, repeated closes included, the counters are the number
      and the total size of the open stores. */
  lemma {:induction false} CountersAreExact(c: Config, actions: seq<Action>)
    ensures Run(c, actions).stats == Measured(Run(c, actions).slots)
  {
    if actions != [] {
      CountersAreExact(c, actions[..|actions| - 1]);
      StepIsExact(c, Run(c, actions[..|actions| - 1]), actions[|actions| - 1]);
    }
  }

  /** The clamp at zero never fires: closing an open store leaves nothing below zero. */
  lemma ClampNeverFires(c: Config, actions: seq<Action>, i: nat)
    requires i < |Run(c, actions).slots| && Run(c, actions).slots[i].open
    ensures Covers(Run(c, actions).stats, Run(c, actions).slots[i])
  {
    CountersAreExact(c, actions);
    MeasuredClose(Run(c, actions).slots, i);
  }

  // ---------------------------------------------------------------- where a body goes

  /** What the open disk stores occupy. */
  function DiskInUse(c: Config, actions: seq<Action>): nat {
    Sum(Run(c, actions).slots, DiskBytes)
  }

  /** Disk is enabled, the length reaches the threshold, and there is room for it. */
  predicate GoesToDisk(c: Config, inUse: nat, length: int) {
    c.enabled && length >= c.thresholdMB * 1_048_576 && inUse + length <= c.maxSizeMB * 1_048_576
  }

  /** Bytes in memory are always stored: on disk exactly if they should go there and the disk works. */
  lemma BytesAreStored(c: Config, actions: seq<Action>, size: nat, diskOk: bool)
    ensures Run(c, actions + [FromBytes(size, diskOk)]).slots ==
      Run(c, actions).slots + [Slot(GoesToDisk(c, DiskInUse(c, actions), size) && diskOk, size, true)]
  {
    CountersAreExact(c, actions);
    assert (actions + [FromBytes(size, diskOk)])[..|actions|] == actions;
  }

  /** A reader goes to disk by its declared length, if it has one, and is then lost if the disk fails; otherwise
      by what it yields.  More than the maximum is refused. */
  lemma ReaderIsStored(c: Config, actions: seq<Action>, size: nat, declared: int, maxBytes: int, diskOk: bool)
    ensures var inUse := DiskInUse(c, actions);
      var direct := declared > 0 && GoesToDisk(c, inUse, declared);
      Run(c, actions + [FromReader(size, declared, maxBytes, diskOk)]).slots ==
        Run(c, actions).slots +
          if size > maxBytes || (direct && !diskOk) then []
          else [Slot(direct || (GoesToDisk(c, inUse, size) && diskOk), size, true)]
  {
    CountersAreExact(c, actions);
    assert (actions + [FromReader(size, declared, maxBytes, diskOk)])[..|actions|] == actions;
  }

  // ---------------------------------------------------------------- the disk limit

  /** The reader yields no more than it declared, or is rejected. */
  predicate Honest(a: Action) {
    a.FromReader? ==> a.size <= a.declared || a.size > a.maxBytes || a.declared <= 0
  }

  function Limit(c: Config): nat { Clamped(MaxSize(c)) }

  lemma StepKeepsLimit(c: Config, p: Pool, a: Action)
    requires Honest(a) && p.stats == Measured(p.slots) && p.stats.diskBytes <= Limit(c)
    ensures Step(c, p, a).stats.diskBytes <= Limit(c)
  {
  }

  /** Disk usage stays within the configured maximum in every run of honest readers. */
  lemma {:induction false} DiskUsageBounded(c: Config, actions: seq<Action>)
    requires forall i | 0 <= i < |actions| :: Honest(actions[i])
    ensures Run(c, actions).stats.diskBytes <= Limit(c)
  {
    if actions != [] {
      var rest := actions[..|actions| - 1];
      assert forall i | 0 <= i < |rest| :: rest[i] == actions[i];
      DiskUsageBounded(c, rest);
      CountersAreExact(c, rest);
      StepKeepsLimit(c, Run(c, rest), actions[|actions| - 1]);
    }
  }

  /** The disk can be chosen for this declared length at all. */
  predicate DiskEligible(c: Config, declared: int) {
    c.enabled && declared > 0 && declared >= Threshold(c) && declared <= MaxSize(c)
  }

  /** A creation keeps every state within the limit, within the limit, exactly when it is not an
      accepted body longer than a declared length for which the disk can be chosen. */
  lemma KeepsLimitIff(c: Config, size: nat, declared: int, maxBytes: int)
    ensures
      (forall s: Stats | 0 <= s.diskBytes <= Limit(c) ::
         Count(s, CreateFromReader(c, s, size, declared, maxBytes, true)).diskBytes <= Limit(c)) <==>
      !(DiskEligible(c, declared) && declared < size <= maxBytes)
  {
    if DiskEligible(c, declared) && declared < size <= maxBytes {
      var s := Stats(0, MaxSize(c) - declared, 0, 0);
      assert Count(s, CreateFromReader(c, s, size, declared, maxBytes, true)).diskBytes > Limit(c);
    }
  }
}
