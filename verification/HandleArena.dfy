/** The handle arena as a map from handles to resources plus one generation per slot.
    `SlotArena` is the slot vector that refines it. */
module HandleArena {
  import opened Basics
  import opened BridgeTypes

  const MAX_SLOTS: nat := 65535
  const MAX_GENERATION: nat := 32767

  datatype Arena = Arena(generations: seq<nat>, table: Table)

  const EMPTY: Arena := Arena([], map[])

  // ------------------------------------------------------------------ handles

  /** The 32-bit word of a handle. */
  function Pack(h: Handle): int {
    h.generation * 65536 + (h.slot + 1)
  }

  function Unpack(word: nat): Handle {
    Handle(word % 65536 - 1, word / 65536)
  }

  /** Generation 0 marks a slot retired for good. */
  function NextGeneration(generation: nat): nat {
    if generation == MAX_GENERATION then 0 else generation + 1
  }

  /** The handles the arena can issue and their words are in bijection; the words are nonzero
      and fit a positive 32-bit signed integer. */
  lemma PackRoundTrip(h: Handle)
    requires 0 <= h.slot < MAX_SLOTS
    ensures Pack(h) != 0 && Unpack(Pack(h)) == h
    ensures h.generation <= MAX_GENERATION ==> Pack(h) < 0x8000_0000
  {
    assert Pack(h) % 65536 == h.slot + 1;
  }

  lemma UnpackRoundTrip(word: nat)
    ensures Pack(Unpack(word)) == word
  {
  }

  // --------------------------------------------------------------- operations

  predicate Live(a: Arena, index: nat)
    requires index < |a.generations|
  {
    Handle(index, a.generations[index]) in a.table
  }

  predicate Free(a: Arena, index: nat)
    requires index < |a.generations|
  {
    a.generations[index] != 0 && !Live(a, index)
  }

  /** The first reusable slot at or after `from`, or the number of slots. */
  function FirstFree(a: Arena, from: nat): (i: nat)
    requires from <= |a.generations|
    ensures from <= i <= |a.generations|
    ensures i < |a.generations| ==> Free(a, i)
    ensures forall k | from <= k < i :: !Free(a, k)
    decreases |a.generations| - from
  {
    if from == |a.generations| || Free(a, from) then from else FirstFree(a, from + 1)
  }

  predicate CanInsert(a: Arena) {
    FirstFree(a, 0) < |a.generations| || |a.generations| < MAX_SLOTS
  }

  /** The handle the next insert hands out. */
  function NextHandle(a: Arena): Handle
    requires CanInsert(a)
  {
    var i := FirstFree(a, 0);
    Handle(i, if i < |a.generations| then a.generations[i] else 1)
  }

  function Insert(a: Arena, r: Resource): Arena
    requires CanInsert(a)
  {
    var i := FirstFree(a, 0);
    Arena(if i < |a.generations| then a.generations else a.generations + [1],
          a.table[NextHandle(a) := r])
  }

  function Put(a: Arena, handle: Handle, r: Resource): Arena {
    a.(table := a.table[handle := r])
  }

  function Remove(a: Arena, handle: Handle): Arena
    requires 0 <= handle.slot < |a.generations|
  {
    Arena(a.generations[handle.slot := NextGeneration(a.generations[handle.slot])],
          a.table - {handle})
  }

  /** The typed lookup every accessor starts with; `None` means the resource is there. */
  function Refusal(a: Arena, handle: Handle, kind: ResourceKind): Option<BridgeError> {
    if handle !in a.table then Some(InvalidHandle(handle))
    else if a.table[handle].Kind() != kind then Some(WrongResourceType(handle))
    else None
  }

  /** Checked before a resource is removed to make room for its replacement. */
  function ReplacementRefusal(a: Arena, handle: Handle, kind: ResourceKind): Option<BridgeError> {
    if Refusal(a, handle, kind).Some? then Refusal(a, handle, kind)
    else if handle.generation == MAX_GENERATION && !CanInsert(a) then Some(HandleLimit)
    else None
  }

  // ---------------------------------------------------------------- invariant

  predicate WellFormed(a: Arena) {
    && |a.generations| <= MAX_SLOTS
    && (forall i | 0 <= i < |a.generations| :: a.generations[i] <= MAX_GENERATION)
    && (forall h | h in a.table :: Resolves(a, h))
  }

  predicate Resolves(a: Arena, handle: Handle) {
    && 0 <= handle.slot < |a.generations|
    && handle.generation == a.generations[handle.slot]
    && handle.generation != 0
  }

  /** A handle that was handed out and can never be handed out again. */
  predicate Retired(a: Arena, handle: Handle) {
    && 0 <= handle.slot < |a.generations|
    && (|| a.generations[handle.slot] == 0
        || handle.generation < a.generations[handle.slot])
  }

  predicate Issued(a: Arena, handle: Handle) {
    handle in a.table || Retired(a, handle)
  }

  lemma InsertIsFresh(a: Arena, r: Resource)
    requires WellFormed(a) && CanInsert(a)
    ensures !Issued(a, NextHandle(a))
    ensures 0 < Pack(NextHandle(a)) < 0x8000_0000
    ensures WellFormed(Insert(a, r))
    ensures forall h | Issued(a, h) :: Issued(Insert(a, r), h)
    ensures forall h | Retired(a, h) :: Retired(Insert(a, r), h)
  {
    PackRoundTrip(NextHandle(a));
    var b := Insert(a, r);
    forall h | h in b.table ensures Resolves(b, h) {
      assert h in a.table ==> Resolves(a, h);
    }
    assert NextHandle(a) in a.table ==> Resolves(a, NextHandle(a));
  }

  lemma PutKeeps(a: Arena, handle: Handle, r: Resource)
    requires WellFormed(a) && handle in a.table
    ensures WellFormed(Put(a, handle, r))
    ensures forall h :: Issued(Put(a, handle, r), h) <==> Issued(a, h)
    ensures forall h :: Retired(Put(a, handle, r), h) <==> Retired(a, h)
  {
    var b := Put(a, handle, r);
    forall h | h in b.table ensures Resolves(b, h) {
      assert Resolves(a, h);
    }
  }

  lemma RemoveRetires(a: Arena, handle: Handle)
    requires WellFormed(a) && handle in a.table
    ensures Resolves(a, handle)
    ensures WellFormed(Remove(a, handle))
    ensures Retired(Remove(a, handle), handle)
    ensures forall h | Issued(a, h) :: Issued(Remove(a, handle), h)
    ensures forall h | Retired(a, h) :: Retired(Remove(a, handle), h)
  {
    assert Resolves(a, handle);
    var b := Remove(a, handle);
    forall h | h in b.table ensures Resolves(b, h) {
      assert Resolves(a, h);
    }
  }

  /** The reason the `unreachable!` arms of the replacing exports are unreachable, even for a
      slot that retires as its resource is taken. */
  lemma ReplacementFits(a: Arena, handle: Handle, kind: ResourceKind)
    requires WellFormed(a) && ReplacementRefusal(a, handle, kind).None?
    ensures Resolves(a, handle) && CanInsert(Remove(a, handle))
  {
    RemoveRetires(a, handle);
    var b := Remove(a, handle);
    if handle.generation < MAX_GENERATION {
      var next := Handle(handle.slot, handle.generation + 1);
      assert next in b.table ==> Resolves(a, next);
      assert Free(b, handle.slot);
    } else if FirstFree(a, 0) < |a.generations| {
      assert Free(b, FirstFree(a, 0));
    }
  }

  /** The check before a replacement refuses exactly when the replacement would be lost. */
  lemma ReplacementRefusalExact(a: Arena, handle: Handle)
    requires WellFormed(a) && handle in a.table
    ensures Resolves(a, handle)
    ensures ReplacementRefusal(a, handle, a.table[handle].Kind()).None? <==> CanInsert(Remove(a, handle))
  {
    RemoveRetires(a, handle);
    var b := Remove(a, handle);
    if ReplacementRefusal(a, handle, a.table[handle].Kind()).None? {
      ReplacementFits(a, handle, a.table[handle].Kind());
    } else {
      forall k | 0 <= k < |b.generations| && k != handle.slot ensures !Free(b, k) {
        assert !Free(a, k);
      }
    }
  }

  // ------------------------------------------------------------------- budget

  /** Inserts a slot can still accept. */
  function Remaining(a: Arena, i: nat): int
    requires i < |a.generations|
  {
    if a.generations[i] == 0 then 0
    else MAX_GENERATION - a.generations[i] + if Live(a, i) then 0 else 1
  }

  function RemainingUpTo(a: Arena, n: nat): int
    requires n <= |a.generations|
  {
    if n == 0 then 0 else RemainingUpTo(a, n - 1) + Remaining(a, n - 1)
  }

  /** Inserts the whole arena can still accept. */
  function Budget(a: Arena): int
    requires |a.generations| <= MAX_SLOTS
  {
    RemainingUpTo(a, |a.generations|) + (MAX_SLOTS - |a.generations|) * MAX_GENERATION
  }

  lemma {:induction false} RemainingChange(a: Arena, b: Arena, n: nat, k: nat, d: int)
    requires n <= |a.generations| && n <= |b.generations|
    requires k < |a.generations| && k < |b.generations|
    requires Remaining(b, k) == Remaining(a, k) + d
    requires forall i | 0 <= i < n && i != k :: Remaining(b, i) == Remaining(a, i)
    ensures RemainingUpTo(b, n) == RemainingUpTo(a, n) + if k < n then d else 0
  {
    if n > 0 {
      RemainingChange(a, b, n - 1, k, d);
    }
  }

  lemma {:induction false} RemainingNonnegative(a: Arena, n: nat)
    requires WellFormed(a) && n <= |a.generations|
    ensures RemainingUpTo(a, n) >= 0
  {
    if n > 0 {
      RemainingNonnegative(a, n - 1);
    }
  }

  lemma BudgetNonnegative(a: Arena)
    requires WellFormed(a)
    ensures Budget(a) >= 0
  {
    RemainingNonnegative(a, |a.generations|);
  }

  lemma {:induction false} RemainingSame(a: Arena, b: Arena, n: nat)
    requires n <= |a.generations| && n <= |b.generations|
    requires forall i | 0 <= i < n :: Remaining(b, i) == Remaining(a, i)
    ensures RemainingUpTo(b, n) == RemainingUpTo(a, n)
  {
    if n > 0 {
      RemainingSame(a, b, n - 1);
    }
  }

  lemma InsertLeavesOthers(a: Arena, r: Resource, i: nat)
    requires WellFormed(a) && CanInsert(a) && i < |a.generations| && i != FirstFree(a, 0)
    ensures Remaining(Insert(a, r), i) == Remaining(a, i)
  {
  }

  lemma InsertSpendsOne(a: Arena, r: Resource)
    requires WellFormed(a) && CanInsert(a)
    ensures WellFormed(Insert(a, r))
    ensures Budget(Insert(a, r)) == Budget(a) - 1
  {
    InsertIsFresh(a, r);
    var b := Insert(a, r);
    var k := FirstFree(a, 0);
    var n := |a.generations|;
    forall i | 0 <= i < n && i != k ensures Remaining(b, i) == Remaining(a, i) {
      InsertLeavesOthers(a, r, i);
    }
    if k < n {
      RemainingChange(a, b, n, k, -1);
    } else {
      RemainingSame(a, b, n);
      assert Live(b, n);
      assert RemainingUpTo(b, n + 1) == RemainingUpTo(b, n) + (MAX_GENERATION - 1);
    }
  }

  lemma PutSpendsNothing(a: Arena, handle: Handle, r: Resource)
    requires WellFormed(a) && handle in a.table
    ensures Budget(Put(a, handle, r)) == Budget(a)
  {
    var b := Put(a, handle, r);
    forall i | 0 <= i < |a.generations| ensures Remaining(b, i) == Remaining(a, i) {
    }
    RemainingSame(a, b, |a.generations|);
  }

  lemma RemoveSpendsNothing(a: Arena, handle: Handle)
    requires WellFormed(a) && handle in a.table
    ensures Resolves(a, handle)
    ensures Budget(Remove(a, handle)) == Budget(a)
  {
    RemoveRetires(a, handle);
    var b := Remove(a, handle);
    var k := handle.slot;
    forall i | 0 <= i < |a.generations| && i != k ensures Remaining(b, i) == Remaining(a, i) {
    }
    assert Live(b, k) ==> Resolves(a, Handle(k, b.generations[k]));
    RemainingSame(a, b, |a.generations|);
  }
}
