/** The slot vector behind the handles, updated in place. Every method is proved against the map
    from handles to resources that `HandleArena` describes. */
module SlotArena {
  import opened Basics
  import opened BridgeTypes
  import HandleArena

  datatype Slot = Slot(generation: nat, resource: Option<Resource>)

  ghost function Generations(slots: seq<Slot>): (g: seq<nat>)
    ensures |g| == |slots| && forall i | 0 <= i < |slots| :: g[i] == slots[i].generation
  {
    seq(|slots|, i requires 0 <= i < |slots| => slots[i].generation)
  }

  ghost function TableOf(slots: seq<Slot>): Table {
    map i: int | 0 <= i < |slots| && slots[i].resource.Some? ::
      Handle(i, slots[i].generation) := slots[i].resource.value
  }

  ghost function Abstract(slots: seq<Slot>): HandleArena.Arena {
    HandleArena.Arena(Generations(slots), TableOf(slots))
  }

  /** The slot of a handle still holds the resource the handle was given out for. */
  predicate Holds(slots: seq<Slot>, h: Handle) {
    && 0 <= h.slot < |slots| && slots[h.slot].generation == h.generation
    && slots[h.slot].resource.Some?
  }

  predicate SlotsValid(slots: seq<Slot>) {
    && |slots| <= HandleArena.MAX_SLOTS
    && forall i | 0 <= i < |slots| ::
         && slots[i].generation <= HandleArena.MAX_GENERATION
         && (slots[i].resource.Some? ==> slots[i].generation != 0)
  }

  /** Looking a handle up in its slot is looking it up in the map. */
  lemma LookupRefines(slots: seq<Slot>, h: Handle)
    ensures h in TableOf(slots) <==> Holds(slots, h)
    ensures Holds(slots, h) ==> TableOf(slots)[h] == slots[h.slot].resource.value
  {
    if Holds(slots, h) {
      assert h == Handle(h.slot, slots[h.slot].generation);
    }
  }

  lemma LookupsRefine(slots: seq<Slot>)
    ensures forall h :: h in TableOf(slots) <==> Holds(slots, h)
    ensures forall h | Holds(slots, h) :: TableOf(slots)[h] == slots[h.slot].resource.value
  {
    forall h ensures h in TableOf(slots) <==> Holds(slots, h)
             ensures Holds(slots, h) ==> TableOf(slots)[h] == slots[h.slot].resource.value {
      LookupRefines(slots, h);
    }
  }

  lemma ValidRefines(slots: seq<Slot>)
    requires SlotsValid(slots)
    ensures HandleArena.WellFormed(Abstract(slots))
  {
    LookupsRefine(slots);
  }

  predicate Reusable(slot: Slot) {
    slot.resource.None? && slot.generation != 0
  }

  lemma ReusableRefines(slots: seq<Slot>, i: nat)
    requires i < |slots|
    ensures Reusable(slots[i]) <==> HandleArena.Free(Abstract(slots), i)
  {
    LookupRefines(slots, Handle(i, slots[i].generation));
  }

  /** Filling a slot, or refilling it, is one update of the map. */
  lemma FillRefines(slots: seq<Slot>, i: nat, r: Resource)
    requires i < |slots|
    ensures var h := Handle(i, slots[i].generation);
            var later := slots[i := Slot(slots[i].generation, Some(r))];
            && TableOf(later) == TableOf(slots)[h := r]
            && Generations(later) == Generations(slots)
            && |TableOf(later)| == |TableOf(slots)| + if slots[i].resource.None? then 1 else 0
  {
    var h := Handle(i, slots[i].generation);
    var later := slots[i := Slot(slots[i].generation, Some(r))];
    LookupsRefine(slots);
    LookupsRefine(later);
    assert TableOf(later) == TableOf(slots)[h := r];
    assert TableOf(later).Keys == TableOf(slots).Keys + {h};
  }

  lemma PushRefines(slots: seq<Slot>, r: Resource)
    ensures var h := Handle(|slots|, 1);
            var later := slots + [Slot(1, Some(r))];
            && TableOf(later) == TableOf(slots)[h := r]
            && Generations(later) == Generations(slots) + [1]
            && |TableOf(later)| == |TableOf(slots)| + 1
  {
    var h := Handle(|slots|, 1);
    var later := slots + [Slot(1, Some(r))];
    LookupsRefine(slots);
    LookupsRefine(later);
    assert TableOf(later) == TableOf(slots)[h := r];
    assert TableOf(later).Keys == TableOf(slots).Keys + {h};
  }

  /** Emptying a slot under its next generation removes exactly one handle. */
  lemma EmptyRefines(slots: seq<Slot>, h: Handle)
    requires Holds(slots, h)
    ensures var later := slots[h.slot := Slot(HandleArena.NextGeneration(h.generation), None)];
            && Abstract(later) == HandleArena.Remove(Abstract(slots), h)
            && |TableOf(later)| == |TableOf(slots)| - 1
  {
    var later := slots[h.slot := Slot(HandleArena.NextGeneration(h.generation), None)];
    LookupsRefine(slots);
    LookupsRefine(later);
    assert TableOf(later) == TableOf(slots) - {h};
    assert TableOf(later).Keys == TableOf(slots).Keys - {h};
    assert Generations(later) == HandleArena.Remove(Abstract(slots), h).generations;
  }

  lemma {:induction false} LiveFits(slots: seq<Slot>)
    ensures |TableOf(slots)| <= |slots|
  {
    if slots == [] {
      assert TableOf(slots) == map[];
    } else {
      var n := |slots| - 1;
      LiveFits(slots[..n]);
      LookupsRefine(slots);
      LookupsRefine(slots[..n]);
      var h := Handle(n, slots[n].generation);
      assert TableOf(slots).Keys <= TableOf(slots[..n]).Keys + {h};
      SubsetSize(TableOf(slots).Keys, TableOf(slots[..n]).Keys + {h});
    }
  }

  class Arena {
    var slots: seq<Slot>
    var live: nat

    ghost predicate Valid()
      reads this
    {
      SlotsValid(slots) && live == |TableOf(slots)|
    }

    ghost function Value(): HandleArena.Arena
      reads this
    {
      Abstract(slots)
    }

    constructor ()
      ensures Valid() && Value() == HandleArena.EMPTY && live == 0
    {
      slots, live := [], 0;
    }

    /** The first reusable slot, or the number of slots. */
    method FindReusable() returns (index: nat)
      requires Valid()
      ensures index == HandleArena.FirstFree(Value(), 0)
      ensures index <= |slots| && (index < |slots| ==> Reusable(slots[index]))
    {
      index := 0;
      while index < |slots| && !Reusable(slots[index])
        invariant index <= |slots|
        invariant forall k | 0 <= k < index :: !Reusable(slots[k])
      {
        index := index + 1;
      }
      forall k | 0 <= k < |slots| ensures Reusable(slots[k]) <==> HandleArena.Free(Value(), k) {
        ReusableRefines(slots, k);
      }
    }

    method CanInsert() returns (ok: bool)
      requires Valid()
      ensures ok == HandleArena.CanInsert(Value())
    {
      var index := FindReusable();
      ok := index < |slots| || |slots| < HandleArena.MAX_SLOTS;
    }

    /** Succeeds exactly when `CanInsert` holds; `live` never outgrows the slots. */
    method Insert(r: Resource) returns (result: Result<Handle>)
      requires Valid()
      modifies this
      ensures Valid() && live <= HandleArena.MAX_SLOTS
      ensures var a := old(Value());
              if HandleArena.CanInsert(a) then
                result == Ok(HandleArena.NextHandle(a)) && Value() == HandleArena.Insert(a, r) && live == old(live) + 1
              else result == Err(HandleLimit) && Value() == a && live == old(live)
    {
      hide TableOf;
      hide Generations;
      var index := FindReusable();
      LiveFits(slots);
      if index < |slots| {
        var slot := slots[index];
        FillRefines(slots, index, r);
        slots := slots[index := slot.(resource := Some(r))];
        live := live + 1;
        result := Ok(Handle(index, slot.generation));
      } else if |slots| == HandleArena.MAX_SLOTS {
        result := Err(HandleLimit);
      } else {
        PushRefines(slots, r);
        result := Ok(Handle(|slots|, 1));
        slots := slots + [Slot(1, Some(r))];
        live := live + 1;
      }
      LiveFits(slots);
    }

    /** Follows a handle to its resource: both the shared and the exclusive lookup of the source. */
    method Lookup(handle: Handle) returns (result: Result<Resource>)
      requires Valid()
      ensures result == if handle in Value().table then Ok(Value().table[handle]) else Err(InvalidHandle(handle))
    {
      LookupRefines(slots, handle);
      if handle.slot < 0 || handle.generation == 0 || |slots| <= handle.slot {
        return Err(InvalidHandle(handle));
      }
      var slot := slots[handle.slot];
      if slot.generation != handle.generation || slot.resource.None? {
        return Err(InvalidHandle(handle));
      }
      return Ok(slot.resource.value);
    }

    method LookupKind(handle: Handle, kind: ResourceKind) returns (result: Result<Resource>)
      requires Valid()
      ensures match HandleArena.Refusal(Value(), handle, kind)
              case Some(e) => result == Err(e)
              case None => handle in Value().table && result == Ok(Value().table[handle])
    {
      result := Lookup(handle);
      if result.Ok? && result.value.Kind() != kind {
        result := Err(WrongResourceType(handle));
      }
    }

    /** Writes through an exclusive reference that a lookup gave out. */
    method Assign(handle: Handle, r: Resource)
      requires Valid() && handle in Value().table
      modifies this
      ensures Valid() && live == old(live)
      ensures Value() == HandleArena.Put(old(Value()), handle, r)
    {
      LookupRefines(slots, handle);
      FillRefines(slots, handle.slot, r);
      slots := slots[handle.slot := slots[handle.slot].(resource := Some(r))];
    }

    method EnsureInsertCapacityAfterTake(handle: Handle, expected: ResourceKind) returns (refusal: Option<BridgeError>)
      requires Valid()
      ensures refusal == HandleArena.ReplacementRefusal(Value(), handle, expected)
    {
      var found := LookupKind(handle, expected);
      if found.Err? {
        return Some(found.error);
      }
      if handle.generation == HandleArena.MAX_GENERATION {
        var room := CanInsert();
        if !room {
          return Some(HandleLimit);
        }
      }
      return None;
    }

    method Take(handle: Handle, expected: ResourceKind) returns (result: Result<Resource>)
      requires Valid()
      modifies this
      ensures Valid()
      ensures match HandleArena.Refusal(old(Value()), handle, expected)
              case Some(e) => result == Err(e) && Value() == old(Value()) && live == old(live)
              case None =>
                && HandleArena.Resolves(old(Value()), handle)
                && handle in old(Value()).table && result == Ok(old(Value()).table[handle])
                && Value() == HandleArena.Remove(old(Value()), handle) && live == old(live) - 1
    {
      hide TableOf;
      hide Generations;
      ValidRefines(slots);
      LookupRefines(slots, handle);
      result := LookupKind(handle, expected);
      if result.Ok? {
        EmptyRefines(slots, handle);
        slots := slots[handle.slot := Slot(HandleArena.NextGeneration(handle.generation), None)];
        live := live - 1;
      }
    }

    method Clear()
      modifies this
      ensures Valid() && Value() == HandleArena.EMPTY && live == 0
    {
      slots, live := [], 0;
    }
  }
}
