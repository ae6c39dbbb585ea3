/** The stub's objects as they are: each has its own pointer fields, which the calls read, move and
    clear in place. `Stub` is the heap they live in; its ghost registry ties the objects to the steps
    of `NativeHeap`, so that a call that touched a second object by aliasing would not verify. */
module NativeStub {
  import opened Basics
  import opened NativeHeap

  /** A result or a typed object. A field that is `None` is null. */
  class ExternalObject {
    ghost const id: nat
    const kind: Kind
    var ok: bool
    var error: Option<nat>
    var buffer: Option<nat>
    var metadata: Option<nat>
    var entry: Option<nat>
    var lister: Option<nat>
    var reader: Option<nat>
    var readStream: Option<nat>
    var writer: Option<nat>
    var copier: Option<nat>
    var presigned: Option<nat>
    var asyncTask: Option<nat>
    var asyncReadStream: Option<nat>
    var asyncWriter: Option<nat>
    var info: Option<nat>
    var operator: Option<nat>

    constructor (kind: Kind, ghost id: nat)
      ensures this.kind == kind && this.id == id && ok && forall s :: Get(s).None?
    {
      this.kind, this.id, ok := kind, id, true;
      error, buffer, metadata, entry, lister, reader, readStream := None, None, None, None, None, None, None;
      writer, copier, presigned, asyncTask, asyncReadStream, asyncWriter := None, None, None, None, None, None;
      info, operator := None, None;
    }

    function Get(s: Slot): Option<nat>
      reads this
    {
      match s
      case ErrorSlot => error
      case BufferSlot => buffer
      case MetadataSlot => metadata
      case EntrySlot => entry
      case ListerSlot => lister
      case ReaderSlot => reader
      case ReadStreamSlot => readStream
      case WriterSlot => writer
      case CopierSlot => copier
      case PresignSlot => presigned
      case AsyncTaskSlot => asyncTask
      case AsyncReadStreamSlot => asyncReadStream
      case AsyncWriterSlot => asyncWriter
      case InfoSlot => info
      case OperatorSlot => operator
    }

    /** The fields that are set. */
    ghost function Fields(): map<Slot, nat>
      reads this
    {
      map s: Slot | s in ALL_SLOTS && Get(s).Some? :: Get(s).value
    }

    ghost function View(): External
      reads this
    {
      External(kind, ok, Fields())
    }

    lemma FieldsAt()
      ensures forall s :: s in Fields() <==> Get(s).Some?
      ensures forall s | Get(s).Some? :: s in Fields() && Fields()[s] == Get(s).value
    {
      forall s ensures s in ALL_SLOTS { AllSlots(s); }
    }

    method Assign(s: Slot, p: Option<nat>)
      modifies this
      ensures Get(s) == p && ok == old(ok) && forall t | t != s :: Get(t) == old(Get(t))
    {
      match s
      case ErrorSlot => error := p;
      case BufferSlot => buffer := p;
      case MetadataSlot => metadata := p;
      case EntrySlot => entry := p;
      case ListerSlot => lister := p;
      case ReaderSlot => reader := p;
      case ReadStreamSlot => readStream := p;
      case WriterSlot => writer := p;
      case CopierSlot => copier := p;
      case PresignSlot => presigned := p;
      case AsyncTaskSlot => asyncTask := p;
      case AsyncReadStreamSlot => asyncReadStream := p;
      case AsyncWriterSlot => asyncWriter := p;
      case InfoSlot => info := p;
      case OperatorSlot => operator := p;
    }

    method Set(s: Slot, p: Option<nat>)
      modifies this
      ensures Get(s) == p && ok == old(ok) && forall t | t != s :: Get(t) == old(Get(t))
      ensures Fields() == if p.Some? then old(Fields())[s := p.value] else old(Fields()) - {s}
    {
      hide Get;
      hide Fields;
      FieldsAt();
      Assign(s, p);
      FieldsAt();
      assert Fields() == if p.Some? then old(Fields())[s := p.value] else old(Fields()) - {s};
    }

    method Spoil()
      modifies this`ok
      ensures !ok && (forall s :: Get(s) == old(Get(s))) && Fields() == old(Fields())
    {
      hide Fields;
      FieldsAt();
      ok := false;
      FieldsAt();
      assert Fields() == old(Fields());
    }
  }

  class Stub {
    ghost var objects: map<nat, ExternalObject>
    ghost var next: nat
    ghost var issued: set<nat>
    ghost var freed: multiset<nat>

    /** Every object is registered under its own name, so no two names are the same object. */
    ghost predicate Valid()
      reads this, objects.Values
    {
      forall o | o in objects :: objects[o].id == o && o < next
    }

    ghost predicate Owns(x: ExternalObject)
      reads this
    {
      x.id in objects && objects[x.id] == x
    }

    ghost function Views(): map<nat, External>
      reads this, objects.Values
    {
      map o | o in objects :: objects[o].View()
    }

    ghost function Value(): Heap
      reads this, objects.Values
    {
      Heap(Views(), next, issued, freed)
    }

    constructor ()
      ensures Valid() && Value() == EMPTY
    {
      objects, next, issued, freed := map[], 0, {}, multiset{};
      new;
      assert Views() == map[];
    }

    /** An object with nothing in it, as every take makes before it looks at the result. */
    method NewObject(kind: Kind) returns (x: ExternalObject)
      requires Valid()
      modifies this
      ensures Valid() && fresh(x) && x.kind == kind && x.id == old(next) && objects == old(objects)[x.id := x]
      ensures x.ok && (forall s :: x.Get(s).None?)
      ensures Value() == Barren(old(Value()), kind)
    {
      hide ExternalObject.Get;
      hide ExternalObject.Fields;
      x := new ExternalObject(kind, next);
      objects := objects[next := x];
      next := next + 1;
      x.FieldsAt();
      assert x.Fields() == map[];
      assert Views() == old(Views())[old(next) := External(kind, true, map[])];
    }

    /** Writes one field of one object; no other object changes. */
    method Put(x: ExternalObject, slot: Slot, p: Option<nat>)
      requires Valid() && Owns(x)
      modifies x
      ensures Valid() && x.Get(slot) == p && x.ok == old(x.ok) && forall s | s != slot :: x.Get(s) == old(x.Get(s))
      ensures x.Fields() == if p.Some? then old(x.Fields())[slot := p.value] else old(x.Fields()) - {slot}
      ensures Views() == old(Views())[x.id := External(x.kind, x.ok, x.Fields())]
    {
      hide ExternalObject.Get;
      hide ExternalObject.Fields;
      x.Set(slot, p);
      assert forall o | o in objects && o != x.id :: objects[o] != x && objects[o].View() == old(objects[o].View());
    }

    /** Frees a field and clears it, if it is set. */
    method FreeField(x: ExternalObject, slot: Slot)
      requires Valid() && Owns(x)
      modifies this`freed, x
      ensures Valid() && x.Get(slot).None? && x.ok == old(x.ok) && forall s | s != slot :: x.Get(s) == old(x.Get(s))
      ensures Value() == FreeOne(old(Value()), x.id, slot)
    {
      hide ExternalObject.Get;
      hide ExternalObject.Fields;
      x.FieldsAt();
      var p := x.Get(slot);
      if p.Some? {
        Put(x, slot, None);
        freed := freed + multiset{p.value};
      }
    }

    /** The tests of a finalizer, one after the other: afterwards none of the slots is set. */
    method FreeFields(x: ExternalObject, slots: seq<Slot>)
      requires Valid() && Owns(x)
      modifies this`freed, x
      ensures Valid() && x.ok == old(x.ok)
      ensures forall s :: x.Get(s) == if s in slots then None else old(x.Get(s))
      ensures Value() == FreeAll(old(Value()), x.id, slots)
    {
      hide ExternalObject.Get;
      hide ExternalObject.Fields;
      assert slots[0..] == slots;
      for i := 0 to |slots|
        invariant Valid() && Owns(x) && x.ok == old(x.ok)
        invariant forall s :: x.Get(s) == if s in slots[..i] then None else old(x.Get(s))
        invariant FreeAll(Value(), x.id, slots[i..]) == FreeAll(old(Value()), x.id, slots)
      {
        assert slots[i..][1..] == slots[i + 1..];
        assert slots[..i + 1] == slots[..i] + [slots[i]];
        FreeField(x, slots[i]);
      }
      assert slots[|slots|..] == [] && slots[..|slots|] == slots;
    }

    /** Spoils the status of a result; its pointers stay. */
    method Spoil(x: ExternalObject)
      requires Valid() && Owns(x)
      modifies x`ok
      ensures Valid() && !x.ok && (forall s :: x.Get(s) == old(x.Get(s))) && Value() == NativeHeap.Spoil(old(Value()), x.id)
    {
      hide ExternalObject.Get;
      hide ExternalObject.Fields;
      x.Spoil();
      assert forall o | o in objects && o != x.id :: objects[o].View() == old(objects[o].View());
    }

    /** Moves one field into another object that does not have it. */
    method MoveField(from: ExternalObject, to: ExternalObject, slot: Slot)
      requires Valid() && Owns(from) && Owns(to) && from != to && from.Get(slot).Some? && to.Get(slot).None?
      modifies from, to
      ensures Valid() && from.Get(slot).None? && to.Get(slot) == old(from.Get(slot))
      ensures from.ok == old(from.ok) && to.ok == old(to.ok)
      ensures forall s | s != slot :: from.Get(s) == old(from.Get(s)) && to.Get(s) == old(to.Get(s))
      ensures from.Fields() == old(from.Fields()) - {slot}
      ensures to.Fields() == old(to.Fields())[slot := old(from.Get(slot)).value]
      ensures Views() == old(Views())[to.id := External(to.kind, to.ok, to.Fields())]
                                     [from.id := External(from.kind, from.ok, from.Fields())]
    {
      hide ExternalObject.Get;
      hide ExternalObject.Fields;
      hide Views;
      Put(to, slot, from.Get(slot));
      Put(from, slot, None);
    }

    /** The typed takes: the pointer leaves the result and is in the new object, or the result keeps it. */
    method TakeFromResult(result: ExternalObject?, slot: Slot, valid: bool) returns (x: ExternalObject)
      requires Valid() && Takable(slot) && (result != null ==> Owns(result) && result.kind == ResultObject)
      modifies this, result
      ensures Valid() && fresh(x) && x.kind == HolderKind(slot)
      ensures var moved := result != null && old(result.ok) && valid && old(result.Get(slot)).Some?;
              && x.Get(slot) == (if moved then old(result.Get(slot)) else None)
              && (result != null ==> result.ok == moved && result.Get(slot) == if moved then None else old(result.Get(slot)))
      ensures Value() == Take(old(Value()), if result == null then old(next) else result.id, slot, valid)
    {
      hide ExternalObject.Get;
      hide ExternalObject.Fields;
      hide HolderKind;
      hide Takable;
      x := NewObject(HolderKind(slot));
      if result == null {
        return;
      }
      result.FieldsAt();
      ghost var h := old(Value());
      assert h.live[result.id] == result.View() && Views() == h.live[h.next := External(HolderKind(slot), true, map[])];
      hide Views;
      if !result.ok || result.Get(slot).None? || !valid {
        Spoil(result);
        SpoilCommutes(h, result.id, HolderKind(slot));
        return;
      }
      x.FieldsAt();
      assert x.Fields() == map[];
      ghost var p := result.Get(slot).value;
      MoveField(result, x, slot);
      MovedOne(h, result.id, slot, HolderKind(slot), Value(), p);
    }

    lemma MovedOne(h: Heap, o: nat, slot: Slot, kind: Kind, later: Heap, p: nat)
      requires o in h.live && o != h.next && slot in h.live[o].fields && h.live[o].fields[slot] == p
      requires later.live == h.live[h.next := External(kind, true, map[])]
                                   [h.next := External(kind, true, map[slot := p])]
                                   [o := h.live[o].(fields := h.live[o].fields - {slot})]
      requires later.next == h.next + 1 && later.issued == h.issued && later.freed == h.freed
      ensures later == Transfer(h, o, {slot}, kind)
    {
      var t := Transfer(h, o, {slot}, kind).live;
      assert t[h.next].fields == map[slot := p];
      assert later.live == t;
    }

    /** Making the new object and spoiling the status touch different objects. */
    lemma SpoilCommutes(h: Heap, o: nat, kind: Kind)
      requires o in h.live && o != h.next
      ensures NativeHeap.Spoil(Barren(h, kind), o) == Barren(NativeHeap.Spoil(h, o), kind)
    {
      assert h.live[h.next := External(kind, true, map[])][o := h.live[o].(ok := false)]
          == h.live[o := h.live[o].(ok := false)][h.next := External(kind, true, map[])];
    }

    /** The heap after fields moved from `o` into a new object is the transfer. */
    lemma MovedOut(h: Heap, o: nat, slots: set<Slot>, kind: Kind, later: Heap, moved: map<Slot, nat>)
      requires o in h.live && o != h.next
      requires moved == map s | s in h.live[o].fields && s in slots :: h.live[o].fields[s]
      requires later.live == h.live[h.next := External(kind, true, map[])]
                                   [h.next := External(kind, true, moved)][o := h.live[o].(fields := h.live[o].fields - slots)]
      requires later.next == h.next + 1 && later.issued == h.issued && later.freed == h.freed
      ensures later == Transfer(h, o, slots, kind)
    {
      assert later.live == Transfer(h, o, slots, kind).live;
    }

    /** Operator and info move together, or neither does. */
    method TakeOperatorFromResult(result: ExternalObject?) returns (x: ExternalObject)
      requires Valid() && (result != null ==> Owns(result) && result.kind == ResultObject)
      modifies this, result
      ensures Valid() && fresh(x) && x.kind == OperatorObject
      ensures var moved := result != null && old(result.ok) && old(result.Get(OperatorSlot)).Some? && old(result.Get(InfoSlot)).Some?;
              && x.Get(OperatorSlot) == (if moved then old(result.Get(OperatorSlot)) else None)
              && x.Get(InfoSlot) == (if moved then old(result.Get(InfoSlot)) else None)
              && (result != null ==> && result.ok == moved
                                     && result.Get(OperatorSlot) == (if moved then None else old(result.Get(OperatorSlot)))
                                     && result.Get(InfoSlot) == (if moved then None else old(result.Get(InfoSlot))))
      ensures Value() == TakeOperator(old(Value()), if result == null then old(next) else result.id)
    {
      hide ExternalObject.Get;
      hide ExternalObject.Fields;
      x := NewObject(OperatorObject);
      if result == null {
        return;
      }
      result.FieldsAt();
      ghost var h := old(Value());
      assert h.live[result.id] == result.View() && Views() == h.live[h.next := External(OperatorObject, true, map[])];
      hide Views;
      if !result.ok || result.Get(OperatorSlot).None? || result.Get(InfoSlot).None? {
        Spoil(result);
        SpoilCommutes(h, result.id, OperatorObject);
        return;
      }
      x.FieldsAt();
      assert x.Fields() == map[];
      ghost var p, i := result.Get(OperatorSlot).value, result.Get(InfoSlot).value;
      MoveField(result, x, OperatorSlot);
      assert x.Fields() == map[OperatorSlot := p];
      MoveField(result, x, InfoSlot);
      assert x.Fields() == map[OperatorSlot := p, InfoSlot := i];
      MovedBoth(h, result.id, Value(), p, i);
    }

    /** The heap after operator and info moved one after the other is the transfer of both. */
    lemma MovedBoth(h: Heap, o: nat, later: Heap, p: nat, i: nat)
      requires o in h.live && o != h.next
      requires var f := h.live[o].fields;
               && OperatorSlot in f && InfoSlot in f && f[OperatorSlot] == p && f[InfoSlot] == i
               && later.live == h.live[h.next := External(OperatorObject, true, map[])]
                                      [h.next := External(OperatorObject, true, map[OperatorSlot := p])]
                                      [o := h.live[o].(fields := f - {OperatorSlot})]
                                      [h.next := External(OperatorObject, true, map[OperatorSlot := p, InfoSlot := i])]
                                      [o := h.live[o].(fields := f - {OperatorSlot} - {InfoSlot})]
      requires later.next == h.next + 1 && later.issued == h.issued && later.freed == h.freed
      ensures later == Transfer(h, o, {OperatorSlot, InfoSlot}, OperatorObject)
    {
      var f := h.live[o].fields;
      assert f - {OperatorSlot} - {InfoSlot} == f - {OperatorSlot, InfoSlot};
      var moved := map s | s in f && s in {OperatorSlot, InfoSlot} :: f[s];
      assert moved.Keys == {OperatorSlot, InfoSlot} && moved[OperatorSlot] == p && moved[InfoSlot] == i;
      assert moved == map[OperatorSlot := p, InfoSlot := i];
      var t := Transfer(h, o, {OperatorSlot, InfoSlot}, OperatorObject).live;
      assert t[h.next].fields == moved;
      assert later.live == t;
    }

    /** The entry pointer moves into a metadata object. */
    method TakeMetadataOfEntry(entry: ExternalObject?) returns (x: ExternalObject)
      requires Valid() && (entry != null ==> Owns(entry) && entry.kind == Holder(EntrySlot))
      modifies this, entry
      ensures Valid() && fresh(x) && x.kind == MetadataObject && x.Get(MetadataSlot).None?
      ensures if entry == null then x.Get(EntrySlot).None? else x.Get(EntrySlot) == old(entry.Get(EntrySlot)) && entry.Get(EntrySlot).None?
      ensures Value() == EntryTakeMetadata(old(Value()), if entry == null then old(next) else entry.id)
    {
      hide ExternalObject.Get;
      hide ExternalObject.Fields;
      x := NewObject(MetadataObject);
      if entry == null {
        return;
      }
      entry.FieldsAt();
      x.FieldsAt();
      ghost var h := old(Value());
      if entry.Get(EntrySlot).Some? {
        MoveField(entry, x, EntrySlot);
      }
      ghost var moved := map s | s in h.live[entry.id].fields && s == EntrySlot :: h.live[entry.id].fields[s];
      assert x.Fields() == moved;
      assert entry.Fields() == h.live[entry.id].fields - {EntrySlot};
      MovedOut(h, entry.id, {EntrySlot}, MetadataObject, Value(), moved);
    }

    /** Frees the buffer exactly when its bytes were copied out of a good result; else the result keeps
        it and is spoiled. */
    method TakeBytesFromResult(result: ExternalObject?, copied: bool)
      requires Valid() && (result != null ==> Owns(result) && result.kind == ResultObject)
      modifies this`freed, result
      ensures Valid()
      ensures result != null ==>
                var taken := old(result.ok) && old(result.Get(BufferSlot)).Some? && copied;
                && result.Get(BufferSlot) == (if taken then None else old(result.Get(BufferSlot))) && result.ok == taken
                && freed == old(freed) + (if taken then multiset{old(result.Get(BufferSlot)).value} else multiset{})
      ensures Value() == TakeBytes(old(Value()), if result == null then next else result.id, copied)
    {
      hide ExternalObject.Get;
      hide ExternalObject.Fields;
      if result == null {
        return;
      }
      result.FieldsAt();
      if !result.ok || result.Get(BufferSlot).None? || !copied {
        Spoil(result);
        return;
      }
      FreeField(result, BufferSlot);
    }

    /** What an object holds is among what its finalizer looks at. */
    lemma OwnSlots(x: ExternalObject)
      requires Valid() && Owns(x) && Shaped(Value())
      ensures forall s | x.Get(s).Some? :: s in SlotsOf(x.kind)
    {
      hide ExternalObject.Get;
      hide ExternalObject.Fields;
      x.FieldsAt();
      assert x.View() == Value().live[x.id];
    }

    /** What releasing and finalizing share: every pointer the object holds is freed and cleared. */
    method FreeEverything(x: ExternalObject)
      requires Valid() && Owns(x) && Shaped(Value())
      modifies this`freed, x
      ensures Valid() && forall s :: x.Get(s).None?
      ensures Value() == FreeAll(old(Value()), x.id, SlotsOf(x.kind))
    {
      hide ExternalObject.Get;
      hide ExternalObject.Fields;
      OwnSlots(x);
      hide Shaped;
      hide SlotsOf;
      hide FreeAll;
      FreeFields(x, SlotsOf(x.kind));
    }

    lemma KindOf(x: ExternalObject)
      requires Valid() && Owns(x)
      ensures x.id in Value().live && Value().live[x.id].kind == x.kind
    {
    }

    /** Leaves the object without a pointer, and usable. */
    method ReleaseObject(x: ExternalObject?)
      requires Valid() && Shaped(Value()) && (x != null ==> Owns(x) && Releasable(x.kind))
      modifies this`freed, x
      ensures Valid() && (x != null ==> Owns(x) && forall s :: x.Get(s).None?)
      ensures Value() == Release(old(Value()), if x == null then next else x.id)
    {
      if x == null {
        return;
      }
      KindOf(x);
      hide *;
      FreeEverything(x);
    }

    /** The operator is freed and its info stays readable. */
    method CloseOperator(x: ExternalObject?)
      requires Valid() && (x != null ==> Owns(x) && x.kind == OperatorObject)
      modifies this`freed, x
      ensures Valid() && (x != null ==> x.Get(OperatorSlot).None? && x.Get(InfoSlot) == old(x.Get(InfoSlot)))
      ensures Value() == Close(old(Value()), if x == null then next else x.id)
    {
      hide ExternalObject.Get;
      hide ExternalObject.Fields;
      if x == null {
        return;
      }
      FreeField(x, OperatorSlot);
    }

    /** The collector's last call on an object: it is gone, and holds nothing that was not freed. */
    method FinalizeObject(x: ExternalObject)
      requires Valid() && Owns(x) && Shaped(Value())
      modifies this, x
      ensures Valid() && x.id !in objects && forall s :: x.Get(s).None?
      ensures Value() == Finalize(old(Value()), x.id)
    {
      KindOf(x);
      ghost var h := Value();
      FinalizesAs(h, x.id, x.kind);
      hide *;
      FreeEverything(x);
      Unregister(x);
    }

    lemma FinalizesAs(h: Heap, o: nat, kind: Kind)
      requires o in h.live && h.live[o].kind == kind
      ensures Finalize(h, o) == var f := FreeAll(h, o, SlotsOf(kind)); f.(live := f.live - {o})
    {
    }

    ghost method Unregister(x: ExternalObject)
      requires Valid() && Owns(x)
      modifies this`objects
      ensures Valid() && x.id !in objects && Value() == old(Value()).(live := old(Value()).live - {x.id})
    {
      objects := objects - {x.id};
    }
  }
}
