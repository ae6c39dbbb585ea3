/** Who owns which native handle. Results and typed external objects hold pointers in their fields;
    takes move them, releases, closes and finalizers free them. The API table is taken to load the
    same way every time. */
module NativeHeap {
  datatype Slot =
    | ErrorSlot | BufferSlot | MetadataSlot | EntrySlot | ListerSlot | ReaderSlot | ReadStreamSlot | WriterSlot
    | CopierSlot | PresignSlot | AsyncTaskSlot | AsyncReadStreamSlot | AsyncWriterSlot | InfoSlot | OperatorSlot

  datatype Kind = ResultObject | OperatorObject | MetadataObject | Holder(slot: Slot)

  /** An object of the MoonBit heap with its native pointers; a null field is an absent slot. */
  datatype External = External(kind: Kind, ok: bool, fields: map<Slot, nat>)

  /** `live` are the objects not yet finalized, `issued` the pointers the native library gave out. */
  datatype Heap = Heap(live: map<nat, External>, next: nat, issued: set<nat>, freed: multiset<nat>)

  const EMPTY: Heap := Heap(map[], 0, {}, multiset{})

  /** The slots a finalizer looks at, in its order. */
  const ALL_SLOTS: seq<Slot> :=
    [ErrorSlot, BufferSlot, MetadataSlot, EntrySlot, ListerSlot, ReaderSlot, ReadStreamSlot, WriterSlot, CopierSlot,
     PresignSlot, AsyncTaskSlot, AsyncReadStreamSlot, AsyncWriterSlot, InfoSlot, OperatorSlot]

  function SlotsOf(kind: Kind): seq<Slot> {
    match kind
    case ResultObject => ALL_SLOTS
    case OperatorObject => [InfoSlot, OperatorSlot]
    case MetadataObject => [MetadataSlot, EntrySlot]
    case Holder(slot) => [slot]
  }

  // --------------------------------------------------------------------- steps

  predicate FreshFields(h: Heap, fields: map<Slot, nat>) {
    && (forall s | s in fields :: fields[s] !in h.issued)
    && (forall s, t | s in fields && t in fields && fields[s] == fields[t] :: s == t)
  }

  function Allocate(h: Heap, x: External): Heap {
    h.(live := h.live[h.next := x], next := h.next + 1)
  }

  /** A native call fills the fields of a new result. */
  function Start(h: Heap, fields: map<Slot, nat>, ok: bool): Heap {
    if FreshFields(h, fields)
    then Allocate(h, External(ResultObject, ok, fields)).(issued := h.issued + fields.Values)
    else h
  }

  /** A new object that takes over the listed fields of `o`. */
  function Transfer(h: Heap, o: nat, slots: set<Slot>, kind: Kind): Heap
    requires o in h.live
  {
    var x := h.live[o];
    Allocate(h.(live := h.live[o := x.(fields := x.fields - slots)]),
             External(kind, true, map s | s in x.fields && s in slots :: x.fields[s]))
  }

  function HolderKind(slot: Slot): Kind {
    if slot == MetadataSlot then MetadataObject else Holder(slot)
  }

  /** An object with nothing in it, as every take makes before it looks at the result. */
  function Barren(h: Heap, kind: Kind): Heap {
    Allocate(h, External(kind, true, map[]))
  }

  /** A take that finds something wrong spoils the status and leaves the pointer with the result. */
  function Spoil(h: Heap, o: nat): Heap
    requires o in h.live
  {
    h.(live := h.live[o := h.live[o].(ok := false)])
  }

  /** The slots that have a typed take of their own. */
  predicate Takable(slot: Slot) {
    slot !in {ErrorSlot, BufferSlot, InfoSlot, OperatorSlot}
  }

  /** The typed takes. `valid` stands for the snapshot checks some of them make. A null result is
      an object that is not live. */
  function Take(h: Heap, o: nat, slot: Slot, valid: bool): Heap {
    if !Takable(slot) then h
    else if o !in h.live || !h.live[o].kind.ResultObject? then Barren(h, HolderKind(slot))
    else if h.live[o].ok && slot in h.live[o].fields && valid then Transfer(h, o, {slot}, HolderKind(slot))
    else Barren(Spoil(h, o), HolderKind(slot))
  }

  function TakeOperator(h: Heap, o: nat): Heap {
    if o !in h.live || !h.live[o].kind.ResultObject? then Barren(h, OperatorObject)
    else if h.live[o].ok && OperatorSlot in h.live[o].fields && InfoSlot in h.live[o].fields
    then Transfer(h, o, {OperatorSlot, InfoSlot}, OperatorObject)
    else Barren(Spoil(h, o), OperatorObject)
  }

  function EntryTakeMetadata(h: Heap, o: nat): Heap {
    if o in h.live && h.live[o].kind == Holder(EntrySlot) then Transfer(h, o, {EntrySlot}, MetadataObject)
    else Barren(h, MetadataObject)
  }

  function FreeOne(h: Heap, o: nat, slot: Slot): Heap {
    if o in h.live && slot in h.live[o].fields
    then h.(live := h.live[o := h.live[o].(fields := h.live[o].fields - {slot})],
            freed := h.freed + multiset{h.live[o].fields[slot]})
    else h
  }

  function FreeAll(h: Heap, o: nat, slots: seq<Slot>): Heap
    decreases |slots|
  {
    if slots == [] then h else FreeAll(FreeOne(h, o, slots[0]), o, slots[1..])
  }

  /** Copies the bytes out and frees the buffer, unless a step of the copy goes wrong. */
  function TakeBytes(h: Heap, o: nat, copied: bool): Heap {
    if o !in h.live || !h.live[o].kind.ResultObject? then h
    else if h.live[o].ok && BufferSlot in h.live[o].fields && copied then FreeOne(h, o, BufferSlot)
    else Spoil(h, o)
  }

  predicate Releasable(kind: Kind) {
    kind == ResultObject || kind == Holder(EntrySlot) || kind == Holder(PresignSlot)
  }

  /** The explicit releases: of results, entries and presigned requests. */
  function Release(h: Heap, o: nat): Heap {
    if o in h.live && Releasable(h.live[o].kind)
    then FreeAll(h, o, SlotsOf(h.live[o].kind))
    else h
  }

  function Close(h: Heap, o: nat): Heap {
    if o in h.live && h.live[o].kind.OperatorObject? then FreeOne(h, o, OperatorSlot) else h
  }

  /** The collector finalizes an object once, when nothing refers to it any more. */
  function Finalize(h: Heap, o: nat): Heap {
    if o !in h.live then h
    else
      var freed := FreeAll(h, o, SlotsOf(h.live[o].kind));
      freed.(live := freed.live - {o})
  }

  datatype Event =
    | EStart(fields: map<Slot, nat>, ok: bool)
    | ETake(object: nat, slot: Slot, valid: bool)
    | ETakeOperator(object: nat)
    | ETakeBytes(object: nat, copied: bool)
    | EEntryTakeMetadata(object: nat)
    | ERelease(object: nat)
    | EClose(object: nat)
    | EFinalize(object: nat)

  function Apply(h: Heap, e: Event): Heap {
    match e
    case EStart(fields, ok) => Start(h, fields, ok)
    case ETake(o, slot, valid) => Take(h, o, slot, valid)
    case ETakeOperator(o) => TakeOperator(h, o)
    case ETakeBytes(o, copied) => TakeBytes(h, o, copied)
    case EEntryTakeMetadata(o) => EntryTakeMetadata(h, o)
    case ERelease(o) => Release(h, o)
    case EClose(o) => Close(h, o)
    case EFinalize(o) => Finalize(h, o)
  }

  function Run(h: Heap, events: seq<Event>): Heap
    decreases |events|
  {
    if events == [] then h else Run(Apply(h, events[0]), events[1..])
  }

  // ----------------------------------------------------------------- invariant

  /** Field `s` of the live object `o` holds pointer `p`. */
  predicate At(h: Heap, o: nat, s: Slot, p: nat) {
    o in h.live && s in h.live[o].fields && h.live[o].fields[s] == p
  }

  ghost predicate HeldSomewhere(h: Heap, p: nat) {
    exists o, s :: At(h, o, s, p)
  }

  /** Each issued pointer is in exactly one field, or freed once. */
  ghost predicate Linear(h: Heap) {
    && (forall o, s, p | At(h, o, s, p) :: p in h.issued && p !in h.freed)
    && (forall o, s, o', s', p | At(h, o, s, p) && At(h, o', s', p) :: o == o' && s == s')
    && (forall p | p in h.freed :: p in h.issued && h.freed[p] == 1)
    && (forall p | p in h.issued :: p in h.freed || HeldSomewhere(h, p))
  }

  /** Objects hold only what their finalizer frees; a metadata object holds one pointer at most. */
  ghost predicate Shaped(h: Heap) {
    forall o | o in h.live ::
      && o < h.next
      && (forall s | s in h.live[o].fields :: s in SlotsOf(h.live[o].kind))
      && (h.live[o].kind.MetadataObject? ==> !(MetadataSlot in h.live[o].fields && EntrySlot in h.live[o].fields))
  }

  ghost predicate Sound(h: Heap) {
    Linear(h) && Shaped(h)
  }

  lemma AllSlots(s: Slot)
    ensures s in ALL_SLOTS
  {
    match s {
      case ErrorSlot => assert ALL_SLOTS[0] == s;
      case BufferSlot => assert ALL_SLOTS[1] == s;
      case MetadataSlot => assert ALL_SLOTS[2] == s;
      case EntrySlot => assert ALL_SLOTS[3] == s;
      case ListerSlot => assert ALL_SLOTS[4] == s;
      case ReaderSlot => assert ALL_SLOTS[5] == s;
      case ReadStreamSlot => assert ALL_SLOTS[6] == s;
      case WriterSlot => assert ALL_SLOTS[7] == s;
      case CopierSlot => assert ALL_SLOTS[8] == s;
      case PresignSlot => assert ALL_SLOTS[9] == s;
      case AsyncTaskSlot => assert ALL_SLOTS[10] == s;
      case AsyncReadStreamSlot => assert ALL_SLOTS[11] == s;
      case AsyncWriterSlot => assert ALL_SLOTS[12] == s;
      case InfoSlot => assert ALL_SLOTS[13] == s;
      case OperatorSlot => assert ALL_SLOTS[14] == s;
    }
  }

  lemma StartKeeps(h: Heap, fields: map<Slot, nat>, ok: bool)
    requires Sound(h)
    ensures Sound(Start(h, fields, ok))
  {
    var t := Start(h, fields, ok);
    if FreshFields(h, fields) {
      var n := h.next;
      assert n !in h.live;
      assert forall o, s, p | At(t, o, s, p) && o != n :: At(h, o, s, p);
      forall p | p in t.issued ensures p in t.freed || HeldSomewhere(t, p) {
        if p in h.issued && p !in h.freed {
          var o, s :| At(h, o, s, p);
          assert At(t, o, s, p);
        } else if p !in h.issued {
          var s :| s in fields && fields[s] == p;
          assert At(t, n, s, p);
        }
      }
      forall s | s in fields ensures s in ALL_SLOTS { AllSlots(s); }
    }
  }

  lemma BarrenKeeps(h: Heap, kind: Kind)
    requires Sound(h)
    ensures Sound(Barren(h, kind))
  {
    var t := Barren(h, kind);
    assert h.next !in h.live;
    assert forall o, s, p :: At(t, o, s, p) <==> At(h, o, s, p);
    forall p | HeldSomewhere(h, p) ensures HeldSomewhere(t, p) {
      var o, s :| At(h, o, s, p);
      assert At(t, o, s, p);
    }
  }

  lemma SpoilKeeps(h: Heap, o: nat)
    requires Sound(h) && o in h.live
    ensures Sound(Spoil(h, o))
  {
    var t := Spoil(h, o);
    assert forall o', s, p :: At(t, o', s, p) <==> At(h, o', s, p);
    forall p | HeldSomewhere(h, p) ensures HeldSomewhere(t, p) {
      var o', s :| At(h, o', s, p);
      assert At(t, o', s, p);
    }
  }

  /** A pointer that moves has one owner before and one after. */
  lemma TransferKeeps(h: Heap, o: nat, slots: set<Slot>, kind: Kind)
    requires Sound(h) && o in h.live
    requires forall s | s in slots :: s in SlotsOf(kind)
    requires kind.MetadataObject? ==> !(MetadataSlot in slots && EntrySlot in slots)
    ensures Sound(Transfer(h, o, slots, kind))
  {
    hide Linear;
    assert h.next !in h.live;
    TransferKeepsLinear(h, o, slots, kind);
  }

  lemma TransferKeepsLinear(h: Heap, o: nat, slots: set<Slot>, kind: Kind)
    requires Linear(h) && o in h.live && h.next !in h.live
    ensures Linear(Transfer(h, o, slots, kind))
  {
    var t := Transfer(h, o, slots, kind);
    var n := h.next;
    assert forall o', s, p | At(t, o', s, p) :: if o' == n then At(h, o, s, p) && s in slots
                                                else At(h, o', s, p) && !(o' == o && s in slots);
    forall p | HeldSomewhere(h, p) ensures HeldSomewhere(t, p) {
      var o', s :| At(h, o', s, p);
      assert At(t, if o' == o && s in slots then n else o', s, p);
    }
  }

  lemma FreeOneKeepsLinear(h: Heap, o: nat, slot: Slot)
    requires Linear(h) && o in h.live && slot in h.live[o].fields
    ensures Linear(FreeOne(h, o, slot))
  {
    var t := FreeOne(h, o, slot);
    var freed := h.live[o].fields[slot];
    assert At(h, o, slot, freed);
    forall o', s, p | At(t, o', s, p) ensures At(h, o', s, p) && p != freed {
      assert At(h, o', s, p);
      assert p == freed ==> o' == o && s == slot;
    }
    forall p | p in t.issued && p !in t.freed ensures HeldSomewhere(t, p) {
      var o', s :| At(h, o', s, p);
      assert At(t, o', s, p);
    }
  }

  lemma FreeOneKeeps(h: Heap, o: nat, slot: Slot)
    requires Sound(h)
    ensures Sound(FreeOne(h, o, slot))
  {
    hide Linear;
    if o in h.live && slot in h.live[o].fields {
      FreeOneKeepsLinear(h, o, slot);
    }
  }

  /** Freeing a list of fields leaves none of them, and every other object as it was. */
  lemma {:induction false} FreeAllKeeps(h: Heap, o: nat, slots: seq<Slot>)
    requires Sound(h) && o in h.live
    ensures var t := FreeAll(h, o, slots);
            && Sound(t) && t.live.Keys == h.live.Keys && t.live[o].kind == h.live[o].kind && t.issued == h.issued
            && (forall s | s in t.live[o].fields :: s in h.live[o].fields && s !in slots)
            && (forall o' | o' in h.live && o' != o :: t.live[o'] == h.live[o'])
    decreases |slots|
  {
    if slots != [] {
      FreeOneKeeps(h, o, slots[0]);
      FreeAllKeeps(FreeOne(h, o, slots[0]), o, slots[1..]);
    }
  }

  lemma FinalizeKeeps(h: Heap, o: nat)
    requires Sound(h)
    ensures Sound(Finalize(h, o))
  {
    if o in h.live {
      var slots := SlotsOf(h.live[o].kind);
      var freed := FreeAll(h, o, slots);
      FreeAllKeeps(h, o, slots);
      var t := Finalize(h, o);
      assert freed.live[o].fields == map[];
      assert forall o', s, p :: At(t, o', s, p) <==> At(freed, o', s, p);
      forall p | HeldSomewhere(freed, p) ensures HeldSomewhere(t, p) {
        var o', s :| At(freed, o', s, p);
        assert At(t, o', s, p);
      }
    }
  }

  lemma SpoiledTakeKeeps(h: Heap, o: nat, kind: Kind)
    requires Sound(h) && o in h.live
    ensures Sound(Barren(Spoil(h, o), kind))
  {
    hide Sound;
    SpoilKeeps(h, o);
    BarrenKeeps(Spoil(h, o), kind);
  }

  lemma TypedTransferKeeps(h: Heap, o: nat, slot: Slot)
    requires Sound(h) && o in h.live
    ensures Sound(Transfer(h, o, {slot}, HolderKind(slot)))
  {
    assert SlotsOf(HolderKind(slot))[0] == slot;
    TransferKeeps(h, o, {slot}, HolderKind(slot));
  }

  lemma ResultTakeKeeps(h: Heap, o: nat, kind: Kind, moved: Heap, take: Heap)
    requires Sound(h) && o in h.live && Sound(moved)
    requires take == h || take == moved || take == Barren(h, kind) || take == Barren(Spoil(h, o), kind)
    ensures Sound(take)
  {
    hide Sound;
    BarrenKeeps(h, kind);
    SpoiledTakeKeeps(h, o, kind);
  }

  lemma TakeKeeps(h: Heap, o: nat, slot: Slot, valid: bool)
    requires Sound(h)
    ensures Sound(Take(h, o, slot, valid))
  {
    hide Sound;
    if o in h.live {
      TypedTransferKeeps(h, o, slot);
      ResultTakeKeeps(h, o, HolderKind(slot), Transfer(h, o, {slot}, HolderKind(slot)), Take(h, o, slot, valid));
    } else {
      BarrenKeeps(h, HolderKind(slot));
    }
  }

  lemma TakeOperatorKeeps(h: Heap, o: nat)
    requires Sound(h)
    ensures Sound(TakeOperator(h, o))
  {
    hide Sound;
    if o in h.live {
      TransferKeeps(h, o, {OperatorSlot, InfoSlot}, OperatorObject);
      ResultTakeKeeps(h, o, OperatorObject, Transfer(h, o, {OperatorSlot, InfoSlot}, OperatorObject), TakeOperator(h, o));
    } else {
      BarrenKeeps(h, OperatorObject);
    }
  }

  lemma EntryTakeMetadataKeeps(h: Heap, o: nat)
    requires Sound(h)
    ensures Sound(EntryTakeMetadata(h, o))
  {
    hide Sound;
    if o in h.live && h.live[o].kind == Holder(EntrySlot) {
      TransferKeeps(h, o, {EntrySlot}, MetadataObject);
    } else {
      BarrenKeeps(h, MetadataObject);
    }
  }

  lemma FreeingKeeps(h: Heap, o: nat, copied: bool)
    requires Sound(h)
    ensures Sound(TakeBytes(h, o, copied)) && Sound(Close(h, o)) && Sound(Release(h, o))
  {
    hide Sound;
    FreeOneKeeps(h, o, BufferSlot);
    FreeOneKeeps(h, o, OperatorSlot);
    if o in h.live {
      SpoilKeeps(h, o);
      FreeAllKeeps(h, o, SlotsOf(h.live[o].kind));
    }
  }

  lemma ApplyKeeps(h: Heap, e: Event)
    requires Sound(h)
    ensures Sound(Apply(h, e))
  {
    hide Sound;
    match e
    case EStart(fields, ok) => StartKeeps(h, fields, ok);
    case ETake(o, slot, valid) => TakeKeeps(h, o, slot, valid);
    case ETakeOperator(o) => TakeOperatorKeeps(h, o);
    case ETakeBytes(o, copied) => FreeingKeeps(h, o, copied);
    case EEntryTakeMetadata(o) => EntryTakeMetadataKeeps(h, o);
    case ERelease(o) => FreeingKeeps(h, o, true);
    case EClose(o) => FreeingKeeps(h, o, true);
    case EFinalize(o) => FinalizeKeeps(h, o);
  }

  lemma {:induction false} RunKeeps(h: Heap, events: seq<Event>)
    requires Sound(h)
    ensures Sound(Run(h, events))
    decreases |events|
  {
    if events != [] {
      ApplyKeeps(h, events[0]);
      RunKeeps(Apply(h, events[0]), events[1..]);
    }
  }

  // ------------------------------------------------------------------ theorems

  /** Over any interleaving no native handle is freed twice, and none is reachable once freed. */
  lemma FreedAtMostOnce(events: seq<Event>, p: nat)
    ensures var h := Run(EMPTY, events);
            && h.freed[p] <= 1
            && (p in h.freed ==> !HeldSomewhere(h, p))
            && (p in h.freed || HeldSomewhere(h, p) <==> p in h.issued)
  {
    RunKeeps(EMPTY, events);
  }

  /** When every object has been finalized, every handle ever issued has been freed exactly once. */
  lemma FreedExactlyOnce(events: seq<Event>, p: nat)
    requires Run(EMPTY, events).live == map[] && p in Run(EMPTY, events).issued
    ensures Run(EMPTY, events).freed[p] == 1
  {
    RunKeeps(EMPTY, events);
    var h := Run(EMPTY, events);
    assert !HeldSomewhere(h, p);
  }

  /** A metadata object never owns a metadata and an entry pointer at once. */
  lemma MetadataOwnsOne(events: seq<Event>, o: nat)
    requires o in Run(EMPTY, events).live && Run(EMPTY, events).live[o].kind == MetadataObject
    ensures |Run(EMPTY, events).live[o].fields| <= 1
  {
    RunKeeps(EMPTY, events);
    var fields := Run(EMPTY, events).live[o].fields;
    assert fields.Keys <= {MetadataSlot, EntrySlot};
    if MetadataSlot in fields {
      assert fields.Keys == {MetadataSlot};
    } else if EntrySlot in fields {
      assert fields.Keys == {EntrySlot};
    } else {
      assert fields.Keys == {};
    }
    assert |fields| == |fields.Keys|;
  }

  /** The order in which the collector finalizes does not matter: whatever the program did before, once
      every object that was left has been finalized, each handle has been freed exactly once. */
  function FinalizeAll(h: Heap, objects: seq<nat>): Heap
    decreases |objects|
  {
    if objects == [] then h else FinalizeAll(Finalize(h, objects[0]), objects[1..])
  }

  lemma FinalizeRemoves(h: Heap, o: nat)
    requires Sound(h)
    ensures Finalize(h, o).live.Keys == h.live.Keys - {o} && Finalize(h, o).issued == h.issued
  {
    if o in h.live {
      FreeAllKeeps(h, o, SlotsOf(h.live[o].kind));
    }
  }

  lemma {:induction false} FinalizeAllFreesAll(h: Heap, objects: seq<nat>)
    requires Sound(h) && forall o | o in h.live :: o in objects
    ensures var t := FinalizeAll(h, objects);
            t.live == map[] && t.issued == h.issued && forall p | p in h.issued :: t.freed[p] == 1
    decreases |objects|
  {
    if objects == [] {
      assert h.live == map[];
      assert forall p :: !HeldSomewhere(h, p);
    } else {
      var t := Finalize(h, objects[0]);
      FinalizeKeeps(h, objects[0]);
      FinalizeRemoves(h, objects[0]);
      forall o | o in t.live ensures o in objects[1..] {
        assert o in h.live && o != objects[0];
      }
      FinalizeAllFreesAll(t, objects[1..]);
    }
  }

  lemma NothingLeaks(events: seq<Event>, objects: seq<nat>)
    requires forall o | o in Run(EMPTY, events).live :: o in objects
    ensures var h := Run(EMPTY, events);
            forall p | p in h.issued :: FinalizeAll(h, objects).freed[p] == 1
  {
    RunKeeps(EMPTY, events);
    FinalizeAllFreesAll(Run(EMPTY, events), objects);
  }
}
