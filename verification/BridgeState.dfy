/** The bridge's mutable state and the exports that update it in place. Each method is proved
    against the step function of the same name in `BridgeSteps`, so the theorems over runs hold
    of the state these methods leave. */
module BridgeState {
  import opened Basics
  import opened BridgeTypes
  import opened BridgeSteps
  import HandleArena
  import SlotArena

  class State {
    const arena: SlotArena.Arena
    var lastError: Option<BridgeError>
    var nextOperation: nat
    var tornDown: bool

    ghost predicate Valid()
      reads this, arena
    {
      arena.Valid()
    }

    ghost function Value(): Bridge
      reads this, arena
    {
      Bridge(arena.Value(), lastError, nextOperation, tornDown)
    }

    constructor ()
      ensures Valid() && fresh(arena) && Value() == Bridge(HandleArena.EMPTY, None, 0, false)
    {
      arena := new SlotArena.Arena();
      lastError, nextOperation, tornDown := None, 0, false;
    }

    // ------------------------------------------------------------------ helpers

    method Record(e: BridgeError) returns (answer: Answer)
      requires Valid()
      modifies this
      ensures Valid() && arena.Value() == old(arena.Value())
      ensures Step(Value(), answer) == Refuse(old(Value()), e)
    {
      lastError := Some(e);
      answer := Refused(e);
    }

    method InsertUnchecked(r: Resource) returns (answer: Answer)
      requires Valid()
      modifies this, arena
      ensures Valid() && Step(Value(), answer) == BridgeSteps.InsertUnchecked(old(Value()), r)
    {
      hide SlotArena.Arena.Valid;
      hide SlotArena.Arena.Value;
      var inserted := arena.Insert(r);
      match inserted
      case Ok(handle) => answer := Granted(handle);
      case Err(e) => answer := Record(e);
    }

    method InsertOrPanic(r: Resource) returns (answer: Answer)
      requires Valid()
      modifies this, arena
      ensures Valid() && Step(Value(), answer) == BridgeSteps.InsertOrPanic(old(Value()), r)
    {
      hide SlotArena.Arena.Valid;
      hide SlotArena.Arena.Value;
      var inserted := arena.Insert(r);
      match inserted
      case Ok(handle) => answer := Granted(handle);
      case Err(_) => answer := Panicked;
    }

    method InsertResource(r: Resource) returns (answer: Answer)
      requires Valid()
      modifies this, arena
      ensures Valid() && Step(Value(), answer) == BridgeSteps.InsertResource(old(Value()), r)
    {
      if tornDown {
        answer := Record(TornDown);
      } else {
        answer := InsertUnchecked(r);
      }
    }

    method InsertBuffer(bytes: Bytes) returns (answer: Answer)
      requires Valid()
      modifies this, arena
      ensures Valid() && Step(Value(), answer) == BridgeSteps.InsertBuffer(old(Value()), bytes)
    {
      if |bytes| > MAX_BUFFER_LENGTH {
        answer := Record(BufferTooLarge);
      } else {
        answer := InsertResource(Buffer(bytes));
      }
    }

    method PushByte(handle: Handle, value: nat) returns (answer: Answer)
      requires Valid()
      modifies this, arena
      ensures Valid() && Step(Value(), answer) == BridgeSteps.PushByte(old(Value()), handle, value)
    {
      var found := arena.LookupKind(handle, BufferKind);
      if found.Err? {
        answer := Record(found.error);
      } else if |found.value.bytes| == MAX_BUFFER_LENGTH {
        answer := Record(BufferTooLarge);
      } else if value > 255 {
        answer := Record(InvalidByte(value));
      } else {
        arena.Assign(handle, Buffer(found.value.bytes + [value]));
        answer := Done;
      }
    }

    method WriteWindow(handle: Handle, offset: nat, data: Bytes) returns (answer: Answer)
      requires Valid()
      modifies this, arena
      ensures Valid() && Step(Value(), answer) == BridgeSteps.WriteWindow(old(Value()), handle, offset, data)
    {
      hide SlotArena.Arena.Valid;
      hide SlotArena.Arena.Value;
      var found := arena.LookupKind(handle, BufferKind);
      if found.Err? {
        answer := Record(found.error);
      } else if data == [] || |data| > MAX_TRANSFER_CHUNK {
        answer := Record(InvalidArgument);
      } else if offset + |data| > MAX_U32 {
        answer := Record(IndexOutOfBounds(MAX_U32));
      } else if offset + |data| > |found.value.bytes| {
        answer := Record(IndexOutOfBounds(offset));
      } else {
        arena.Assign(handle, Buffer(Overwritten(found.value.bytes, offset, data)));
        answer := Done;
      }
    }

    // ------------------------------------------------------- stateful operations

    /** Never wraps: a reused token could make a very old task authoritative. */
    method AllocateOperation() returns (result: Result<nat>)
      requires Valid()
      modifies this`nextOperation
      ensures Valid()
      ensures if old(nextOperation) >= MAX_U64 then result == Err(LengthOverflow) && nextOperation == old(nextOperation)
              else result == Ok(nextOperation) && nextOperation == old(nextOperation) + 1
    {
      if nextOperation >= MAX_U64 {
        return Err(LengthOverflow);
      }
      nextOperation := nextOperation + 1;
      return Ok(nextOperation);
    }

    method Reserve(handle: Handle, kind: StatefulKind) returns (answer: Answer)
      requires Valid()
      modifies this, arena
      ensures Valid() && Step(Value(), answer) == BridgeSteps.Reserve(old(Value()), handle, kind)
    {
      hide SlotArena.Arena.Valid;
      hide SlotArena.Arena.Value;
      if tornDown {
        answer := Record(TornDown);
        return;
      }
      var room := arena.CanInsert();
      if !room {
        answer := Record(HandleLimit);
        return;
      }
      var token := AllocateOperation();
      if token.Err? {
        answer := Record(token.error);
        return;
      }
      assert Value() == old(Value()).(nextOperation := old(nextOperation) + 1);
      answer := ReserveWith(handle, kind);
    }

    method ReserveWith(handle: Handle, kind: StatefulKind) returns (answer: Answer)
      requires Valid()
      modifies this, arena
      ensures Valid() && Step(Value(), answer) == BridgeSteps.ReserveWith(old(Value()), handle, kind)
    {
      hide SlotArena.Arena.Valid;
      hide SlotArena.Arena.Value;
      var found := arena.LookupKind(handle, OfStateful(kind));
      if found.Err? {
        answer := Record(found.error);
        return;
      }
      match found.value.state
      case Busy(_) => answer := Record(ResourceBusy(handle));
      case Closed(_) => answer := Record(ResourceClosed(handle));
      case Open(inner, previous) =>
        arena.Assign(handle, Stateful(kind, Busy(nextOperation)));
        answer := InsertUnchecked(Task(Pending(Some(Lease(handle, kind, nextOperation)))));
        if !answer.Granted? {
          arena.Assign(handle, Stateful(kind, Open(inner, previous)));
        }
    }

    method PublishTask(task: Handle, c: Completion)
      requires Valid()
      modifies this, arena
      ensures Valid() && Value() == BridgeSteps.PublishTask(old(Value()), task, c)
    {
      var found := arena.LookupKind(task, TaskKind);
      if found.Ok? && found.value.task == Pending(None) {
        arena.Assign(task, Task(Ready(c, None)));
      }
    }

    method PublishResourceTask(task: Handle, lease: Lease, u: Update, c: Completion)
      requires Valid()
      modifies this, arena
      ensures Valid() && Value() == BridgeSteps.PublishResourceTask(old(Value()), task, lease, u, c)
    {
      hide SlotArena.Arena.Valid;
      hide SlotArena.Arena.Value;
      var found := arena.LookupKind(task, TaskKind);
      if found.Err? || found.value.task != Pending(Some(lease)) || u.kind != lease.kind {
        return;
      }
      var resource := arena.LookupKind(lease.handle, OfStateful(lease.kind));
      if resource.Ok? && resource.value.state == Busy(lease.operation) {
        arena.Assign(lease.handle, Stateful(lease.kind, SettledState(u.next, lease.operation)));
      }
      found := arena.LookupKind(task, TaskKind);
      if found.Ok? && found.value.task == Pending(Some(lease)) {
        arena.Assign(task, Task(Ready(c, Some(lease))));
      }
    }

    method Terminalize(lease: Lease)
      requires Valid()
      modifies arena
      ensures Valid() && arena.Value() == BridgeSteps.Terminalize(old(arena.Value()), Some(lease))
    {
      var found := arena.LookupKind(lease.handle, OfStateful(lease.kind));
      if found.Ok? && Token(found.value) == Some(lease.operation) {
        arena.Assign(lease.handle, Stateful(lease.kind, Closed(Failed)));
      }
    }

    // --------------------------------------------------------------------- tasks

    method TaskTake(handle: Handle) returns (answer: Answer)
      requires Valid()
      modifies this, arena
      ensures Valid() && Step(Value(), answer) == BridgeSteps.TaskTake(old(Value()), handle)
    {
      hide SlotArena.Arena.Valid;
      hide SlotArena.Arena.Value;
      var room := arena.CanInsert();
      if !room {
        answer := Record(HandleLimit);
        return;
      }
      var found := arena.LookupKind(handle, TaskKind);
      if found.Err? {
        answer := Record(found.error);
        return;
      }
      match found.value.task
      case Ready(c, _) =>
        arena.Assign(handle, Task(Consumed));
        answer := InsertUnchecked(Completed(c));
      case Consumed => answer := Record(TaskConsumed(handle));
      case _ => answer := Record(TaskNotReady(handle));
    }

    method TaskCancel(handle: Handle) returns (answer: Answer)
      requires Valid()
      modifies this, arena
      ensures Valid() && Step(Value(), answer) == BridgeSteps.TaskCancel(old(Value()), handle)
    {
      var found := arena.LookupKind(handle, TaskKind);
      if found.Err? {
        answer := Record(found.error);
        return;
      }
      if TaskLease(found.value).Some? {
        Terminalize(TaskLease(found.value).value);
      }
      if found.value.task.Pending? || found.value.task.Ready? {
        arena.Assign(handle, Task(Cancelled));
      }
      answer := Done;
    }

    /** The table after the lease of task `handle` gave up its resource still holds the task. */
    lemma TaskSurvives(a: HandleArena.Arena, handle: Handle)
      requires HandleArena.Refusal(a, handle, TaskKind).None?
      ensures var b := BridgeSteps.Terminalize(a, TaskLease(a.table[handle]));
              HandleArena.Refusal(b, handle, TaskKind).None? && b.generations == a.generations
    {
    }

    method TaskRelease(handle: Handle) returns (answer: Answer)
      requires Valid()
      modifies this, arena
      ensures Valid() && Step(Value(), answer) == BridgeSteps.TaskRelease(old(Value()), handle)
    {
      var found := arena.LookupKind(handle, TaskKind);
      if found.Err? {
        answer := Record(found.error);
        return;
      }
      TaskSurvives(arena.Value(), handle);
      if TaskLease(found.value).Some? {
        Terminalize(TaskLease(found.value).value);
      }
      answer := Release(handle, TaskKind);
    }

    method Release(handle: Handle, kind: ResourceKind) returns (answer: Answer)
      requires Valid()
      modifies this, arena
      ensures Valid() && Step(Value(), answer) == BridgeSteps.Release(old(Value()), handle, kind)
    {
      hide SlotArena.Arena.Valid;
      hide SlotArena.Arena.Value;
      var taken := arena.Take(handle, kind);
      if taken.Err? {
        answer := Record(taken.error);
      } else {
        answer := Done;
      }
    }

    // --------------------------------------------------------------- completions

    /** Every check comes before the completion leaves the arena. */
    method TakeSuccessful(handle: Handle, kind: CompletionKind, needsReplacement: bool) returns (result: Result<Completion>)
      requires Valid()
      modifies arena
      ensures Valid()
      ensures match CompletionRefusal(old(arena.Value()), handle, kind, needsReplacement)
              case Some(e) => result == Err(e) && Value() == old(Value())
              case None => Value() == Removed(old(Value()), handle) && handle in old(arena.Value()).table
                           && result == Ok(old(arena.Value()).table[handle].completion)
    {
      hide SlotArena.Arena.Valid;
      hide SlotArena.Arena.Value;
      var found := arena.LookupKind(handle, CompletedKind);
      if found.Err? {
        return Err(found.error);
      }
      var c := found.value.completion;
      if c.Kind() != kind {
        return Err(WrongResourceType(handle));
      }
      if c.Error().Some? {
        return Err(c.Error().value);
      }
      if c.WithBuffer? && |c.buffer.value| > MAX_BUFFER_LENGTH {
        return Err(BufferTooLarge);
      }
      if c.WithChunk? && c.chunk.value.Some? && |c.chunk.value.value| > MAX_TRANSFER_CHUNK {
        return Err(BufferTooLarge);
      }
      if needsReplacement {
        var refusal := arena.EnsureInsertCapacityAfterTake(handle, CompletedKind);
        if refusal.Some? {
          return Err(refusal.value);
        }
      }
      var taken := arena.Take(handle, CompletedKind);
      return Ok(c);
    }

    method TakeOpened(handle: Handle, kind: StatefulKind) returns (answer: Answer)
      requires Valid()
      modifies this, arena
      ensures Valid() && Step(Value(), answer) == BridgeSteps.TakeOpened(old(Value()), handle, kind)
    {
      hide SlotArena.Arena.Valid;
      hide SlotArena.Arena.Value;
      var taken := TakeSuccessful(handle, OfOpen(kind), true);
      match taken
      case Err(e) => answer := Record(e);
      case Ok(WithInner(_, Ok(inner))) => answer := InsertResource(Stateful(kind, Open(inner, 0)));
      case _ => answer := Panicked;
    }

    method TakeWhole(handle: Handle) returns (answer: Answer)
      requires Valid() && HandleArena.Refusal(arena.Value(), handle, CompletedKind).None?
      requires arena.Value().table[handle].completion.WithBuffer?
      modifies this, arena
      ensures Valid() && Step(Value(), answer) == BridgeSteps.TakeBuffer(old(Value()), handle)
    {
      var taken := TakeSuccessful(handle, OfRead, true);
      match taken
      case Err(e) => answer := Record(e);
      case Ok(WithBuffer(Ok(bytes))) => answer := InsertBuffer(bytes);
      case _ => answer := Panicked;
    }

    method TakeChunk(handle: Handle) returns (answer: Answer)
      requires Valid() && HandleArena.Refusal(arena.Value(), handle, CompletedKind).None?
      requires arena.Value().table[handle].completion.WithChunk? && arena.Value().table[handle].completion.chunk.Ok?
      modifies this, arena
      ensures Valid() && Step(Value(), answer) == BridgeSteps.TakeBuffer(old(Value()), handle)
    {
      hide SlotArena.Arena.Valid;
      hide SlotArena.Arena.Value;
      var found := arena.LookupKind(handle, CompletedKind);
      var chunk := found.value.completion.chunk.value;
      var taken := TakeSuccessful(handle, OfReaderNext, chunk.Some?);
      if taken.Err? {
        answer := Record(taken.error);
      } else if chunk.Some? {
        answer := InsertBuffer(chunk.value);
      } else {
        answer := Done;
      }
    }

    method TakeBuffer(handle: Handle) returns (answer: Answer)
      requires Valid()
      modifies this, arena
      ensures Valid() && Step(Value(), answer) == BridgeSteps.TakeBuffer(old(Value()), handle)
    {
      var found := arena.LookupKind(handle, CompletedKind);
      if found.Err? {
        answer := Record(found.error);
        return;
      }
      match found.value.completion
      case WithBuffer(_) => answer := TakeWhole(handle);
      case WithChunk(Err(e)) => answer := Record(e);
      case WithChunk(Ok(_)) => answer := TakeChunk(handle);
      case _ => answer := Record(WrongResourceType(handle));
    }

    method TakeMetadata(handle: Handle) returns (answer: Answer)
      requires Valid()
      modifies this, arena
      ensures Valid() && Step(Value(), answer) == BridgeSteps.TakeMetadata(old(Value()), handle)
    {
      var found := arena.LookupKind(handle, CompletedKind);
      if found.Err? {
        answer := Record(found.error);
        return;
      }
      var kind := found.value.completion.Kind();
      if kind !in {OfMetadata(Statted), OfMetadata(Copied), OfMetadata(WriterFinished)} {
        answer := Record(WrongResourceType(handle));
        return;
      }
      var taken := TakeSuccessful(handle, kind, true);
      match taken
      case Err(e) => answer := Record(e);
      case Ok(WithMetadata(_, Ok(metadata))) => answer := InsertUnchecked(Metadata(metadata));
      case _ => answer := Panicked;
    }

    method TakeMetadataSnapshot(handle: Handle, encode: nat -> Result<Bytes>) returns (answer: Answer)
      requires Valid()
      modifies this, arena
      ensures Valid() && Step(Value(), answer) == BridgeSteps.TakeMetadataSnapshot(old(Value()), handle, encode)
    {
      var found := arena.LookupKind(handle, CompletedKind);
      if found.Err? {
        answer := Record(found.error);
        return;
      }
      match found.value.completion
      case WithMetadata(_, Err(e)) => answer := Record(e);
      case WithMetadata(_, Ok(metadata)) =>
        var encoded := encode(metadata);
        if encoded.Err? {
          answer := Record(encoded.error);
          return;
        }
        answer := Replace(handle, CompletedKind, Buffer(encoded.value));
      case _ => answer := Record(WrongResourceType(handle));
    }

    /** Swaps a checked resource for its snapshot, or refuses and leaves it. */
    method Replace(handle: Handle, kind: ResourceKind, r: Resource) returns (answer: Answer)
      requires Valid()
      modifies this, arena
      ensures Valid()
      ensures match HandleArena.ReplacementRefusal(old(arena.Value()), handle, kind)
              case Some(e) => Step(Value(), answer) == Refuse(old(Value()), e)
              case None => Step(Value(), answer) == BridgeSteps.InsertOrPanic(Removed(old(Value()), handle), r)
    {
      var refusal := arena.EnsureInsertCapacityAfterTake(handle, kind);
      if refusal.Some? {
        answer := Record(refusal.value);
        return;
      }
      var taken := arena.Take(handle, kind);
      answer := InsertOrPanic(r);
    }

    method TakeListing(handle: Handle) returns (answer: Answer)
      requires Valid() && HandleArena.Refusal(arena.Value(), handle, CompletedKind).None?
      requires arena.Value().table[handle].completion.WithEntries?
      modifies this, arena
      ensures Valid() && Step(Value(), answer) == BridgeSteps.TakeEntryList(old(Value()), handle)
    {
      var taken := TakeSuccessful(handle, OfList, true);
      match taken
      case Err(e) => answer := Record(e);
      case Ok(WithEntries(Ok(entries))) => answer := InsertUnchecked(EntryList(entries));
      case _ => answer := Panicked;
    }

    method TakeEntry(handle: Handle) returns (answer: Answer)
      requires Valid() && HandleArena.Refusal(arena.Value(), handle, CompletedKind).None?
      requires arena.Value().table[handle].completion.WithEntry? && arena.Value().table[handle].completion.entry.Ok?
      modifies this, arena
      ensures Valid() && Step(Value(), answer) == BridgeSteps.TakeEntryList(old(Value()), handle)
    {
      hide SlotArena.Arena.Valid;
      hide SlotArena.Arena.Value;
      var found := arena.LookupKind(handle, CompletedKind);
      var entry := found.value.completion.entry.value;
      var taken := TakeSuccessful(handle, OfListerNext, entry.Some?);
      if taken.Err? {
        answer := Record(taken.error);
      } else if entry.Some? {
        answer := InsertUnchecked(EntryList([entry.value]));
      } else {
        answer := Done;
      }
    }

    method TakeEntryList(handle: Handle) returns (answer: Answer)
      requires Valid()
      modifies this, arena
      ensures Valid() && Step(Value(), answer) == BridgeSteps.TakeEntryList(old(Value()), handle)
    {
      var found := arena.LookupKind(handle, CompletedKind);
      if found.Err? {
        answer := Record(found.error);
        return;
      }
      match found.value.completion
      case WithEntries(_) => answer := TakeListing(handle);
      case WithEntry(Err(e)) => answer := Record(e);
      case WithEntry(Ok(_)) => answer := TakeEntry(handle);
      case _ => answer := Record(WrongResourceType(handle));
    }

    method TakeError(handle: Handle) returns (answer: Answer)
      requires Valid()
      modifies this, arena
      ensures Valid() && Step(Value(), answer) == BridgeSteps.TakeError(old(Value()), handle)
    {
      var found := arena.LookupKind(handle, CompletedKind);
      if found.Err? {
        answer := Record(found.error);
        return;
      }
      var error := found.value.completion.Error();
      if error.None? {
        answer := Record(WrongResourceType(handle));
        return;
      }
      var refusal := arena.EnsureInsertCapacityAfterTake(handle, CompletedKind);
      if refusal.Some? {
        answer := Record(refusal.value);
        return;
      }
      var taken := arena.Take(handle, CompletedKind);
      answer := InsertUnchecked(Error(error.value));
    }

    // -------------------------------------------------- entry lists, errors, teardown

    method TakeEntrySnapshot(handle: Handle, index: nat) returns (answer: Answer)
      requires Valid()
      modifies this, arena
      ensures Valid() && Step(Value(), answer) == BridgeSteps.TakeEntrySnapshot(old(Value()), handle, index)
    {
      var found := arena.LookupKind(handle, EntryListKind);
      if found.Err? {
        answer := Record(found.error);
        return;
      }
      var entries := found.value.entries;
      if index >= |entries| {
        answer := Record(IndexOutOfBounds(index));
        return;
      }
      if entries[index].snapshot == [] {
        answer := Record(InvalidArgument);
        return;
      }
      var room := arena.CanInsert();
      if !room {
        answer := Record(HandleLimit);
        return;
      }
      arena.Assign(handle, EntryList(entries[index := entries[index].(snapshot := [])]));
      answer := InsertOrPanic(Buffer(entries[index].snapshot));
    }

    method TakeErrorSnapshot(handle: Handle, encode: BridgeError -> Result<Bytes>) returns (answer: Answer)
      requires Valid()
      modifies this, arena
      ensures Valid() && Step(Value(), answer) == BridgeSteps.TakeErrorSnapshot(old(Value()), handle, encode)
    {
      var found := arena.LookupKind(handle, ErrorKind);
      if found.Err? {
        answer := Record(found.error);
        return;
      }
      var encoded := encode(found.value.error);
      if encoded.Err? {
        answer := Record(encoded.error);
        return;
      }
      answer := Replace(handle, ErrorKind, Buffer(encoded.value));
    }

    method TakeLastError() returns (answer: Answer)
      requires Valid()
      modifies this, arena
      ensures Valid() && Step(Value(), answer) == BridgeSteps.TakeLastError(old(Value()))
    {
      if tornDown {
        lastError := None;
        return Done;
      }
      if lastError.None? {
        return Done;
      }
      answer := InsertUnchecked(Error(lastError.value));
      if answer.Granted? {
        lastError := None;
      }
    }

    method Teardown() returns (answer: Answer)
      requires Valid()
      modifies this, arena
      ensures Valid() && Step(Value(), answer) == BridgeSteps.Teardown(old(Value())) && arena.live == 0
    {
      tornDown := true;
      arena.Clear();
      lastError := None;
      answer := Done;
    }
  }
}
