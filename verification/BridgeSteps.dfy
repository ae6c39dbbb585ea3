/** Every export of the browser bridge, and the late publication of every in-flight future,
    as a function from state to state. One call is one atomic step: the Wasm module has a
    single thread of execution. */
module BridgeSteps {
  import opened Basics
  import opened BridgeTypes
  import opened HandleArena

  const MAX_U32: nat := 0xFFFF_FFFF
  const MAX_U64: nat := 0xFFFF_FFFF_FFFF_FFFF
  const MAX_BUFFER_LENGTH: nat := 67108864
  const MAX_TRANSFER_CHUNK: nat := 262144

  datatype Bridge = Bridge(
    arena: Arena,
    lastError: Option<BridgeError>,
    nextOperation: nat,
    tornDown: bool)

  /** `Panicked` stands for the `unreachable!` arms of the source. */
  datatype Answer = Granted(handle: Handle) | Done | Refused(error: BridgeError) | Panicked

  datatype Step = Step(bridge: Bridge, answer: Answer)

  function Refuse(b: Bridge, e: BridgeError): Step {
    Step(b.(lastError := Some(e)), Refused(e))
  }

  function OnArena(b: Bridge, a: Arena, answer: Answer): Step {
    Step(b.(arena := a), answer)
  }

  // ------------------------------------------------------------------ inserting

  function InsertUnchecked(b: Bridge, r: Resource): Step {
    if CanInsert(b.arena) then OnArena(b, Insert(b.arena, r), Granted(NextHandle(b.arena)))
    else Refuse(b, HandleLimit)
  }

  function InsertResource(b: Bridge, r: Resource): Step {
    if b.tornDown then Refuse(b, TornDown) else InsertUnchecked(b, r)
  }

  function InsertOrPanic(b: Bridge, r: Resource): Step {
    if CanInsert(b.arena) then InsertUnchecked(b, r) else Step(b, Panicked)
  }

  function InsertBuffer(b: Bridge, bytes: Bytes): Step {
    if |bytes| > MAX_BUFFER_LENGTH then Refuse(b, BufferTooLarge)
    else InsertResource(b, Buffer(bytes))
  }

  function PushByte(b: Bridge, handle: Handle, value: nat): Step {
    match Refusal(b.arena, handle, BufferKind)
    case Some(e) => Refuse(b, e)
    case None =>
      var bytes := b.arena.table[handle].bytes;
      if |bytes| == MAX_BUFFER_LENGTH then Refuse(b, BufferTooLarge)
      else if value > 255 then Refuse(b, InvalidByte(value))
      else OnArena(b, Put(b.arena, handle, Buffer(bytes + [value])), Done)
  }

  function Overwritten(bytes: Bytes, offset: nat, data: Bytes): Bytes
    requires offset + |data| <= |bytes|
  {
    bytes[..offset] + data + bytes[offset + |data|..]
  }

  /** A write through the window pointer that the bridge hands out; reading through it is writing
      back what is there. */
  function WriteWindow(b: Bridge, handle: Handle, offset: nat, data: Bytes): Step {
    match Refusal(b.arena, handle, BufferKind)
    case Some(e) => Refuse(b, e)
    case None =>
      var bytes := b.arena.table[handle].bytes;
      if data == [] || |data| > MAX_TRANSFER_CHUNK then Refuse(b, InvalidArgument)
      else if offset + |data| > MAX_U32 then Refuse(b, IndexOutOfBounds(MAX_U32))
      else if offset + |data| > |bytes| then Refuse(b, IndexOutOfBounds(offset))
      else OnArena(b, Put(b.arena, handle, Buffer(Overwritten(bytes, offset, data))), Done)
  }

  // -------------------------------------------------------- stateful operations

  /** Moves an open resource to `Busy` under a new token and inserts its pending task.
      The token is spent even when the resource turns out to be unusable. */
  function Reserve(b: Bridge, handle: Handle, kind: StatefulKind): Step {
    if b.tornDown then Refuse(b, TornDown)
    else if !CanInsert(b.arena) then Refuse(b, HandleLimit)
    else if b.nextOperation >= MAX_U64 then Refuse(b, LengthOverflow)
    else ReserveWith(b.(nextOperation := b.nextOperation + 1), handle, kind)
  }

  function ReserveWith(b: Bridge, handle: Handle, kind: StatefulKind): Step {
    match Refusal(b.arena, handle, OfStateful(kind))
    case Some(e) => Refuse(b, e)
    case None =>
      match b.arena.table[handle].state
      case Busy(_) => Refuse(b, ResourceBusy(handle))
      case Closed(_) => Refuse(b, ResourceClosed(handle))
      case Open(inner, previous) =>
        var operation := b.nextOperation;
        var busy := b.(arena := Put(b.arena, handle, Stateful(kind, Busy(operation))));
        var step := InsertUnchecked(busy, Task(Pending(Some(Lease(handle, kind, operation)))));
        if step.answer.Granted? then step
        else step.(bridge := step.bridge.(arena := Put(busy.arena, handle, Stateful(kind, Open(inner, previous)))))
  }

  /** What an operation leaves its resource in. */
  datatype Settled = Reopen(inner: Inner) | Close(reason: Terminal)

  datatype Update = Update(kind: StatefulKind, next: Settled)

  function SettledState(next: Settled, operation: nat): StatefulState {
    match next
    case Reopen(inner) => Open(inner, operation)
    case Close(reason) => Closed(reason)
  }

  predicate IsPending(a: Arena, task: Handle, lease: Option<Lease>) {
    task in a.table && a.table[task] == Task(Pending(lease))
  }

  predicate IsBusy(a: Arena, lease: Lease) {
    && lease.handle in a.table
    && a.table[lease.handle] == Stateful(lease.kind, Busy(lease.operation))
  }

  function PublishTask(b: Bridge, task: Handle, c: Completion): Bridge {
    if IsPending(b.arena, task, None) then b.(arena := Put(b.arena, task, Task(Ready(c, None))))
    else b
  }

  function PublishResourceTask(b: Bridge, task: Handle, lease: Lease, u: Update, c: Completion): Bridge {
    if !IsPending(b.arena, task, Some(lease)) || u.kind != lease.kind then b
    else
      var a := if IsBusy(b.arena, lease)
               then Put(b.arena, lease.handle, Stateful(lease.kind, SettledState(u.next, lease.operation)))
               else b.arena;
      if IsPending(a, task, Some(lease)) then b.(arena := Put(a, task, Task(Ready(c, Some(lease)))))
      else b.(arena := a)
  }

  // --------------------------------------------------------------------- leases

  function TaskLease(r: Resource): Option<Lease> {
    match r
    case Task(Pending(lease)) => lease
    case Task(Ready(_, lease)) => lease
    case _ => None
  }

  /** The token of the operation a stateful resource last gave out, while it is not terminal. */
  function Token(r: Resource): Option<nat> {
    match r
    case Stateful(_, Open(_, operation)) => Some(operation)
    case Stateful(_, Busy(operation)) => Some(operation)
    case _ => None
  }

  predicate Governs(a: Arena, lease: Lease) {
    && lease.handle in a.table
    && a.table[lease.handle].Kind() == OfStateful(lease.kind)
    && Token(a.table[lease.handle]) == Some(lease.operation)
  }

  function Terminalize(a: Arena, lease: Option<Lease>): Arena {
    if lease.Some? && Governs(a, lease.value)
    then Put(a, lease.value.handle, Stateful(lease.value.kind, Closed(Failed)))
    else a
  }

  // ---------------------------------------------------------------------- tasks

  function TaskTake(b: Bridge, handle: Handle): Step {
    if !CanInsert(b.arena) then Refuse(b, HandleLimit)
    else
      match Refusal(b.arena, handle, TaskKind)
      case Some(e) => Refuse(b, e)
      case None =>
        match b.arena.table[handle].task
        case Ready(c, _) =>
          InsertUnchecked(b.(arena := Put(b.arena, handle, Task(Consumed))), Completed(c))
        case Consumed => Refuse(b, TaskConsumed(handle))
        case _ => Refuse(b, TaskNotReady(handle))
  }

  function TaskCancel(b: Bridge, handle: Handle): Step {
    match Refusal(b.arena, handle, TaskKind)
    case Some(e) => Refuse(b, e)
    case None =>
      var task := b.arena.table[handle].task;
      var a := Terminalize(b.arena, TaskLease(b.arena.table[handle]));
      if task.Pending? || task.Ready? then OnArena(b, Put(a, handle, Task(Cancelled)), Done)
      else OnArena(b, a, Done)
  }

  function TaskRelease(b: Bridge, handle: Handle): Step {
    match Refusal(b.arena, handle, TaskKind)
    case Some(e) => Refuse(b, e)
    case None =>
      var a := Terminalize(b.arena, TaskLease(b.arena.table[handle]));
      if 0 <= handle.slot < |a.generations| then OnArena(b, Remove(a, handle), Done)
      else Step(b, Panicked)
  }

  function Release(b: Bridge, handle: Handle, kind: ResourceKind): Step {
    match Refusal(b.arena, handle, kind)
    case Some(e) => Refuse(b, e)
    case None =>
      if 0 <= handle.slot < |b.arena.generations| then OnArena(b, Remove(b.arena, handle), Done)
      else Step(b, Panicked)
  }

  // ---------------------------------------------------------------- completions

  /** Why a successful completion of `kind` cannot be taken, if it cannot. */
  function CompletionRefusal(a: Arena, handle: Handle, kind: CompletionKind, needsReplacement: bool)
    : Option<BridgeError>
  {
    match Refusal(a, handle, CompletedKind)
    case Some(e) => Some(e)
    case None =>
      var c := a.table[handle].completion;
      if c.Kind() != kind then Some(WrongResourceType(handle))
      else if c.Error().Some? then c.Error()
      else if c.WithBuffer? && |c.buffer.value| > MAX_BUFFER_LENGTH then Some(BufferTooLarge)
      else if c.WithChunk? && c.chunk.value.Some? && |c.chunk.value.value| > MAX_TRANSFER_CHUNK
      then Some(BufferTooLarge)
      else if needsReplacement then ReplacementRefusal(a, handle, CompletedKind)
      else None
  }

  function Removed(b: Bridge, handle: Handle): Bridge {
    if 0 <= handle.slot < |b.arena.generations| then b.(arena := Remove(b.arena, handle)) else b
  }

  function TakeOpened(b: Bridge, handle: Handle, kind: StatefulKind): Step {
    match CompletionRefusal(b.arena, handle, OfOpen(kind), true)
    case Some(e) => Refuse(b, e)
    case None =>
      match b.arena.table[handle].completion
      case WithInner(_, Ok(inner)) => InsertResource(Removed(b, handle), Stateful(kind, Open(inner, 0)))
      case _ => Step(Removed(b, handle), Panicked)
  }

  function TakeBuffer(b: Bridge, handle: Handle): Step {
    match Refusal(b.arena, handle, CompletedKind)
    case Some(e) => Refuse(b, e)
    case None =>
      match b.arena.table[handle].completion
      case WithBuffer(result) =>
        (match CompletionRefusal(b.arena, handle, OfRead, true)
         case Some(e) => Refuse(b, e)
         case None => if result.Ok? then InsertBuffer(Removed(b, handle), result.value)
                      else Step(Removed(b, handle), Panicked))
      case WithChunk(Err(e)) => Refuse(b, e)
      case WithChunk(Ok(chunk)) =>
        (match CompletionRefusal(b.arena, handle, OfReaderNext, chunk.Some?)
         case Some(e) => Refuse(b, e)
         case None => if chunk.Some? then InsertBuffer(Removed(b, handle), chunk.value)
                      else Step(Removed(b, handle), Done))
      case _ => Refuse(b, WrongResourceType(handle))
  }

  function TakeMetadata(b: Bridge, handle: Handle): Step {
    match Refusal(b.arena, handle, CompletedKind)
    case Some(e) => Refuse(b, e)
    case None =>
      var c := b.arena.table[handle].completion;
      if c.Kind() !in {OfMetadata(Statted), OfMetadata(Copied), OfMetadata(WriterFinished)} then Refuse(b, WrongResourceType(handle))
      else
        match CompletionRefusal(b.arena, handle, c.Kind(), true)
        case Some(e) => Refuse(b, e)
        case None =>
          if c.WithMetadata? && c.metadata.Ok? then InsertUnchecked(Removed(b, handle), Metadata(c.metadata.value))
          else Step(Removed(b, handle), Panicked)
  }

  /** `encode` is the ODM1 encoder. */
  function TakeMetadataSnapshot(b: Bridge, handle: Handle, encode: nat -> Result<Bytes>): Step {
    match Refusal(b.arena, handle, CompletedKind)
    case Some(e) => Refuse(b, e)
    case None =>
      match b.arena.table[handle].completion
      case WithMetadata(_, Err(e)) => Refuse(b, e)
      case WithMetadata(_, Ok(metadata)) =>
        var encoded := encode(metadata);
        if encoded.Err? then Refuse(b, encoded.error)
        else
          (match ReplacementRefusal(b.arena, handle, CompletedKind)
           case Some(e) => Refuse(b, e)
           case None => InsertOrPanic(Removed(b, handle), Buffer(encoded.value)))
      case _ => Refuse(b, WrongResourceType(handle))
  }

  function TakeEntryList(b: Bridge, handle: Handle): Step {
    match Refusal(b.arena, handle, CompletedKind)
    case Some(e) => Refuse(b, e)
    case None =>
      match b.arena.table[handle].completion
      case WithEntries(result) =>
        (match CompletionRefusal(b.arena, handle, OfList, true)
         case Some(e) => Refuse(b, e)
         case None => if result.Ok? then InsertUnchecked(Removed(b, handle), EntryList(result.value))
                      else Step(Removed(b, handle), Panicked))
      case WithEntry(Err(e)) => Refuse(b, e)
      case WithEntry(Ok(entry)) =>
        (match CompletionRefusal(b.arena, handle, OfListerNext, entry.Some?)
         case Some(e) => Refuse(b, e)
         case None => if entry.Some? then InsertUnchecked(Removed(b, handle), EntryList([entry.value]))
                      else Step(Removed(b, handle), Done))
      case _ => Refuse(b, WrongResourceType(handle))
  }

  function TakeError(b: Bridge, handle: Handle): Step {
    match Refusal(b.arena, handle, CompletedKind)
    case Some(e) => Refuse(b, e)
    case None =>
      match b.arena.table[handle].completion.Error()
      case None => Refuse(b, WrongResourceType(handle))
      case Some(error) =>
        match ReplacementRefusal(b.arena, handle, CompletedKind)
        case Some(e) => Refuse(b, e)
        case None => InsertUnchecked(Removed(b, handle), Error(error))
  }

  // --------------------------------------------------- entry lists, errors, teardown

  function TakeEntrySnapshot(b: Bridge, handle: Handle, index: nat): Step {
    match Refusal(b.arena, handle, EntryListKind)
    case Some(e) => Refuse(b, e)
    case None =>
      var entries := b.arena.table[handle].entries;
      if index >= |entries| then Refuse(b, IndexOutOfBounds(index))
      else if entries[index].snapshot == [] then Refuse(b, InvalidArgument)
      else if !CanInsert(b.arena) then Refuse(b, HandleLimit)
      else
        var emptied := EntryList(entries[index := entries[index].(snapshot := [])]);
        InsertOrPanic(b.(arena := Put(b.arena, handle, emptied)), Buffer(entries[index].snapshot))
  }

  /** `encode` is the ODE1 encoder. */
  function TakeErrorSnapshot(b: Bridge, handle: Handle, encode: BridgeError -> Result<Bytes>): Step {
    match Refusal(b.arena, handle, ErrorKind)
    case Some(e) => Refuse(b, e)
    case None =>
      var encoded := encode(b.arena.table[handle].error);
      if encoded.Err? then Refuse(b, encoded.error)
      else
        match ReplacementRefusal(b.arena, handle, ErrorKind)
        case Some(e) => Refuse(b, e)
        case None => InsertOrPanic(Removed(b, handle), Buffer(encoded.value))
  }

  function TakeLastError(b: Bridge): Step {
    if b.tornDown then Step(b.(lastError := None), Done)
    else
      match b.lastError
      case None => Step(b, Done)
      case Some(e) =>
        var step := InsertUnchecked(b, Error(e));
        if step.answer.Granted? then step.(bridge := step.bridge.(lastError := None)) else step
  }

  function Teardown(b: Bridge): Step {
    Step(b.(arena := EMPTY, lastError := None, tornDown := true), Done)
  }
}
