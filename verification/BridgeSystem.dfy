/** The bridge together with the futures it has spawned: the events that can happen, in any
    order, and the runs they make. */
module BridgeSystem {
  import opened Basics
  import opened BridgeTypes
  import opened HandleArena
  import opened BridgeSteps

  /** What an operation on a stateful resource does. `data` is the handle of the chunk. */
  datatype Verb = Next | Write(data: Handle) | Finish | Abort

  /** The work a spawned future still has to publish. */
  datatype Flight =
    | Operate(kind: CompletionKind)
    | OpenInner(target: StatefulKind, maxChunk: nat)
    | Repeat(completion: Completion)
    | Advance(lease: Lease, verb: Verb, inner: Inner)

  /** How the backend answers when a future completes. */
  datatype Choice =
    | Deliver(completion: Completion)
    | Opened(inner: Inner)
    | Proceed
    | Commit(metadata: nat)
    | Yield(entry: Entry)
    | Exhausted
    | Fail(error: BridgeError)

  datatype System = System(bridge: Bridge, flights: map<Handle, Flight>, nextIdentity: nat)

  datatype Event =
    | NewResource(resource: Resource)
    | NewBuffer(bytes: Bytes)
    | PushByte(handle: Handle, value: nat)
    | WriteWindow(handle: Handle, offset: nat, data: Bytes)
    | StartOperation(kind: CompletionKind)
    | StartOpen(target: StatefulKind, chunkSize: nat)
    | StartAdvance(handle: Handle, target: StatefulKind, verb: Verb)
    | Publish(task: Handle, choice: Choice)
    | TaskTake(handle: Handle)
    | TaskCancel(handle: Handle)
    | TaskRelease(handle: Handle)
    | Release(handle: Handle, resourceKind: ResourceKind)
    | TakeOpened(handle: Handle, target: StatefulKind)
    | TakeBuffer(handle: Handle)
    | TakeMetadata(handle: Handle)
    | TakeMetadataSnapshot(handle: Handle, encode: nat -> Result<Bytes>)
    | TakeEntryList(handle: Handle)
    | TakeError(handle: Handle)
    | TakeEntrySnapshot(handle: Handle, index: nat)
    | TakeErrorSnapshot(handle: Handle, encodeError: BridgeError -> Result<Bytes>)
    | TakeLastError
    | Note(error: Option<BridgeError>)  // an inspecting export that fails, or last_error_clear
    | Teardown

  const INITIAL: System :=
    System(Bridge(EMPTY, None, 0, false), map[], 0)

  // ---------------------------------------------------------- the futures' work

  function CopyChunk(buffer: Bytes, maxChunk: nat): (Bytes, Option<Bytes>) {
    var n := if |buffer| <= maxChunk then |buffer| else maxChunk;
    (buffer[..n], if n < |buffer| then Some(buffer[n..]) else None)
  }

  /** One bounded read: the pending remainder first, then the next buffer of the stream. */
  function ReadNext(cursor: Inner, choice: Choice): (Update, Completion)
    requires cursor.Cursor?
  {
    if choice.Fail? then (Update(ReadStream, Close(Failed)), WithChunk(Err(choice.error)))
    else if cursor.pending.None? && cursor.rest == [] then
      (Update(ReadStream, Close(End)), WithChunk(Ok(None)))
    else
      var (buffer, rest) := if cursor.pending.Some? then (cursor.pending.value, cursor.rest)
                            else (cursor.rest[0], cursor.rest[1..]);
      var (chunk, remainder) := CopyChunk(buffer, cursor.maxChunk);
      (Update(ReadStream, Reopen(cursor.(pending := remainder, rest := rest))), WithChunk(Ok(Some(chunk))))
  }

  /** What the future of a stateful operation publishes, when `choice` is an answer its
      backend call can give. */
  function Settle(kind: StatefulKind, verb: Verb, inner: Inner, choice: Choice)
    : Option<(Update, Completion)>
  {
    match kind
    case ReadStream =>
      if verb.Next? && inner.Cursor? && (choice.Proceed? || choice.Fail?)
      then Some(ReadNext(inner, choice)) else None
    case Writer =>
      (match (verb, choice)
       case (Write(_), Proceed) => Some((Update(Writer, Reopen(inner)), WithUnit(WriterWrote, Ok(()))))
       case (Write(_), Fail(e)) => Some((Update(Writer, Close(Failed)), WithUnit(WriterWrote, Err(e))))
       case (Finish, Commit(m)) => Some((Update(Writer, Close(Finished(m))), WithMetadata(WriterFinished, Ok(m))))
       case (Finish, Fail(e)) => Some((Update(Writer, Close(Failed)), WithMetadata(WriterFinished, Err(e))))
       case (Abort, Proceed) => Some((Update(Writer, Close(Aborted)), WithUnit(WriterAborted, Ok(()))))
       case (Abort, Fail(e)) => Some((Update(Writer, Close(Failed)), WithUnit(WriterAborted, Err(e))))
       case _ => None)
    case Lister =>
      (match (verb, choice)
       case (Next, Yield(entry)) => Some((Update(Lister, Reopen(inner)), WithEntry(Ok(Some(entry)))))
       case (Next, Exhausted) => Some((Update(Lister, Close(End)), WithEntry(Ok(None))))
       case (Next, Fail(e)) => Some((Update(Lister, Close(Failed)), WithEntry(Err(e))))
       case _ => None)
  }

  // --------------------------------------------------------------------- events

  function On(s: System, step: Step): System {
    s.(bridge := step.bridge)
  }

  function Launch(s: System, step: Step, flight: Flight): System {
    if step.answer.Granted? then s.(bridge := step.bridge, flights := s.flights[step.answer.handle := flight])
    else On(s, step)
  }

  /** Resources that are created outside the task protocol. */
  predicate Plain(r: Resource) {
    r.Builder? || r.Operator? || r.Metadata?
  }

  predicate OperatorLevel(kind: CompletionKind) {
    kind in {OfMetadata(Written), OfMetadata(Statted), OfMetadata(Copied), OfUnit(DirCreated), OfUnit(Deleted),
             OfUnit(Renamed), OfRead, OfList}
  }

  function StartTask(s: System, flight: Flight): System {
    Launch(s, InsertResource(s.bridge, Task(Pending(None))), flight)
  }

  function StartReserved(s: System, handle: Handle, kind: StatefulKind, verb: Verb): System {
    var step := Reserve(s.bridge, handle, kind);
    if step.answer.Granted? && handle in s.bridge.arena.table
       && s.bridge.arena.table[handle].Stateful? && s.bridge.arena.table[handle].state.Open?
    then
      Launch(s, step, Advance(Lease(handle, kind, step.bridge.nextOperation), verb,
                              s.bridge.arena.table[handle].state.inner))
    else On(s, step)
  }

  function OnStartAdvance(s: System, handle: Handle, kind: StatefulKind, verb: Verb): System {
    var b := s.bridge;
    if kind != Writer then (if verb.Next? then StartReserved(s, handle, kind, verb) else s)
    else
      match verb
      case Next => s
      case Write(data) =>
        (match Refusal(b.arena, data, BufferKind)
         case Some(e) => On(s, Refuse(b, e))
         case None =>
           if |b.arena.table[data].bytes| > MAX_TRANSFER_CHUNK then On(s, Refuse(b, BufferTooLarge))
           else StartReserved(s, handle, Writer, verb))
      case _ =>
        match Refusal(b.arena, handle, OfStateful(Writer))
        case Some(e) => On(s, Refuse(b, e))
        case None =>
          match b.arena.table[handle].state
          case Open(_, _) => StartReserved(s, handle, Writer, verb)
          case Busy(_) => On(s, Refuse(b, ResourceBusy(handle)))
          case Closed(reason) =>
            if verb.Finish? && reason.Finished? then
              StartTask(s, Repeat(WithMetadata(WriterFinished, Ok(reason.metadata))))
            else if verb.Abort? && reason.Aborted? then
              StartTask(s, Repeat(WithUnit(WriterAborted, Ok(()))))
            else On(s, Refuse(b, ResourceClosed(handle)))
  }

  function OnStartOpen(s: System, target: StatefulKind, chunkSize: nat): System {
    if target == ReadStream && !(1 <= chunkSize <= MAX_TRANSFER_CHUNK)
    then On(s, Refuse(s.bridge, InvalidArgument))
    else StartTask(s, OpenInner(target, chunkSize))
  }

  /** A backend may open `inner` for this future: a new object of the right kind. */
  predicate Opens(s: System, flight: Flight, inner: Inner)
    requires flight.OpenInner?
  {
    && inner.Kind() == flight.target
    && inner.identity == s.nextIdentity
    && (inner.Cursor? ==> inner.pending.None? && inner.maxChunk == flight.maxChunk)
  }

  /** The future of `task` completes. An answer its backend cannot give is not an event. */
  function OnPublish(s: System, task: Handle, choice: Choice): System {
    if task !in s.flights then s
    else
      var flight := s.flights[task];
      var t := s.(flights := s.flights - {task});
      match flight
      case Operate(kind) =>
        if choice.Deliver? && choice.completion.Kind() == kind
        then t.(bridge := PublishTask(s.bridge, task, choice.completion)) else s
      case OpenInner(target, _) =>
        if choice.Opened? && Opens(s, flight, choice.inner)
        then t.(bridge := PublishTask(s.bridge, task, WithInner(target, Ok(choice.inner))),
                nextIdentity := s.nextIdentity + 1)
        else if choice.Fail? then t.(bridge := PublishTask(s.bridge, task, WithInner(target, Err(choice.error))))
        else s
      case Repeat(c) => t.(bridge := PublishTask(s.bridge, task, c))
      case Advance(lease, verb, inner) =>
        match Settle(lease.kind, verb, inner, choice)
        case None => s
        case Some((u, c)) => t.(bridge := PublishResourceTask(s.bridge, task, lease, u, c))
  }

  /** The exports that replace one handle by another. */
  predicate IsTake(e: Event) {
    e.TakeOpened? || e.TakeBuffer? || e.TakeMetadata? || e.TakeMetadataSnapshot? || e.TakeEntryList?
    || e.TakeError? || e.TakeErrorSnapshot?
  }

  function TakeStep(b: Bridge, e: Event): Step
    requires IsTake(e)
  {
    match e
    case TakeOpened(h, kind) => BridgeSteps.TakeOpened(b, h, kind)
    case TakeBuffer(h) => BridgeSteps.TakeBuffer(b, h)
    case TakeMetadata(h) => BridgeSteps.TakeMetadata(b, h)
    case TakeMetadataSnapshot(h, encode) => BridgeSteps.TakeMetadataSnapshot(b, h, encode)
    case TakeEntryList(h) => BridgeSteps.TakeEntryList(b, h)
    case TakeError(h) => BridgeSteps.TakeError(b, h)
    case TakeErrorSnapshot(h, encode) => BridgeSteps.TakeErrorSnapshot(b, h, encode)
  }

  function Apply(s: System, e: Event): System {
    if IsTake(e) then On(s, TakeStep(s.bridge, e)) else ApplyOther(s, e)
  }

  function ApplyOther(s: System, e: Event): System
    requires !IsTake(e)
  {
    var b := s.bridge;
    match e
    case NewResource(r) => if Plain(r) then On(s, InsertResource(b, r)) else s
    case NewBuffer(bytes) => On(s, InsertBuffer(b, bytes))
    case PushByte(h, v) => On(s, BridgeSteps.PushByte(b, h, v))
    case WriteWindow(h, offset, data) => On(s, BridgeSteps.WriteWindow(b, h, offset, data))
    case StartOperation(kind) => if OperatorLevel(kind) then StartTask(s, Operate(kind)) else s
    case StartOpen(target, chunkSize) => OnStartOpen(s, target, chunkSize)
    case StartAdvance(h, kind, verb) => OnStartAdvance(s, h, kind, verb)
    case Publish(task, choice) => OnPublish(s, task, choice)
    case TaskTake(h) => On(s, BridgeSteps.TaskTake(b, h))
    case TaskCancel(h) => On(s, BridgeSteps.TaskCancel(b, h))
    case TaskRelease(h) => On(s, BridgeSteps.TaskRelease(b, h))
    case Release(h, kind) => if kind == TaskKind then s else On(s, BridgeSteps.Release(b, h, kind))
    case TakeEntrySnapshot(h, index) => On(s, BridgeSteps.TakeEntrySnapshot(b, h, index))
    case TakeLastError => On(s, BridgeSteps.TakeLastError(b))
    case Note(error) => s.(bridge := b.(lastError := error))
    case Teardown => On(s, BridgeSteps.Teardown(b))
  }

  function Run(s: System, events: seq<Event>): System
    decreases |events|
  {
    if events == [] then s else Run(Apply(s, events[0]), events[1..])
  }

  lemma {:induction false} RunConcat(s: System, before: seq<Event>, after: seq<Event>)
    ensures Run(s, before + after) == Run(Run(s, before), after)
    decreases |before|
  {
    if before == [] {
      assert before + after == after;
    } else {
      assert (before + after)[1..] == before[1..] + after;
      RunConcat(Apply(s, before[0]), before[1..], after);
    }
  }
}
