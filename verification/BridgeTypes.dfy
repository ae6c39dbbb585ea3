/** The values the browser bridge keeps behind handles. */
module BridgeTypes {
  import opened Basics

  /** A 32-bit handle, unpacked: `slot` is its low half minus one, `generation` its high half. */
  datatype Handle = Handle(slot: int, generation: nat)

  datatype BridgeError =
    | InvalidHandle(handle: Handle)
    | WrongResourceType(handle: Handle)
    | BufferTooLarge
    | InvalidByte(value: nat)
    | IndexOutOfBounds(index: nat)
    | HandleLimit
    | LengthOverflow
    | TaskNotReady(handle: Handle)
    | TaskConsumed(handle: Handle)
    | TornDown
    | ResourceClosed(handle: Handle)
    | ResourceBusy(handle: Handle)
    | InvalidArgument
    | AllocationFailed
    | Backend(code: nat)

  datatype Result<+T> = Ok(value: T) | Err(error: BridgeError)

  /** The three resources that survive several asynchronous operations. */
  datatype StatefulKind = ReadStream | Writer | Lister

  /** The OpenDAL object inside a stateful resource. `identity` names the object, so that
      moving it can be told from copying it. A read cursor also carries the buffers its
      backend stream has still to yield. */
  datatype Inner =
    | Cursor(identity: nat, pending: Option<Bytes>, rest: seq<Bytes>, maxChunk: nat)
    | WriterObject(identity: nat)
    | ListerObject(identity: nat)
  {
    function Kind(): StatefulKind {
      match this
      case Cursor(_, _, _, _) => ReadStream
      case WriterObject(_) => Writer
      case ListerObject(_) => Lister
    }
  }

  datatype Terminal = End | Finished(metadata: nat) | Aborted | Failed

  datatype StatefulState =
    | Open(inner: Inner, operation: nat)
    | Busy(operation: nat)
    | Closed(reason: Terminal)

  /** Ties a task to one operation on one stateful resource. */
  datatype Lease = Lease(handle: Handle, kind: StatefulKind, operation: nat)

  datatype Entry = Entry(path: nat, snapshot: Bytes)

  datatype MetadataOp = Written | Statted | Copied | WriterFinished

  datatype UnitOp = DirCreated | Deleted | Renamed | WriterWrote | WriterAborted

  datatype CompletionKind =
    | OfMetadata(metadataOp: MetadataOp)
    | OfUnit(unitOp: UnitOp)
    | OfRead
    | OfList
    | OfOpen(target: StatefulKind)
    | OfReaderNext
    | OfListerNext

  /** The sixteen completions, grouped by the type of their payload. */
  datatype Completion =
    | WithMetadata(metadataOp: MetadataOp, metadata: Result<nat>)
    | WithUnit(unitOp: UnitOp, unit: Result<()>)
    | WithBuffer(buffer: Result<Bytes>)
    | WithEntries(entries: Result<seq<Entry>>)
    | WithInner(target: StatefulKind, inner: Result<Inner>)
    | WithChunk(chunk: Result<Option<Bytes>>)
    | WithEntry(entry: Result<Option<Entry>>)
  {
    function Kind(): CompletionKind {
      match this
      case WithMetadata(op, _) => OfMetadata(op)
      case WithUnit(op, _) => OfUnit(op)
      case WithBuffer(_) => OfRead
      case WithEntries(_) => OfList
      case WithInner(k, _) => OfOpen(k)
      case WithChunk(_) => OfReaderNext
      case WithEntry(_) => OfListerNext
    }

    function Error(): Option<BridgeError> {
      match this
      case WithMetadata(_, Err(e)) => Some(e)
      case WithUnit(_, Err(e)) => Some(e)
      case WithBuffer(Err(e)) => Some(e)
      case WithEntries(Err(e)) => Some(e)
      case WithInner(_, Err(e)) => Some(e)
      case WithChunk(Err(e)) => Some(e)
      case WithEntry(Err(e)) => Some(e)
      case _ => None
    }
  }

  datatype TaskState =
    | Pending(lease: Option<Lease>)
    | Ready(completion: Completion, lease: Option<Lease>)
    | Cancelled
    | Consumed

  datatype ResourceKind =
    | BufferKind | BuilderKind | OperatorKind | MetadataKind | ErrorKind
    | TaskKind | CompletedKind | EntryListKind | OfStateful(stateful: StatefulKind)

  datatype Resource =
    | Buffer(bytes: Bytes)
    | Builder(scheme: nat)
    | Operator(service: nat)
    | Metadata(metadata: nat)
    | Error(error: BridgeError)
    | Task(task: TaskState)
    | Completed(completion: Completion)
    | EntryList(entries: seq<Entry>)
    | Stateful(kind: StatefulKind, state: StatefulState)
  {
    function Kind(): ResourceKind {
      match this
      case Buffer(_) => BufferKind
      case Builder(_) => BuilderKind
      case Operator(_) => OperatorKind
      case Metadata(_) => MetadataKind
      case Error(_) => ErrorKind
      case Task(_) => TaskKind
      case Completed(_) => CompletedKind
      case EntryList(_) => EntryListKind
      case Stateful(k, _) => OfStateful(k)
    }
  }

  type Table = map<Handle, Resource>
}
