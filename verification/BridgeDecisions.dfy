/** What every export answers, and when: a table of decisions written on the constructors of the
    resource behind the handle, and the proof that the exports follow it in every reachable state. */
module BridgeDecisions {
  import opened Basics
  import opened BridgeTypes
  import opened HandleArena
  import opened BridgeSteps
  import opened BridgeSystem
  import opened BridgeInvariant

  /** A call records an error and changes nothing else, or it removes some handles, changes what is
      behind others, and perhaps hands out one new handle. */
  datatype Verdict =
    | Denied(error: BridgeError)
    | Effect(gone: set<Handle>, changed: Table, added: Option<Resource>)

  ghost predicate Realised(b: Bridge, step: Step, v: Verdict) {
    match v
    case Denied(e) => step == Step(b.(lastError := Some(e)), Refused(e))
    case Effect(gone, changed, added) =>
      var t := b.arena.table - gone + changed;
      && step.bridge == b.(arena := step.bridge.arena)
      && match added
         case None => step.answer == Done && step.bridge.arena.table == t
         case Some(r) =>
           && step.answer.Granted? && step.answer.handle !in b.arena.table
           && step.bridge.arena.table == t[step.answer.handle := r]
  }

  // ---------------------------------------------------------------- the decisions

  predicate Room(b: Bridge) {
    CanInsert(b.arena)
  }

  /** Taking `h` away leaves its slot to the replacement, unless that was its last generation. */
  predicate RoomAfter(b: Bridge, h: Handle) {
    Room(b) || h.generation != MAX_GENERATION
  }

  function Added(b: Bridge, r: Resource): Verdict {
    if Room(b) then Effect({}, map[], Some(r)) else Denied(HandleLimit)
  }

  function New(b: Bridge, r: Resource): Verdict {
    if b.tornDown then Denied(TornDown) else Added(b, r)
  }

  function Changed(h: Handle, r: Resource): Verdict {
    Effect({}, map[h := r], None)
  }

  function Replaced(b: Bridge, h: Handle, r: Resource): Verdict {
    if RoomAfter(b, h) then Effect({h}, map[], Some(r)) else Denied(HandleLimit)
  }

  function ReplacedByEncoding(b: Bridge, h: Handle, encoded: Result<Bytes>): Verdict {
    match encoded
    case Err(e) => Denied(e)
    case Ok(bytes) => Replaced(b, h, Buffer(bytes))
  }

  /** What giving up a lease does: the resource fails if it is open or busy under that very operation. */
  function Failing(t: Table, lease: Option<Lease>): Table {
    match lease
    case None => map[]
    case Some(Lease(h, kind, operation)) =>
      if h !in t then map[]
      else
        match t[h]
        case Stateful(k, Open(_, current)) =>
          if k == kind && current == operation then map[h := Stateful(kind, Closed(Failed))] else map[]
        case Stateful(k, Busy(current)) =>
          if k == kind && current == operation then map[h := Stateful(kind, Closed(Failed))] else map[]
        case _ => map[]
  }

  function CompletionError(c: Completion): Option<BridgeError> {
    match c
    case WithMetadata(_, Err(e)) => Some(e)
    case WithUnit(_, Err(e)) => Some(e)
    case WithBuffer(Err(e)) => Some(e)
    case WithEntries(Err(e)) => Some(e)
    case WithInner(_, Err(e)) => Some(e)
    case WithChunk(Err(e)) => Some(e)
    case WithEntry(Err(e)) => Some(e)
    case WithMetadata(_, Ok(_)) => None
    case WithUnit(_, Ok(_)) => None
    case WithBuffer(Ok(_)) => None
    case WithEntries(Ok(_)) => None
    case WithInner(_, Ok(_)) => None
    case WithChunk(Ok(_)) => None
    case WithEntry(Ok(_)) => None
  }

  /** The takes, on the completion they find. */
  function DueOfCompletion(b: Bridge, e: Event, h: Handle, c: Completion): Verdict
    requires IsTake(e) && !e.TakeErrorSnapshot?
  {
    match e
    case TakeOpened(_, kind) =>
      (match c
       case WithInner(k, result) =>
         if k != kind then Denied(WrongResourceType(h))
         else (match result
               case Err(e) => Denied(e)
               case Ok(inner) => Replaced(b, h, Stateful(kind, Open(inner, 0))))
       case _ => Denied(WrongResourceType(h)))
    case TakeBuffer(_) =>
      (match c
       case WithBuffer(Err(e)) => Denied(e)
       case WithBuffer(Ok(bytes)) =>
         if |bytes| > 67108864 then Denied(BufferTooLarge) else Replaced(b, h, Buffer(bytes))
       case WithChunk(Err(e)) => Denied(e)
       case WithChunk(Ok(None)) => Effect({h}, map[], None)
       case WithChunk(Ok(Some(bytes))) =>
         if |bytes| > 262144 then Denied(BufferTooLarge) else Replaced(b, h, Buffer(bytes))
       case _ => Denied(WrongResourceType(h)))
    case TakeMetadata(_) =>
      (match c
       case WithMetadata(Written, _) => Denied(WrongResourceType(h))
       case WithMetadata(_, Err(e)) => Denied(e)
       case WithMetadata(_, Ok(m)) => Replaced(b, h, Metadata(m))
       case _ => Denied(WrongResourceType(h)))
    case TakeMetadataSnapshot(_, encode) =>
      (match c
       case WithMetadata(_, Err(e)) => Denied(e)
       case WithMetadata(_, Ok(m)) => ReplacedByEncoding(b, h, encode(m))
       case _ => Denied(WrongResourceType(h)))
    case TakeEntryList(_) =>
      (match c
       case WithEntries(Err(e)) => Denied(e)
       case WithEntries(Ok(entries)) => Replaced(b, h, EntryList(entries))
       case WithEntry(Err(e)) => Denied(e)
       case WithEntry(Ok(None)) => Effect({h}, map[], None)
       case WithEntry(Ok(Some(entry))) => Replaced(b, h, EntryList([entry]))
       case _ => Denied(WrongResourceType(h)))
    case TakeError(_) =>
      (match CompletionError(c)
       case Some(error) => Replaced(b, h, Error(error))
       case None => Denied(WrongResourceType(h)))
  }

  function DueOfTake(b: Bridge, e: Event): Verdict
    requires IsTake(e)
  {
    var h := e.handle;
    if h !in b.arena.table then Denied(InvalidHandle(h))
    else
      match b.arena.table[h]
      case Completed(c) => if e.TakeErrorSnapshot? then Denied(WrongResourceType(h)) else DueOfCompletion(b, e, h, c)
      case Error(error) =>
        if e.TakeErrorSnapshot? then ReplacedByEncoding(b, h, e.encodeError(error)) else Denied(WrongResourceType(h))
      case _ => Denied(WrongResourceType(h))
  }

  function DueOfTaskTake(b: Bridge, h: Handle): Verdict {
    if !Room(b) then Denied(HandleLimit)
    else if h !in b.arena.table then Denied(InvalidHandle(h))
    else
      match b.arena.table[h]
      case Task(Ready(c, _)) => Effect({}, map[h := Task(Consumed)], Some(Completed(c)))
      case Task(Consumed) => Denied(TaskConsumed(h))
      case Task(_) => Denied(TaskNotReady(h))
      case _ => Denied(WrongResourceType(h))
  }

  function DueOfTaskCancel(b: Bridge, h: Handle): Verdict {
    var t := b.arena.table;
    if h !in t then Denied(InvalidHandle(h))
    else
      match t[h]
      case Task(Pending(lease)) => Effect({}, Failing(t, lease)[h := Task(Cancelled)], None)
      case Task(Ready(_, lease)) => Effect({}, Failing(t, lease)[h := Task(Cancelled)], None)
      case Task(Cancelled) => Effect({}, map[], None)
      case Task(Consumed) => Effect({}, map[], None)
      case _ => Denied(WrongResourceType(h))
  }

  function DueOfTaskRelease(b: Bridge, h: Handle): Verdict {
    var t := b.arena.table;
    if h !in t then Denied(InvalidHandle(h))
    else
      match t[h]
      case Task(Pending(lease)) => Effect({h}, Failing(t, lease), None)
      case Task(Ready(_, lease)) => Effect({h}, Failing(t, lease), None)
      case Task(Cancelled) => Effect({h}, map[], None)
      case Task(Consumed) => Effect({h}, map[], None)
      case _ => Denied(WrongResourceType(h))
  }

  function DueOfRelease(b: Bridge, h: Handle, kind: ResourceKind): Verdict {
    if h !in b.arena.table then Denied(InvalidHandle(h))
    else if b.arena.table[h].Kind() != kind then Denied(WrongResourceType(h))
    else Effect({h}, map[], None)
  }

  function DueOfPushByte(b: Bridge, h: Handle, value: nat): Verdict {
    if h !in b.arena.table then Denied(InvalidHandle(h))
    else
      match b.arena.table[h]
      case Buffer(bytes) =>
        if |bytes| == 67108864 then Denied(BufferTooLarge)
        else if value > 255 then Denied(InvalidByte(value))
        else Changed(h, Buffer(bytes + [value]))
      case _ => Denied(WrongResourceType(h))
  }

  function DueOfWriteWindow(b: Bridge, h: Handle, offset: nat, data: Bytes): Verdict {
    if h !in b.arena.table then Denied(InvalidHandle(h))
    else
      match b.arena.table[h]
      case Buffer(bytes) =>
        if |data| == 0 || |data| > 262144 then Denied(InvalidArgument)
        else if offset + |data| > 0xFFFF_FFFF then Denied(IndexOutOfBounds(0xFFFF_FFFF))
        else if offset + |data| > |bytes| then Denied(IndexOutOfBounds(offset))
        else
          Changed(h, Buffer(seq(|bytes|, i requires 0 <= i < |bytes| =>
                                  if offset <= i < offset + |data| then data[i - offset] else bytes[i])))
      case _ => Denied(WrongResourceType(h))
  }

  function DueOfEntrySnapshot(b: Bridge, h: Handle, index: nat): Verdict {
    if h !in b.arena.table then Denied(InvalidHandle(h))
    else
      match b.arena.table[h]
      case EntryList(entries) =>
        if index >= |entries| then Denied(IndexOutOfBounds(index))
        else if entries[index].snapshot == [] then Denied(InvalidArgument)
        else if !Room(b) then Denied(HandleLimit)
        else Effect({}, map[h := EntryList(entries[index := Entry(entries[index].path, [])])], Some(Buffer(entries[index].snapshot)))
      case _ => Denied(WrongResourceType(h))
  }

  predicate IsExport(e: Event) {
    || IsTake(e) || e.TaskTake? || e.TaskCancel? || e.TaskRelease? || (e.Release? && e.resourceKind != TaskKind)
    || e.PushByte? || e.WriteWindow? || e.TakeEntrySnapshot? || e.NewBuffer? || (e.NewResource? && Plain(e.resource))
  }

  /** The table of decisions. */
  function Due(b: Bridge, e: Event): Verdict
    requires IsExport(e)
  {
    if IsTake(e) then DueOfTake(b, e)
    else
      match e
      case TaskTake(h) => DueOfTaskTake(b, h)
      case TaskCancel(h) => DueOfTaskCancel(b, h)
      case TaskRelease(h) => DueOfTaskRelease(b, h)
      case Release(h, kind) => DueOfRelease(b, h, kind)
      case PushByte(h, value) => DueOfPushByte(b, h, value)
      case WriteWindow(h, offset, data) => DueOfWriteWindow(b, h, offset, data)
      case TakeEntrySnapshot(h, index) => DueOfEntrySnapshot(b, h, index)
      case NewBuffer(bytes) => if |bytes| > 67108864 then Denied(BufferTooLarge) else New(b, Buffer(bytes))
      case NewResource(r) => New(b, r)
  }

  function Taking(b: Bridge, e: Event): Step
    requires IsExport(e)
  {
    if IsTake(e) then TakeStep(b, e)
    else
      match e
      case TaskTake(h) => BridgeSteps.TaskTake(b, h)
      case TaskCancel(h) => BridgeSteps.TaskCancel(b, h)
      case TaskRelease(h) => BridgeSteps.TaskRelease(b, h)
      case Release(h, kind) => BridgeSteps.Release(b, h, kind)
      case PushByte(h, value) => BridgeSteps.PushByte(b, h, value)
      case WriteWindow(h, offset, data) => BridgeSteps.WriteWindow(b, h, offset, data)
      case TakeEntrySnapshot(h, index) => BridgeSteps.TakeEntrySnapshot(b, h, index)
      case NewBuffer(bytes) => InsertBuffer(b, bytes)
      case NewResource(r) => InsertResource(b, r)
  }

  // -------------------------------------------------------------------- the proofs

  lemma AddRealised(b: Bridge, r: Resource)
    requires ArenaSound(b) && !b.tornDown
    ensures Realised(b, InsertUnchecked(b, r), Added(b, r))
  {
    if CanInsert(b.arena) {
      InsertIssues(b, r);
      LiveIsIssued(b);
      assert b.arena.table - {} + map[] == b.arena.table;
    }
  }

  lemma NewRealised(b: Bridge, r: Resource)
    requires ArenaSound(b)
    ensures Realised(b, InsertResource(b, r), New(b, r))
  {
    hide Realised;
    if b.tornDown {
      DeniedRealised(b, TornDown);
    } else {
      AddRealised(b, r);
    }
  }

  lemma DeniedRealised(b: Bridge, e: BridgeError)
    ensures Realised(b, Refuse(b, e), Denied(e))
  {
  }

  /** A resource gives way to another one under a new handle. */
  lemma ReplaceRealised(b: Bridge, h: Handle, r: Resource)
    requires ArenaSound(b) && h in b.arena.table && RoomAfter(b, h)
    ensures !b.tornDown && CanInsert(Removed(b, h).arena)
    ensures Realised(b, InsertUnchecked(Removed(b, h), r), Effect({h}, map[], Some(r)))
  {
    ReplacementRefusalExact(b.arena, h);
    RemoveIssues(b, h);
    var rest := Removed(b, h);
    InsertIssues(rest, r);
    LiveIsIssued(b);
    assert NextHandle(rest.arena) !in IssuedBy(b);
    assert b.arena.table - {h} + map[] == rest.arena.table;
  }

  lemma RemoveRealised(b: Bridge, h: Handle)
    requires ArenaSound(b) && h in b.arena.table
    ensures 0 <= h.slot < |b.arena.generations|
    ensures Realised(b, OnArena(b, Remove(b.arena, h), Done), Effect({h}, map[], None))
  {
    RemoveIssues(b, h);
    assert b.arena.table - {h} + map[] == b.arena.table - {h};
  }

  lemma PutRealised(b: Bridge, h: Handle, r: Resource)
    requires h in b.arena.table
    ensures Realised(b, OnArena(b, Put(b.arena, h, r), Done), Changed(h, r))
  {
    assert b.arena.table - {} + map[h := r] == b.arena.table[h := r];
  }

  /** The check before a replacement, in the words of the table. */
  lemma RoomChecked(b: Bridge, h: Handle, kind: ResourceKind)
    requires h in b.arena.table && b.arena.table[h].Kind() == kind
    ensures ReplacementRefusal(b.arena, h, kind) == if RoomAfter(b, h) then None else Some(HandleLimit)
  {
  }

  /** Every take that replaces, whichever of the three inserts it uses. */
  lemma ReplacingRealised(b: Bridge, h: Handle, r: Resource, step: Step)
    requires ArenaSound(b) && h in b.arena.table
    requires !RoomAfter(b, h) ==> step == Refuse(b, HandleLimit)
    requires RoomAfter(b, h) ==>
               || step == InsertUnchecked(Removed(b, h), r) || step == InsertResource(Removed(b, h), r)
               || step == InsertOrPanic(Removed(b, h), r)
    ensures Realised(b, step, Replaced(b, h, r))
  {
    hide Realised;
    if RoomAfter(b, h) {
      ReplaceRealised(b, h, r);
    } else {
      DeniedRealised(b, HandleLimit);
    }
  }

  lemma TakeOpenedDecided(b: Bridge, e: Event)
    requires ArenaSound(b) && e.TakeOpened?
    ensures Realised(b, TakeStep(b, e), DueOfTake(b, e))
  {
    hide Realised;
    hide ArenaSound;
    var h, step := e.handle, TakeStep(b, e);
    if h in b.arena.table && b.arena.table[h].Completed? {
      RoomChecked(b, h, CompletedKind);
      match b.arena.table[h].completion
      case WithInner(k, Ok(inner)) =>
        if k == e.target {
          ReplacingRealised(b, h, Stateful(k, Open(inner, 0)), step);
        } else {
          DeniedRealised(b, WrongResourceType(h));
        }
      case WithInner(k, Err(error)) => DeniedRealised(b, if k == e.target then error else WrongResourceType(h));
      case _ => DeniedRealised(b, WrongResourceType(h));
    } else {
      DeniedRealised(b, if h in b.arena.table then WrongResourceType(h) else InvalidHandle(h));
    }
  }

  /** An end value is taken without a replacement. */
  lemma EndRealised(b: Bridge, h: Handle)
    requires ArenaSound(b) && h in b.arena.table
    ensures Realised(b, Step(Removed(b, h), Done), Effect({h}, map[], None))
  {
    RemoveRealised(b, h);
  }

  lemma TakeBufferDecided(b: Bridge, e: Event)
    requires ArenaSound(b) && e.TakeBuffer?
    ensures Realised(b, TakeStep(b, e), DueOfTake(b, e))
  {
    hide Realised;
    hide ArenaSound;
    var h, step := e.handle, TakeStep(b, e);
    if h in b.arena.table && b.arena.table[h].Completed? {
      RoomChecked(b, h, CompletedKind);
      match b.arena.table[h].completion
      case WithBuffer(Err(error)) => DeniedRealised(b, error);
      case WithBuffer(Ok(bytes)) =>
        if |bytes| > MAX_BUFFER_LENGTH {
          DeniedRealised(b, BufferTooLarge);
        } else {
          ReplacingRealised(b, h, Buffer(bytes), step);
        }
      case WithChunk(Err(error)) => DeniedRealised(b, error);
      case WithChunk(Ok(None)) => EndRealised(b, h);
      case WithChunk(Ok(Some(bytes))) =>
        if |bytes| > MAX_TRANSFER_CHUNK {
          DeniedRealised(b, BufferTooLarge);
        } else {
          ReplacingRealised(b, h, Buffer(bytes), step);
        }
      case _ => DeniedRealised(b, WrongResourceType(h));
    } else {
      DeniedRealised(b, if h in b.arena.table then WrongResourceType(h) else InvalidHandle(h));
    }
  }

  lemma TakeMetadataDecided(b: Bridge, e: Event)
    requires ArenaSound(b) && e.TakeMetadata?
    ensures Realised(b, TakeStep(b, e), DueOfTake(b, e))
  {
    hide Realised;
    hide ArenaSound;
    var h, step := e.handle, TakeStep(b, e);
    if h in b.arena.table && b.arena.table[h].Completed? {
      RoomChecked(b, h, CompletedKind);
      match b.arena.table[h].completion
      case WithMetadata(Written, _) => DeniedRealised(b, WrongResourceType(h));
      case WithMetadata(_, Err(error)) => DeniedRealised(b, error);
      case WithMetadata(_, Ok(m)) => ReplacingRealised(b, h, Metadata(m), step);
      case _ => DeniedRealised(b, WrongResourceType(h));
    } else {
      DeniedRealised(b, if h in b.arena.table then WrongResourceType(h) else InvalidHandle(h));
    }
  }

  lemma EncodingRealised(b: Bridge, h: Handle, encoded: Result<Bytes>, step: Step)
    requires ArenaSound(b) && h in b.arena.table
    requires encoded.Err? ==> step == Refuse(b, encoded.error)
    requires encoded.Ok? && !RoomAfter(b, h) ==> step == Refuse(b, HandleLimit)
    requires encoded.Ok? && RoomAfter(b, h) ==> step == InsertOrPanic(Removed(b, h), Buffer(encoded.value))
    ensures Realised(b, step, ReplacedByEncoding(b, h, encoded))
  {
    hide Realised;
    match encoded
    case Err(error) => DeniedRealised(b, error);
    case Ok(bytes) => ReplacingRealised(b, h, Buffer(bytes), step);
  }

  lemma TakeMetadataSnapshotDecided(b: Bridge, e: Event)
    requires ArenaSound(b) && e.TakeMetadataSnapshot?
    ensures Realised(b, TakeStep(b, e), DueOfTake(b, e))
  {
    hide Realised;
    hide ArenaSound;
    var h, step := e.handle, TakeStep(b, e);
    if h in b.arena.table && b.arena.table[h].Completed? {
      RoomChecked(b, h, CompletedKind);
      match b.arena.table[h].completion
      case WithMetadata(_, Err(error)) => DeniedRealised(b, error);
      case WithMetadata(_, Ok(m)) => EncodingRealised(b, h, e.encode(m), step);
      case _ => DeniedRealised(b, WrongResourceType(h));
    } else {
      DeniedRealised(b, if h in b.arena.table then WrongResourceType(h) else InvalidHandle(h));
    }
  }

  lemma TakeEntryListDecided(b: Bridge, e: Event)
    requires ArenaSound(b) && e.TakeEntryList?
    ensures Realised(b, TakeStep(b, e), DueOfTake(b, e))
  {
    hide Realised;
    hide ArenaSound;
    var h, step := e.handle, TakeStep(b, e);
    if h in b.arena.table && b.arena.table[h].Completed? {
      RoomChecked(b, h, CompletedKind);
      match b.arena.table[h].completion
      case WithEntries(Err(error)) => DeniedRealised(b, error);
      case WithEntries(Ok(entries)) => ReplacingRealised(b, h, EntryList(entries), step);
      case WithEntry(Err(error)) => DeniedRealised(b, error);
      case WithEntry(Ok(None)) => EndRealised(b, h);
      case WithEntry(Ok(Some(entry))) => ReplacingRealised(b, h, EntryList([entry]), step);
      case _ => DeniedRealised(b, WrongResourceType(h));
    } else {
      DeniedRealised(b, if h in b.arena.table then WrongResourceType(h) else InvalidHandle(h));
    }
  }

  lemma TakeErrorDecided(b: Bridge, e: Event)
    requires ArenaSound(b) && e.TakeError?
    ensures Realised(b, TakeStep(b, e), DueOfTake(b, e))
  {
    hide Realised;
    hide ArenaSound;
    var h, step := e.handle, TakeStep(b, e);
    if h in b.arena.table && b.arena.table[h].Completed? {
      RoomChecked(b, h, CompletedKind);
      var c := b.arena.table[h].completion;
      assert CompletionError(c) == c.Error();
      match c.Error()
      case Some(error) => ReplacingRealised(b, h, Error(error), step);
      case None => DeniedRealised(b, WrongResourceType(h));
    } else {
      DeniedRealised(b, if h in b.arena.table then WrongResourceType(h) else InvalidHandle(h));
    }
  }

  lemma TakeErrorSnapshotDecided(b: Bridge, e: Event)
    requires ArenaSound(b) && e.TakeErrorSnapshot?
    ensures Realised(b, TakeStep(b, e), DueOfTake(b, e))
  {
    hide Realised;
    hide ArenaSound;
    var h, step := e.handle, TakeStep(b, e);
    if h in b.arena.table && b.arena.table[h].Error? {
      RoomChecked(b, h, ErrorKind);
      EncodingRealised(b, h, e.encodeError(b.arena.table[h].error), step);
    } else {
      DeniedRealised(b, if h in b.arena.table then WrongResourceType(h) else InvalidHandle(h));
    }
  }

  lemma TakeDecided(b: Bridge, e: Event)
    requires ArenaSound(b) && IsTake(e)
    ensures Realised(b, TakeStep(b, e), DueOfTake(b, e))
  {
    hide Realised;
    hide TakeStep;
    hide DueOfTake;
    hide ArenaSound;
    match e
    case TakeOpened(_, _) => TakeOpenedDecided(b, e);
    case TakeBuffer(_) => TakeBufferDecided(b, e);
    case TakeMetadata(_) => TakeMetadataDecided(b, e);
    case TakeMetadataSnapshot(_, _) => TakeMetadataSnapshotDecided(b, e);
    case TakeEntryList(_) => TakeEntryListDecided(b, e);
    case TakeError(_) => TakeErrorDecided(b, e);
    case TakeErrorSnapshot(_, _) => TakeErrorSnapshotDecided(b, e);
  }

  lemma TaskTakeDecided(b: Bridge, h: Handle)
    requires ArenaSound(b)
    ensures Realised(b, BridgeSteps.TaskTake(b, h), DueOfTaskTake(b, h))
  {
    hide WellFormed;
    var t := b.arena.table;
    if CanInsert(b.arena) && h in t && t[h].Task? && t[h].task.Ready? {
      var mid := b.(arena := Put(b.arena, h, Task(Consumed)));
      var r := Completed(t[h].task.completion);
      PutKeepsCapacity(b.arena, h, Task(Consumed));
      PutIssues(b, h, Task(Consumed));
      InsertIssues(mid, r);
      LiveIsIssued(mid);
      assert t - {} + map[h := Task(Consumed)] == mid.arena.table;
    }
  }

  lemma FailingIsTerminalize(a: Arena, lease: Option<Lease>)
    ensures Terminalize(a, lease).generations == a.generations
    ensures Terminalize(a, lease).table == a.table + Failing(a.table, lease)
    ensures forall h | h in Failing(a.table, lease) :: h in a.table && a.table[h].Stateful?
  {
  }

  lemma TaskCancelDecided(b: Bridge, h: Handle)
    ensures Realised(b, BridgeSteps.TaskCancel(b, h), DueOfTaskCancel(b, h))
  {
    var t := b.arena.table;
    if h in t && t[h].Task? {
      var lease := TaskLease(t[h]);
      FailingIsTerminalize(b.arena, lease);
      hide Terminalize;
      hide Failing;
      var failing := Failing(t, lease);
      assert lease.None? ==> failing == map[] by { NoLeaseFailsNothing(t); }
      assert t - {} + failing[h := Task(Cancelled)] == (t + failing)[h := Task(Cancelled)];
      assert t - {} + map[] == t;
    }
  }

  lemma NoLeaseFailsNothing(t: Table)
    ensures Failing(t, None) == map[]
  {
  }

  lemma TaskReleaseDecided(b: Bridge, h: Handle)
    requires ArenaSound(b)
    ensures Realised(b, BridgeSteps.TaskRelease(b, h), DueOfTaskRelease(b, h))
  {
    var t := b.arena.table;
    if h in t && t[h].Task? {
      var lease := TaskLease(t[h]);
      RemoveIssues(b, h);
      FailingIsTerminalize(b.arena, lease);
      hide Terminalize;
      hide Failing;
      var failing := Failing(t, lease);
      assert lease.None? ==> failing == map[] by { NoLeaseFailsNothing(t); }
      assert h !in failing;
      assert (t + failing) - {h} == t - {h} + failing;
    }
  }

  lemma ReleaseDecided(b: Bridge, h: Handle, kind: ResourceKind)
    requires ArenaSound(b)
    ensures Realised(b, BridgeSteps.Release(b, h, kind), DueOfRelease(b, h, kind))
  {
    if h in b.arena.table && b.arena.table[h].Kind() == kind {
      RemoveRealised(b, h);
    }
  }

  lemma PushByteDecided(b: Bridge, h: Handle, value: nat)
    ensures Realised(b, BridgeSteps.PushByte(b, h, value), DueOfPushByte(b, h, value))
  {
    if h in b.arena.table && b.arena.table[h].Buffer? && value <= 255 {
      PutRealised(b, h, Buffer(b.arena.table[h].bytes + [value]));
    }
  }

  lemma WriteWindowDecided(b: Bridge, h: Handle, offset: nat, data: Bytes)
    ensures Realised(b, BridgeSteps.WriteWindow(b, h, offset, data), DueOfWriteWindow(b, h, offset, data))
  {
    if h in b.arena.table && b.arena.table[h].Buffer? && offset + |data| <= |b.arena.table[h].bytes| {
      var bytes := b.arena.table[h].bytes;
      var later := Overwritten(bytes, offset, data);
      assert later == seq(|bytes|, i requires 0 <= i < |bytes| =>
                            if offset <= i < offset + |data| then data[i - offset] else bytes[i]);
      PutRealised(b, h, Buffer(later));
    }
  }

  lemma EntrySnapshotDecided(b: Bridge, h: Handle, index: nat)
    requires ArenaSound(b)
    ensures Realised(b, BridgeSteps.TakeEntrySnapshot(b, h, index), DueOfEntrySnapshot(b, h, index))
  {
    hide WellFormed;
    EntrySnapshotShape(b, h, index);
    if EntryTakable(b.arena, h, index) {
      var t := b.arena.table;
      var mid := b.(arena := EntryEmptied(b.arena, h, index));
      PutIssues(b, h, mid.arena.table[h]);
      PutKeepsCapacity(b.arena, h, mid.arena.table[h]);
      InsertIssues(mid, Buffer(t[h].entries[index].snapshot));
      LiveIsIssued(mid);
      assert t - {} + map[h := mid.arena.table[h]] == mid.arena.table;
    }
  }

  /** Every export does what the table says. */
  lemma ExportDecided(b: Bridge, e: Event)
    requires ArenaSound(b) && IsExport(e)
    ensures Realised(b, Taking(b, e), Due(b, e))
  {
    hide Realised;
    hide ArenaSound;
    if IsTake(e) {
      TakeDecided(b, e);
    } else {
      match e
      case TaskTake(h) => TaskTakeDecided(b, h);
      case TaskCancel(h) => TaskCancelDecided(b, h);
      case TaskRelease(h) => TaskReleaseDecided(b, h);
      case Release(h, kind) => ReleaseDecided(b, h, kind);
      case PushByte(h, value) => PushByteDecided(b, h, value);
      case WriteWindow(h, offset, data) => WriteWindowDecided(b, h, offset, data);
      case TakeEntrySnapshot(h, index) => EntrySnapshotDecided(b, h, index);
      case NewBuffer(bytes) =>
        NewRealised(b, Buffer(bytes));
        DeniedRealised(b, BufferTooLarge);
      case NewResource(r) => NewRealised(b, r);
    }
  }

  lemma ExportIsEvent(s: System, e: Event)
    requires IsExport(e)
    ensures Apply(s, e) == On(s, Taking(s.bridge, e))
  {
  }

  /** In every reachable state each export answers, and changes the resources, exactly as the table of
      decisions says; it never reaches an `unreachable!` arm. */
  lemma ExportsFollowTheTable(events: seq<Event>, e: Event)
    requires IsExport(e)
    ensures var s := Run(INITIAL, events);
            && Realised(s.bridge, Taking(s.bridge, e), Due(s.bridge, e))
            && Apply(s, e) == On(s, Taking(s.bridge, e))
  {
    hide Realised;
    hide Apply;
    InitialSound();
    RunKeeps(INITIAL, events);
    hide Run;
    ExportDecided(Run(INITIAL, events).bridge, e);
    ExportIsEvent(Run(INITIAL, events), e);
  }

  /** Cancelling or releasing a task, finished or not, fails the resource its lease names if that is still
      open or busy under the operation of the lease, and no other resource. */
  lemma DroppedWorkFailsItsResource(events: seq<Event>, e: Event, lease: Lease)
    requires (e.TaskCancel? || e.TaskRelease?) && e.handle in Run(INITIAL, events).bridge.arena.table
    requires var task := Run(INITIAL, events).bridge.arena.table[e.handle];
             task.Task? && (task.task == Pending(Some(lease)) || (task.task.Ready? && task.task.lease == Some(lease)))
    ensures var t := Run(INITIAL, events).bridge.arena.table;
            var later := Apply(Run(INITIAL, events), e).bridge.arena.table;
            var live := lease.handle in t && t[lease.handle].Stateful? && t[lease.handle].kind == lease.kind
                        && (|| (t[lease.handle].state.Open? && t[lease.handle].state.operation == lease.operation)
                            || t[lease.handle].state == Busy(lease.operation));
            && later.Keys == (if e.TaskCancel? then t.Keys else t.Keys - {e.handle})
            && (e.TaskCancel? ==> later[e.handle] == Task(Cancelled))
            && (forall h | h in later && h != e.handle ::
                  later[h] == if live && h == lease.handle then Stateful(lease.kind, Closed(Failed)) else t[h])
  {
    hide Apply;
    hide Taking;
    hide Run;
    ExportsFollowTheTable(events, e);
  }
}
