/** How a step moves the bridge forward: handles are issued once, resources only change in the
    ways their kind allows, and every insert is paid for out of the handle budget. */
module BridgeProgress {
  import opened Basics
  import opened BridgeTypes
  import opened HandleArena
  import opened BridgeSteps
  import opened BridgeSystem
  import opened BridgeInvariant

  /** Tasks only move forward, and a ready task keeps the lease it was pending under. */
  predicate TaskEvolves(task: TaskState, later: TaskState) {
    || task == later
    || (task.Pending? && later.Ready? && later.lease == task.lease)
    || ((task.Pending? || task.Ready?) && (later.Cancelled? || later.Consumed?))
  }

  /** Entry lists only lose snapshots. */
  predicate EntriesEvolve(entries: seq<Entry>, later: seq<Entry>) {
    && |later| == |entries|
    && forall i | 0 <= i < |entries| :: later[i] == entries[i] || later[i] == entries[i].(snapshot := [])
  }

  /** What may happen to a resource that keeps its handle: a terminal one never changes, and a buffer
      never gets shorter. */
  predicate Evolves(r: Resource, later: Resource) {
    || r == later
    || (r.Stateful? && later.Stateful? && r.kind == later.kind && !r.state.Closed?)
    || (r.Task? && later.Task? && TaskEvolves(r.task, later.task))
    || (r.Buffer? && later.Buffer? && |r.bytes| <= |later.bytes|)
    || (r.EntryList? && later.EntryList? && EntriesEvolve(r.entries, later.entries))
  }

  lemma EvolvesTrans(r: Resource, mid: Resource, later: Resource)
    requires Evolves(r, mid) && Evolves(mid, later)
    ensures Evolves(r, later)
  {
  }

  function NewHandles(b: Bridge, c: Bridge): set<Handle> {
    c.arena.table.Keys - b.arena.table.Keys
  }

  /** Inserts the bridge can still accept. */
  function Left(b: Bridge): int
    requires |b.arena.generations| <= MAX_SLOTS
  {
    if b.tornDown then 0 else Budget(b.arena)
  }

  ghost predicate Progress(b: Bridge, c: Bridge)
    requires ArenaSound(b) && ArenaSound(c)
  {
    && (b.tornDown ==> c.tornDown)
    && b.nextOperation <= c.nextOperation
    && IssuedBy(b) <= IssuedBy(c)
    && (forall h | h in c.arena.table && h in IssuedBy(b) :: h in b.arena.table)
    && (forall h | h in b.arena.table && h in c.arena.table :: Evolves(b.arena.table[h], c.arena.table[h]))
    && Left(c) + |NewHandles(b, c)| <= Left(b)
  }

  lemma ProgressTrans(b: Bridge, c: Bridge, d: Bridge)
    requires ArenaSound(b) && ArenaSound(c) && ArenaSound(d)
    requires Progress(b, c) && Progress(c, d)
    ensures Progress(b, d)
  {
    hide IssuedBy;
    hide Left;
    hide ArenaSound;
    hide Evolves;
    LiveIsIssued(b);
    LiveIsIssued(c);
    forall h | h in b.arena.table && h in d.arena.table
      ensures Evolves(b.arena.table[h], d.arena.table[h])
    {
      assert h in IssuedBy(c);
      assert h in c.arena.table;
      EvolvesTrans(b.arena.table[h], c.arena.table[h], d.arena.table[h]);
    }
    CountNew(b.arena.table.Keys, c.arena.table.Keys, d.arena.table.Keys);
  }

  lemma CountNew(x: set<Handle>, y: set<Handle>, z: set<Handle>)
    ensures |z - x| <= |y - x| + |z - y|
  {
    assert z - x <= (y - x) + (z - y);
    SubsetSize(z - x, (y - x) + (z - y));
  }

  lemma SameProgress(b: Bridge, c: Bridge)
    requires ArenaSound(b) && ArenaSound(c)
    requires c.arena == b.arena && c.tornDown == b.tornDown && b.nextOperation <= c.nextOperation
    ensures Progress(b, c)
  {
    LiveIsIssued(b);
    assert NewHandles(b, c) == {};
  }

  lemma InsertProgress(b: Bridge, r: Resource)
    requires ArenaSound(b) && !b.tornDown && CanInsert(b.arena)
    ensures ArenaSound(b.(arena := Insert(b.arena, r)))
    ensures Progress(b, b.(arena := Insert(b.arena, r)))
  {
    hide WellFormed;
    hide Budget;
    InsertIssues(b, r);
    InsertSpendsOne(b.arena, r);
    var c := b.(arena := Insert(b.arena, r));
    LiveIsIssued(b);
    assert NewHandles(b, c) == {NextHandle(b.arena)};
  }

  lemma PutProgress(b: Bridge, handle: Handle, r: Resource)
    requires ArenaSound(b) && handle in b.arena.table && Evolves(b.arena.table[handle], r)
    ensures ArenaSound(b.(arena := Put(b.arena, handle, r)))
    ensures Progress(b, b.(arena := Put(b.arena, handle, r)))
  {
    PutIssues(b, handle, r);
    PutSpendsNothing(b.arena, handle, r);
    assert NewHandles(b, b.(arena := Put(b.arena, handle, r))) == {};
  }

  lemma RemoveProgress(b: Bridge, handle: Handle)
    requires ArenaSound(b) && handle in b.arena.table
    ensures Resolves(b.arena, handle) && Removed(b, handle) == b.(arena := Remove(b.arena, handle))
    ensures ArenaSound(Removed(b, handle)) && Progress(b, Removed(b, handle))
  {
    RemoveIssues(b, handle);
    RemoveSpendsNothing(b.arena, handle);
    assert NewHandles(b, Removed(b, handle)) == {};
  }

  // ------------------------------------------------------------------- the steps

  /** A step that inserts `r`, or is refused. */
  lemma InsertStepProgress(b: Bridge, r: Resource, step: Step)
    requires ArenaSound(b) && !b.tornDown
    requires step in {InsertUnchecked(b, r), InsertResource(b, r), InsertOrPanic(b, r)}
    ensures ArenaSound(step.bridge) && Progress(b, step.bridge)
  {
    if CanInsert(b.arena) {
      InsertProgress(b, r);
    } else {
      SameProgress(b, step.bridge);
    }
  }

  lemma ReserveProgress(b: Bridge, handle: Handle, kind: StatefulKind)
    requires ArenaSound(b)
    ensures ArenaSound(Reserve(b, handle, kind).bridge) && Progress(b, Reserve(b, handle, kind).bridge)
  {
    hide Progress;
    hide WellFormed;
    ReserveCases(b, handle, kind);
    var c := Reserve(b, handle, kind).bridge;
    if CanReserve(b, handle, kind) {
      var n := b.nextOperation + 1;
      var mid := b.(arena := Put(b.arena, handle, Stateful(kind, Busy(n))), nextOperation := n);
      SameProgress(b, b.(nextOperation := n));
      PutProgress(b.(nextOperation := n), handle, Stateful(kind, Busy(n)));
      ProgressTrans(b, b.(nextOperation := n), mid);
      PutKeepsCapacity(b.arena, handle, Stateful(kind, Busy(n)));
      InsertProgress(mid, Task(Pending(Some(Lease(handle, kind, n)))));
      ProgressTrans(b, mid, c);
    } else {
      SameProgress(b, c);
    }
  }

  lemma StartTaskProgress(s: System, flight: Flight)
    requires ArenaSound(s.bridge)
    ensures ArenaSound(StartTask(s, flight).bridge) && Progress(s.bridge, StartTask(s, flight).bridge)
  {
    if s.bridge.tornDown {
      SameProgress(s.bridge, StartTask(s, flight).bridge);
    } else {
      InsertStepProgress(s.bridge, Task(Pending(None)), InsertResource(s.bridge, Task(Pending(None))));
    }
  }

  lemma StartAdvanceProgress(s: System, handle: Handle, kind: StatefulKind, verb: Verb)
    requires ArenaSound(s.bridge)
    ensures ArenaSound(OnStartAdvance(s, handle, kind, verb).bridge)
    ensures Progress(s.bridge, OnStartAdvance(s, handle, kind, verb).bridge)
  {
    var later := OnStartAdvance(s, handle, kind, verb);
    StartAdvanceCases(s, handle, kind, verb);
    if later == StartReserved(s, handle, kind, verb) {
      StartReservedCases(s, handle, kind, verb);
      ReserveCases(s.bridge, handle, kind);
      ReserveProgress(s.bridge, handle, kind);
    } else if m :| later == StartTask(s, Repeat(WithMetadata(WriterFinished, Ok(m)))) {
      StartTaskProgress(s, Repeat(WithMetadata(WriterFinished, Ok(m))));
    } else if later == StartTask(s, Repeat(WithUnit(WriterAborted, Ok(())))) {
      StartTaskProgress(s, Repeat(WithUnit(WriterAborted, Ok(()))));
    } else {
      SameProgress(s.bridge, later.bridge);
    }
  }

  lemma PublishTaskProgress(b: Bridge, task: Handle, c: Completion)
    requires ArenaSound(b)
    ensures ArenaSound(PublishTask(b, task, c)) && Progress(b, PublishTask(b, task, c))
  {
    if IsPending(b.arena, task, None) {
      PutProgress(b, task, Task(Ready(c, None)));
    } else {
      SameProgress(b, b);
    }
  }

  lemma PublishResourceProgress(b: Bridge, task: Handle, lease: Lease, u: Update, c: Completion)
    requires ArenaSound(b)
    ensures ArenaSound(PublishResourceTask(b, task, lease, u, c))
    ensures Progress(b, PublishResourceTask(b, task, lease, u, c))
  {
    hide Progress;
    hide WellFormed;
    SameProgress(b, b);
    if IsPending(b.arena, task, Some(lease)) && u.kind == lease.kind {
      var r := Stateful(lease.kind, SettledState(u.next, lease.operation));
      var mid := if IsBusy(b.arena, lease) then b.(arena := Put(b.arena, lease.handle, r)) else b;
      if IsBusy(b.arena, lease) {
        PutProgress(b, lease.handle, r);
      }
      if IsPending(mid.arena, task, Some(lease)) {
        PutProgress(mid, task, Task(Ready(c, Some(lease))));
        ProgressTrans(b, mid, PublishResourceTask(b, task, lease, u, c));
      }
    }
  }

  lemma PublishProgress(s: System, task: Handle, choice: Choice)
    requires ArenaSound(s.bridge)
    ensures ArenaSound(OnPublish(s, task, choice).bridge) && Progress(s.bridge, OnPublish(s, task, choice).bridge)
  {
    var later := OnPublish(s, task, choice).bridge;
    if later == s.bridge {
      SameProgress(s.bridge, later);
    } else {
      match s.flights[task]
      case Operate(_) => PublishTaskProgress(s.bridge, task, choice.completion);
      case OpenInner(target, _) =>
        PublishTaskProgress(s.bridge, task, WithInner(target, if choice.Opened? then Ok(choice.inner) else Err(choice.error)));
      case Repeat(c) => PublishTaskProgress(s.bridge, task, c);
      case Advance(lease, verb, inner) =>
        var (u, c) := Settle(lease.kind, verb, inner, choice).value;
        PublishResourceProgress(s.bridge, task, lease, u, c);
    }
  }

  lemma TaskTakeProgress(b: Bridge, handle: Handle)
    requires ArenaSound(b)
    ensures ArenaSound(BridgeSteps.TaskTake(b, handle).bridge) && Progress(b, BridgeSteps.TaskTake(b, handle).bridge)
  {
    var step := BridgeSteps.TaskTake(b, handle);
    if step.answer.Refused? && step == Refuse(b, step.answer.error) {
      SameProgress(b, step.bridge);
    } else {
      var mid := b.(arena := Put(b.arena, handle, Task(Consumed)));
      var r := Completed(b.arena.table[handle].task.completion);
      assert step == InsertUnchecked(mid, r);
      PutProgress(b, handle, Task(Consumed));
      InsertStepProgress(mid, r, step);
      ProgressTrans(b, mid, step.bridge);
    }
  }

  lemma CancelledProgress(b: Bridge, handle: Handle)
    requires ArenaSound(b) && handle in b.arena.table && b.arena.table[handle].Task?
    requires b.arena.table[handle].task.Pending? || b.arena.table[handle].task.Ready?
    ensures ArenaSound(b.(arena := CancelledIn(b.arena, handle)))
    ensures Progress(b, b.(arena := CancelledIn(b.arena, handle)))
  {
    hide Progress;
    hide WellFormed;
    var lease := TaskLease(b.arena.table[handle]);
    var mid := b.(arena := Terminalize(b.arena, lease));
    SameProgress(b, b);
    if lease.Some? && Governs(b.arena, lease.value) {
      PutProgress(b, lease.value.handle, Stateful(lease.value.kind, Closed(Failed)));
    }
    PutProgress(mid, handle, Task(Cancelled));
    ProgressTrans(b, mid, b.(arena := CancelledIn(b.arena, handle)));
  }

  lemma TaskCancelProgress(b: Bridge, handle: Handle)
    requires ArenaSound(b)
    ensures ArenaSound(BridgeSteps.TaskCancel(b, handle).bridge)
    ensures Progress(b, BridgeSteps.TaskCancel(b, handle).bridge)
  {
    var c := BridgeSteps.TaskCancel(b, handle).bridge;
    if Refusal(b.arena, handle, TaskKind).Some? || b.arena.table[handle].task in {Cancelled, Consumed} {
      SameProgress(b, c);
    } else {
      CancelledProgress(b, handle);
    }
  }

  lemma TaskReleaseProgress(b: Bridge, handle: Handle)
    requires ArenaSound(b)
    ensures ArenaSound(BridgeSteps.TaskRelease(b, handle).bridge)
    ensures Progress(b, BridgeSteps.TaskRelease(b, handle).bridge)
  {
    if Refusal(b.arena, handle, TaskKind).Some? {
      SameProgress(b, BridgeSteps.TaskRelease(b, handle).bridge);
    } else if b.arena.table[handle].task.Cancelled? || b.arena.table[handle].task.Consumed? {
      RemoveProgress(b, handle);
    } else {
      var mid := b.(arena := CancelledIn(b.arena, handle));
      TaskReleaseShape(b, handle);
      CancelledProgress(b, handle);
      RemoveProgress(mid, handle);
      ProgressTrans(b, mid, Removed(mid, handle));
    }
  }

  lemma ReleaseProgress(b: Bridge, handle: Handle, kind: ResourceKind)
    requires ArenaSound(b)
    ensures ArenaSound(BridgeSteps.Release(b, handle, kind).bridge)
    ensures Progress(b, BridgeSteps.Release(b, handle, kind).bridge)
  {
    if Refusal(b.arena, handle, kind).Some? {
      SameProgress(b, BridgeSteps.Release(b, handle, kind).bridge);
    } else {
      RemoveProgress(b, handle);
    }
  }

  lemma TakeProgress(b: Bridge, handle: Handle, step: Step, r: Option<Resource>)
    requires ArenaSound(b) && TakeShape(b, handle, step, r)
    ensures ArenaSound(step.bridge) && Progress(b, step.bridge)
  {
    if step.answer.Refused? && step == Refuse(b, step.answer.error) {
      SameProgress(b, step.bridge);
    } else {
      RemoveProgress(b, handle);
      if r.Some? {
        InsertStepProgress(Removed(b, handle), r.value, step);
        ProgressTrans(b, Removed(b, handle), step.bridge);
      }
    }
  }

  lemma EntrySnapshotProgress(b: Bridge, handle: Handle, index: nat)
    requires ArenaSound(b)
    ensures ArenaSound(BridgeSteps.TakeEntrySnapshot(b, handle, index).bridge)
    ensures Progress(b, BridgeSteps.TakeEntrySnapshot(b, handle, index).bridge)
  {
    EntrySnapshotShape(b, handle, index);
    var step := BridgeSteps.TakeEntrySnapshot(b, handle, index);
    if EntryTakable(b.arena, handle, index) {
      var mid := b.(arena := EntryEmptied(b.arena, handle, index));
      var entries := b.arena.table[handle].entries;
      assert EntriesEvolve(entries, entries[index := entries[index].(snapshot := [])]);
      PutProgress(b, handle, EntryList(entries[index := entries[index].(snapshot := [])]));
      InsertProgress(mid, Buffer(entries[index].snapshot));
      ProgressTrans(b, mid, step.bridge);
    } else {
      SameProgress(b, step.bridge);
    }
  }

  lemma LastErrorProgress(b: Bridge)
    requires ArenaSound(b)
    ensures ArenaSound(BridgeSteps.TakeLastError(b).bridge) && Progress(b, BridgeSteps.TakeLastError(b).bridge)
  {
    var later := BridgeSteps.TakeLastError(b).bridge;
    if !b.tornDown && b.lastError.Some? {
      var step := InsertUnchecked(b, Error(b.lastError.value));
      InsertStepProgress(b, Error(b.lastError.value), step);
      SameProgress(step.bridge, later);
      ProgressTrans(b, step.bridge, later);
    } else {
      SameProgress(b, later);
    }
  }

  lemma TeardownProgress(b: Bridge)
    requires ArenaSound(b)
    ensures ArenaSound(BridgeSteps.Teardown(b).bridge) && Progress(b, BridgeSteps.Teardown(b).bridge)
  {
    BudgetNonnegative(b.arena);
    assert NewHandles(b, BridgeSteps.Teardown(b).bridge) == {};
  }

  lemma InsertResourceProgress(b: Bridge, r: Resource)
    requires ArenaSound(b)
    ensures ArenaSound(InsertResource(b, r).bridge) && Progress(b, InsertResource(b, r).bridge)
  {
    if b.tornDown {
      SameProgress(b, InsertResource(b, r).bridge);
    } else {
      InsertStepProgress(b, r, InsertResource(b, r));
    }
  }

  lemma NewBufferProgress(b: Bridge, bytes: Bytes)
    requires ArenaSound(b)
    ensures ArenaSound(InsertBuffer(b, bytes).bridge) && Progress(b, InsertBuffer(b, bytes).bridge)
  {
    if |bytes| > MAX_BUFFER_LENGTH {
      SameProgress(b, InsertBuffer(b, bytes).bridge);
    } else {
      InsertResourceProgress(b, Buffer(bytes));
    }
  }

  lemma WriteWindowProgress(b: Bridge, handle: Handle, offset: nat, data: Bytes)
    requires ArenaSound(b)
    ensures ArenaSound(BridgeSteps.WriteWindow(b, handle, offset, data).bridge)
    ensures Progress(b, BridgeSteps.WriteWindow(b, handle, offset, data).bridge)
  {
    var step := BridgeSteps.WriteWindow(b, handle, offset, data);
    if step.answer.Done? {
      PutProgress(b, handle, Buffer(Overwritten(b.arena.table[handle].bytes, offset, data)));
    } else {
      SameProgress(b, step.bridge);
    }
  }

  lemma PushByteProgress(b: Bridge, handle: Handle, value: nat)
    requires ArenaSound(b)
    ensures ArenaSound(BridgeSteps.PushByte(b, handle, value).bridge)
    ensures Progress(b, BridgeSteps.PushByte(b, handle, value).bridge)
  {
    var step := BridgeSteps.PushByte(b, handle, value);
    if step.answer.Done? {
      PutProgress(b, handle, Buffer(b.arena.table[handle].bytes + [value]));
    } else {
      SameProgress(b, step.bridge);
    }
  }

  lemma StartOpenProgress(s: System, target: StatefulKind, chunkSize: nat)
    requires ArenaSound(s.bridge)
    ensures ArenaSound(OnStartOpen(s, target, chunkSize).bridge)
    ensures Progress(s.bridge, OnStartOpen(s, target, chunkSize).bridge)
  {
    if target == ReadStream && !(1 <= chunkSize <= MAX_TRANSFER_CHUNK) {
      SameProgress(s.bridge, OnStartOpen(s, target, chunkSize).bridge);
    } else {
      StartTaskProgress(s, OpenInner(target, chunkSize));
    }
  }

  lemma NewProgress(s: System, e: Event)
    requires ArenaSound(s.bridge) && (e.NewResource? || e.NewBuffer?)
    ensures ArenaSound(Apply(s, e).bridge) && Progress(s.bridge, Apply(s, e).bridge)
  {
    if e.NewBuffer? {
      NewBufferProgress(s.bridge, e.bytes);
    } else if Plain(e.resource) {
      InsertResourceProgress(s.bridge, e.resource);
    } else {
      SameProgress(s.bridge, s.bridge);
    }
  }

  lemma StartProgress(s: System, e: Event)
    requires ArenaSound(s.bridge) && (e.StartOperation? || e.StartOpen? || e.StartAdvance?)
    ensures ArenaSound(Apply(s, e).bridge) && Progress(s.bridge, Apply(s, e).bridge)
  {
    match e
    case StartOperation(kind) =>
      if OperatorLevel(kind) {
        assert Apply(s, e) == StartTask(s, Operate(kind));
        StartTaskProgress(s, Operate(kind));
      } else {
        SameProgress(s.bridge, s.bridge);
      }
    case StartOpen(target, chunkSize) =>
      assert Apply(s, e) == OnStartOpen(s, target, chunkSize);
      StartOpenProgress(s, target, chunkSize);
    case StartAdvance(h, kind, verb) =>
      assert Apply(s, e) == OnStartAdvance(s, h, kind, verb);
      StartAdvanceProgress(s, h, kind, verb);
  }

  /** Every event moves the bridge forward. */
  lemma ApplyProgress(s: System, e: Event)
    requires ArenaSound(s.bridge)
    ensures ArenaSound(Apply(s, e).bridge) && Progress(s.bridge, Apply(s, e).bridge)
  {
    var b := s.bridge;
    if IsTake(e) {
      TakeShapes(b, e);
      TakeProgress(b, e.handle, TakeStep(b, e), Taken(b, e));
    } else if e.NewResource? || e.NewBuffer? {
      NewProgress(s, e);
    } else if e.StartOperation? || e.StartOpen? || e.StartAdvance? {
      StartProgress(s, e);
    } else {
      match e
      case PushByte(h, v) => PushByteProgress(b, h, v);
      case WriteWindow(h, offset, data) => WriteWindowProgress(b, h, offset, data);
      case Publish(task, choice) => PublishProgress(s, task, choice);
      case TaskTake(h) => TaskTakeProgress(b, h);
      case TaskCancel(h) => TaskCancelProgress(b, h);
      case TaskRelease(h) => TaskReleaseProgress(b, h);
      case Release(h, kind) =>
        if kind == TaskKind {
          SameProgress(b, b);
        } else {
          ReleaseProgress(b, h, kind);
        }
      case TakeEntrySnapshot(h, index) => EntrySnapshotProgress(b, h, index);
      case TakeLastError => LastErrorProgress(b);
      case Note(error) => SameProgress(b, b.(lastError := error));
      case Teardown => TeardownProgress(b);
    }
  }

  /** Progress accumulates over a whole run. */
  lemma {:induction false} RunProgress(s: System, events: seq<Event>)
    requires ArenaSound(s.bridge)
    ensures ArenaSound(Run(s, events).bridge) && Progress(s.bridge, Run(s, events).bridge)
    decreases |events|
  {
    if events == [] {
      SameProgress(s.bridge, s.bridge);
    } else {
      var next := Apply(s, events[0]);
      ApplyProgress(s, events[0]);
      RunProgress(next, events[1..]);
      ProgressTrans(s.bridge, next.bridge, Run(s, events).bridge);
    }
  }
}
