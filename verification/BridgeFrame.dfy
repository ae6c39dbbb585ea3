/** Which handles an event can touch. */
module BridgeFrame {
  import opened Basics
  import opened BridgeTypes
  import opened HandleArena
  import opened BridgeSteps
  import opened BridgeSystem
  import opened BridgeInvariant

  /** `t` and `u` agree outside `changed`. */
  ghost predicate SameExcept(t: Table, u: Table, changed: set<Handle>) {
    forall h | h !in changed :: (h in t <==> h in u) && (h in t ==> u[h] == t[h])
  }

  /** The live stateful resource a task's lease names. */
  function LeasedBy(t: Table, task: Handle): set<Handle> {
    if task in t && TaskLease(t[task]).Some? && TaskLease(t[task]).value.handle in t
       && t[TaskLease(t[task]).value.handle].Stateful?
    then {TaskLease(t[task]).value.handle} else {}
  }

  /** The existing handles an event names, directly or through a task's lease. */
  function Named(t: Table, e: Event): set<Handle> {
    match e
    case Publish(task, _) => {task} + LeasedBy(t, task)
    case TaskTake(h) => {h}
    case TaskCancel(h) => {h} + LeasedBy(t, h)
    case TaskRelease(h) => {h} + LeasedBy(t, h)
    case PushByte(h, _) => {h}
    case WriteWindow(h, _, _) => {h}
    case StartAdvance(h, _, _) => {h}
    case Release(h, _) => {h}
    case TakeOpened(h, _) => {h}
    case TakeBuffer(h) => {h}
    case TakeMetadata(h) => {h}
    case TakeMetadataSnapshot(h, _) => {h}
    case TakeEntryList(h) => {h}
    case TakeError(h) => {h}
    case TakeEntrySnapshot(h, _) => {h}
    case TakeErrorSnapshot(h, _) => {h}
    case Teardown => t.Keys
    case _ => {}
  }

  /** An event changes only the handles it names and at most adds new ones; a task gains a lease
      only when it is created for an operation. */
  ghost predicate Framed(s: System, e: Event, later: System) {
    var t := s.bridge.arena.table;
    var u := later.bridge.arena.table;
    && SameExcept(t, u, Named(t, e) + (u.Keys - t.Keys))
    && (forall n | n in u && TaskLease(u[n]).Some? ::
          if n in t then TaskLease(u[n]) == TaskLease(t[n])
          else e.StartAdvance? && TaskLease(u[n]).value.handle == e.handle)
    && (forall f | f in s.flights && !(e.Publish? && e.task == f) && f in t :: f in later.flights && later.flights[f] == s.flights[f])
  }

  lemma InsertFrame(s: System, e: Event, r: Resource, step: Step)
    requires step in {InsertUnchecked(s.bridge, r), InsertResource(s.bridge, r), InsertOrPanic(s.bridge, r)}
    requires ArenaSound(s.bridge) && TaskLease(r).None?
    ensures Framed(s, e, On(s, step))
  {
    if CanInsert(s.bridge.arena) {
      InsertIsFresh(s.bridge.arena, r);
    }
  }

  lemma LaunchFrame(s: System, e: Event, flight: Flight)
    requires ArenaSound(s.bridge)
    ensures Framed(s, e, StartTask(s, flight))
  {
    if CanInsert(s.bridge.arena) {
      InsertIsFresh(s.bridge.arena, Task(Pending(None)));
    }
  }

  lemma ReserveFrame(s: System, handle: Handle, kind: StatefulKind, verb: Verb)
    requires ArenaSound(s.bridge)
    ensures Framed(s, StartAdvance(handle, kind, verb), StartReserved(s, handle, kind, verb))
  {
    hide WellFormed;
    StartReservedCases(s, handle, kind, verb);
    ReserveCases(s.bridge, handle, kind);
    if CanReserve(s.bridge, handle, kind) {
      ReservedArena(s.bridge, handle, kind);
    }
  }

  lemma AdvanceFrame(s: System, handle: Handle, kind: StatefulKind, verb: Verb)
    requires ArenaSound(s.bridge)
    ensures Framed(s, StartAdvance(handle, kind, verb), OnStartAdvance(s, handle, kind, verb))
  {
    var e := StartAdvance(handle, kind, verb);
    var later := OnStartAdvance(s, handle, kind, verb);
    StartAdvanceCases(s, handle, kind, verb);
    if later == StartReserved(s, handle, kind, verb) {
      ReserveFrame(s, handle, kind, verb);
    } else if m :| later == StartTask(s, Repeat(WithMetadata(WriterFinished, Ok(m)))) {
      LaunchFrame(s, e, Repeat(WithMetadata(WriterFinished, Ok(m))));
    } else if later == StartTask(s, Repeat(WithUnit(WriterAborted, Ok(())))) {
      LaunchFrame(s, e, Repeat(WithUnit(WriterAborted, Ok(()))));
    }
  }

  lemma PublishFrame(s: System, task: Handle, choice: Choice)
    ensures Framed(s, Event.Publish(task, choice), OnPublish(s, task, choice))
  {
    if task in s.flights && s.flights[task].Advance? {
      var flight := s.flights[task];
      var settled := Settle(flight.lease.kind, flight.verb, flight.inner, choice);
      if settled.Some? {
        PublishResourceFrame(s.bridge, task, flight.lease, settled.value.0, settled.value.1);
      }
    }
  }

  lemma PublishResourceFrame(b: Bridge, task: Handle, lease: Lease, u: Update, c: Completion)
    ensures var later := PublishResourceTask(b, task, lease, u, c).arena.table;
            && later.Keys == b.arena.table.Keys
            && (IsPending(b.arena, task, Some(lease)) ==>
                  SameExcept(b.arena.table, later, {task} + LeasedBy(b.arena.table, task)))
            && (forall n | n in later && TaskLease(later[n]).Some? :: TaskLease(later[n]) == TaskLease(b.arena.table[n]))
            && (!IsPending(b.arena, task, Some(lease)) ==> later == b.arena.table)
  {
  }

  lemma TaskTakeFrame(s: System, h: Handle)
    requires ArenaSound(s.bridge)
    ensures Framed(s, Event.TaskTake(h), On(s, BridgeSteps.TaskTake(s.bridge, h)))
  {
    hide WellFormed;
    hide Retired;
    hide FirstFree;
    var b := s.bridge;
    if BridgeSteps.TaskTake(b, h).bridge.arena != b.arena {
      PutIssues(b, h, Task(Consumed));
      PutKeepsCapacity(b.arena, h, Task(Consumed));
      InsertIsFresh(Put(b.arena, h, Task(Consumed)), Completed(b.arena.table[h].task.completion));
    }
  }

  lemma TaskCancelFrame(s: System, h: Handle)
    ensures Framed(s, Event.TaskCancel(h), On(s, BridgeSteps.TaskCancel(s.bridge, h)))
  {
  }

  lemma TaskReleaseFrame(s: System, h: Handle)
    requires ArenaSound(s.bridge)
    ensures Framed(s, Event.TaskRelease(h), On(s, BridgeSteps.TaskRelease(s.bridge, h)))
  {
    if Refusal(s.bridge.arena, h, TaskKind).None? {
      TaskReleaseShape(s.bridge, h);
    }
  }

  lemma TakeFrame(s: System, e: Event)
    requires ArenaSound(s.bridge) && IsTake(e)
    ensures Framed(s, e, Apply(s, e))
  {
    var b := s.bridge;
    var step := TakeStep(b, e);
    TakeShapes(b, e);
    assert Named(b.arena.table, e) == {e.handle};
    TakeShapeFrame(s, e, step, Taken(b, e));
  }

  /** One handle goes and at most one new resource without a lease comes. */
  lemma ReplacedFrame(s: System, e: Event, later: System, h: Handle, n: Handle, r: Option<Resource>)
    requires Named(s.bridge.arena.table, e) == {h} && later.flights == s.flights
    requires r.Some? ==> n !in s.bridge.arena.table && TaskLease(r.value).None?
    requires var rest := s.bridge.arena.table - {h};
             later.bridge.arena.table == if r.Some? then rest[n := r.value] else rest
    ensures Framed(s, e, later)
  {
  }

  lemma TakeShapeFrame(s: System, e: Event, step: Step, r: Option<Resource>)
    requires ArenaSound(s.bridge) && IsTake(e) && TakeShape(s.bridge, e.handle, step, r)
    requires Named(s.bridge.arena.table, e) == {e.handle}
    ensures Framed(s, e, On(s, step))
  {
    hide Framed;
    hide WellFormed;
    hide Named;
    var b := s.bridge;
    if step.answer.Refused? && step == Refuse(b, step.answer.error) {
      IdleFrame(s, e, On(s, step));
    } else {
      RemoveIssues(b, e.handle);
      var rest := Removed(b, e.handle);
      var h := e.handle;
      if r.Some? && CanInsert(rest.arena) {
        InsertIssues(rest, r.value);
        LiveIsIssued(b);
        assert NextHandle(rest.arena) !in IssuedBy(b);
        ReplacedFrame(s, e, On(s, step), h, NextHandle(rest.arena), r);
      } else {
        ReplacedFrame(s, e, On(s, step), h, h, None);
      }
    }
  }

  lemma EntrySnapshotFrame(s: System, handle: Handle, index: nat)
    requires ArenaSound(s.bridge)
    ensures Framed(s, Event.TakeEntrySnapshot(handle, index), On(s, BridgeSteps.TakeEntrySnapshot(s.bridge, handle, index)))
  {
    hide WellFormed;
    hide Retired;
    hide FirstFree;
    var a := s.bridge.arena;
    EntrySnapshotShape(s.bridge, handle, index);
    if EntryTakable(a, handle, index) {
      PutIssues(s.bridge, handle, EntryEmptied(a, handle, index).table[handle]);
      InsertIsFresh(EntryEmptied(a, handle, index), Buffer(a.table[handle].entries[index].snapshot));
    }
  }

  lemma LastErrorFrame(s: System)
    requires ArenaSound(s.bridge)
    ensures Framed(s, Event.TakeLastError, On(s, BridgeSteps.TakeLastError(s.bridge)))
  {
    var b := s.bridge;
    if !b.tornDown && b.lastError.Some? && CanInsert(b.arena) {
      InsertIsFresh(b.arena, Error(b.lastError.value));
    }
  }

  lemma ReleaseFrame(s: System, handle: Handle, kind: ResourceKind)
    ensures Framed(s, Event.Release(handle, kind), On(s, BridgeSteps.Release(s.bridge, handle, kind)))
  {
  }

  lemma PushByteFrame(s: System, handle: Handle, value: nat)
    ensures Framed(s, Event.PushByte(handle, value), On(s, BridgeSteps.PushByte(s.bridge, handle, value)))
  {
  }

  lemma WriteWindowFrame(s: System, handle: Handle, offset: nat, data: Bytes)
    ensures Framed(s, Event.WriteWindow(handle, offset, data), On(s, BridgeSteps.WriteWindow(s.bridge, handle, offset, data)))
  {
  }

  /** Events that change no resource, and teardown, which names them all. */
  lemma IdleFrame(s: System, e: Event, later: System)
    requires later.flights == s.flights
    requires later.bridge.arena.table == s.bridge.arena.table || (e.Teardown? && later.bridge.arena.table == map[])
    ensures Framed(s, e, later)
  {
  }

  /** Every event is framed. */
  lemma ApplyFrame(s: System, e: Event)
    requires ArenaSound(s.bridge)
    ensures Framed(s, e, Apply(s, e))
  {
    hide Framed;
    hide ArenaSound;
    if IsTake(e) {
      TakeFrame(s, e);
    } else {
      match e
      case NewResource(r) =>
        if Plain(r) {
          InsertFrame(s, e, r, InsertResource(s.bridge, r));
        } else {
          IdleFrame(s, e, s);
        }
      case NewBuffer(bytes) =>
        if |bytes| <= MAX_BUFFER_LENGTH {
          InsertFrame(s, e, Buffer(bytes), InsertResource(s.bridge, Buffer(bytes)));
        } else {
          IdleFrame(s, e, Apply(s, e));
        }
      case StartOperation(kind) =>
        if OperatorLevel(kind) {
          LaunchFrame(s, e, Operate(kind));
        } else {
          IdleFrame(s, e, s);
        }
      case StartOpen(target, chunkSize) =>
        LaunchFrame(s, e, OpenInner(target, chunkSize));
        IdleFrame(s, e, On(s, Refuse(s.bridge, InvalidArgument)));
      case StartAdvance(h, kind, verb) => AdvanceFrame(s, h, kind, verb);
      case Publish(task, choice) => PublishFrame(s, task, choice);
      case TaskTake(h) => TaskTakeFrame(s, h);
      case TaskCancel(h) => TaskCancelFrame(s, h);
      case TaskRelease(h) => TaskReleaseFrame(s, h);
      case PushByte(h, v) => PushByteFrame(s, h, v);
      case WriteWindow(h, offset, data) => WriteWindowFrame(s, h, offset, data);
      case Release(h, kind) =>
        ReleaseFrame(s, h, kind);
        IdleFrame(s, e, s);
      case TakeEntrySnapshot(h, index) => EntrySnapshotFrame(s, h, index);
      case TakeLastError => LastErrorFrame(s);
      case Note(_) => IdleFrame(s, e, Apply(s, e));
      case Teardown => IdleFrame(s, e, Apply(s, e));
    }
  }
}
