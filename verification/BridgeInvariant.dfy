/** The invariant of the whole system, and that every event keeps it. */
module BridgeInvariant {
  import opened Basics
  import opened BridgeTypes
  import opened HandleArena
  import opened BridgeSteps
  import opened BridgeSystem
  import opened LeaseInvariant
  import opened TableInvariant

  /** Once torn down the bridge issues nothing, so every handle counts as issued. */
  ghost function IssuedBy(b: Bridge): iset<Handle> {
    iset h: Handle | b.tornDown || Issued(b.arena, h)
  }

  ghost predicate ArenaSound(b: Bridge) {
    && WellFormed(b.arena)
    && b.nextOperation <= MAX_U64
    && (b.tornDown ==> b.arena == EMPTY)
  }

  ghost predicate Sound(s: System) {
    && ArenaSound(s.bridge)
    && TableSound(s.bridge.arena.table, IssuedBy(s.bridge), s.bridge.nextOperation, s.flights, s.nextIdentity)
  }

  // ---------------------------------------------------------- the arena's moves

  lemma LiveIsIssued(b: Bridge)
    ensures forall h | h in b.arena.table :: h in IssuedBy(b)
  {
  }

  lemma InsertIssues(b: Bridge, r: Resource)
    requires ArenaSound(b) && !b.tornDown && CanInsert(b.arena)
    ensures var later := b.(arena := Insert(b.arena, r));
            && ArenaSound(later)
            && later.arena.table == b.arena.table[NextHandle(b.arena) := r]
            && NextHandle(b.arena) !in IssuedBy(b)
            && NextHandle(b.arena) in IssuedBy(later)
            && IssuedBy(b) <= IssuedBy(later)
  {
    InsertIsFresh(b.arena, r);
  }

  lemma PutIssues(b: Bridge, handle: Handle, r: Resource)
    requires ArenaSound(b) && handle in b.arena.table
    ensures ArenaSound(b.(arena := Put(b.arena, handle, r)))
    ensures IssuedBy(b.(arena := Put(b.arena, handle, r))) == IssuedBy(b)
  {
    PutKeeps(b.arena, handle, r);
  }

  lemma RemoveIssues(b: Bridge, handle: Handle)
    requires ArenaSound(b) && handle in b.arena.table
    ensures Resolves(b.arena, handle)
    ensures ArenaSound(b.(arena := Remove(b.arena, handle)))
    ensures Remove(b.arena, handle).table == b.arena.table - {handle}
    ensures IssuedBy(b) <= IssuedBy(b.(arena := Remove(b.arena, handle)))
  {
    RemoveRetires(b.arena, handle);
  }

  // ------------------------------------------------------------------- inserting

  lemma InsertKeeps(s: System, r: Resource)
    requires Sound(s) && Inert(r) && Unclaimed(s.bridge.arena.table, s.flights, s.nextIdentity, r)
    requires !s.bridge.tornDown
    ensures Sound(On(s, InsertUnchecked(s.bridge, r)))
  {
    var b := s.bridge;
    if CanInsert(b.arena) {
      InsertIssues(b, r);
      AddInert(b.arena.table, IssuedBy(b), IssuedBy(b.(arena := Insert(b.arena, r))), b.nextOperation, s.flights,
               s.nextIdentity, NextHandle(b.arena), r);
    } else {
      SameArenaKeeps(s, Refuse(b, HandleLimit).bridge);
    }
  }

  /** Steps that touch neither the arena nor the teardown flag, such as recording an error. */
  lemma SameArenaKeeps(s: System, b: Bridge)
    requires Sound(s) && b.arena == s.bridge.arena && b.tornDown == s.bridge.tornDown
    requires s.bridge.nextOperation <= b.nextOperation <= MAX_U64
    ensures Sound(s.(bridge := b))
  {
    MoreIssued(s.bridge.arena.table, IssuedBy(s.bridge), IssuedBy(b), s.bridge.nextOperation, b.nextOperation,
               s.flights, s.nextIdentity);
  }

  lemma InsertResourceKeeps(s: System, r: Resource)
    requires Sound(s) && Inert(r) && Owned(r).None?
    ensures Sound(On(s, InsertResource(s.bridge, r)))
  {
    if s.bridge.tornDown {
      SameArenaKeeps(s, Refuse(s.bridge, TornDown).bridge);
    } else {
      InsertKeeps(s, r);
    }
  }

  lemma PutInertKeeps(s: System, handle: Handle, r: Resource)
    requires Sound(s) && handle in s.bridge.arena.table
    requires PendingLease(s.bridge.arena.table[handle]).None? && BusyToken(s.bridge.arena.table[handle]).None?
    requires Inert(r) && (Owned(r).None? || Owned(r) == Owned(s.bridge.arena.table[handle]))
    ensures Sound(s.(bridge := s.bridge.(arena := Put(s.bridge.arena, handle, r))))
  {
    PutIssues(s.bridge, handle, r);
    PutInert(s.bridge.arena.table, IssuedBy(s.bridge), s.bridge.nextOperation, s.flights, s.nextIdentity, handle, r);
  }

  // ------------------------------------------------------------ starting operations

  lemma StartTaskKeeps(s: System, flight: Flight)
    requires Sound(s) && !flight.Advance? && Publishable(flight)
    ensures Sound(StartTask(s, flight))
  {
    var b := s.bridge;
    var r := Task(Pending(None));
    if !b.tornDown && CanInsert(b.arena) {
      InsertIssues(b, r);
      LaunchPlain(b.arena.table, IssuedBy(b), IssuedBy(b.(arena := Insert(b.arena, r))), b.nextOperation, s.flights,
                  s.nextIdentity, NextHandle(b.arena), flight);
    } else {
      SameArenaKeeps(s, InsertResource(b, r).bridge);
    }
  }

  lemma PutKeepsCapacity(a: Arena, handle: Handle, r: Resource)
    requires handle in a.table
    ensures CanInsert(Put(a, handle, r)) == CanInsert(a)
    ensures CanInsert(a) ==> NextHandle(Put(a, handle, r)) == NextHandle(a)
  {
    var b := Put(a, handle, r);
    assert forall k | 0 <= k < |a.generations| :: Free(a, k) <==> Free(b, k);
  }

  predicate CanReserve(b: Bridge, handle: Handle, kind: StatefulKind) {
    && !b.tornDown && CanInsert(b.arena) && b.nextOperation < MAX_U64
    && handle in b.arena.table && b.arena.table[handle].Kind() == OfStateful(kind)
    && b.arena.table[handle].state.Open?
  }

  /** The bridge after a granted reservation. */
  function Reserved(b: Bridge, handle: Handle, kind: StatefulKind): Bridge
    requires CanReserve(b, handle, kind)
  {
    var n := b.nextOperation + 1;
    PutKeepsCapacity(b.arena, handle, Stateful(kind, Busy(n)));
    b.(arena := Insert(Put(b.arena, handle, Stateful(kind, Busy(n))), Task(Pending(Some(Lease(handle, kind, n))))),
       nextOperation := n)
  }

  /** A reservation is granted exactly when the bridge is up, has room and a token left and the
      resource is open; otherwise it changes no resource, though it may spend a token. */
  lemma ReserveCases(b: Bridge, handle: Handle, kind: StatefulKind)
    ensures var step := Reserve(b, handle, kind);
            if CanReserve(b, handle, kind) then
              step == Step(Reserved(b, handle, kind), Granted(NextHandle(b.arena)))
            else
              && step.answer.Refused?
              && step.bridge.arena == b.arena && step.bridge.tornDown == b.tornDown
              && b.nextOperation <= step.bridge.nextOperation
              && (b.nextOperation <= MAX_U64 ==> step.bridge.nextOperation <= MAX_U64)
  {
    if handle in b.arena.table {
      PutKeepsCapacity(b.arena, handle, Stateful(kind, Busy(b.nextOperation + 1)));
    }
  }

  lemma ReservedArena(b: Bridge, handle: Handle, kind: StatefulKind)
    requires ArenaSound(b) && CanReserve(b, handle, kind)
    ensures var later := Reserved(b, handle, kind);
            var n := b.nextOperation + 1;
            && ArenaSound(later)
            && later.arena.table == b.arena.table[handle := Stateful(kind, Busy(n))]
                                                 [NextHandle(b.arena) := Task(Pending(Some(Lease(handle, kind, n))))]
            && NextHandle(b.arena) !in IssuedBy(b)
            && NextHandle(b.arena) in IssuedBy(later)
            && IssuedBy(b) <= IssuedBy(later)
  {
    hide WellFormed;
    hide Issued;
    var n := b.nextOperation + 1;
    var busy := b.(arena := Put(b.arena, handle, Stateful(kind, Busy(n))));
    PutIssues(b, handle, Stateful(kind, Busy(n)));
    PutKeepsCapacity(b.arena, handle, Stateful(kind, Busy(n)));
    InsertIssues(busy, Task(Pending(Some(Lease(handle, kind, n)))));
  }

  function Started(s: System, handle: Handle, kind: StatefulKind, verb: Verb): System
    requires CanReserve(s.bridge, handle, kind)
  {
    var lease := Lease(handle, kind, s.bridge.nextOperation + 1);
    var flight := Advance(lease, verb, s.bridge.arena.table[handle].state.inner);
    System(Reserved(s.bridge, handle, kind), s.flights[NextHandle(s.bridge.arena) := flight], s.nextIdentity)
  }

  lemma StartReservedCases(s: System, handle: Handle, kind: StatefulKind, verb: Verb)
    ensures StartReserved(s, handle, kind, verb)
         == if CanReserve(s.bridge, handle, kind) then Started(s, handle, kind, verb)
            else On(s, Reserve(s.bridge, handle, kind))
  {
    ReserveCases(s.bridge, handle, kind);
  }

  lemma StartedFrom(s: System, later: System, task: Handle, lease: Lease, verb: Verb)
    requires Sound(s) && ArenaSound(later.bridge)
    requires lease.handle in s.bridge.arena.table && s.bridge.arena.table[lease.handle].Stateful?
    requires s.bridge.arena.table[lease.handle].kind == lease.kind && s.bridge.arena.table[lease.handle].state.Open?
    requires lease.operation == s.bridge.nextOperation + 1
    requires later.bridge.nextOperation == lease.operation && later.nextIdentity == s.nextIdentity
    requires later.bridge.arena.table == s.bridge.arena.table[lease.handle := Stateful(lease.kind, Busy(lease.operation))]
                                                             [task := Task(Pending(Some(lease)))]
    requires later.flights == s.flights[task := Advance(lease, verb, s.bridge.arena.table[lease.handle].state.inner)]
    requires task !in IssuedBy(s.bridge) && task in IssuedBy(later.bridge) && IssuedBy(s.bridge) <= IssuedBy(later.bridge)
    ensures Sound(later)
  {
    hide TableSound;
    LaunchLeased(s.bridge.arena.table, IssuedBy(s.bridge), IssuedBy(later.bridge), s.bridge.nextOperation, s.flights,
                 s.nextIdentity, lease.handle, lease.kind, verb, task);
  }

  lemma StartedKeeps(s: System, handle: Handle, kind: StatefulKind, verb: Verb)
    requires Sound(s) && CanReserve(s.bridge, handle, kind)
    ensures Sound(Started(s, handle, kind, verb))
  {
    hide TableSound;
    ReservedArena(s.bridge, handle, kind);
    StartedFrom(s, Started(s, handle, kind, verb), NextHandle(s.bridge.arena),
                Lease(handle, kind, s.bridge.nextOperation + 1), verb);
  }

  lemma StartReservedKeeps(s: System, handle: Handle, kind: StatefulKind, verb: Verb)
    requires Sound(s)
    ensures Sound(StartReserved(s, handle, kind, verb))
  {
    StartReservedCases(s, handle, kind, verb);
    if CanReserve(s.bridge, handle, kind) {
      StartedKeeps(s, handle, kind, verb);
    } else {
      ReserveCases(s.bridge, handle, kind);
      SameArenaKeeps(s, Reserve(s.bridge, handle, kind).bridge);
    }
  }

  /** Starting an operation is a reservation, a repetition of a finish or an abort, or a refusal. */
  lemma StartAdvanceCases(s: System, handle: Handle, kind: StatefulKind, verb: Verb)
    ensures var later := OnStartAdvance(s, handle, kind, verb);
            || later == s
            || later == StartReserved(s, handle, kind, verb)
            || (exists m :: later == StartTask(s, Repeat(WithMetadata(WriterFinished, Ok(m)))))
            || later == StartTask(s, Repeat(WithUnit(WriterAborted, Ok(()))))
            || (exists e :: later == On(s, Refuse(s.bridge, e)))
  {
  }

  lemma StartAdvanceKeeps(s: System, handle: Handle, kind: StatefulKind, verb: Verb)
    requires Sound(s)
    ensures Sound(OnStartAdvance(s, handle, kind, verb))
  {
    var later := OnStartAdvance(s, handle, kind, verb);
    StartAdvanceCases(s, handle, kind, verb);
    if later == s {
    } else if later == StartReserved(s, handle, kind, verb) {
      StartReservedKeeps(s, handle, kind, verb);
    } else if m :| later == StartTask(s, Repeat(WithMetadata(WriterFinished, Ok(m)))) {
      StartTaskKeeps(s, Repeat(WithMetadata(WriterFinished, Ok(m))));
    } else if later == StartTask(s, Repeat(WithUnit(WriterAborted, Ok(())))) {
      StartTaskKeeps(s, Repeat(WithUnit(WriterAborted, Ok(()))));
    } else {
      var e :| later == On(s, Refuse(s.bridge, e));
      SameArenaKeeps(s, Refuse(s.bridge, e).bridge);
    }
  }

  // ------------------------------------------------------------------ publishing

  lemma PublishTaskKeeps(s: System, task: Handle, c: Completion, later: nat)
    requires Sound(s) && task in s.flights && FlightLease(s.flights[task]).None? && s.nextIdentity <= later
    requires Owned(Task(Ready(c, None))).Some? ==> s.nextIdentity <= Owned(Task(Ready(c, None))).value < later
    requires Fitting(Task(Ready(c, None)))
    ensures Sound(System(PublishTask(s.bridge, task, c), s.flights - {task}, later))
  {
    var b := s.bridge;
    if IsPending(b.arena, task, None) {
      PutIssues(b, task, Task(Ready(c, None)));
      LandPlain(b.arena.table, IssuedBy(b), b.nextOperation, s.flights, s.nextIdentity, later, task, c);
    } else {
      DropFlight(b.arena.table, IssuedBy(b), b.nextOperation, s.flights, s.nextIdentity, task);
    }
  }

  lemma PublishResourceKeeps(s: System, task: Handle, u: Update, c: Completion)
    requires Sound(s) && task in s.flights && s.flights[task].Advance?
    requires u.kind == s.flights[task].lease.kind && !c.WithInner?
    requires u.next.Reopen? ==>
               && u.next.inner.identity == s.flights[task].inner.identity
               && Fits(u.kind, u.next.inner)
    ensures Sound(System(PublishResourceTask(s.bridge, task, s.flights[task].lease, u, c),
                         s.flights - {task}, s.nextIdentity))
  {
    hide LeasesAgree;
    hide Linear;
    hide NamesIssued;
    hide ResourcesTyped;
    var b := s.bridge;
    var lease := s.flights[task].lease;
    if IsPending(b.arena, task, Some(lease)) {
      var state := SettledState(u.next, lease.operation);
      var after := Task(Ready(c, Some(lease)));
      LandLeased(b.arena.table, IssuedBy(b), b.nextOperation, s.flights, s.nextIdentity, task, lease, state, c);
      var mid := if lease.handle in b.arena.table then b.(arena := Put(b.arena, lease.handle, Stateful(lease.kind, state)))
                 else b;
      if lease.handle in b.arena.table {
        PutIssues(b, lease.handle, Stateful(lease.kind, state));
      }
      PutIssues(mid, task, after);
    } else {
      DropFlight(b.arena.table, IssuedBy(b), b.nextOperation, s.flights, s.nextIdentity, task);
    }
  }

  lemma PublishKeeps(s: System, task: Handle, choice: Choice)
    requires Sound(s)
    ensures Sound(OnPublish(s, task, choice))
  {
    hide LeasesAgree;
    hide Linear;
    hide Awaited;
    hide ResourcesTyped;
    hide NamesIssued;
    if task in s.flights {
      match s.flights[task]
      case Operate(kind) =>
        if choice.Deliver? && choice.completion.Kind() == kind {
          PublishTaskKeeps(s, task, choice.completion, s.nextIdentity);
        }
      case OpenInner(target, _) =>
        if choice.Opened? && Opens(s, s.flights[task], choice.inner) {
          PublishTaskKeeps(s, task, WithInner(target, Ok(choice.inner)), s.nextIdentity + 1);
        } else if choice.Fail? {
          PublishTaskKeeps(s, task, WithInner(target, Err(choice.error)), s.nextIdentity);
        }
      case Repeat(c) => PublishTaskKeeps(s, task, c, s.nextIdentity);
      case Advance(lease, verb, inner) =>
        if Settle(lease.kind, verb, inner, choice).Some? {
          var (u, c) := Settle(lease.kind, verb, inner, choice).value;
          PublishResourceKeeps(s, task, u, c);
        }
    }
  }

  // ----------------------------------------------------------- tasks and releases

  /** Taking is granted exactly when there is room and the task is ready, and else only records
      the refusal. */
  lemma TaskTakeCases(b: Bridge, handle: Handle)
    ensures var step := BridgeSteps.TaskTake(b, handle);
            if CanInsert(b.arena) && Refusal(b.arena, handle, TaskKind).None? && b.arena.table[handle].task.Ready? then
              var mid := Put(b.arena, handle, Task(Consumed));
              && CanInsert(mid) && NextHandle(mid) == NextHandle(b.arena)
              && step == OnArena(b, Insert(mid, Completed(b.arena.table[handle].task.completion)), Granted(NextHandle(mid)))
            else step.answer.Refused? && step == Refuse(b, step.answer.error)
  {
    if handle in b.arena.table {
      PutKeepsCapacity(b.arena, handle, Task(Consumed));
    }
  }

  lemma TaskTakeKeeps(s: System, handle: Handle)
    requires Sound(s)
    ensures Sound(On(s, BridgeSteps.TaskTake(s.bridge, handle)))
  {
    hide LeasesAgree;
    hide Linear;
    hide Awaited;
    hide NamesIssued;
    hide FlightsTyped;
    var b := s.bridge;
    if CanInsert(b.arena) && Refusal(b.arena, handle, TaskKind).None? && b.arena.table[handle].task.Ready? {
      var c := b.arena.table[handle].task.completion;
      PutInertKeeps(s, handle, Task(Consumed));
      PutInert(b.arena.table, IssuedBy(b), b.nextOperation, s.flights, s.nextIdentity, handle, Task(Consumed));
      InsertKeeps(s.(bridge := b.(arena := Put(b.arena, handle, Task(Consumed)))), Completed(c));
    } else {
      SameArenaKeeps(s, BridgeSteps.TaskTake(b, handle).bridge);
    }
  }

  /** The arena after a task gives up its lease and is cancelled, finished or not. */
  function CancelledIn(a: Arena, handle: Handle): Arena
    requires handle in a.table
  {
    Put(Terminalize(a, TaskLease(a.table[handle])), handle, Task(Cancelled))
  }

  lemma CancelledKeeps(s: System, handle: Handle)
    requires Sound(s) && handle in s.bridge.arena.table && s.bridge.arena.table[handle].Task?
    ensures Sound(s.(bridge := s.bridge.(arena := CancelledIn(s.bridge.arena, handle))))
  {
    hide TableSound;
    hide WellFormed;
    var b := s.bridge;
    var lease := TaskLease(b.arena.table[handle]);
    var mid := b.(arena := Terminalize(b.arena, lease));
    if lease.Some? && Governs(b.arena, lease.value) {
      PutIssues(b, lease.value.handle, Stateful(lease.value.kind, Closed(Failed)));
    }
    PutIssues(mid, handle, Task(Cancelled));
    Cancel(b.arena.table, IssuedBy(b), b.nextOperation, s.flights, s.nextIdentity, handle);
    assert CancelledIn(b.arena, handle).table == Cancelling(b.arena.table, handle, lease);
  }

  lemma TaskCancelKeeps(s: System, handle: Handle)
    requires Sound(s)
    ensures Sound(On(s, BridgeSteps.TaskCancel(s.bridge, handle)))
  {
    var b := s.bridge;
    if Refusal(b.arena, handle, TaskKind).Some? || b.arena.table[handle].task in {Cancelled, Consumed} {
      SameArenaKeeps(s, BridgeSteps.TaskCancel(b, handle).bridge);
    } else {
      CancelledKeeps(s, handle);
    }
  }

  /** Releasing a task is cancelling it and then freeing its handle. */
  lemma TaskReleaseShape(b: Bridge, handle: Handle)
    requires WellFormed(b.arena) && Refusal(b.arena, handle, TaskKind).None?
    ensures BridgeSteps.TaskRelease(b, handle)
         == Step(Removed(b.(arena := CancelledIn(b.arena, handle)), handle), Done)
  {
    var a := Terminalize(b.arena, TaskLease(b.arena.table[handle]));
    assert Resolves(b.arena, handle);
    assert a.table - {handle} == a.table[handle := Task(Cancelled)] - {handle};
  }

  lemma TaskReleaseKeeps(s: System, handle: Handle)
    requires Sound(s)
    ensures Sound(On(s, BridgeSteps.TaskRelease(s.bridge, handle)))
  {
    var b := s.bridge;
    if Refusal(b.arena, handle, TaskKind).Some? {
      SameArenaKeeps(s, BridgeSteps.TaskRelease(b, handle).bridge);
    } else {
      TaskReleaseShape(b, handle);
      CancelledKeeps(s, handle);
      RemovedKeeps(s.(bridge := b.(arena := CancelledIn(b.arena, handle))), handle);
    }
  }

  lemma RemovedKeeps(s: System, handle: Handle)
    requires Sound(s) && handle in s.bridge.arena.table && PendingLease(s.bridge.arena.table[handle]).None?
    ensures Resolves(s.bridge.arena, handle)
    ensures Removed(s.bridge, handle) == s.bridge.(arena := Remove(s.bridge.arena, handle))
    ensures Sound(s.(bridge := Removed(s.bridge, handle)))
    ensures Unclaimed(Removed(s.bridge, handle).arena.table, s.flights, s.nextIdentity, s.bridge.arena.table[handle])
  {
    var b := s.bridge;
    RemoveIssues(b, handle);
    var later := b.(arena := Remove(b.arena, handle));
    Drop(b.arena.table, IssuedBy(b), b.nextOperation, s.flights, s.nextIdentity, handle);
    MoreIssued(b.arena.table - {handle}, IssuedBy(b), IssuedBy(later), b.nextOperation, b.nextOperation, s.flights, s.nextIdentity);
  }

  lemma ReleaseKeeps(s: System, handle: Handle, kind: ResourceKind)
    requires Sound(s) && kind != TaskKind
    ensures Sound(On(s, BridgeSteps.Release(s.bridge, handle, kind)))
    ensures !BridgeSteps.Release(s.bridge, handle, kind).answer.Panicked?
  {
    if Refusal(s.bridge.arena, handle, kind).Some? {
      SameArenaKeeps(s, BridgeSteps.Release(s.bridge, handle, kind).bridge);
    } else {
      RemovedKeeps(s, handle);
    }
  }

  // ------------------------------------------------------------- replacing exports

  /** A resource gives its place, and what it owns, to its replacement; the insert cannot fail. */
  lemma ReplaceKeeps(s: System, handle: Handle, r: Resource)
    requires Sound(s) && handle in s.bridge.arena.table && PendingLease(s.bridge.arena.table[handle]).None?
    requires ReplacementRefusal(s.bridge.arena, handle, s.bridge.arena.table[handle].Kind()).None?
    requires Inert(r) && (Owned(r).None? || Owned(r) == Owned(s.bridge.arena.table[handle]))
    ensures !s.bridge.tornDown && Resolves(s.bridge.arena, handle) && CanInsert(Remove(s.bridge.arena, handle))
    ensures var mid := Remove(s.bridge.arena, handle);
            var step := OnArena(s.bridge, Insert(mid, r), Granted(NextHandle(mid)));
            && InsertUnchecked(Removed(s.bridge, handle), r) == step
            && InsertResource(Removed(s.bridge, handle), r) == step
            && InsertOrPanic(Removed(s.bridge, handle), r) == step
            && Sound(On(s, step))
  {
    ReplacementFits(s.bridge.arena, handle, s.bridge.arena.table[handle].Kind());
    RemovedKeeps(s, handle);
    InsertKeeps(s.(bridge := Removed(s.bridge, handle)), r);
  }

  /** How every taking export is built: it refuses before it changes anything, or it removes the
      resource and inserts `r` in its place, or there is nothing to insert. */
  ghost predicate TakeShape(b: Bridge, handle: Handle, step: Step, r: Option<Resource>) {
    || (step.answer.Refused? && step == Refuse(b, step.answer.error))
    || (&& handle in b.arena.table && PendingLease(b.arena.table[handle]).None?
        && r.None? && step == Step(Removed(b, handle), Done))
    || (&& handle in b.arena.table && PendingLease(b.arena.table[handle]).None?
        && ReplacementRefusal(b.arena, handle, b.arena.table[handle].Kind()).None?
        && r.Some? && Quiet(r.value) && !PendingTask(r.value)
        && (Fitting(b.arena.table[handle]) ==> Fitting(r.value))
        && Owned(r.value) in {None, Owned(b.arena.table[handle])}
        && (|| step == InsertUnchecked(Removed(b, handle), r.value)
            || step == InsertResource(Removed(b, handle), r.value)
            || step == InsertOrPanic(Removed(b, handle), r.value)))
  }

  /** What a take does: it refuses and leaves the arena alone, or hands the payload `r` to one new
      handle, or, when there is nothing to hand over, just removes the resource. */
  ghost predicate TakesOnce(b: Bridge, handle: Handle, step: Step, r: Option<Resource>) {
    if step.answer.Refused? then step.bridge == b.(lastError := Some(step.answer.error))
    else
      && handle in b.arena.table && Resolves(b.arena, handle)
      && var rest := Remove(b.arena, handle);
         if r.None? then step == OnArena(b, rest, Done)
         else CanInsert(rest) && step == OnArena(b, Insert(rest, r.value), Granted(NextHandle(rest)))
  }

  lemma TakeKeeps(s: System, handle: Handle, step: Step, r: Option<Resource>)
    requires Sound(s) && TakeShape(s.bridge, handle, step, r)
    ensures Sound(On(s, step)) && TakesOnce(s.bridge, handle, step, r)
  {
    if step.answer.Refused? && step == Refuse(s.bridge, step.answer.error) {
      SameArenaKeeps(s, step.bridge);
    } else if r.None? {
      RemovedKeeps(s, handle);
    } else {
      ReplaceKeeps(s, handle, r.value);
    }
  }

  /** The resource a completion turns into when it is taken. */
  function Payload(c: Completion): Option<Resource> {
    match c
    case WithMetadata(_, Ok(m)) => Some(Metadata(m))
    case WithBuffer(Ok(bytes)) => Some(Buffer(bytes))
    case WithEntries(Ok(entries)) => Some(EntryList(entries))
    case WithInner(k, Ok(inner)) => Some(Stateful(k, Open(inner, 0)))
    case WithChunk(Ok(Some(bytes))) => Some(Buffer(bytes))
    case WithEntry(Ok(Some(entry))) => Some(EntryList([entry]))
    case _ => None
  }

  function Encoding(encoded: Result<Bytes>): Option<Resource> {
    if encoded.Ok? then Some(Buffer(encoded.value)) else None
  }

  /** What a taking event hands over: a snapshot is the encoding of what was taken. */
  function Taken(b: Bridge, e: Event): Option<Resource>
    requires IsTake(e)
  {
    if e.handle !in b.arena.table then None
    else if e.TakeErrorSnapshot? then
      (if b.arena.table[e.handle].Error? then Encoding(e.encodeError(b.arena.table[e.handle].error)) else None)
    else if !b.arena.table[e.handle].Completed? then None
    else if e.TakeMetadataSnapshot? then
      (match b.arena.table[e.handle].completion
       case WithMetadata(_, Ok(metadata)) => Encoding(e.encode(metadata))
       case _ => None)
    else if e.TakeError? then
      (match b.arena.table[e.handle].completion.Error()
       case Some(error) => Some(Error(error))
       case None => None)
    else Payload(b.arena.table[e.handle].completion)
  }

  lemma TakeValueShapes(b: Bridge, e: Event)
    requires e.TakeOpened? || e.TakeBuffer? || e.TakeMetadata?
    ensures TakeShape(b, e.handle, TakeStep(b, e), Taken(b, e))
  {
  }

  lemma TakeOtherShapes(b: Bridge, e: Event)
    requires e.TakeMetadataSnapshot? || e.TakeEntryList? || e.TakeError? || e.TakeErrorSnapshot?
    ensures TakeShape(b, e.handle, TakeStep(b, e), Taken(b, e))
  {
  }

  lemma TakeShapes(b: Bridge, e: Event)
    requires IsTake(e)
    ensures TakeShape(b, e.handle, TakeStep(b, e), Taken(b, e))
  {
    hide TakeShape;
    hide TakeStep;
    if e.TakeOpened? || e.TakeBuffer? || e.TakeMetadata? {
      TakeValueShapes(b, e);
    } else {
      TakeOtherShapes(b, e);
    }
  }

  lemma TakingKeeps(s: System, e: Event)
    requires Sound(s) && IsTake(e)
    ensures Sound(On(s, TakeStep(s.bridge, e)))
    ensures TakesOnce(s.bridge, e.handle, TakeStep(s.bridge, e), Taken(s.bridge, e))
  {
    TakeShapes(s.bridge, e);
    TakeKeeps(s, e.handle, TakeStep(s.bridge, e), Taken(s.bridge, e));
  }

  // -------------------------------------------------------------- the other exports

  lemma WriteWindowKeeps(s: System, handle: Handle, offset: nat, data: Bytes)
    requires Sound(s)
    ensures Sound(On(s, BridgeSteps.WriteWindow(s.bridge, handle, offset, data)))
  {
    var step := BridgeSteps.WriteWindow(s.bridge, handle, offset, data);
    if step.answer.Done? {
      PutInertKeeps(s, handle, Buffer(Overwritten(s.bridge.arena.table[handle].bytes, offset, data)));
    } else {
      SameArenaKeeps(s, step.bridge);
    }
  }

  lemma PushByteKeeps(s: System, handle: Handle, value: nat)
    requires Sound(s)
    ensures Sound(On(s, BridgeSteps.PushByte(s.bridge, handle, value)))
  {
    var step := BridgeSteps.PushByte(s.bridge, handle, value);
    if step.answer.Done? {
      PutInertKeeps(s, handle, Buffer(s.bridge.arena.table[handle].bytes + [value]));
    } else {
      SameArenaKeeps(s, step.bridge);
    }
  }

  predicate EntryTakable(a: Arena, handle: Handle, index: nat) {
    && CanInsert(a) && handle in a.table && a.table[handle].EntryList?
    && index < |a.table[handle].entries| && a.table[handle].entries[index].snapshot != []
  }

  function EntryEmptied(a: Arena, handle: Handle, index: nat): Arena
    requires EntryTakable(a, handle, index)
  {
    var entries := a.table[handle].entries;
    Put(a, handle, EntryList(entries[index := entries[index].(snapshot := [])]))
  }

  /** Taking an entry's snapshot moves it to one new buffer, or refuses and changes nothing. */
  lemma EntrySnapshotShape(b: Bridge, handle: Handle, index: nat)
    ensures var step := BridgeSteps.TakeEntrySnapshot(b, handle, index);
            if EntryTakable(b.arena, handle, index) then
              var emptied := EntryEmptied(b.arena, handle, index);
              && CanInsert(emptied)
              && step == OnArena(b, Insert(emptied, Buffer(b.arena.table[handle].entries[index].snapshot)),
                                 Granted(NextHandle(b.arena)))
            else step.answer.Refused? && step == Refuse(b, step.answer.error)
  {
    if EntryTakable(b.arena, handle, index) {
      var entries := b.arena.table[handle].entries;
      PutKeepsCapacity(b.arena, handle, EntryList(entries[index := entries[index].(snapshot := [])]));
    }
  }

  lemma EntrySnapshotKeeps(s: System, handle: Handle, index: nat)
    requires Sound(s)
    ensures Sound(On(s, BridgeSteps.TakeEntrySnapshot(s.bridge, handle, index)))
  {
    hide TableSound;
    var b := s.bridge;
    EntrySnapshotShape(b, handle, index);
    if EntryTakable(b.arena, handle, index) {
      var entries := b.arena.table[handle].entries;
      PutInertKeeps(s, handle, EntryList(entries[index := entries[index].(snapshot := [])]));
      InsertKeeps(s.(bridge := b.(arena := EntryEmptied(b.arena, handle, index))), Buffer(entries[index].snapshot));
    } else {
      SameArenaKeeps(s, BridgeSteps.TakeEntrySnapshot(b, handle, index).bridge);
    }
  }

  lemma LastErrorKeeps(s: System)
    requires Sound(s)
    ensures Sound(On(s, BridgeSteps.TakeLastError(s.bridge)))
  {
    var b := s.bridge;
    if !b.tornDown && b.lastError.Some? {
      InsertKeeps(s, Error(b.lastError.value));
      var step := InsertUnchecked(b, Error(b.lastError.value));
      SameArenaKeeps(s.(bridge := step.bridge), step.bridge.(lastError := None));
    } else {
      SameArenaKeeps(s, BridgeSteps.TakeLastError(b).bridge);
    }
  }

  lemma TeardownKeeps(s: System)
    requires Sound(s)
    ensures Sound(On(s, BridgeSteps.Teardown(s.bridge)))
  {
    var b := BridgeSteps.Teardown(s.bridge).bridge;
    assert TableSound(map[], IssuedBy(b), b.nextOperation, s.flights, s.nextIdentity);
  }

  lemma NewKeeps(s: System, e: Event)
    requires Sound(s) && (e.NewResource? || e.NewBuffer?)
    ensures Sound(Apply(s, e))
  {
    hide TableSound;
    match e
    case NewResource(r) =>
      if Plain(r) {
        InsertResourceKeeps(s, r);
      }
    case NewBuffer(bytes) =>
      if |bytes| > MAX_BUFFER_LENGTH {
        SameArenaKeeps(s, Refuse(s.bridge, BufferTooLarge).bridge);
      } else {
        InsertResourceKeeps(s, Buffer(bytes));
      }
  }

  lemma StartOpenKeeps(s: System, target: StatefulKind, chunkSize: nat)
    requires Sound(s)
    ensures Sound(OnStartOpen(s, target, chunkSize))
  {
    if target == ReadStream && !(1 <= chunkSize <= MAX_TRANSFER_CHUNK) {
      SameArenaKeeps(s, Refuse(s.bridge, InvalidArgument).bridge);
    } else {
      StartTaskKeeps(s, OpenInner(target, chunkSize));
    }
  }

  lemma StartingKeeps(s: System, e: Event)
    requires Sound(s) && (e.NewResource? || e.NewBuffer? || e.StartOperation? || e.StartOpen?)
    ensures Sound(Apply(s, e))
  {
    hide Sound;
    match e
    case NewResource(_) => NewKeeps(s, e);
    case NewBuffer(_) => NewKeeps(s, e);
    case StartOperation(kind) =>
      if OperatorLevel(kind) {
        StartTaskKeeps(s, Operate(kind));
      }
    case StartOpen(target, chunkSize) => StartOpenKeeps(s, target, chunkSize);
  }

  lemma AdvancingKeeps(s: System, e: Event)
    requires Sound(s) && (e.StartAdvance? || e.Publish?)
    ensures Sound(Apply(s, e))
  {
    hide Sound;
    hide OnStartAdvance;
    hide OnPublish;
    if e.StartAdvance? {
      StartAdvanceKeeps(s, e.handle, e.target, e.verb);
      assert Apply(s, e) == OnStartAdvance(s, e.handle, e.target, e.verb);
    } else {
      PublishKeeps(s, e.task, e.choice);
      assert Apply(s, e) == OnPublish(s, e.task, e.choice);
    }
  }

  /** Every event keeps the invariant. */
  lemma ApplyKeeps(s: System, e: Event)
    requires Sound(s)
    ensures Sound(Apply(s, e))
  {
    if IsTake(e) {
      TakingKeeps(s, e);
    } else if e.NewResource? || e.NewBuffer? || e.StartOperation? || e.StartOpen? {
      StartingKeeps(s, e);
    } else if e.StartAdvance? || e.Publish? {
      AdvancingKeeps(s, e);
    } else {
      match e
      case PushByte(h, v) => PushByteKeeps(s, h, v);
      case WriteWindow(h, offset, data) => WriteWindowKeeps(s, h, offset, data);
      case TaskTake(h) => TaskTakeKeeps(s, h);
      case TaskCancel(h) => TaskCancelKeeps(s, h);
      case TaskRelease(h) => TaskReleaseKeeps(s, h);
      case Release(h, kind) =>
        if kind != TaskKind {
          ReleaseKeeps(s, h, kind);
        }
      case TakeEntrySnapshot(h, index) => EntrySnapshotKeeps(s, h, index);
      case TakeLastError => LastErrorKeeps(s);
      case Note(error) => SameArenaKeeps(s, s.bridge.(lastError := error));
      case Teardown => TeardownKeeps(s);
    }
  }

  lemma InitialSound()
    ensures Sound(INITIAL)
  {
  }

  /** The invariant holds in every state of every run. */
  lemma {:induction false} RunKeeps(s: System, events: seq<Event>)
    requires Sound(s)
    ensures Sound(Run(s, events))
    decreases |events|
  {
    if events != [] {
      ApplyKeeps(s, events[0]);
      RunKeeps(Apply(s, events[0]), events[1..]);
    }
  }
}
