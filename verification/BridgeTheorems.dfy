/** What holds over every run of the bridge, however the exports and the late publications of
    its futures interleave. */
module BridgeTheorems {
  import opened Basics
  import opened BridgeTypes
  import opened HandleArena
  import opened BridgeSteps
  import opened BridgeSystem
  import opened LeaseInvariant
  import opened TableInvariant
  import opened BridgeInvariant
  import opened BridgeProgress

  function After(events: seq<Event>): System {
    Run(INITIAL, events)
  }

  function TableAfter(events: seq<Event>): Table {
    After(events).bridge.arena.table
  }

  lemma AfterSound(events: seq<Event>)
    ensures Sound(After(events))
  {
    InitialSound();
    RunKeeps(INITIAL, events);
  }

  /** A later state of the same run has moved forward from an earlier one. */
  lemma AfterProgress(before: seq<Event>, between: seq<Event>)
    ensures Sound(After(before)) && Sound(After(before + between))
    ensures Progress(After(before).bridge, After(before + between).bridge)
  {
    AfterSound(before);
    AfterSound(before + between);
    RunConcat(INITIAL, before, between);
    RunProgress(After(before), between);
  }

  // ---------------------------------------------------------------------- leases

  /** A live stateful resource is busy with an operation exactly when one live task is pending
      under that operation's lease, and that task's future is still in flight. */
  lemma BusyExactlyWhenLeased(events: seq<Event>, h: Handle)
    requires h in TableAfter(events) && TableAfter(events)[h].Stateful?
    ensures var t := TableAfter(events);
            && (t[h].state.Busy? <==> exists task :: task in t && PendingLease(t[task]).Some?
                                                     && PendingLease(t[task]).value.handle == h)
            && (t[h].state.Busy? ==>
                  var lease := Lease(h, t[h].kind, t[h].state.operation);
                  exists task ::
                    && task in t && PendingLease(t[task]) == Some(lease)
                    && task in After(events).flights && FlightLease(After(events).flights[task]) == Some(lease)
                    && (forall other | other in t && PendingLease(t[other]).Some?
                                       && PendingLease(t[other]).value.handle == h :: other == task))
  {
    hide ArenaSound;
    hide TokensSpent;
    hide Linear;
    hide NamesIssued;
    hide FlightsTyped;
    hide ResourcesTyped;
    AfterSound(events);
    var t := TableAfter(events);
    forall task | task in t && PendingLease(t[task]).Some? && PendingLease(t[task]).value.handle == h ensures t[h].state.Busy? {
      assert Busies(t, PendingLease(t[task]).value);
    }
    if t[h].state.Busy? {
      var lease := Lease(h, t[h].kind, t[h].state.operation);
      assert BusyToken(t[h]) == Some(t[h].state.operation);
      assert HasPendingTask(t, lease);
      var task :| task in t && PendingLease(t[task]) == Some(lease);
      forall other | other in t && PendingLease(t[other]).Some? && PendingLease(t[other]).value.handle == h
        ensures other == task
      {
        assert Busies(t, PendingLease(t[other]).value);
        assert TaskLease(t[other]) == PendingLease(t[other]) && TaskLease(t[task]) == PendingLease(t[task]);
      }
      assert PendingTask(t[task]);
    }
  }

  /** Tokens are never reused, even though refused reservations spend them: the token of a granted
      reservation appears nowhere in any earlier state of the run. */
  lemma TokensNeverReused(before: seq<Event>, between: seq<Event>, h: Handle, kind: StatefulKind, k: Handle)
    requires CanReserve(After(before + between).bridge, h, kind)
    requires k in TableAfter(before)
    ensures var token := Reserve(After(before + between).bridge, h, kind).bridge.nextOperation;
            && token <= MAX_U64
            && Token(TableAfter(before)[k]) != Some(token)
            && (TaskLease(TableAfter(before)[k]).Some? ==> TaskLease(TableAfter(before)[k]).value.operation != token)
  {
    hide Owners;
    hide Left;
    hide Evolves;
    AfterProgress(before, between);
    ReserveCases(After(before + between).bridge, h, kind);
  }

  // ------------------------------------------------------------------- the arena

  /** A handle issued at any time was not live at any earlier time, and its word is a nonzero
      positive 32-bit integer that unpacks to it. */
  lemma HandlesAreFresh(before: seq<Event>, between: seq<Event>, e: Event, h: Handle)
    requires h in TableAfter(before + between + [e]) && h !in TableAfter(before + between)
    ensures h !in TableAfter(before)
    ensures 0 < Pack(h) < 0x8000_0000 && Unpack(Pack(h)) == h
  {
    hide TableSound;
    hide Left;
    hide Evolves;
    AfterProgress(before, between);
    AfterProgress(before + between, [e]);
    LiveIsIssued(After(before).bridge);
    var a := After(before + between + [e]).bridge.arena;
    assert Resolves(a, h);
    PackRoundTrip(h);
  }

  /** A handle that has stopped resolving never resolves again. */
  lemma HandlesStayDead(before: seq<Event>, between: seq<Event>, after: seq<Event>, h: Handle)
    requires h in TableAfter(before) && h !in TableAfter(before + between)
    ensures h !in TableAfter(before + between + after)
  {
    AfterProgress(before, between);
    AfterProgress(before + between, after);
    LiveIsIssued(After(before).bridge);
  }

  /** The handles a run inserts, step by step. */
  function Inserted(s: System, events: seq<Event>): nat
    decreases |events|
  {
    if events == [] then 0
    else |NewHandles(s.bridge, Apply(s, events[0]).bridge)| + Inserted(Apply(s, events[0]), events[1..])
  }

  lemma {:induction false} InsertedWithinBudget(s: System, events: seq<Event>)
    requires ArenaSound(s.bridge)
    ensures Inserted(s, events) <= Left(s.bridge)
    decreases |events|
  {
    if events == [] {
      BudgetNonnegative(s.bridge.arena);
    } else {
      ApplyProgress(s, events[0]);
      InsertedWithinBudget(Apply(s, events[0]), events[1..]);
    }
  }

  /** No run inserts more than 65535 slots times 32767 generations. */
  lemma HandleBudget(events: seq<Event>)
    ensures Inserted(INITIAL, events) <= 65535 * 32767
  {
    InitialSound();
    InsertedWithinBudget(INITIAL, events);
    assert RemainingUpTo(EMPTY, 0) == 0;
  }

  // ------------------------------------------------------------- taking results

  /** Every take either refuses and leaves every resource as it was, or moves the payload to one
      new handle and retires the old one; it never reaches an `unreachable!` arm. */
  lemma TakesAreAtomic(events: seq<Event>, e: Event)
    requires IsTake(e)
    ensures var b := After(events).bridge;
            var step := TakeStep(b, e);
            && !step.answer.Panicked?
            && TakesOnce(b, e.handle, step, Taken(b, e))
            && (step.answer.Granted? ==>
                  && e.handle !in step.bridge.arena.table
                  && step.answer.handle !in b.arena.table
                  && Taken(b, e).Some?
                  && step.bridge.arena.table
                     == (b.arena.table - {e.handle})[step.answer.handle := Taken(b, e).value])
  {
    AfterSound(events);
    var s := After(events);
    TakingKeeps(s, e);
    if TakeStep(s.bridge, e).answer.Granted? {
      RemoveIssues(s.bridge, e.handle);
      var mid := s.bridge.(arena := Remove(s.bridge.arena, e.handle));
      InsertIssues(mid, Taken(s.bridge, e).value);
      LiveIsIssued(s.bridge);
      assert NextHandle(mid.arena) !in IssuedBy(s.bridge);
      assert e.handle in IssuedBy(s.bridge);
    }
  }

  /** Taking a task's result refuses without effect, or consumes the task and moves its completion
      to one new handle; a second take is refused. */
  lemma TaskTakenOnce(events: seq<Event>, task: Handle)
    ensures var b := After(events).bridge;
            var step := BridgeSteps.TaskTake(b, task);
            match step.answer
            case Refused(e) => step.bridge == b.(lastError := Some(e))
            case Granted(h) =>
              && task in b.arena.table && b.arena.table[task].Task? && b.arena.table[task].task.Ready?
              && h !in b.arena.table
              && step.bridge.arena.table
                 == b.arena.table[task := Task(Consumed)][h := Completed(b.arena.table[task].task.completion)]
              && BridgeSteps.TaskTake(step.bridge, task).answer.Refused?
            case _ => false
  {
    hide TableSound;
    AfterSound(events);
    var b := After(events).bridge;
    if CanInsert(b.arena) && Refusal(b.arena, task, TaskKind).None? && b.arena.table[task].task.Ready? {
      TaskTakeMoves(b, task);
    }
  }

  lemma TaskTakeMoves(b: Bridge, task: Handle)
    requires ArenaSound(b) && CanInsert(b.arena) && task in b.arena.table
    requires b.arena.table[task].Task? && b.arena.table[task].task.Ready?
    ensures var step := BridgeSteps.TaskTake(b, task);
            && step.answer.Granted? && step.answer.handle !in b.arena.table
            && step.bridge.arena.table == b.arena.table[task := Task(Consumed)]
                                                       [step.answer.handle := Completed(b.arena.table[task].task.completion)]
  {
    var mid := b.(arena := Put(b.arena, task, Task(Consumed)));
    PutKeepsCapacity(b.arena, task, Task(Consumed));
    PutIssues(b, task, Task(Consumed));
    LiveIsIssued(mid);
    InsertIssues(mid, Completed(b.arena.table[task].task.completion));
  }

  /** A task that was consumed or cancelled stays so until it is released, and no later take, at any
      point of the run, gets anything out of it. */
  lemma SpentTasksStaySpent(before: seq<Event>, between: seq<Event>, task: Handle)
    requires task in TableAfter(before) && TableAfter(before)[task].Task?
    requires TableAfter(before)[task].task.Consumed? || TableAfter(before)[task].task.Cancelled?
    requires task in TableAfter(before + between)
    ensures TableAfter(before + between)[task] == TableAfter(before)[task]
    ensures BridgeSteps.TaskTake(After(before + between).bridge, task).answer.Refused?
  {
    hide Sound;
    hide IssuedBy;
    hide Left;
    AfterProgress(before, between);
  }

  /** An entry's snapshot is moved to one new buffer, or the call refuses without effect. */
  lemma EntrySnapshotIsAtomic(events: seq<Event>, h: Handle, index: nat)
    ensures var b := After(events).bridge;
            var step := BridgeSteps.TakeEntrySnapshot(b, h, index);
            match step.answer
            case Refused(e) => step.bridge == b.(lastError := Some(e))
            case Granted(k) =>
              && h in b.arena.table && b.arena.table[h].EntryList? && index < |b.arena.table[h].entries|
              && k !in b.arena.table
              && var entries := b.arena.table[h].entries;
                 step.bridge.arena.table == b.arena.table[h := EntryList(entries[index := entries[index].(snapshot := [])])]
                                                         [k := Buffer(entries[index].snapshot)]
            case _ => false
  {
    hide TableSound;
    AfterSound(events);
    var b := After(events).bridge;
    EntrySnapshotShape(b, h, index);
    if EntryTakable(b.arena, h, index) {
      var mid := b.(arena := EntryEmptied(b.arena, h, index));
      PutIssues(b, h, mid.arena.table[h]);
      InsertIssues(mid, Buffer(b.arena.table[h].entries[index].snapshot));
      PutKeepsCapacity(b.arena, h, mid.arena.table[h]);
      LiveIsIssued(b);
    }
  }

  /** Once taken, an entry's snapshot is gone for good: every later take of it is refused. */
  lemma EntrySnapshotTakenOnce(before: seq<Event>, between: seq<Event>, h: Handle, index: nat)
    requires h in TableAfter(before) && TableAfter(before)[h].EntryList? && index < |TableAfter(before)[h].entries|
    requires TableAfter(before)[h].entries[index].snapshot == [] && h in TableAfter(before + between)
    ensures BridgeSteps.TakeEntrySnapshot(After(before + between).bridge, h, index).answer == Refused(InvalidArgument)
  {
    hide Sound;
    hide IssuedBy;
    hide Left;
    AfterProgress(before, between);
  }

  // ---------------------------------------------------------------- terminal states

  /** Once ended, finished, aborted or failed, a resource stays as it is until it is released. */
  lemma TerminalStatesAbsorb(before: seq<Event>, between: seq<Event>, h: Handle)
    requires h in TableAfter(before) && TableAfter(before)[h].Stateful? && TableAfter(before)[h].state.Closed?
    requires h in TableAfter(before + between)
    ensures TableAfter(before + between)[h] == TableAfter(before)[h]
  {
    hide Sound;
    hide IssuedBy;
    hide Left;
    AfterProgress(before, between);
  }

  /** Finishing a finished writer again, at any later time, starts a task whose future can only
      publish the metadata of the first finish. */
  lemma FinishRepeats(before: seq<Event>, between: seq<Event>, h: Handle, metadata: nat, choice: Choice)
    requires h in TableAfter(before) && TableAfter(before)[h] == Stateful(Writer, Closed(Finished(metadata)))
    requires h in TableAfter(before + between)
    ensures var s := After(before + between);
            var later := Apply(s, StartAdvance(h, Writer, Finish));
            if CanInsert(s.bridge.arena) then
              var task := NextHandle(s.bridge.arena);
              && task !in s.bridge.arena.table
              && later.bridge.arena.table == s.bridge.arena.table[task := Task(Pending(None))]
              && OnPublish(later, task, choice).bridge.arena.table
                 == s.bridge.arena.table[task := Task(Ready(WithMetadata(WriterFinished, Ok(metadata)), None))]
            else later == s.(bridge := s.bridge.(lastError := Some(HandleLimit)))
  {
    hide TableSound;
    TerminalStatesAbsorb(before, between, h);
    AfterSound(before + between);
    hide WellFormed;
    hide OnPublish;
    var s := After(before + between);
    var flight := Repeat(WithMetadata(WriterFinished, Ok(metadata)));
    assert Apply(s, StartAdvance(h, Writer, Finish)) == StartTask(s, flight);
    RepetitionLands(s, flight, choice);
  }

  /** A repeated completion is published as it is, by a task of its own. */
  lemma RepetitionLands(s: System, flight: Flight, choice: Choice)
    requires ArenaSound(s.bridge) && !s.bridge.tornDown && flight.Repeat?
    ensures var later := StartTask(s, flight);
            if CanInsert(s.bridge.arena) then
              var task := NextHandle(s.bridge.arena);
              && task !in s.bridge.arena.table
              && later.bridge.arena.table == s.bridge.arena.table[task := Task(Pending(None))]
              && OnPublish(later, task, choice).bridge.arena.table
                 == s.bridge.arena.table[task := Task(Ready(flight.completion, None))]
            else later == s.(bridge := s.bridge.(lastError := Some(HandleLimit)))
  {
    if CanInsert(s.bridge.arena) {
      InsertIssues(s.bridge, Task(Pending(None)));
      LiveIsIssued(s.bridge);
      hide ArenaSound;
      hide IssuedBy;
      var task := NextHandle(s.bridge.arena);
      var later := StartTask(s, flight);
      assert later.flights[task] == flight;
      assert OnPublish(later, task, choice).bridge == PublishTask(later.bridge, task, flight.completion);
    }
  }

  /** What a completed operation tells its caller about the resource, read off the completion alone;
      `None` means that the resource can be used again. */
  function Told(c: Completion): Option<Terminal> {
    if c.Error().Some? then Some(Failed)
    else
      match c
      case WithMetadata(_, Ok(m)) => Some(Finished(m))
      case WithUnit(WriterAborted, _) => Some(Aborted)
      case WithChunk(Ok(None)) => Some(End)
      case WithEntry(Ok(None)) => Some(End)
      case _ => None
  }

  /** The state an operation leaves its resource in. */
  ghost predicate LeftAs(r: Resource, lease: Lease, inner: Inner, c: Completion) {
    && r.Stateful? && r.kind == lease.kind
    && match Told(c)
       case Some(reason) => r.state == Closed(reason)
       case None => r.state.Open? && r.state.operation == lease.operation && r.state.inner.identity == inner.identity
  }

  /** What a backend answer makes the future of an operation publish; reads are cut into chunks. */
  function Said(kind: StatefulKind, verb: Verb, inner: Inner, choice: Choice): Option<Completion> {
    match (kind, verb, choice)
    case (ReadStream, Next, Fail(e)) => Some(WithChunk(Err(e)))
    case (ReadStream, Next, Proceed) => if inner.Cursor? then Some(WithChunk(Ok(NextChunk(inner)))) else None
    case (Writer, Write(_), Proceed) => Some(WithUnit(WriterWrote, Ok(())))
    case (Writer, Write(_), Fail(e)) => Some(WithUnit(WriterWrote, Err(e)))
    case (Writer, Finish, Commit(m)) => Some(WithMetadata(WriterFinished, Ok(m)))
    case (Writer, Finish, Fail(e)) => Some(WithMetadata(WriterFinished, Err(e)))
    case (Writer, Abort, Proceed) => Some(WithUnit(WriterAborted, Ok(())))
    case (Writer, Abort, Fail(e)) => Some(WithUnit(WriterAborted, Err(e)))
    case (Lister, Next, Yield(entry)) => Some(WithEntry(Ok(Some(entry))))
    case (Lister, Next, Exhausted) => Some(WithEntry(Ok(None)))
    case (Lister, Next, Fail(e)) => Some(WithEntry(Err(e)))
    case _ => None
  }

  /** As much of the next buffer as the chunk size allows. */
  function NextChunk(cursor: Inner): Option<Bytes>
    requires cursor.Cursor?
  {
    match cursor.pending
    case Some(buffer) => Some(if |buffer| <= cursor.maxChunk then buffer else buffer[..cursor.maxChunk])
    case None =>
      if cursor.rest == [] then None
      else Some(if |cursor.rest[0]| <= cursor.maxChunk then cursor.rest[0] else cursor.rest[0][..cursor.maxChunk])
  }

  /** A future publishes exactly what its backend answer says, and only such answers count. */
  lemma SettlesAsSaid(lease: Lease, verb: Verb, inner: Inner, choice: Choice)
    requires lease.kind == ReadStream && choice.Fail? ==> inner.Cursor?
    ensures match Said(lease.kind, verb, inner, choice)
            case None => Settle(lease.kind, verb, inner, choice).None?
            case Some(c) => Settle(lease.kind, verb, inner, choice).Some? && Settle(lease.kind, verb, inner, choice).value.1 == c
  {
    if lease.kind == ReadStream && inner.Cursor? {
      CopiesWhole(inner.pending);
      CopiesWhole(if inner.rest == [] then None else Some(inner.rest[0]));
    }
  }

  lemma CopiesWhole(buffer: Option<Bytes>)
    ensures buffer.Some? ==> buffer.value[..|buffer.value|] == buffer.value
  {
  }

  lemma SettlesAsTold(lease: Lease, verb: Verb, inner: Inner, choice: Choice)
    requires Settle(lease.kind, verb, inner, choice).Some?
    ensures var (u, c) := Settle(lease.kind, verb, inner, choice).value;
            u.kind == lease.kind && LeftAs(Stateful(lease.kind, SettledState(u.next, lease.operation)), lease, inner, c)
  {
  }

  /** A future that completes while its task still waits publishes exactly what it does to the resource:
      an error with a failure, metadata with a finish, an end with an end, and else the same inner object
      is back under the token of the operation. */
  lemma OutcomesMatchStates(events: seq<Event>, task: Handle, choice: Choice)
    requires task in After(events).flights && After(events).flights[task].Advance?
    requires IsPending(After(events).bridge.arena, task, Some(After(events).flights[task].lease))
    requires var f := After(events).flights[task];
             Said(f.lease.kind, f.verb, f.inner, choice).Some?
    ensures var f := After(events).flights[task];
            var t := Apply(After(events), Publish(task, choice)).bridge.arena.table;
            && task in t && t[task] == Task(Ready(Said(f.lease.kind, f.verb, f.inner, choice).value, Some(f.lease)))
            && (f.lease.handle in TableAfter(events) ==>
                  f.lease.handle in t && LeftAs(t[f.lease.handle], f.lease, f.inner, t[task].task.completion))
  {
    hide Linear;
    hide Awaited;
    hide ResourcesTyped;
    hide NamesIssued;
    hide LeftAs;
    hide Said;
    AfterSound(events);
    var s := After(events);
    var f := s.flights[task];
    assert Publishable(f);
    assert PendingLease(s.bridge.arena.table[task]) == Some(f.lease);
    assert f.lease.handle in s.bridge.arena.table ==> Busies(s.bridge.arena.table, f.lease);
    hide Sound;
    OutcomeLands(s, task, choice);
  }

  lemma OutcomeLands(s: System, task: Handle, choice: Choice)
    requires task in s.flights && s.flights[task].Advance?
    requires IsPending(s.bridge.arena, task, Some(s.flights[task].lease))
    requires s.flights[task].lease.handle in s.bridge.arena.table ==> Busies(s.bridge.arena.table, s.flights[task].lease)
    requires var f := s.flights[task];
             Said(f.lease.kind, f.verb, f.inner, choice).Some? && Fits(f.lease.kind, f.inner)
    ensures var f := s.flights[task];
            var t := Apply(s, Publish(task, choice)).bridge.arena.table;
            && task in t && t[task] == Task(Ready(Said(f.lease.kind, f.verb, f.inner, choice).value, Some(f.lease)))
            && (f.lease.handle in s.bridge.arena.table ==>
                  f.lease.handle in t && LeftAs(t[f.lease.handle], f.lease, f.inner, t[task].task.completion))
  {
    hide LeftAs;
    hide Settle;
    var f := s.flights[task];
    hide Said;
    assert Apply(s, Publish(task, choice)) == OnPublish(s, task, choice);
    SettlesAsSaid(f.lease, f.verb, f.inner, choice);
    SettlesAsTold(f.lease, f.verb, f.inner, choice);
  }

  /** The sticky error moves to one new handle and is cleared exactly when there is one, the bridge is up
      and there is room; without room the refusal takes its place. */
  lemma LastErrorIsMoved(events: seq<Event>)
    ensures var b := After(events).bridge;
            var step := BridgeSteps.TakeLastError(b);
            if b.tornDown || b.lastError.None? then step == Step(b.(lastError := None), Done)
            else if !CanInsert(b.arena) then step == Step(b.(lastError := Some(HandleLimit)), Refused(HandleLimit))
            else
              && step.answer.Granted? && step.answer.handle !in b.arena.table
              && step.bridge == b.(lastError := None, arena := step.bridge.arena)
              && step.bridge.arena.table == b.arena.table[step.answer.handle := Error(b.lastError.value)]
  {
    hide TableSound;
    AfterSound(events);
    var b := After(events).bridge;
    if !b.tornDown && b.lastError.Some? && CanInsert(b.arena) {
      InsertIssues(b, Error(b.lastError.value));
      LiveIsIssued(b);
    }
  }

  /** No inner writer, lister or cursor is ever in two places. */
  lemma InnerObjectsAreLinear(events: seq<Event>)
    ensures Linear(TableAfter(events), After(events).flights, After(events).nextIdentity)
  {
    AfterSound(events);
  }

  // --------------------------------------------------------------- non-interference

  /** Publishing, cancelling or releasing a task changes no other resource, unless that resource's
      current token is the one in the task's lease. */
  lemma StaleWorkIsInert(events: seq<Event>, e: Event, task: Handle, h: Handle)
    requires (e.Publish? && e.task == task) || (e.TaskCancel? && e.handle == task) || (e.TaskRelease? && e.handle == task)
    requires h in TableAfter(events) && h != task
    ensures var s := After(events);
            var later := Apply(s, e).bridge.arena;
            && h in later.table
            && (later.table[h] != s.bridge.arena.table[h] ==>
                  && task in s.bridge.arena.table && TaskLease(s.bridge.arena.table[task]).Some?
                  && TaskLease(s.bridge.arena.table[task]).value.handle == h
                  && Governs(s.bridge.arena, TaskLease(s.bridge.arena.table[task]).value))
  {
    hide TableSound;
    AfterSound(events);
    var s := After(events);
    if e.Publish? {
      assert Apply(s, e) == OnPublish(s, task, e.choice);
      PublishInert(s, task, e.choice, h);
    } else if e.TaskRelease? {
      if Refusal(s.bridge.arena, task, TaskKind).None? {
        TaskReleaseShape(s.bridge, task);
        RemoveIssues(s.bridge, task);
      }
    }
  }

  lemma PublishInert(s: System, task: Handle, choice: Choice, h: Handle)
    requires h in s.bridge.arena.table && h != task
    ensures var t := s.bridge.arena.table;
            var later := OnPublish(s, task, choice).bridge.arena.table;
            && h in later
            && (later[h] != t[h] ==>
                  && task in t && TaskLease(t[task]).Some? && TaskLease(t[task]).value.handle == h
                  && Governs(s.bridge.arena, TaskLease(t[task]).value))
  {
    if task in s.flights && s.flights[task].Advance? {
      var flight := s.flights[task];
      var settled := Settle(flight.lease.kind, flight.verb, flight.inner, choice);
      if settled.Some? {
        PublishResourceInert(s.bridge, task, flight.lease, settled.value.0, settled.value.1, h);
      }
    }
  }

  lemma PublishResourceInert(b: Bridge, task: Handle, lease: Lease, u: Update, c: Completion, h: Handle)
    requires h in b.arena.table && h != task
    ensures var later := PublishResourceTask(b, task, lease, u, c).arena.table;
            && h in later
            && (later[h] != b.arena.table[h] ==>
                  h == lease.handle && IsPending(b.arena, task, Some(lease)) && Governs(b.arena, lease))
  {
  }

  // --------------------------------------------------------------------- teardown

  lemma RunOne(s: System, e: Event)
    ensures Run(s, [e]) == Apply(s, e)
  {
    assert [e][1..] == [];
    assert Run(Apply(s, e), []) == Apply(s, e);
  }

  lemma DownStaysEmpty(s: System, events: seq<Event>)
    requires Sound(s) && s.bridge.tornDown
    ensures Run(s, events).bridge.tornDown && Run(s, events).bridge.arena == EMPTY
  {
    RunKeeps(s, events);
    RunProgress(s, events);
  }

  /** After teardown the arena is empty for good, whatever is called and whatever completes late,
      including the exports that insert without looking at the teardown flag. */
  lemma TeardownIsFinal(before: seq<Event>, after: seq<Event>)
    ensures After(before + [Event.Teardown] + after).bridge.arena == EMPTY
    ensures After(before + [Event.Teardown] + after).bridge.tornDown
  {
    hide Sound;
    AfterSound(before + [Event.Teardown]);
    RunConcat(INITIAL, before, [Event.Teardown]);
    RunConcat(INITIAL, before + [Event.Teardown], after);
    RunOne(After(before), Event.Teardown);
    DownStaysEmpty(After(before + [Event.Teardown]), after);
  }
}
