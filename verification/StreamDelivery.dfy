/** Gap-freedom of read streams: what the caller receives, over a whole run, from one stream. */
module StreamDelivery {
  import opened Basics
  import opened BridgeTypes
  import opened HandleArena
  import opened BridgeSteps
  import opened BridgeSystem
  import opened LeaseInvariant
  import opened TableInvariant
  import opened BridgeInvariant
  import opened BridgeProgress
  import opened BridgeFrame

  function Flatten(parts: seq<Bytes>): Bytes {
    if parts == [] then [] else parts[0] + Flatten(parts[1..])
  }

  lemma {:induction false} FlattenAppend(parts: seq<Bytes>, more: seq<Bytes>)
    ensures Flatten(parts + more) == Flatten(parts) + Flatten(more)
  {
    if parts == [] {
      assert parts + more == more;
    } else {
      assert (parts + more)[1..] == parts[1..] + more;
      FlattenAppend(parts[1..], more);
    }
  }

  /** The bytes a cursor has still to give out. */
  function Content(cursor: Inner): Bytes
    requires cursor.Cursor?
  {
    (if cursor.pending.Some? then cursor.pending.value else []) + Flatten(cursor.rest)
  }

  /** One bounded read takes the next bytes off the cursor, at most `maxChunk` of them, and ends
      only when none are left. */
  lemma ReadNextTakesNext(cursor: Inner, choice: Choice)
    requires cursor.Cursor?
    ensures var (u, c) := ReadNext(cursor, choice);
            && c.WithChunk?
            && match c.chunk
               case Err(e) => choice == Fail(e) && u.next == Close(Failed)
               case Ok(None) => u.next == Close(End) && Content(cursor) == []
               case Ok(Some(k)) =>
                 && !choice.Fail?
                 && u.next.Reopen? && u.next.inner.Cursor?
                 && u.next.inner.maxChunk == cursor.maxChunk && u.next.inner.identity == cursor.identity
                 && Content(cursor) == k + Content(u.next.inner)
                 && |k| <= cursor.maxChunk
  {
    if !choice.Fail? && (cursor.pending.Some? || cursor.rest != []) {
      var (buffer, rest) := if cursor.pending.Some? then (cursor.pending.value, cursor.rest)
                            else (cursor.rest[0], cursor.rest[1..]);
      ChunkSplits(buffer, cursor.maxChunk);
      assert Content(cursor) == buffer + Flatten(rest);
      hide CopyChunk;
    }
  }

  /** A copied chunk and its remainder make up the buffer. */
  lemma ChunkSplits(buffer: Bytes, max: nat)
    ensures var (chunk, remainder) := CopyChunk(buffer, max);
            chunk + (if remainder.Some? then remainder.value else []) == buffer && |chunk| <= max
  {
  }

  predicate Concerns(r: Resource, h: Handle) {
    TaskLease(r).Some? && TaskLease(r).value.handle == h
  }

  function ReadyChunk(r: Resource): Option<Bytes> {
    match r
    case Task(Ready(WithChunk(Ok(chunk)), _)) => chunk
    case _ => None
  }

  ghost predicate Unread(t: Table, h: Handle) {
    forall task | task in t :: !Concerns(t[task], h)
  }

  /** A task on stream `h`: pending with a cursor that holds all of `rest`, or ready, and then its
      chunk comes next in `rest` and the cursor of the stream holds what follows. */
  ghost predicate Serves(t: Table, flights: Flights, task: Handle, h: Handle, rest: Bytes, max: nat)
    requires task in t && Concerns(t[task], h)
  {
    && TaskLease(t[task]).value.kind == ReadStream
    && (t[task].task.Pending? ==>
          && task in flights && flights[task].Advance? && flights[task].inner.Cursor?
          && flights[task].lease == TaskLease(t[task]).value
          && flights[task].inner.maxChunk == max && Content(flights[task].inner) == rest)
    && (t[task].task.Ready? ==>
          && t[task].task.completion.WithChunk?
          && (ReadyChunk(t[task]).Some? ==> ReadyChunk(t[task]).value <= rest && |ReadyChunk(t[task]).value| <= max)
          && (h in t && t[h].Stateful? && t[h].state.Open? ==>
                && t[h].state.operation == TaskLease(t[task]).value.operation
                && t[h].state.inner.Cursor?
                && ReadyChunk(t[task]).Some?
                && rest == ReadyChunk(t[task]).value + Content(t[h].state.inner)))
  }

  /** Stream `h` still owes the caller exactly `rest`, in chunks of at most `max`. */
  ghost predicate Owes(t: Table, flights: Flights, h: Handle, rest: Bytes, max: nat) {
    && 1 <= max <= MAX_TRANSFER_CHUNK
    && (forall a, b | a in t && b in t && Concerns(t[a], h) && Concerns(t[b], h) :: a == b)
    && (forall task | task in t && Concerns(t[task], h) :: Serves(t, flights, task, h, rest, max))
    && (h in t ==>
          && t[h].Stateful? && t[h].kind == ReadStream
          && (t[h].state.Open? ==> t[h].state.inner.Cursor? && t[h].state.inner.maxChunk == max)
          && (t[h].state.Open? && Unread(t, h) ==> Content(t[h].state.inner) == rest)
          && (t[h].state == Closed(End) ==> rest == []))
  }

  ghost predicate Follows(s: System, h: Handle, rest: Bytes, max: nat) {
    && Sound(s) && h in IssuedBy(s.bridge)
    && Owes(s.bridge.arena.table, s.flights, h, rest, max)
  }

  // ----------------------------------------------------------- table-level steps

  /** Nothing on the stream changed. */
  lemma OwesFrame(t: Table, u: Table, flights: Flights, later: Flights, h: Handle, rest: Bytes, max: nat)
    requires Owes(t, flights, h, rest, max)
    requires forall k | k in u && Concerns(u[k], h) :: k in t && u[k] == t[k]
    requires forall k | k in t && Concerns(t[k], h) :: k in u && u[k] == t[k]
    requires forall k | k in t && Concerns(t[k], h) && k in flights :: k in later && later[k] == flights[k]
    requires h in u ==> h in t && u[h] == t[h]
    ensures Owes(u, later, h, rest, max)
  {
    forall task | task in u && Concerns(u[task], h) ensures Serves(u, later, task, h, rest, max) {
      assert Serves(t, flights, task, h, rest, max);
    }
  }

  /** The only task on the stream gives way, and the stream with it, or keeps only its cursor. */
  lemma OwesAfter(t: Table, u: Table, flights: Flights, later: Flights, h: Handle, task: Handle, rest: Bytes, left: Bytes, max: nat)
    requires Owes(t, flights, h, rest, max)
    requires task in t && Concerns(t[task], h)
    requires forall k | k in u && Concerns(u[k], h) :: k == task || (k in t && Concerns(t[k], h))
    requires task in u ==> !Concerns(u[task], h)
    requires h in u ==>
               && u[h].Stateful? && u[h].kind == ReadStream
               && (u[h].state.Open? ==> u[h].state.inner.Cursor? && u[h].state.inner.maxChunk == max
                                        && Content(u[h].state.inner) == left)
               && (u[h].state == Closed(End) ==> left == [])
    ensures Owes(u, later, h, left, max)
  {
    assert forall k | k in t && Concerns(t[k], h) :: k == task;
    assert Unread(u, h);
  }

  /** Reserving the next read. */
  lemma OwesReserved(t: Table, u: Table, flights: Flights, later: Flights, h: Handle, task: Handle, lease: Lease, verb: Verb,
                     rest: Bytes, max: nat)
    requires Owes(t, flights, h, rest, max) && Unread(t, h)
    requires h in t && t[h].state.Open? && task !in t && lease.handle == h && lease.kind == ReadStream
    requires u == t[h := Stateful(ReadStream, Busy(lease.operation))][task := Task(Pending(Some(lease)))]
    requires later == flights[task := Advance(lease, verb, t[h].state.inner)]
    ensures Owes(u, later, h, rest, max)
  {
    assert forall k | k in u && Concerns(u[k], h) :: k == task;
  }

  /** The read completes. */
  lemma OwesLanded(t: Table, u: Table, flights: Flights, later: Flights, h: Handle, task: Handle, lease: Lease, choice: Choice, rest: Bytes, max: nat)
    requires Owes(t, flights, h, rest, max)
    requires task in t && t[task] == Task(Pending(Some(lease))) && lease.handle == h && task != h
    requires task in flights && flights[task].Advance? && flights[task].inner.Cursor?
    requires var (up, c) := ReadNext(flights[task].inner, choice);
             && u == Settling(t, task, lease, Task(Ready(c, Some(lease))), SettledState(up.next, lease.operation))
    ensures Owes(u, later, h, rest, max)
  {
    assert Concerns(t[task], h);
    assert Serves(t, flights, task, h, rest, max);
    ReadNextTakesNext(flights[task].inner, choice);
    SettlingFrame(t, task, lease, Task(Ready(ReadNext(flights[task].inner, choice).1, Some(lease))),
                  SettledState(ReadNext(flights[task].inner, choice).0.next, lease.operation));
    assert forall k | k in u && Concerns(u[k], h) :: k == task;
    assert !Unread(u, h) by { assert Concerns(u[task], h); }
  }

  // ----------------------------------------------------------------- event cases

  /** The chunks an event hands to the caller of stream `h`. */
  function Received(s: System, e: Event, h: Handle): seq<Bytes> {
    if e.TaskTake? && BridgeSteps.TaskTake(s.bridge, e.handle).answer.Granted? && e.handle in s.bridge.arena.table
       && Concerns(s.bridge.arena.table[e.handle], h) && ReadyChunk(s.bridge.arena.table[e.handle]).Some?
    then [ReadyChunk(s.bridge.arena.table[e.handle]).value]
    else []
  }

  /** The caller starts a read only when no finished read of the same stream is still waiting to
      be taken, cancelled or released. */
  ghost predicate Polite(s: System, e: Event, h: Handle) {
    e.StartAdvance? && e.handle == h ==>
      forall task | task in s.bridge.arena.table && Concerns(s.bridge.arena.table[task], h) ::
        !s.bridge.arena.table[task].task.Ready?
  }

  ghost predicate OwesAfterEvent(s: System, e: Event, h: Handle, rest: Bytes, max: nat) {
    Owes(Apply(s, e).bridge.arena.table, Apply(s, e).flights, h, rest, max)
  }

  /** The event names neither the stream nor one of its tasks. */
  ghost predicate Elsewhere(t: Table, e: Event, h: Handle) {
    && !(e.StartAdvance? && e.handle == h)
    && (forall k | k in t && (k == h || Concerns(t[k], h)) :: k !in Named(t, e) && !(e.Publish? && e.task == k))
  }

  lemma FramedOwes(s: System, e: Event, later: System, h: Handle, rest: Bytes, max: nat)
    requires Framed(s, e, later) && Owes(s.bridge.arena.table, s.flights, h, rest, max)
    requires Elsewhere(s.bridge.arena.table, e, h)
    requires h in later.bridge.arena.table ==> h in s.bridge.arena.table
    ensures Owes(later.bridge.arena.table, later.flights, h, rest, max)
  {
    var t, u := s.bridge.arena.table, later.bridge.arena.table;
    forall k | k in u && Concerns(u[k], h) ensures k in t && u[k] == t[k] {
      assert k in t;
    }
    OwesFrame(t, u, s.flights, later.flights, h, rest, max);
  }

  lemma ElsewhereOwes(s: System, e: Event, h: Handle, rest: Bytes, max: nat)
    requires Follows(s, h, rest, max) && Elsewhere(s.bridge.arena.table, e, h)
    ensures OwesAfterEvent(s, e, h, rest, max)
  {
    ApplyFrame(s, e);
    ApplyProgress(s, e);
    FramedOwes(s, e, Apply(s, e), h, rest, max);
  }

  /** An event that leaves the arena and the other futures as they were. */
  lemma SameArenaOwes(s: System, later: System, h: Handle, rest: Bytes, max: nat, except: Handle)
    requires Owes(s.bridge.arena.table, s.flights, h, rest, max) && later.bridge.arena == s.bridge.arena
    requires forall f | f in s.flights && f != except :: f in later.flights && later.flights[f] == s.flights[f]
    requires except in s.bridge.arena.table ==> !PendingTask(s.bridge.arena.table[except])
    ensures Owes(later.bridge.arena.table, later.flights, h, rest, max)
  {
    var t := s.bridge.arena.table;
    forall task | task in t && Concerns(t[task], h) ensures Serves(t, later.flights, task, h, rest, max) {
      assert Serves(t, s.flights, task, h, rest, max);
    }
  }

  /** An export called on a handle of the wrong kind changes no resource. */
  lemma WrongKindIsInert(s: System, e: Event, k: Handle)
    requires k in s.bridge.arena.table
    requires s.bridge.arena.table[k].Task? || s.bridge.arena.table[k].Stateful?
    requires (e.PushByte? || e.WriteWindow? || IsTake(e) || e.TakeEntrySnapshot?) && e.handle == k
    ensures Apply(s, e).bridge.arena == s.bridge.arena && Apply(s, e).flights == s.flights
  {
  }

  lemma PublishOnStreamIsInert(s: System, e: Event, k: Handle)
    requires e.Publish? && e.task == k && k in s.bridge.arena.table && !PendingTask(s.bridge.arena.table[k])
    ensures Apply(s, e).bridge.arena == s.bridge.arena
    ensures forall f | f in s.flights && f != k :: f in Apply(s, e).flights && Apply(s, e).flights[f] == s.flights[f]
  {
    assert Apply(s, e) == OnPublish(s, k, e.choice);
  }

  lemma ReadUpdates(cursor: Inner, choice: Choice)
    requires cursor.Cursor?
    ensures ReadNext(cursor, choice).0.kind == ReadStream
  {
  }

  /** The future of a read on the stream completes. */
  lemma LandingOwes(s: System, e: Event, h: Handle, rest: Bytes, max: nat)
    requires Follows(s, h, rest, max) && e.Publish?
    requires e.task in s.bridge.arena.table && PendingTask(s.bridge.arena.table[e.task])
    requires Concerns(s.bridge.arena.table[e.task], h)
    ensures OwesAfterEvent(s, e, h, rest, max)
  {
    hide Owners;
    var t := s.bridge.arena.table;
    var task := e.task;
    var lease := TaskLease(t[task]).value;
    assert Serves(t, s.flights, task, h, rest, max);
    assert Apply(s, e) == OnPublish(s, task, e.choice);
    var flight := s.flights[task];
    ReadUpdates(flight.inner, e.choice);
    hide ReadNext;
    if Settle(ReadStream, flight.verb, flight.inner, e.choice).Some? {
      var (up, c) := ReadNext(flight.inner, e.choice);
      assert h in t ==> Busies(t, lease) by {
        assert PendingLease(t[task]) == Some(lease);
      }
      var u := OnPublish(s, task, e.choice).bridge.arena.table;
      assert u == Settling(t, task, lease, Task(Ready(c, Some(lease))), SettledState(up.next, lease.operation));
      OwesLanded(t, u, s.flights, OnPublish(s, task, e.choice).flights, h, task, lease, e.choice, rest, max);
    }
  }

  lemma PublishOwes(s: System, e: Event, h: Handle, rest: Bytes, max: nat)
    requires Follows(s, h, rest, max) && e.Publish?
    ensures OwesAfterEvent(s, e, h, rest, max)
  {
    hide Sound;
    var t := s.bridge.arena.table;
    if e.task in t && !PendingTask(t[e.task]) {
      PublishOnStreamIsInert(s, e, e.task);
      SameArenaOwes(s, Apply(s, e), h, rest, max, e.task);
    } else if e.task in t && Concerns(t[e.task], h) {
      LandingOwes(s, e, h, rest, max);
    } else {
      assert e.task in t ==> PendingLease(t[e.task]) == TaskLease(t[e.task]);
      ElsewhereOwes(s, e, h, rest, max);
    }
  }

  // ------------------------------------------------------ tasks of the stream

  /** An export called on something that is not a task. */
  lemma MissedTaskOwes(s: System, e: Event, h: Handle, rest: Bytes, max: nat)
    requires Follows(s, h, rest, max) && (e.TaskTake? || e.TaskCancel? || e.TaskRelease?)
    requires e.handle in s.bridge.arena.table ==> !s.bridge.arena.table[e.handle].Task?
    ensures Received(s, e, h) == []
    ensures OwesAfterEvent(s, e, h, rest, max)
  {
    MissedTask(s, e);
    SameArenaOwes(s, Apply(s, e), h, rest, max, h);
  }

  lemma MissedTask(s: System, e: Event)
    requires e.TaskTake? || e.TaskCancel? || e.TaskRelease?
    requires e.handle in s.bridge.arena.table ==> !s.bridge.arena.table[e.handle].Task?
    ensures Apply(s, e).bridge.arena == s.bridge.arena && Apply(s, e).flights == s.flights
  {
  }

  lemma TakenOwes(s: System, e: Event, later: System, h: Handle, rest: Bytes, max: nat, k: Bytes)
    requires Framed(s, e, later) && e.TaskTake? && e.handle in s.bridge.arena.table
    requires Owes(s.bridge.arena.table, s.flights, h, rest, max)
    requires Concerns(s.bridge.arena.table[e.handle], h) && s.bridge.arena.table[e.handle].task.Ready?
    requires k == if ReadyChunk(s.bridge.arena.table[e.handle]).Some? then ReadyChunk(s.bridge.arena.table[e.handle]).value else []
    requires h in later.bridge.arena.table ==> h in s.bridge.arena.table
    requires e.handle in later.bridge.arena.table && later.bridge.arena.table[e.handle] == Task(Consumed)
    ensures k <= rest && |k| <= max && Owes(later.bridge.arena.table, later.flights, h, rest[|k|..], max)
  {
    var t, u := s.bridge.arena.table, later.bridge.arena.table;
    assert Serves(t, s.flights, e.handle, h, rest, max);
    OwesAfter(t, u, s.flights, later.flights, h, e.handle, rest, rest[|k|..], max);
  }

  /** What a granted take of a task of the stream hands over. */
  function ChunkOf(r: Resource): Bytes {
    if ReadyChunk(r).Some? then ReadyChunk(r).value else []
  }

  lemma GrantedTakeOwes(s: System, e: Event, later: System, h: Handle, rest: Bytes, max: nat)
    requires Follows(s, h, rest, max) && e.TaskTake? && e.handle in s.bridge.arena.table
    requires Concerns(s.bridge.arena.table[e.handle], h)
    requires BridgeSteps.TaskTake(s.bridge, e.handle).answer.Granted? && later == Apply(s, e)
    ensures var k := ChunkOf(s.bridge.arena.table[e.handle]);
            k <= rest && |k| <= max && Owes(later.bridge.arena.table, later.flights, h, rest[|k|..], max)
  {
    ApplyFrame(s, e);
    ApplyProgress(s, e);
    TaskTakeCases(s.bridge, e.handle);
    TakenMarks(s, e);
    TakenOwes(s, e, later, h, rest, max, ChunkOf(s.bridge.arena.table[e.handle]));
  }

  lemma TakenMarks(s: System, e: Event)
    requires ArenaSound(s.bridge) && e.TaskTake? && e.handle in s.bridge.arena.table
    requires BridgeSteps.TaskTake(s.bridge, e.handle).answer.Granted?
    ensures e.handle in Apply(s, e).bridge.arena.table && Apply(s, e).bridge.arena.table[e.handle] == Task(Consumed)
  {
    TaskTakeCases(s.bridge, e.handle);
    PutIssues(s.bridge, e.handle, Task(Consumed));
    InsertIsFresh(Put(s.bridge.arena, e.handle, Task(Consumed)), Completed(s.bridge.arena.table[e.handle].task.completion));
    assert Apply(s, e) == On(s, BridgeSteps.TaskTake(s.bridge, e.handle));
  }

  lemma RefusedTake(s: System, e: Event, h: Handle)
    requires e.TaskTake? && !BridgeSteps.TaskTake(s.bridge, e.handle).answer.Granted?
    ensures Apply(s, e).bridge.arena == s.bridge.arena && Apply(s, e).flights == s.flights
    ensures Received(s, e, h) == []
  {
    TaskTakeCases(s.bridge, e.handle);
    assert Apply(s, e) == On(s, BridgeSteps.TaskTake(s.bridge, e.handle));
  }

  /** Taking: the chunk is delivered, and the cursor holds exactly what is then left. */
  lemma TakeOwes(s: System, e: Event, h: Handle, rest: Bytes, max: nat)
    requires Follows(s, h, rest, max) && e.TaskTake? && e.handle in s.bridge.arena.table
    requires Concerns(s.bridge.arena.table[e.handle], h)
    ensures Flatten(Received(s, e, h)) <= rest && (forall k | k in Received(s, e, h) :: |k| <= max)
    ensures OwesAfterEvent(s, e, h, rest[|Flatten(Received(s, e, h))|..], max)
  {
    hide Sound;
    if BridgeSteps.TaskTake(s.bridge, e.handle).answer.Granted? {
      assert Flatten(Received(s, e, h)) == ChunkOf(s.bridge.arena.table[e.handle]);
      GrantedTakeOwes(s, e, Apply(s, e), h, rest, max);
    } else {
      assert rest[0..] == rest;
      RefusedTake(s, e, h);
      SameArenaOwes(s, Apply(s, e), h, rest, max, h);
    }
  }

  /** A stream that is not terminal is governed by the lease of its one task. */
  lemma StreamGoverned(s: System, h: Handle, task: Handle, rest: Bytes, max: nat)
    requires Follows(s, h, rest, max)
    requires h in s.bridge.arena.table && task in s.bridge.arena.table && Concerns(s.bridge.arena.table[task], h)
    ensures s.bridge.arena.table[h].state.Closed? || Governs(s.bridge.arena, TaskLease(s.bridge.arena.table[task]).value)
  {
    hide Owners;
    var t := s.bridge.arena.table;
    assert Serves(t, s.flights, task, h, rest, max);
    assert PendingLease(t[task]).Some? ==> Busies(t, PendingLease(t[task]).value);
    if t[h].state.Busy? {
      var lease := Lease(h, t[h].kind, t[h].state.operation);
      assert BusyToken(t[h]) == Some(t[h].state.operation);
      assert HasPendingTask(t, lease);
      var pending :| pending in t && PendingLease(t[pending]) == Some(lease);
      assert Concerns(t[pending], h);
    }
  }

  /** After a drop the task no longer has its lease, and the stream it governed has failed. */
  lemma DroppedTable(s: System, e: Event, h: Handle, lease: Lease)
    requires ArenaSound(s.bridge) && (e.TaskCancel? || e.TaskRelease?) && e.handle in s.bridge.arena.table
    requires TaskLease(s.bridge.arena.table[e.handle]) == Some(lease) && lease.handle == h && h != e.handle
    ensures var u := Apply(s, e).bridge.arena.table;
            && (e.handle in u ==> u[e.handle] == Task(Cancelled))
            && (h in u ==> h in s.bridge.arena.table
                           && u[h] == if Governs(s.bridge.arena, lease) then Stateful(lease.kind, Closed(Failed))
                                      else s.bridge.arena.table[h])
  {
    var b := s.bridge;
    if e.TaskCancel? {
      assert Apply(s, e) == On(s, BridgeSteps.TaskCancel(b, e.handle));
    } else {
      assert Apply(s, e) == On(s, BridgeSteps.TaskRelease(b, e.handle));
      TaskReleaseShape(b, e.handle);
      RemoveIssues(b, e.handle);
    }
  }

  lemma DroppedOwes(s: System, e: Event, later: System, h: Handle, rest: Bytes, max: nat)
    requires Framed(s, e, later) && (e.TaskCancel? || e.TaskRelease?) && e.handle in s.bridge.arena.table
    requires Owes(s.bridge.arena.table, s.flights, h, rest, max) && Concerns(s.bridge.arena.table[e.handle], h)
    requires e.handle in later.bridge.arena.table ==> later.bridge.arena.table[e.handle] == Task(Cancelled)
    requires h in later.bridge.arena.table ==>
               && h in s.bridge.arena.table
               && (|| later.bridge.arena.table[h] == Stateful(ReadStream, Closed(Failed))
                   || (later.bridge.arena.table[h] == s.bridge.arena.table[h] && s.bridge.arena.table[h].state.Closed?))
    ensures Owes(later.bridge.arena.table, later.flights, h, rest, max)
  {
    OwesAfter(s.bridge.arena.table, later.bridge.arena.table, s.flights, later.flights, h, e.handle, rest, rest, max);
  }

  /** Cancelling or releasing: what is dropped is never followed, because the stream fails. */
  lemma DropOwes(s: System, e: Event, h: Handle, rest: Bytes, max: nat)
    requires Follows(s, h, rest, max) && (e.TaskCancel? || e.TaskRelease?) && e.handle in s.bridge.arena.table
    requires Concerns(s.bridge.arena.table[e.handle], h)
    ensures OwesAfterEvent(s, e, h, rest, max)
  {
    var t := s.bridge.arena.table;
    var lease := TaskLease(t[e.handle]).value;
    assert Serves(t, s.flights, e.handle, h, rest, max);
    ApplyFrame(s, e);
    if h in t {
      StreamGoverned(s, h, e.handle, rest, max);
    }
    DroppedTable(s, e, h, lease);
    DroppedOwes(s, e, Apply(s, e), h, rest, max);
  }

  lemma TaskOwes(s: System, e: Event, h: Handle, rest: Bytes, max: nat)
    requires Follows(s, h, rest, max) && (e.TaskTake? || e.TaskCancel? || e.TaskRelease?)
    ensures Flatten(Received(s, e, h)) <= rest && (forall k | k in Received(s, e, h) :: |k| <= max)
    ensures OwesAfterEvent(s, e, h, rest[|Flatten(Received(s, e, h))|..], max)
  {
    hide Sound;
    var t := s.bridge.arena.table;
    assert rest[0..] == rest;
    if e.handle !in t || !t[e.handle].Task? {
      MissedTaskOwes(s, e, h, rest, max);
    } else if !Concerns(t[e.handle], h) {
      ElsewhereOwes(s, e, h, rest, max);
    } else if e.TaskTake? {
      TakeOwes(s, e, h, rest, max);
    } else {
      DropOwes(s, e, h, rest, max);
    }
  }

  // --------------------------------------------------------------- one event

  lemma StartedOwes(s: System, later: System, h: Handle, verb: Verb, rest: Bytes, max: nat)
    requires ArenaSound(s.bridge) && Owes(s.bridge.arena.table, s.flights, h, rest, max) && Unread(s.bridge.arena.table, h)
    requires CanReserve(s.bridge, h, ReadStream) && later == Started(s, h, ReadStream, verb)
    ensures Owes(later.bridge.arena.table, later.flights, h, rest, max)
  {
    ReservedArena(s.bridge, h, ReadStream);
    LiveIsIssued(s.bridge);
    OwesReserved(s.bridge.arena.table, later.bridge.arena.table, s.flights, later.flights, h, NextHandle(s.bridge.arena),
                 Lease(h, ReadStream, s.bridge.nextOperation + 1), verb, rest, max);
  }

  lemma StartOwes(s: System, e: Event, h: Handle, rest: Bytes, max: nat)
    requires Follows(s, h, rest, max) && e.StartAdvance? && e.handle == h && Polite(s, e, h)
    ensures OwesAfterEvent(s, e, h, rest, max)
  {
    var later := OnStartAdvance(s, h, e.target, e.verb);
    assert Apply(s, e) == later;
    StartOnStream(s, h, e.target, e.verb);
    if e.target == ReadStream && e.verb.Next? && CanReserve(s.bridge, h, ReadStream) {
      NoTaskWhenOpen(s, h, rest, max);
      StartedOwes(s, later, h, e.verb, rest, max);
    } else {
      SameArenaOwes(s, later, h, rest, max, h);
    }
  }

  /** Only a read can be started on a stream. */
  lemma StartOnStream(s: System, h: Handle, kind: StatefulKind, verb: Verb)
    requires h in s.bridge.arena.table ==> s.bridge.arena.table[h].Stateful? && s.bridge.arena.table[h].kind == ReadStream
    ensures var later := OnStartAdvance(s, h, kind, verb);
            if kind == ReadStream && verb.Next? && CanReserve(s.bridge, h, ReadStream) then
              later == Started(s, h, ReadStream, verb)
            else later.bridge.arena == s.bridge.arena && later.flights == s.flights
  {
    StartReservedCases(s, h, kind, verb);
    ReserveCases(s.bridge, h, kind);
  }

  /** An open stream whose finished reads were all taken has no task at all. */
  lemma NoTaskWhenOpen(s: System, h: Handle, rest: Bytes, max: nat)
    requires Follows(s, h, rest, max) && h in s.bridge.arena.table && s.bridge.arena.table[h].state.Open?
    requires forall task | task in s.bridge.arena.table && Concerns(s.bridge.arena.table[task], h) ::
               !s.bridge.arena.table[task].task.Ready?
    ensures Unread(s.bridge.arena.table, h)
  {
    var t := s.bridge.arena.table;
    forall task | task in t ensures !Concerns(t[task], h) {
      assert PendingLease(t[task]).Some? && PendingLease(t[task]).value.handle == h ==> Busies(t, PendingLease(t[task]).value);
    }
  }

  /** Releasing the stream itself leaves its task, if any, as it was. */
  lemma ReleaseOwes(s: System, e: Event, h: Handle, rest: Bytes, max: nat)
    requires Follows(s, h, rest, max) && e.Release?
    ensures OwesAfterEvent(s, e, h, rest, max)
  {
    hide TableSound;
    var t := s.bridge.arena.table;
    if e.resourceKind == TaskKind || Refusal(s.bridge.arena, e.handle, e.resourceKind).Some? {
      SameArenaOwes(s, Apply(s, e), h, rest, max, h);
    } else if e.handle == h {
      RemoveIssues(s.bridge, h);
      OwesFrame(t, t - {h}, s.flights, s.flights, h, rest, max);
    } else {
      ElsewhereOwes(s, e, h, rest, max);
    }
  }

  lemma NamesOne(t: Table, e: Event)
    requires e.PushByte? || e.WriteWindow? || IsTake(e) || e.TakeEntrySnapshot?
    ensures Named(t, e) == {e.handle}
  {
  }

  lemma WrongHandleOwes(s: System, e: Event, h: Handle, rest: Bytes, max: nat)
    requires Follows(s, h, rest, max) && (e.PushByte? || e.WriteWindow? || IsTake(e) || e.TakeEntrySnapshot?)
    ensures OwesAfterEvent(s, e, h, rest, max)
  {
    hide Sound;
    var t := s.bridge.arena.table;
    NamesOne(t, e);
    if e.handle in t && (e.handle == h || Concerns(t[e.handle], h)) {
      WrongKindIsInert(s, e, e.handle);
      SameArenaOwes(s, Apply(s, e), h, rest, max, h);
    } else {
      ElsewhereOwes(s, e, h, rest, max);
    }
  }

  lemma StartElsewhereOwes(s: System, e: Event, h: Handle, rest: Bytes, max: nat)
    requires Follows(s, h, rest, max) && e.StartAdvance? && e.handle != h
    ensures OwesAfterEvent(s, e, h, rest, max)
  {
    hide Sound;
    var t := s.bridge.arena.table;
    if e.handle in t && Concerns(t[e.handle], h) {
      assert Apply(s, e) == OnStartAdvance(s, e.handle, e.target, e.verb);
      StartReservedCases(s, e.handle, e.target, e.verb);
      ReserveCases(s.bridge, e.handle, e.target);
      SameArenaOwes(s, Apply(s, e), h, rest, max, h);
    } else {
      ElsewhereOwes(s, e, h, rest, max);
    }
  }

  /** One polite event: what is received comes off the front of what is owed. */
  lemma StepFollows(s: System, e: Event, h: Handle, rest: Bytes, max: nat)
    requires Follows(s, h, rest, max) && Polite(s, e, h)
    ensures Flatten(Received(s, e, h)) <= rest && (forall k | k in Received(s, e, h) :: |k| <= max)
    ensures Follows(Apply(s, e), h, rest[|Flatten(Received(s, e, h))|..], max)
  {
    hide TableSound;
    ApplyKeeps(s, e);
    ApplyProgress(s, e);
    EventOwes(s, e, h, rest, max);
  }

  lemma EventOwes(s: System, e: Event, h: Handle, rest: Bytes, max: nat)
    requires Follows(s, h, rest, max) && Polite(s, e, h)
    ensures Flatten(Received(s, e, h)) <= rest && (forall k | k in Received(s, e, h) :: |k| <= max)
    ensures OwesAfterEvent(s, e, h, rest[|Flatten(Received(s, e, h))|..], max)
  {
    hide Sound;
    assert rest[0..] == rest;
    if e.TaskTake? || e.TaskCancel? || e.TaskRelease? {
      TaskOwes(s, e, h, rest, max);
    } else {
      assert Received(s, e, h) == [];
      if e.Publish? {
        PublishOwes(s, e, h, rest, max);
      } else if e.StartAdvance? && e.handle == h {
        StartOwes(s, e, h, rest, max);
      } else if e.StartAdvance? {
        StartElsewhereOwes(s, e, h, rest, max);
      } else if e.Release? {
        ReleaseOwes(s, e, h, rest, max);
      } else if e.PushByte? || e.WriteWindow? || IsTake(e) || e.TakeEntrySnapshot? {
        WrongHandleOwes(s, e, h, rest, max);
      } else if e.Teardown? {
        assert Apply(s, e).bridge.arena == EMPTY;
      } else {
        assert Named(s.bridge.arena.table, e) == {};
        ElsewhereOwes(s, e, h, rest, max);
      }
    }
  }

  // ------------------------------------------------------------------ whole runs

  /** Everything the caller of stream `h` receives over a run. */
  function Delivered(s: System, h: Handle, events: seq<Event>): seq<Bytes>
    decreases |events|
  {
    if events == [] then [] else Received(s, events[0], h) + Delivered(Apply(s, events[0]), h, events[1..])
  }

  ghost predicate PoliteRun(s: System, h: Handle, events: seq<Event>)
    decreases |events|
  {
    events == [] || (Polite(s, events[0], h) && PoliteRun(Apply(s, events[0]), h, events[1..]))
  }

  lemma PrefixesAdd(whole: Bytes, a: Bytes, b: Bytes)
    requires a <= whole && b <= whole[|a|..]
    ensures a + b <= whole && whole[|a|..][|b|..] == whole[|a + b|..]
  {
    assert whole == a + whole[|a|..];
  }

  /** Over any polite run the delivered chunks are a prefix of what was owed, each within the chunk
      size, and the stream then owes exactly the remainder. */
  lemma {:induction false} DeliveryIsGapFree(s: System, h: Handle, rest: Bytes, max: nat, events: seq<Event>)
    requires Follows(s, h, rest, max) && PoliteRun(s, h, events)
    ensures var got := Delivered(s, h, events);
            && Flatten(got) <= rest
            && (forall k | k in got :: |k| <= max)
            && Follows(Run(s, events), h, rest[|Flatten(got)|..], max)
    decreases |events|
  {
    if events == [] {
      assert rest[0..] == rest;
    } else {
      var first := Received(s, events[0], h);
      var next := Apply(s, events[0]);
      StepFollows(s, events[0], h, rest, max);
      var left := rest[|Flatten(first)|..];
      DeliveryIsGapFree(next, h, left, max, events[1..]);
      var others := Delivered(next, h, events[1..]);
      FlattenAppend(first, others);
      PrefixesAdd(rest, Flatten(first), Flatten(others));
    }
  }

  /** A stream that has just been opened owes its whole object. */
  lemma OpenedStreamOwesAll(s: System, handle: Handle)
    requires Sound(s) && BridgeSteps.TakeOpened(s.bridge, handle, ReadStream).answer.Granted?
    ensures var step := BridgeSteps.TakeOpened(s.bridge, handle, ReadStream);
            var h := step.answer.handle;
            var t := step.bridge.arena.table;
            && h in t && t[h].Stateful? && t[h].state.Open? && t[h].state.inner.Cursor?
            && Follows(On(s, step), h, Content(t[h].state.inner), t[h].state.inner.maxChunk)
  {
    hide FlightsTyped;
    hide LeasesAgree;
    hide Linear;
    hide Awaited;
    var e := Event.TakeOpened(handle, ReadStream);
    var step := BridgeSteps.TakeOpened(s.bridge, handle, ReadStream);
    TakingKeeps(s, e);
    assert step == TakeStep(s.bridge, e);
    RemoveIssues(s.bridge, handle);
    var mid := s.bridge.(arena := Remove(s.bridge.arena, handle));
    InsertIssues(mid, Taken(s.bridge, e).value);
    var h := step.answer.handle;
    var t := step.bridge.arena.table;
    assert t == (s.bridge.arena.table - {handle})[h := Taken(s.bridge, e).value];
    assert Fitting(t[h]);
    assert Unread(t, h);
    hide TableSound;
    hide ArenaSound;
    UnreadOwes(t, s.flights, h, t[h].state.inner);
    hide Owes;
  }

  /** A stream without a task owes what its cursor holds. */
  lemma UnreadOwes(t: Table, flights: Flights, h: Handle, cursor: Inner)
    requires h in t && t[h].Stateful? && t[h].kind == ReadStream && t[h].state.Open? && t[h].state.inner == cursor
    requires Fits(ReadStream, cursor) && Unread(t, h)
    ensures cursor.Cursor? && Owes(t, flights, h, Content(cursor), cursor.maxChunk)
  {
  }

  lemma SoundStreamsDeliver(s: System, handle: Handle, events: seq<Event>)
    requires Sound(s) && BridgeSteps.TakeOpened(s.bridge, handle, ReadStream).answer.Granted?
    requires var step := BridgeSteps.TakeOpened(s.bridge, handle, ReadStream);
             PoliteRun(On(s, step), step.answer.handle, events)
    ensures DeliversObject(s, handle, events)
  {
    hide Sound;
    OpenedStreamOwesAll(s, handle);
    var step := BridgeSteps.TakeOpened(s.bridge, handle, ReadStream);
    var h := step.answer.handle;
    var cursor := step.bridge.arena.table[h].state.inner;
    DeliveryIsGapFree(On(s, step), h, Content(cursor), cursor.maxChunk, events);
  }

  /** What the stream opened by taking `handle` in state `s` has delivered after `events`: a prefix of
      its object in chunks within both limits and, if the stream has ended, the whole object. */
  ghost predicate DeliversObject(s: System, handle: Handle, events: seq<Event>) {
    var step := BridgeSteps.TakeOpened(s.bridge, handle, ReadStream);
    && step.answer.Granted?
    && var h := step.answer.handle;
       && h in step.bridge.arena.table && step.bridge.arena.table[h].Stateful?
       && step.bridge.arena.table[h].state.Open? && step.bridge.arena.table[h].state.inner.Cursor?
       && var cursor := step.bridge.arena.table[h].state.inner;
          var got := Delivered(On(s, step), h, events);
          var last := Run(On(s, step), events).bridge.arena.table;
          && Flatten(got) <= Content(cursor)
          && (forall k | k in got :: |k| <= cursor.maxChunk <= MAX_TRANSFER_CHUNK)
          && (h in last && last[h] == Stateful(ReadStream, Closed(End)) ==> Flatten(got) == Content(cursor))
  }

  /** In every run, from the moment a stream is opened to the end of any continuation that starts its
      reads politely, what was delivered is a prefix of its object, and all of it once it has ended. */
  lemma StreamsDeliverTheirObject(before: seq<Event>, handle: Handle, events: seq<Event>)
    requires BridgeSteps.TakeOpened(Run(INITIAL, before).bridge, handle, ReadStream).answer.Granted?
    requires var s := Run(INITIAL, before);
             var step := BridgeSteps.TakeOpened(s.bridge, handle, ReadStream);
             PoliteRun(On(s, step), step.answer.handle, events)
    ensures DeliversObject(Run(INITIAL, before), handle, events)
  {
    hide DeliversObject;
    hide Sound;
    InitialSound();
    RunKeeps(INITIAL, before);
    SoundStreamsDeliver(Run(INITIAL, before), handle, events);
  }
}
