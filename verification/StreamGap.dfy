/** Why read streams need a polite caller. */
module StreamGap {
  import opened Basics
  import opened BridgeTypes
  import opened HandleArena
  import opened BridgeSteps
  import opened BridgeSystem
  import opened TableInvariant
  import opened BridgeInvariant
  import opened BridgeProgress
  import opened StreamDelivery

  // ------------------------------------------------------------- every such state

  /** The four calls of a caller that starts a second read before it has taken the first, then
      cancels the first and takes the second. */
  function SkippingCalls(h: Handle, first: Handle, second: Handle): seq<Event> {
    [Event.StartAdvance(h, ReadStream, Next), Event.TaskCancel(first), Event.Publish(second, Proceed), Event.TaskTake(second)]
  }

  /** A read of `h` is waiting to be taken and the stream could start another one that finds more. */
  ghost predicate CanSkip(s: System, h: Handle, first: Handle) {
    var t := s.bridge.arena.table;
    && CanReserve(s.bridge, h, ReadStream) && CanInsert(Started(s, h, ReadStream, Next).bridge.arena)
    && first in t && Concerns(t[first], h) && ReadyChunk(t[first]).Some? && ReadyChunk(t[first]).value != []
    && t[h].state.inner.Cursor? && ReadNext(t[h].state.inner, Proceed).1.chunk.value.Some?
  }

  lemma StartsRead(s: System, h: Handle)
    requires CanReserve(s.bridge, h, ReadStream)
    ensures Apply(s, Event.StartAdvance(h, ReadStream, Next)) == Started(s, h, ReadStream, Next)
  {
    assert Apply(s, Event.StartAdvance(h, ReadStream, Next)) == OnStartAdvance(s, h, ReadStream, Next);
    StartReservedCases(s, h, ReadStream, Next);
  }

  lemma SkipCancel(s1: System, s2: System, h: Handle, first: Handle, operation: nat)
    requires h in s1.bridge.arena.table && s1.bridge.arena.table[h] == Stateful(ReadStream, Busy(operation))
    requires first in s1.bridge.arena.table && Concerns(s1.bridge.arena.table[first], h) && s1.bridge.arena.table[first].task.Ready?
    requires TaskLease(s1.bridge.arena.table[first]).value.operation != operation
    requires s2 == Apply(s1, Event.TaskCancel(first))
    ensures s2.bridge.arena == Put(s1.bridge.arena, first, Task(Cancelled)) && s2.flights == s1.flights
  {
    assert Apply(s1, Event.TaskCancel(first)) == On(s1, BridgeSteps.TaskCancel(s1.bridge, first));
  }

  lemma SkipPublish(s2: System, s3: System, h: Handle, second: Handle, lease: Lease, cursor: Inner)
    requires second in s2.flights && s2.flights[second] == Advance(lease, Next, cursor) && cursor.Cursor?
    requires lease.handle == h && lease.kind == ReadStream && h != second
    requires IsPending(s2.bridge.arena, second, Some(lease)) && IsBusy(s2.bridge.arena, lease)
    requires s3 == Apply(s2, Event.Publish(second, Proceed))
    ensures var (u, c) := ReadNext(cursor, Proceed);
            s3.bridge.arena == Put(Put(s2.bridge.arena, h, Stateful(ReadStream, SettledState(u.next, lease.operation))),
                                   second, Task(Ready(c, Some(lease))))
  {
    assert Apply(s2, Event.Publish(second, Proceed)) == OnPublish(s2, second, Proceed);
  }

  lemma SkipTake(s3: System, h: Handle, second: Handle, c: Bytes)
    requires WellFormed(s3.bridge.arena) && CanInsert(s3.bridge.arena) && second in s3.bridge.arena.table
    requires Concerns(s3.bridge.arena.table[second], h) && ReadyChunk(s3.bridge.arena.table[second]) == Some(c)
    requires h in s3.bridge.arena.table && h != second
    ensures Received(s3, Event.TaskTake(second), h) == [c]
    ensures var t := Apply(s3, Event.TaskTake(second)).bridge.arena.table;
            h in t && t[h] == s3.bridge.arena.table[h]
  {
    var a := s3.bridge.arena;
    TaskTakeCases(s3.bridge, second);
    PutKeeps(a, second, Task(Consumed));
    PutKeepsCapacity(a, second, Task(Consumed));
    InsertIsFresh(Put(a, second, Task(Consumed)), Completed(a.table[second].task.completion));
    assert Apply(s3, Event.TaskTake(second)) == On(s3, BridgeSteps.TaskTake(s3.bridge, second));
  }

  /** The three calls after the impolite start, on the state it leaves. */
  lemma SkipAfterStart(s1: System, s2: System, s3: System, h: Handle, first: Handle, second: Handle, lease: Lease, cursor: Inner, c: Bytes)
    requires lease.handle == h && lease.kind == ReadStream && h != first && h != second && first != second
    requires WellFormed(s1.bridge.arena) && CanInsert(s1.bridge.arena) && IsPending(s1.bridge.arena, second, Some(lease)) && IsBusy(s1.bridge.arena, lease)
    requires first in s1.bridge.arena.table && Concerns(s1.bridge.arena.table[first], h) && s1.bridge.arena.table[first].task.Ready?
    requires TaskLease(s1.bridge.arena.table[first]).value.operation != lease.operation
    requires second in s1.flights && s1.flights[second] == Advance(lease, Next, cursor) && cursor.Cursor?
    requires ReadNext(cursor, Proceed).1 == WithChunk(Ok(Some(c)))
    requires s2 == Apply(s1, Event.TaskCancel(first)) && s3 == Apply(s2, Event.Publish(second, Proceed))
    ensures Received(s3, Event.TaskTake(second), h) == [c]
    ensures var t := Apply(s3, Event.TaskTake(second)).bridge.arena.table;
            var (u, _) := ReadNext(cursor, Proceed);
            h in t && t[h] == Stateful(ReadStream, SettledState(u.next, lease.operation))
  {
    hide Apply;
    hide WellFormed;
    hide ReadNext;
    SkipCancel(s1, s2, h, first, lease.operation);
    PutKeepsCapacity(s1.bridge.arena, first, Task(Cancelled));
    SkipPublish(s2, s3, h, second, lease, cursor);
    var (u, k) := ReadNext(cursor, Proceed);
    var a := Put(s2.bridge.arena, h, Stateful(ReadStream, SettledState(u.next, lease.operation)));
    PutKeepsCapacity(s2.bridge.arena, h, Stateful(ReadStream, SettledState(u.next, lease.operation)));
    PutKeepsCapacity(a, second, Task(Ready(k, Some(lease))));
    PutKeeps(s1.bridge.arena, first, Task(Cancelled));
    PutKeeps(s2.bridge.arena, h, Stateful(ReadStream, SettledState(u.next, lease.operation)));
    PutKeeps(a, second, Task(Ready(k, Some(lease))));
    SkipTake(s3, h, second, c);
  }

  lemma DeliveredFour(s: System, h: Handle, events: seq<Event>, s1: System, s2: System, s3: System, last: seq<Bytes>)
    requires |events| == 4
    requires s1 == Apply(s, events[0]) && s2 == Apply(s1, events[1]) && s3 == Apply(s2, events[2])
    requires Received(s, events[0], h) == [] && Received(s1, events[1], h) == [] && Received(s2, events[2], h) == []
    requires Received(s3, events[3], h) == last
    ensures Delivered(s, h, events) == last && Run(s, events) == Apply(s3, events[3])
  {
    hide Apply;
    var s4 := Apply(s3, events[3]);
    var e1, e2, e3 := events[1..], events[2..], events[3..];
    assert events[1..][1..] == e2 && e2[1..] == e3 && e3[1..] == [];
    assert Delivered(s4, h, []) == [] && Run(s4, []) == s4;
    assert Delivered(s3, h, e3) == last && Run(s3, e3) == s4;
    assert Delivered(s2, h, e2) == last && Run(s2, e2) == s4;
    assert Delivered(s1, h, e1) == last && Run(s1, e1) == s4;
  }

  /** What the stream owes at the moment of an impolite start: the waiting chunk, then the cursor. */
  lemma WaitingChunk(s: System, h: Handle, first: Handle, rest: Bytes, max: nat)
    requires Follows(s, h, rest, max) && CanSkip(s, h, first)
    ensures var t := s.bridge.arena.table;
            && rest == ReadyChunk(t[first]).value + Content(t[h].state.inner)
            && TaskLease(t[first]).value.operation <= s.bridge.nextOperation
  {
    assert Serves(s.bridge.arena.table, s.flights, first, h, rest, max);
  }

  /** What the caller receives from the four calls, in every state that allows them, and where they
      leave the stream. */
  lemma SkippingCallsDeliver(s: System, h: Handle, first: Handle, c: Bytes)
    requires ArenaSound(s.bridge) && CanSkip(s, h, first)
    requires TaskLease(s.bridge.arena.table[first]).value.operation <= s.bridge.nextOperation
    requires ReadNext(s.bridge.arena.table[h].state.inner, Proceed).1 == WithChunk(Ok(Some(c)))
    ensures var calls := SkippingCalls(h, first, NextHandle(s.bridge.arena));
            var (u, _) := ReadNext(s.bridge.arena.table[h].state.inner, Proceed);
            var t := Run(s, calls).bridge.arena.table;
            && Delivered(s, h, calls) == [c]
            && h in t && t[h] == Stateful(ReadStream, SettledState(u.next, s.bridge.nextOperation + 1))
  {
    hide WellFormed;
    hide Apply;
    hide Delivered;
    hide Run;
    hide ReadNext;
    var second := NextHandle(s.bridge.arena);
    var calls := SkippingCalls(h, first, second);
    var cursor := s.bridge.arena.table[h].state.inner;
    StartsRead(s, h);
    ReservedArena(s.bridge, h, ReadStream);
    LiveIsIssued(s.bridge);
    var s1 := Started(s, h, ReadStream, Next);
    var s2 := Apply(s1, calls[1]);
    var s3 := Apply(s2, calls[2]);
    SkipAfterStart(s1, s2, s3, h, first, second, Lease(h, ReadStream, s.bridge.nextOperation + 1), cursor, c);
    DeliveredFour(s, h, calls, s1, s2, s3, [c]);
  }

  lemma SliceAt(rest: Bytes, k: Bytes, c: Bytes, more: Bytes)
    requires rest == k + (c + more)
    ensures |k| + |c| <= |rest| && c == rest[|k|..|k| + |c|] && more == rest[|k| + |c|..]
  {
  }

  /** The stream after the calls: open again, with `left` still to come. */
  predicate StillHolds(s: System, h: Handle, left: Bytes) {
    && h in s.bridge.arena.table && s.bridge.arena.table[h].Stateful? && s.bridge.arena.table[h].state.Open?
    && s.bridge.arena.table[h].state.inner.Cursor? && Content(s.bridge.arena.table[h].state.inner) == left
  }

  /** Nothing of `k` was delivered, the bytes `c` after it were, and the stream holds what follows. */
  ghost predicate Skips(s: System, h: Handle, calls: seq<Event>, k: Bytes, c: Bytes, rest: Bytes) {
    && Delivered(s, h, calls) == [c]
    && |k| + |c| <= |rest| && c == rest[|k|..|k| + |c|]
    && StillHolds(Run(s, calls), h, rest[|k| + |c|..])
  }

  lemma SkipsWith(s: System, h: Handle, first: Handle, rest: Bytes, max: nat, c: Bytes)
    requires Follows(s, h, rest, max) && CanSkip(s, h, first)
    requires ReadNext(s.bridge.arena.table[h].state.inner, Proceed).1 == WithChunk(Ok(Some(c)))
    ensures Skips(s, h, SkippingCalls(h, first, NextHandle(s.bridge.arena)),
                  ReadyChunk(s.bridge.arena.table[first]).value, c, rest)
  {
    hide TableSound;
    hide WellFormed;
    hide Delivered;
    hide Run;
    hide Owes;
    hide Content;
    var t := s.bridge.arena.table;
    var cursor := t[h].state.inner;
    WaitingChunk(s, h, first, rest, max);
    ReadNextTakesNext(cursor, Proceed);
    SkippingCallsDeliver(s, h, first, c);
    SliceAt(rest, ReadyChunk(t[first]).value, c, Content(ReadNext(cursor, Proceed).0.next.inner));
  }

  /** From every state in which a nonempty read of `h` is still waiting to be taken, a granted start
      lets the caller lose it and go on: of the bytes `rest` that the stream owes, the first `|k|` are
      gone for good. */
  lemma ImpoliteStartSkips(s: System, h: Handle, first: Handle, rest: Bytes, max: nat)
    requires Follows(s, h, rest, max) && CanSkip(s, h, first)
    ensures var k := ReadyChunk(s.bridge.arena.table[first]).value;
            var calls := SkippingCalls(h, first, NextHandle(s.bridge.arena));
            k != [] && !Polite(s, calls[0], h) && exists c: Bytes :: Skips(s, h, calls, k, c, rest)
  {
    hide Follows;
    hide Skips;
    var c := ReadNext(s.bridge.arena.table[h].state.inner, Proceed).1.chunk.value.value;
    SkipsWith(s, h, first, rest, max, c);
  }

  // ------------------------------------------------------------------ one such run

  const TASK: Handle := Handle(0, 1)
  const OPENED: Handle := Handle(1, 1)
  const STREAM: Handle := Handle(1, 2)
  const READ: Handle := Handle(2, 1)
  const LEASE: Lease := Lease(STREAM, ReadStream, 1)

  /** A stream over the two bytes 1 and 2, read one byte at a time. */
  const WHOLE: Inner := Cursor(0, None, [[1], [2]], 1)
  const HALF: Inner := Cursor(0, None, [[2]], 1)

  const SPENT: Resource := Task(Consumed)

  const ASKED: System :=
    System(Bridge(Arena([1], map[TASK := Task(Pending(None))]), None, 0, false), map[TASK := OpenInner(ReadStream, 1)], 0)
  const ANSWERED: System :=
    System(Bridge(Arena([1], map[TASK := Task(Ready(WithInner(ReadStream, Ok(WHOLE)), None))]), None, 0, false), map[], 1)
  const RECEIVED: System :=
    System(Bridge(Arena([1, 1], map[TASK := SPENT, OPENED := Completed(WithInner(ReadStream, Ok(WHOLE)))]), None, 0, false),
           map[], 1)
  const OPEN: System :=
    System(Bridge(Arena([1, 2], map[TASK := SPENT, STREAM := Stateful(ReadStream, Open(WHOLE, 0))]), None, 0, false), map[], 1)
  const READING: System :=
    System(Bridge(Arena([1, 2, 1], map[TASK := SPENT, STREAM := Stateful(ReadStream, Busy(1)), READ := Task(Pending(Some(LEASE)))]),
                  None, 1, false),
           map[READ := Advance(LEASE, Next, WHOLE)], 1)
  const WAITING: System :=
    System(Bridge(Arena([1, 2, 1], map[TASK := SPENT, STREAM := Stateful(ReadStream, Open(HALF, 1)),
                                       READ := Task(Ready(WithChunk(Ok(Some([1]))), Some(LEASE)))]),
                  None, 1, false),
           map[], 1)

  /** Opening the stream. */
  function OpeningCalls(): seq<Event> {
    [Event.StartOpen(ReadStream, 1), Event.Publish(TASK, Opened(WHOLE)), Event.TaskTake(TASK), Event.TakeOpened(OPENED, ReadStream)]
  }

  /** One read, left waiting, and then the impolite calls. */
  function GappedCalls(): seq<Event> {
    [Event.StartAdvance(STREAM, ReadStream, Next), Event.Publish(READ, Proceed)] + SkippingCalls(STREAM, READ, Handle(3, 1))
  }

  lemma OpeningAsks()
    ensures Apply(INITIAL, Event.StartOpen(ReadStream, 1)) == ASKED
  {
    assert Apply(INITIAL, Event.StartOpen(ReadStream, 1)) == OnStartOpen(INITIAL, ReadStream, 1);
  }

  lemma OpeningAnswers()
    ensures Apply(ASKED, Event.Publish(TASK, Opened(WHOLE))) == ANSWERED
  {
    assert Apply(ASKED, Event.Publish(TASK, Opened(WHOLE))) == OnPublish(ASKED, TASK, Opened(WHOLE));
    assert ASKED.flights - {TASK} == map[];
    assert ASKED.bridge.arena.table[TASK := Task(Ready(WithInner(ReadStream, Ok(WHOLE)), None))] == ANSWERED.bridge.arena.table;
  }

  /** Where the next insert goes. */
  lemma FreeAt(a: Arena, i: nat)
    requires i <= |a.generations| && (i < |a.generations| ==> Free(a, i)) && forall k | 0 <= k < i :: !Free(a, k)
    ensures FirstFree(a, 0) == i
  {
  }

  lemma OpeningReceives()
    ensures Apply(ANSWERED, Event.TaskTake(TASK)) == RECEIVED
  {
    var a := ANSWERED.bridge.arena;
    assert Apply(ANSWERED, Event.TaskTake(TASK)) == On(ANSWERED, BridgeSteps.TaskTake(ANSWERED.bridge, TASK));
    assert Live(a, 0);
    FreeAt(a, 1);
    var put := Put(a, TASK, SPENT);
    assert Live(put, 0);
    FreeAt(put, 1);
    assert put.table[OPENED := Completed(WithInner(ReadStream, Ok(WHOLE)))] == RECEIVED.bridge.arena.table;
  }

  lemma OpeningOpens()
    ensures BridgeSteps.TakeOpened(RECEIVED.bridge, OPENED, ReadStream) == Step(OPEN.bridge, Granted(STREAM))
    ensures Apply(RECEIVED, Event.TakeOpened(OPENED, ReadStream)) == OPEN
  {
    var b := Removed(RECEIVED.bridge, OPENED);
    assert b.arena.generations == [1, 2];
    assert b.arena.table == map[TASK := SPENT];
    assert Live(b.arena, 0) && Free(b.arena, 1);
    FreeAt(b.arena, 1);
    assert b.arena.table[STREAM := Stateful(ReadStream, Open(WHOLE, 0))] == OPEN.bridge.arena.table;
  }

  lemma OpenHasRoom()
    ensures FirstFree(OPEN.bridge.arena, 0) == 2
    ensures FirstFree(Put(OPEN.bridge.arena, STREAM, Stateful(ReadStream, Busy(1))), 0) == 2
  {
    var a := OPEN.bridge.arena;
    var put := Put(a, STREAM, Stateful(ReadStream, Busy(1)));
    assert Live(a, 0) && Live(a, 1) && Live(put, 0) && Live(put, 1);
    FreeAt(a, 2);
    FreeAt(put, 2);
  }

  lemma ReadStarts()
    ensures Apply(OPEN, Event.StartAdvance(STREAM, ReadStream, Next)) == READING
  {
    hide FirstFree;
    OpenHasRoom();
    StartsRead(OPEN, STREAM);
    hide Apply;
    var a := OPEN.bridge.arena;
    assert a.table[STREAM := Stateful(ReadStream, Busy(1))][READ := Task(Pending(Some(LEASE)))] == READING.bridge.arena.table;
    assert a.generations + [1] == READING.bridge.arena.generations;
  }

  lemma FirstByte()
    ensures ReadNext(WHOLE, Proceed) == (Update(ReadStream, Reopen(HALF)), WithChunk(Ok(Some([1]))))
    ensures ReadNext(HALF, Proceed).1 == WithChunk(Ok(Some([2])))
  {
    assert CopyChunk([1], 1) == ([1], None) by { assert [1][..1] == [1]; }
    assert CopyChunk([2], 1) == ([2], None) by { assert [2][..1] == [2]; }
    assert WHOLE.rest[1..] == [[2]];
  }

  lemma ReadLands()
    ensures Apply(READING, Event.Publish(READ, Proceed)) == WAITING
  {
    FirstByte();
    hide ReadNext;
    assert Apply(READING, Event.Publish(READ, Proceed)) == OnPublish(READING, READ, Proceed);
    hide Apply;
    assert READING.flights - {READ} == map[];
    assert READING.bridge.arena.table[STREAM := Stateful(ReadStream, Open(HALF, 1))]
                                     [READ := Task(Ready(WithChunk(Ok(Some([1]))), Some(LEASE)))]
        == WAITING.bridge.arena.table;
  }

  lemma WaitingHasRoom()
    ensures FirstFree(WAITING.bridge.arena, 0) == 3 && WellFormed(WAITING.bridge.arena)
  {
    var a := WAITING.bridge.arena;
    assert Live(a, 0) && Live(a, 1) && Live(a, 2);
    FreeAt(a, 3);
  }

  lemma WaitingSkips()
    ensures Delivered(WAITING, STREAM, SkippingCalls(STREAM, READ, Handle(3, 1))) == [[2]]
  {
    FirstByte();
    WaitingHasRoom();
    hide ReadNext;
    hide FirstFree;
    hide WellFormed;
    hide Delivered;
    assert |Started(WAITING, STREAM, ReadStream, Next).bridge.arena.generations| < MAX_SLOTS;
    SkippingCallsDeliver(WAITING, STREAM, READ, [2]);
  }

  lemma OpeningRun()
    ensures Run(INITIAL, OpeningCalls()[..3]) == RECEIVED
  {
    hide Apply;
    OpeningAsks();
    OpeningAnswers();
    OpeningReceives();
    var e := OpeningCalls()[..3];
    assert e[0] == OpeningCalls()[0] && e[1..][0] == OpeningCalls()[1] && e[1..][1..][0] == OpeningCalls()[2];
    assert e[1..][1..][1..] == [];
    assert Run(RECEIVED, []) == RECEIVED;
    assert Run(ANSWERED, e[1..][1..]) == RECEIVED;
    assert Run(ASKED, e[1..]) == RECEIVED;
  }

  lemma GappedRun()
    ensures Delivered(OPEN, STREAM, GappedCalls()) == [[2]]
  {
    hide Apply;
    ReadStarts();
    ReadLands();
    WaitingSkips();
    var e := GappedCalls();
    assert e[1..][0] == e[1] && e[1..][1..] == SkippingCalls(STREAM, READ, Handle(3, 1));
    assert Delivered(READING, STREAM, e[1..]) == [[2]];
  }

  /** A run from the start of the bridge in which a stream over the bytes 1, 2 delivers just 2: with an
      impolite start the delivered bytes need not be a prefix of the object. */
  lemma ImpoliteRunHasGap()
    ensures var s := Run(INITIAL, OpeningCalls()[..3]);
            var step := BridgeSteps.TakeOpened(s.bridge, OPENED, ReadStream);
            && step.answer == Granted(STREAM) && step.bridge.arena.table[STREAM] == Stateful(ReadStream, Open(WHOLE, 0))
            && Flatten(Delivered(On(s, step), STREAM, GappedCalls())) == [2]
            && Content(WHOLE) == [1, 2]
            && !(Flatten(Delivered(On(s, step), STREAM, GappedCalls())) <= Content(WHOLE))
  {
    hide Apply;
    hide Run;
    hide Delivered;
    OpeningRun();
    OpeningOpens();
    GappedRun();
    assert On(RECEIVED, Step(OPEN.bridge, Granted(STREAM))) == OPEN;
    assert Flatten([[2]]) == [2] by { assert [[2]][1..] == []; }
    assert Flatten([[1], [2]]) == [1, 2] by { assert [[1], [2]][1..] == [[2]]; }
  }
}
