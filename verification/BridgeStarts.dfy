/** When an operation starts, when a future completes, and what the bridge and its futures are then. */
module BridgeStarts {
  import opened Basics
  import opened BridgeTypes
  import opened HandleArena
  import opened BridgeSteps
  import opened BridgeSystem
  import opened TableInvariant
  import opened BridgeInvariant
  import opened LeaseInvariant

  /** A start is refused, perhaps after spending a token; or it launches a future under a task of its
      own; or it takes the inner object out of an open resource and launches a future with it. */
  datatype Launch =
    | Unstarted(error: BridgeError, spends: bool)
    | Alone(flight: Flight)
    | Leased(handle: Handle, kind: StatefulKind, verb: Verb, inner: Inner)

  ghost predicate Launched(s: System, later: System, v: Launch) {
    var b, t := s.bridge, s.bridge.arena.table;
    match v
    case Unstarted(e, spends) =>
      later == s.(bridge := b.(lastError := Some(e), nextOperation := b.nextOperation + if spends then 1 else 0))
    case Alone(flight) =>
      exists n ::
        && n !in t && later.bridge == b.(arena := later.bridge.arena) && later.nextIdentity == s.nextIdentity
        && later.bridge.arena.table == t[n := Task(Pending(None))]
        && later.flights == s.flights[n := flight]
    case Leased(h, kind, verb, inner) =>
      var lease := Lease(h, kind, b.nextOperation + 1);
      exists n ::
        && n !in t && later.nextIdentity == s.nextIdentity
        && later.bridge == b.(arena := later.bridge.arena, nextOperation := b.nextOperation + 1)
        && later.bridge.arena.table == t[h := Stateful(kind, Busy(lease.operation))][n := Task(Pending(Some(lease)))]
        && later.flights == s.flights[n := Advance(lease, verb, inner)]
  }

  // ---------------------------------------------------------------- the decisions

  function NewTask(b: Bridge, flight: Flight): Launch {
    if b.tornDown then Unstarted(TornDown, false)
    else if !CanInsert(b.arena) then Unstarted(HandleLimit, false)
    else Alone(flight)
  }

  /** From the fourth test on the token is spent. */
  function Reservation(b: Bridge, h: Handle, kind: StatefulKind, verb: Verb): Launch {
    if b.tornDown then Unstarted(TornDown, false)
    else if !CanInsert(b.arena) then Unstarted(HandleLimit, false)
    else if b.nextOperation >= 0xFFFF_FFFF_FFFF_FFFF then Unstarted(LengthOverflow, false)
    else if h !in b.arena.table then Unstarted(InvalidHandle(h), true)
    else
      match b.arena.table[h]
      case Stateful(k, state) =>
        if k != kind then Unstarted(WrongResourceType(h), true)
        else (match state
              case Open(inner, _) => Leased(h, kind, verb, inner)
              case Busy(_) => Unstarted(ResourceBusy(h), true)
              case Closed(_) => Unstarted(ResourceClosed(h), true))
      case _ => Unstarted(WrongResourceType(h), true)
  }

  /** A finished writer finishes again, and an aborted one aborts again, with the same answer. */
  function Ending(b: Bridge, h: Handle, verb: Verb): Launch {
    if h !in b.arena.table then Unstarted(InvalidHandle(h), false)
    else
      match b.arena.table[h]
      case Stateful(Writer, Open(_, _)) => Reservation(b, h, Writer, verb)
      case Stateful(Writer, Busy(_)) => Unstarted(ResourceBusy(h), false)
      case Stateful(Writer, Closed(reason)) =>
        (match (verb, reason)
         case (Finish, Finished(m)) => NewTask(b, Repeat(WithMetadata(WriterFinished, Ok(m))))
         case (Abort, Aborted) => NewTask(b, Repeat(WithUnit(WriterAborted, Ok(()))))
         case _ => Unstarted(ResourceClosed(h), false))
      case _ => Unstarted(WrongResourceType(h), false)
  }

  function Writing(b: Bridge, h: Handle, data: Handle): Launch {
    if data !in b.arena.table then Unstarted(InvalidHandle(data), false)
    else
      match b.arena.table[data]
      case Buffer(bytes) =>
        if |bytes| > 262144 then Unstarted(BufferTooLarge, false) else Reservation(b, h, Writer, Write(data))
      case _ => Unstarted(WrongResourceType(data), false)
  }

  /** The starts the bridge has an export for. */
  predicate IsStart(e: Event) {
    || (e.StartOperation? && OperatorLevel(e.kind)) || e.StartOpen?
    || (e.StartAdvance? && (e.target == Writer <==> !e.verb.Next?))
  }

  function DueStart(b: Bridge, e: Event): Launch
    requires IsStart(e)
  {
    match e
    case StartOperation(kind) => NewTask(b, Operate(kind))
    case StartOpen(target, chunkSize) =>
      if target == ReadStream && (chunkSize < 1 || chunkSize > 262144) then Unstarted(InvalidArgument, false)
      else NewTask(b, OpenInner(target, chunkSize))
    case StartAdvance(h, kind, verb) =>
      match verb
      case Next => Reservation(b, h, kind, verb)
      case Write(data) => Writing(b, h, data)
      case _ => Ending(b, h, verb)
  }

  // -------------------------------------------------------------------- the proofs

  lemma NewTaskLaunched(s: System, flight: Flight)
    requires ArenaSound(s.bridge)
    ensures Launched(s, StartTask(s, flight), NewTask(s.bridge, flight))
  {
    var b := s.bridge;
    if !b.tornDown && CanInsert(b.arena) {
      InsertIssues(b, Task(Pending(None)));
      LiveIsIssued(b);
      assert NextHandle(b.arena) !in b.arena.table;
    }
  }

  lemma ReservationLaunched(s: System, h: Handle, kind: StatefulKind, verb: Verb)
    requires ArenaSound(s.bridge)
    ensures Launched(s, StartReserved(s, h, kind, verb), Reservation(s.bridge, h, kind, verb))
  {
    var b := s.bridge;
    StartReservedCases(s, h, kind, verb);
    if CanReserve(b, h, kind) {
      ReservedArena(b, h, kind);
      LiveIsIssued(b);
      assert NextHandle(b.arena) !in b.arena.table;
    } else {
      RefusedReservation(b, h, kind, verb);
    }
  }

  lemma RefusedReservation(b: Bridge, h: Handle, kind: StatefulKind, verb: Verb)
    requires !CanReserve(b, h, kind)
    ensures var v := Reservation(b, h, kind, verb);
            && v.Unstarted?
            && Reserve(b, h, kind).bridge
               == b.(lastError := Some(v.error), nextOperation := b.nextOperation + if v.spends then 1 else 0)
  {
  }

  lemma UnstartedLaunched(s: System, e: BridgeError)
    ensures Launched(s, On(s, Refuse(s.bridge, e)), Unstarted(e, false))
  {
  }

  lemma StartDecided(s: System, e: Event)
    requires ArenaSound(s.bridge) && IsStart(e)
    ensures Launched(s, Apply(s, e), DueStart(s.bridge, e))
  {
    hide Launched;
    hide ArenaSound;
    hide Reservation;
    hide StartReserved;
    var b := s.bridge;
    match e
    case StartOperation(kind) => NewTaskLaunched(s, Operate(kind));
    case StartOpen(target, chunkSize) =>
      NewTaskLaunched(s, OpenInner(target, chunkSize));
      UnstartedLaunched(s, InvalidArgument);
    case StartAdvance(h, kind, verb) =>
      assert Apply(s, e) == OnStartAdvance(s, h, kind, verb);
      ReservationLaunched(s, h, kind, verb);
      match verb
      case Next =>
      case Write(data) =>
        UnstartedLaunched(s, InvalidHandle(data));
        UnstartedLaunched(s, WrongResourceType(data));
        UnstartedLaunched(s, BufferTooLarge);
      case _ => EndingDecided(s, h, verb);
  }

  lemma EndingDecided(s: System, h: Handle, verb: Verb)
    requires ArenaSound(s.bridge) && (verb.Finish? || verb.Abort?)
    ensures Launched(s, OnStartAdvance(s, h, Writer, verb), Ending(s.bridge, h, verb))
  {
    hide Launched;
    hide ArenaSound;
    hide Reservation;
    hide StartReserved;
    ReservationLaunched(s, h, Writer, verb);
    UnstartedLaunched(s, InvalidHandle(h));
    UnstartedLaunched(s, WrongResourceType(h));
    UnstartedLaunched(s, ResourceBusy(h));
    UnstartedLaunched(s, ResourceClosed(h));
    if h in s.bridge.arena.table && s.bridge.arena.table[h].Stateful? && s.bridge.arena.table[h].state.Closed? {
      match s.bridge.arena.table[h].state.reason
      case Finished(m) => NewTaskLaunched(s, Repeat(WithMetadata(WriterFinished, Ok(m))));
      case Aborted => NewTaskLaunched(s, Repeat(WithUnit(WriterAborted, Ok(()))));
      case _ =>
    }
  }

  /** In every reachable state each start is granted or refused exactly as the decisions say, and leaves
      the task and the future they name. */
  lemma StartsFollowTheDecisions(events: seq<Event>, e: Event)
    requires IsStart(e)
    ensures var s := Run(INITIAL, events);
            Launched(s, Apply(s, e), DueStart(s.bridge, e))
  {
    hide Launched;
    hide Apply;
    InitialSound();
    RunKeeps(INITIAL, events);
    hide Run;
    StartDecided(Run(INITIAL, events), e);
  }

  // -------------------------------------------------------------------- completions

  /** What a future without a lease publishes. */
  function SaidAlone(s: System, flight: Flight, choice: Choice): Option<Completion> {
    match flight
    case Operate(kind) => if choice.Deliver? && choice.completion.Kind() == kind then Some(choice.completion) else None
    case Repeat(c) => Some(c)
    case OpenInner(target, _) =>
      (match choice
       case Opened(inner) => if Opens(s, flight, inner) then Some(WithInner(target, Ok(inner))) else None
       case Fail(e) => Some(WithInner(target, Err(e)))
       case _ => None)
    case Advance(_, _, _) => None
  }

  /** A future without a lease that completes makes its task ready with exactly what it publishes, if the
      task is still pending, and changes nothing otherwise; either way it is gone. */
  lemma AloneOutcomesLand(events: seq<Event>, task: Handle, choice: Choice)
    requires task in Run(INITIAL, events).flights && !Run(INITIAL, events).flights[task].Advance?
    requires SaidAlone(Run(INITIAL, events), Run(INITIAL, events).flights[task], choice).Some?
    ensures var s := Run(INITIAL, events);
            var later := Apply(s, Event.Publish(task, choice));
            var t := s.bridge.arena.table;
            && later.flights == s.flights - {task}
            && later.bridge == s.bridge.(arena := later.bridge.arena)
            && later.bridge.arena.table
               == if task in t && PendingTask(t[task])
                  then t[task := Task(Ready(SaidAlone(s, s.flights[task], choice).value, None))] else t
  {
    hide Linear;
    hide LeasesAgree;
    hide ArenaSound;
    hide NamesIssued;
    hide Apply;
    InitialSound();
    RunKeeps(INITIAL, events);
    hide Run;
    var s := Run(INITIAL, events);
    AloneLands(s, task, choice);
  }

  lemma AloneLands(s: System, task: Handle, choice: Choice)
    requires task in s.flights && SaidAlone(s, s.flights[task], choice).Some?
    requires task in s.bridge.arena.table && PendingTask(s.bridge.arena.table[task]) ==> s.bridge.arena.table[task].task.lease.None?
    ensures var later := Apply(s, Event.Publish(task, choice));
            var t := s.bridge.arena.table;
            && later.flights == s.flights - {task}
            && later.bridge == s.bridge.(arena := later.bridge.arena)
            && later.bridge.arena.table
               == if task in t && PendingTask(t[task])
                  then t[task := Task(Ready(SaidAlone(s, s.flights[task], choice).value, None))] else t
  {
    assert Apply(s, Event.Publish(task, choice)) == OnPublish(s, task, choice);
  }
}
