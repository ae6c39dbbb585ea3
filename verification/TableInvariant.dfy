/** The invariant of the resources and futures, and the few moves every event is made of. The
    arena appears only as the set of handles it has ever issued. */
module TableInvariant {
  import opened Basics
  import opened BridgeTypes
  import opened BridgeSteps
  import opened BridgeSystem
  import opened LeaseInvariant

  type Flights = map<Handle, Flight>

  /** The inner object a resource owns, wherever it keeps it. */
  function Owned(r: Resource): Option<nat> {
    match r
    case Stateful(_, Open(inner, _)) => Some(inner.identity)
    case Completed(WithInner(_, Ok(inner))) => Some(inner.identity)
    case Task(Ready(WithInner(_, Ok(inner)), _)) => Some(inner.identity)
    case _ => None
  }

  function Carried(f: Flight): Option<nat> {
    if f.Advance? then Some(f.inner.identity) else None
  }

  /** Each inner object is in one place: an open resource, an open completion, a ready task
      or a future. */
  ghost predicate Linear(t: Table, flights: Flights, identities: nat) {
    && (forall h | h in t && Owned(t[h]).Some? :: Owned(t[h]).value < identities)
    && (forall f | f in flights && Carried(flights[f]).Some? :: Carried(flights[f]).value < identities)
    && (forall h, k | h in t && k in t && h != k && Owned(t[h]).Some? && Owned(t[k]).Some? ::
          Owned(t[h]) != Owned(t[k]))
    && (forall f, g | f in flights && g in flights && f != g
                      && Carried(flights[f]).Some? && Carried(flights[g]).Some? ::
          Carried(flights[f]) != Carried(flights[g]))
    && (forall h, f | h in t && f in flights && Owned(t[h]).Some? && Carried(flights[f]).Some? ::
          Owned(t[h]) != Carried(flights[f]))
  }

  function FlightLease(f: Flight): Option<Lease> {
    if f.Advance? then Some(f.lease) else None
  }

  predicate PendingTask(r: Resource) {
    r.Task? && r.task.Pending?
  }

  /** Every pending task has a future that will publish it. */
  ghost predicate Awaited(t: Table, flights: Flights) {
    forall h | h in t && PendingTask(t[h]) :: h in flights && FlightLease(flights[h]) == t[h].task.lease
  }

  /** An inner object of the right kind; a cursor also has a chunk size within the transfer limit. */
  predicate Fits(kind: StatefulKind, inner: Inner) {
    && inner.Kind() == kind
    && (inner.Cursor? ==> 1 <= inner.maxChunk <= MAX_TRANSFER_CHUNK)
  }

  predicate Fitting(r: Resource) {
    match r
    case Stateful(kind, Open(inner, _)) => Fits(kind, inner)
    case Completed(WithInner(kind, Ok(inner))) => Fits(kind, inner)
    case Task(Ready(WithInner(kind, Ok(inner)), _)) => Fits(kind, inner)
    case _ => true
  }

  /** What a future may carry and publish; only an opening future publishes an inner object. */
  predicate Publishable(f: Flight) {
    match f
    case Operate(kind) => OperatorLevel(kind)
    case OpenInner(target, maxChunk) => target == ReadStream ==> 1 <= maxChunk <= MAX_TRANSFER_CHUNK
    case Repeat(c) => !c.WithInner?
    case Advance(lease, _, inner) => Fits(lease.kind, inner)
  }

  ghost predicate FlightsTyped(flights: Flights) {
    forall f | f in flights :: Publishable(flights[f])
  }

  ghost predicate ResourcesTyped(t: Table) {
    forall h | h in t :: Fitting(t[h])
  }

  /** Every handle the state mentions has been issued. */
  ghost predicate NamesIssued(t: Table, issued: iset<Handle>, flights: Flights) {
    && (forall h | h in t :: h in issued)
    && (forall f | f in flights :: f in issued)
    && (forall h | h in t && TaskLease(t[h]).Some? :: TaskLease(t[h]).value.handle in issued)
  }

  /** The part of the invariant that is not about leases. */
  ghost predicate Owners(t: Table, issued: iset<Handle>, flights: Flights, identities: nat) {
    && Linear(t, flights, identities)
    && Awaited(t, flights)
    && FlightsTyped(flights)
    && ResourcesTyped(t)
    && NamesIssued(t, issued, flights)
  }

  ghost predicate TableSound(t: Table, issued: iset<Handle>, spent: nat, flights: Flights, identities: nat) {
    && LeasesAgree(t, spent)
    && Owners(t, issued, flights, identities)
  }

  // --------------------------------------------------------------------- moves

  /** Nothing gains an inner object. */
  lemma LinearFrame(t: Table, u: Table, flights: Flights, later: Flights, identities: nat)
    requires Linear(t, flights, identities)
    requires forall h | h in u && Owned(u[h]).Some? :: h in t && Owned(u[h]) == Owned(t[h])
    requires forall f | f in later && Carried(later[f]).Some? :: f in flights && Carried(later[f]) == Carried(flights[f])
    ensures Linear(u, later, identities)
  {
  }

  lemma MoreIssued(t: Table, issued: iset<Handle>, more: iset<Handle>, spent: nat, later: nat, flights: Flights, identities: nat)
    requires TableSound(t, issued, spent, flights, identities) && issued <= more && spent <= later
    ensures TableSound(t, more, later, flights, identities)
  {
  }

  predicate Inert(r: Resource) {
    Quiet(r) && !PendingTask(r) && Fitting(r)
  }

  ghost predicate Unclaimed(t: Table, flights: Flights, identities: nat, r: Resource) {
    Owned(r).Some? ==>
      && Owned(r).value < identities
      && (forall h | h in t :: Owned(t[h]) != Owned(r))
      && (forall f | f in flights :: Carried(flights[f]) != Owned(r))
  }

  lemma AddInert(t: Table, issued: iset<Handle>, more: iset<Handle>, spent: nat, flights: Flights, identities: nat, h: Handle, r: Resource)
    requires TableSound(t, issued, spent, flights, identities) && h !in issued
    requires issued <= more && h in more
    requires Inert(r) && Unclaimed(t, flights, identities, r)
    ensures TableSound(t[h := r], more, spent, flights, identities)
  {
    hide LeasesAgree;
    AddQuiet(t, spent, h, r);
  }

  lemma PutInert(t: Table, issued: iset<Handle>, spent: nat, flights: Flights, identities: nat, h: Handle, r: Resource)
    requires TableSound(t, issued, spent, flights, identities) && h in t
    requires PendingLease(t[h]).None? && BusyToken(t[h]).None? && Inert(r)
    requires Owned(r).None? || Owned(r) == Owned(t[h])
    ensures TableSound(t[h := r], issued, spent, flights, identities)
    ensures Owned(r).None? ==> Unclaimed(t[h := r], flights, identities, t[h])
  {
    ReplaceQuiet(t, spent, h, r);
    LinearFrame(t, t[h := r], flights, flights, identities);
  }

  lemma Drop(t: Table, issued: iset<Handle>, spent: nat, flights: Flights, identities: nat, h: Handle)
    requires TableSound(t, issued, spent, flights, identities) && h in t && PendingLease(t[h]).None?
    ensures TableSound(t - {h}, issued, spent, flights, identities)
    ensures Unclaimed(t - {h}, flights, identities, t[h])
  {
    DropUnpending(t, spent, h);
  }

  lemma LaunchPlainOwners(t: Table, issued: iset<Handle>, more: iset<Handle>, flights: Flights, identities: nat, h: Handle, flight: Flight)
    requires Owners(t, issued, flights, identities) && h !in issued
    requires issued <= more && h in more
    requires !flight.Advance? && Publishable(flight)
    ensures Owners(t[h := Task(Pending(None))], more, flights[h := flight], identities)
  {
    LinearFrame(t, t[h := Task(Pending(None))], flights, flights[h := flight], identities);
  }

  lemma LaunchPlain(t: Table, issued: iset<Handle>, more: iset<Handle>, spent: nat, flights: Flights, identities: nat, h: Handle, flight: Flight)
    requires TableSound(t, issued, spent, flights, identities) && h !in issued
    requires issued <= more && h in more
    requires !flight.Advance? && Publishable(flight)
    ensures TableSound(t[h := Task(Pending(None))], more, spent, flights[h := flight], identities)
  {
    AddQuiet(t, spent, h, Task(Pending(None)));
    LaunchPlainOwners(t, issued, more, flights, identities, h, flight);
  }

  /** The inner object moves from the open resource into the future. */
  lemma LaunchLeasedOwners(t: Table, issued: iset<Handle>, more: iset<Handle>, flights: Flights, identities: nat,
                           h: Handle, lease: Lease, verb: Verb, task: Handle)
    requires Owners(t, issued, flights, identities) && task !in issued
    requires issued <= more && task in more && lease.handle == h
    requires h in t && t[h].Stateful? && t[h].state.Open? && t[h].kind == lease.kind
    ensures Owners(t[h := Stateful(lease.kind, Busy(lease.operation))][task := Task(Pending(Some(lease)))], more,
                   flights[task := Advance(lease, verb, t[h].state.inner)], identities)
  {
    assert Owned(t[h]) == Some(t[h].state.inner.identity);
  }

  lemma LaunchLeased(t: Table, issued: iset<Handle>, more: iset<Handle>, spent: nat, flights: Flights, identities: nat,
                     h: Handle, kind: StatefulKind, verb: Verb, task: Handle)
    requires TableSound(t, issued, spent, flights, identities) && task !in issued
    requires issued <= more && task in more
    requires h in t && t[h].Stateful? && t[h].kind == kind && t[h].state.Open?
    ensures var lease := Lease(h, kind, spent + 1);
            TableSound(t[h := Stateful(kind, Busy(spent + 1))][task := Task(Pending(Some(lease)))], more, spent + 1,
                       flights[task := Advance(lease, verb, t[h].state.inner)], identities)
  {
    ReserveAgrees(t, spent, h, kind, task);
    LaunchLeasedOwners(t, issued, more, flights, identities, h, Lease(h, kind, spent + 1), verb, task);
  }

  lemma DropFlight(t: Table, issued: iset<Handle>, spent: nat, flights: Flights, identities: nat, task: Handle)
    requires TableSound(t, issued, spent, flights, identities)
    requires task in t ==> !PendingTask(t[task])
    ensures TableSound(t, issued, spent, flights - {task}, identities)
  {
  }

  lemma LandPlain(t: Table, issued: iset<Handle>, spent: nat, flights: Flights, identities: nat, later: nat, task: Handle, c: Completion)
    requires TableSound(t, issued, spent, flights, identities) && identities <= later
    requires task in t && t[task] == Task(Pending(None))
    requires Owned(Task(Ready(c, None))).Some? ==> identities <= Owned(Task(Ready(c, None))).value < later
    requires Fitting(Task(Ready(c, None)))
    ensures TableSound(t[task := Task(Ready(c, None))], issued, spent, flights - {task}, later)
  {
    hide LeasesAgree;
    ReplaceQuiet(t, spent, task, Task(Ready(c, None)));
  }

  function Settling(t: Table, task: Handle, lease: Lease, after: Resource, state: StatefulState): Table {
    if lease.handle in t then t[lease.handle := Stateful(lease.kind, state)][task := after] else t[task := after]
  }

  /** A future hands its inner object back to its resource, or drops it. */
  lemma LandLeasedOwners(t: Table, u: Table, issued: iset<Handle>, flights: Flights, identities: nat, task: Handle, handle: Handle)
    requires Owners(t, issued, flights, identities)
    requires task in t && task in flights && flights[task].Advance?
    requires forall h | h in u && h != task && h != handle :: h in t && u[h] == t[h]
    requires task in u ==> u[task].Task? && !PendingTask(u[task]) && Owned(u[task]).None? && TaskLease(u[task]) == TaskLease(t[task])
    requires handle in u && handle != task ==>
               && handle in t && u[handle].Stateful? && Fitting(u[handle])
               && Owned(u[handle]) in {None, Carried(flights[task])}
    ensures Owners(u, issued, flights - {task}, identities)
  {
    hide Linear;
    LandLinear(t, u, flights, identities, task, handle);
  }

  lemma LandLinear(t: Table, u: Table, flights: Flights, identities: nat, task: Handle, handle: Handle)
    requires Linear(t, flights, identities) && task in flights
    requires forall h | h in u && h != handle && Owned(u[h]).Some? :: h in t && Owned(u[h]) == Owned(t[h])
    requires handle in u && Owned(u[handle]).Some? ==> Owned(u[handle]) == Carried(flights[task])
    ensures Linear(u, flights - {task}, identities)
  {
  }

  lemma SettlingFrame(t: Table, task: Handle, lease: Lease, after: Resource, state: StatefulState)
    requires task in t
    ensures var u := Settling(t, task, lease, after, state);
            && u.Keys == t.Keys && u[task] == after
            && (forall h | h in u && h != task && h != lease.handle :: u[h] == t[h])
            && (lease.handle in u && lease.handle != task ==> u[lease.handle] == Stateful(lease.kind, state))
  {
  }

  lemma LandLeased(t: Table, issued: iset<Handle>, spent: nat, flights: Flights, identities: nat,
                   task: Handle, lease: Lease, state: StatefulState, c: Completion)
    requires TableSound(t, issued, spent, flights, identities)
    requires task in t && t[task] == Task(Pending(Some(lease)))
    requires !state.Busy? && !c.WithInner?
    requires task in flights && flights[task].Advance?
    requires state.Open? ==>
               && state.operation == lease.operation && state.inner.identity == flights[task].inner.identity
               && Fits(lease.kind, state.inner)
    ensures lease.handle in t ==> Busies(t, lease)
    ensures TableSound(Settling(t, task, lease, Task(Ready(c, Some(lease))), state), issued, spent, flights - {task}, identities)
  {
    var after := Task(Ready(c, Some(lease)));
    SettleAgrees(t, spent, task, lease, after, state);
    SettlingFrame(t, task, lease, after, state);
    LandLeasedOwners(t, Settling(t, task, lease, after, state), issued, flights, identities, task, lease.handle);
  }

  /** The table after a task's lease is given up and the task is cancelled. */
  function Cancelling(t: Table, task: Handle, lease: Option<Lease>): Table {
    if lease.Some? && lease.value.handle in t && t[lease.value.handle].Kind() == OfStateful(lease.value.kind)
       && Token(t[lease.value.handle]) == Some(lease.value.operation)
    then t[lease.value.handle := Stateful(lease.value.kind, Closed(Failed))][task := Task(Cancelled)]
    else t[task := Task(Cancelled)]
  }

  lemma CancelLeases(t: Table, spent: nat, task: Handle)
    requires LeasesAgree(t, spent) && task in t && t[task].Task?
    ensures LeasesAgree(Cancelling(t, task, TaskLease(t[task])), spent)
  {
    if TaskLease(t[task]).None? {
      ReplaceQuiet(t, spent, task, Task(Cancelled));
    } else if t[task].task.Pending? {
      SettleAgrees(t, spent, task, TaskLease(t[task]).value, Task(Cancelled), Closed(Failed));
    } else {
      DiscardReadyAgrees(t, spent, task, TaskLease(t[task]).value, Task(Cancelled));
    }
  }

  lemma CancelFrame(t: Table, task: Handle, lease: Option<Lease>)
    requires task in t
    ensures forall h | h in Cancelling(t, task, lease) ::
              && h in t
              && (|| Cancelling(t, task, lease)[h] == t[h]
                  || Cancelling(t, task, lease)[h] == Task(Cancelled)
                  || (Cancelling(t, task, lease)[h].Stateful? && Cancelling(t, task, lease)[h].state == Closed(Failed)))
  {
  }

  lemma CancelOwners(t: Table, u: Table, issued: iset<Handle>, flights: Flights, identities: nat)
    requires Owners(t, issued, flights, identities)
    requires forall h | h in u ::
               h in t && (u[h] == t[h] || u[h] == Task(Cancelled) || (u[h].Stateful? && u[h].state == Closed(Failed)))
    ensures Owners(u, issued, flights, identities)
  {
    LinearFrame(t, u, flights, flights, identities);
  }

  lemma Cancel(t: Table, issued: iset<Handle>, spent: nat, flights: Flights, identities: nat, task: Handle)
    requires TableSound(t, issued, spent, flights, identities) && task in t && t[task].Task?
    ensures TableSound(Cancelling(t, task, TaskLease(t[task])), issued, spent, flights, identities)
  {
    CancelLeases(t, spent, task);
    CancelFrame(t, task, TaskLease(t[task]));
    CancelOwners(t, Cancelling(t, task, TaskLease(t[task])), issued, flights, identities);
  }
}
