/** What every step keeps, stated on the table of resources alone. */
module LeaseInvariant {
  import opened Basics
  import opened BridgeTypes
  import opened BridgeSteps

  function PendingLease(r: Resource): Option<Lease> {
    if r.Task? && r.task.Pending? then r.task.lease else None
  }

  function BusyToken(r: Resource): Option<nat> {
    match r
    case Stateful(_, Busy(operation)) => Some(operation)
    case _ => None
  }

  predicate Busies(t: Table, lease: Lease) {
    lease.handle in t && t[lease.handle] == Stateful(lease.kind, Busy(lease.operation))
  }

  /** Every token in the table has been given out. */
  ghost predicate TokensSpent(t: Table, spent: nat) {
    && (forall h | h in t && Token(t[h]).Some? :: Token(t[h]).value <= spent)
    && (forall h | h in t && TaskLease(t[h]).Some? :: 1 <= TaskLease(t[h]).value.operation <= spent)
  }

  /** Two live tasks never hold leases of the same operation. */
  ghost predicate LeasesDistinct(t: Table) {
    forall h, k | h in t && k in t && h != k && TaskLease(t[h]).Some? && TaskLease(t[k]).Some? ::
      TaskLease(t[h]).value.operation != TaskLease(t[k]).value.operation
  }

  ghost predicate PendingMeansBusy(t: Table) {
    forall h | h in t && PendingLease(t[h]).Some? && PendingLease(t[h]).value.handle in t ::
      Busies(t, PendingLease(t[h]).value)
  }

  ghost predicate HasPendingTask(t: Table, lease: Lease) {
    exists task :: task in t && PendingLease(t[task]) == Some(lease)
  }

  ghost predicate BusyMeansPending(t: Table) {
    forall h | h in t && BusyToken(t[h]).Some? :: HasPendingTask(t, Lease(h, t[h].kind, BusyToken(t[h]).value))
  }

  ghost predicate LeasesAgree(t: Table, spent: nat) {
    && TokensSpent(t, spent)
    && LeasesDistinct(t)
    && PendingMeansBusy(t)
    && BusyMeansPending(t)
  }

  /** No task in `t` has a lease on `handle`. */
  ghost predicate Unleased(t: Table, handle: Handle) {
    forall h | h in t && TaskLease(t[h]).Some? :: TaskLease(t[h]).value.handle != handle
  }

  /** Neither a leased task nor a resource in the middle of an operation. */
  predicate Quiet(r: Resource) {
    TaskLease(r).None? && BusyToken(r).None? && (Token(r).Some? ==> Token(r).value == 0)
  }

  lemma PendingStays(t: Table, u: Table, except: Handle, handle: Handle)
    requires BusyMeansPending(t)
    requires handle in t && handle in u && t[handle] == u[handle]
    requires forall k | k in t && k != except :: k in u && PendingLease(u[k]) == PendingLease(t[k])
    requires except in t && BusyToken(t[handle]).Some? ==>
               PendingLease(t[except]) != Some(Lease(handle, t[handle].kind, BusyToken(t[handle]).value))
    ensures BusyToken(u[handle]).Some? ==>
              HasPendingTask(u, Lease(handle, u[handle].kind, BusyToken(u[handle]).value))
  {
    if BusyToken(t[handle]).Some? {
      var lease := Lease(handle, t[handle].kind, BusyToken(t[handle]).value);
      assert HasPendingTask(t, lease);
      var task :| task in t && PendingLease(t[task]) == Some(lease);
      assert task in u && PendingLease(u[task]) == Some(lease);
    }
  }

  /** A new quiet resource under a handle no lease names. */
  lemma AddQuiet(t: Table, spent: nat, handle: Handle, r: Resource)
    requires LeasesAgree(t, spent) && handle !in t && Unleased(t, handle) && Quiet(r)
    ensures LeasesAgree(t[handle := r], spent)
  {
    var u := t[handle := r];
    forall h | h in u && BusyToken(u[h]).Some?
      ensures HasPendingTask(u, Lease(h, u[h].kind, BusyToken(u[h]).value))
    {
      PendingStays(t, u, handle, h);
    }
  }

  /** A quiet resource gives way to another quiet one, or to nothing. */
  lemma ReplaceQuiet(t: Table, spent: nat, handle: Handle, r: Resource)
    requires LeasesAgree(t, spent) && handle in t && PendingLease(t[handle]).None?
    requires BusyToken(t[handle]).None? && Quiet(r)
    ensures LeasesAgree(t[handle := r], spent)
  {
    var u := t[handle := r];
    forall h | h in u && BusyToken(u[h]).Some?
      ensures HasPendingTask(u, Lease(h, u[h].kind, BusyToken(u[h]).value))
    {
      PendingStays(t, u, handle, h);
    }
  }

  lemma DropUnpending(t: Table, spent: nat, handle: Handle)
    requires LeasesAgree(t, spent) && handle in t && PendingLease(t[handle]).None?
    ensures LeasesAgree(t - {handle}, spent)
  {
    var u := t - {handle};
    forall h | h in u && BusyToken(u[h]).Some?
      ensures HasPendingTask(u, Lease(h, u[h].kind, BusyToken(u[h]).value))
    {
      PendingStays(t, u, handle, h);
    }
  }

  /** Reserving: an open resource turns busy and its pending task appears. */
  lemma ReserveAgrees(t: Table, spent: nat, handle: Handle, kind: StatefulKind, task: Handle)
    requires LeasesAgree(t, spent) && task !in t && Unleased(t, task)
    requires handle in t && t[handle].Stateful? && t[handle].kind == kind && t[handle].state.Open?
    ensures LeasesAgree(
              t[handle := Stateful(kind, Busy(spent + 1))][task := Task(Pending(Some(Lease(handle, kind, spent + 1))))],
              spent + 1)
  {
    var lease := Lease(handle, kind, spent + 1);
    var u := t[handle := Stateful(kind, Busy(spent + 1))][task := Task(Pending(Some(lease)))];
    hide BusyMeansPending;
    ReservedBusy(t, u, task, lease);
  }

  lemma ReservedBusy(t: Table, u: Table, task: Handle, lease: Lease)
    requires BusyMeansPending(t) && task !in t
    requires u.Keys == t.Keys + {task} && (forall h | h in t && h != lease.handle :: u[h] == t[h])
    requires lease.handle in t && PendingLease(t[lease.handle]).None? && PendingLease(u[lease.handle]).None?
    requires u[lease.handle] == Stateful(lease.kind, Busy(lease.operation)) && u[task] == Task(Pending(Some(lease)))
    ensures BusyMeansPending(u)
  {
    assert PendingLease(u[task]) == Some(lease);
    forall h | h in u && BusyToken(u[h]).Some?
      ensures HasPendingTask(u, Lease(h, u[h].kind, BusyToken(u[h]).value))
    {
      if h != lease.handle {
        PendingStays(t, u, task, h);
      }
    }
  }

  /** Settling: a pending task becomes `after` (ready, or cancelled) and its resource, if it is
      still there, stops being busy. */
  lemma SettleAgrees(t: Table, spent: nat, task: Handle, lease: Lease, after: Resource, state: StatefulState)
    requires LeasesAgree(t, spent) && task in t && PendingLease(t[task]) == Some(lease)
    requires TaskLease(after) in {None, Some(lease)} && PendingLease(after).None?
    requires after.Task? && !state.Busy? && (state.Open? ==> state.operation == lease.operation)
    ensures lease.handle in t ==> Busies(t, lease)
    ensures lease.handle in t ==> LeasesAgree(t[lease.handle := Stateful(lease.kind, state)][task := after], spent)
    ensures lease.handle !in t ==> LeasesAgree(t[task := after], spent)
  {
    assert TaskLease(t[task]) == Some(lease);
    var u := if lease.handle in t then t[lease.handle := Stateful(lease.kind, state)][task := after]
             else t[task := after];
    assert Settles(t, u, task, lease);
    SettlesKeepsTokens(t, u, spent, task, lease);
    SettlesKeepsPending(t, u, task, lease);
    SettlesKeepsBusy(t, u, task, lease);
  }

  /** Settling, on the tables before and after: `task` stops being pending, the resource of its lease
      stops being busy, and nothing else changes. */
  ghost predicate Settles(t: Table, u: Table, task: Handle, lease: Lease) {
    && task in t && PendingLease(t[task]) == Some(lease) && TaskLease(t[task]) == Some(lease)
    && u.Keys == t.Keys && (forall h | h in t && h != task && h != lease.handle :: u[h] == t[h])
    && PendingLease(u[task]).None? && BusyToken(u[task]).None? && Token(u[task]).None?
    && (TaskLease(u[task]) == None || TaskLease(u[task]) == Some(lease))
    && (lease.handle in u ==> TaskLease(u[lease.handle]).None? && BusyToken(u[lease.handle]).None?
                              && (Token(u[lease.handle]).Some? ==> Token(u[lease.handle]).value == lease.operation))
  }

  lemma SettlesKeepsTokens(t: Table, u: Table, spent: nat, task: Handle, lease: Lease)
    requires TokensSpent(t, spent) && LeasesDistinct(t) && Settles(t, u, task, lease)
    ensures TokensSpent(u, spent) && LeasesDistinct(u)
  {
    assert forall h | h in u && TaskLease(u[h]).Some? :: TaskLease(u[h]) == TaskLease(t[h]);
  }

  lemma SettlesKeepsPending(t: Table, u: Table, task: Handle, lease: Lease)
    requires LeasesDistinct(t) && PendingMeansBusy(t) && Settles(t, u, task, lease)
    ensures PendingMeansBusy(u)
  {
    forall h | h in u && PendingLease(u[h]).Some? && PendingLease(u[h]).value.handle in u
      ensures Busies(u, PendingLease(u[h]).value)
    {
      assert h != task && PendingLease(u[h]) == PendingLease(t[h]);
      assert TaskLease(t[h]) == PendingLease(t[h]);
      assert Busies(t, PendingLease(t[h]).value);
      assert lease.handle in t ==> Busies(t, lease);
    }
  }

  lemma SettlesKeepsBusy(t: Table, u: Table, task: Handle, lease: Lease)
    requires BusyMeansPending(t) && PendingMeansBusy(t) && Settles(t, u, task, lease)
    ensures BusyMeansPending(u)
  {
    assert lease.handle in t ==> Busies(t, lease);
    forall h | h in u && BusyToken(u[h]).Some?
      ensures HasPendingTask(u, Lease(h, u[h].kind, BusyToken(u[h]).value))
    {
      PendingStays(t, u, task, h);
    }
  }

  /** Cancelling a ready task: at most an open resource closes, and the task loses its lease. */
  lemma DiscardReadyAgrees(t: Table, spent: nat, task: Handle, lease: Lease, after: Resource)
    requires LeasesAgree(t, spent) && task in t && t[task].Task? && t[task].task.Ready?
    requires TaskLease(t[task]) == Some(lease)
    requires TaskLease(after).None? && after.Task?
    ensures lease.handle in t && Token(t[lease.handle]) == Some(lease.operation) ==>
              && BusyToken(t[lease.handle]).None?
              && LeasesAgree(t[lease.handle := Stateful(lease.kind, Closed(Failed))][task := after], spent)
    ensures LeasesAgree(t[task := after], spent)
  {
    ReplaceQuiet(t, spent, task, after);
    if lease.handle in t && Token(t[lease.handle]) == Some(lease.operation) {
      assert BusyToken(t[lease.handle]).Some? ==> HasPendingTask(t, Lease(lease.handle, t[lease.handle].kind, lease.operation));
      ReplaceQuiet(t[task := after], spent, lease.handle, Stateful(lease.kind, Closed(Failed)));
      assert t[task := after][lease.handle := Stateful(lease.kind, Closed(Failed))]
          == t[lease.handle := Stateful(lease.kind, Closed(Failed))][task := after];
    }
  }
}
