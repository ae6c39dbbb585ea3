/** What holds in every run of the installers, and what holds when none crashes or overstays. */
module InstallTheorems {
  import opened Basics
  import opened Install

  // ------------------------------------------------------------------ every run

  /** How far along the staged tree of a process must be. */
  predicate Progressed(phase: Phase, t: Tree) {
    && (phase.Mark? || phase.Marking? ==> Validates(t))
    && (phase.Publish? ==> Complete(t))
  }

  /** Every staging directory in use exists, is used by one process and is as far as its phase says. */
  ghost predicate StagingSound(s: System) {
    && (forall p | p in s.procs && StagedBy(s.procs[p]).Some? ::
          && StagedBy(s.procs[p]).value in s.staging
          && Progressed(s.procs[p], s.staging[StagedBy(s.procs[p]).value]))
    && (forall p, q | p in s.procs && q in s.procs && StagedBy(s.procs[p]).Some? && StagedBy(s.procs[p]) == StagedBy(s.procs[q]) ::
          p == q)
  }

  /** What can be at the install path: what was there before, nothing, or a complete tree. */
  predicate InstallSound(s: System, origin: Option<Tree>) {
    s.install == origin || s.install.None? || Complete(s.install.value)
  }

  /** Only the staging directory of `p` changes, and only as the phase it moves to allows. */
  ghost predicate Moves(s: System, t: System, p: nat) {
    && t.procs.Keys == s.procs.Keys + {p}
    && (forall q | q in s.procs && q != p :: t.procs[q] == s.procs[q])
    && (forall d | d in s.staging && (p !in s.procs || StagedBy(s.procs[p]) != Some(d)) ::
          d in t.staging && t.staging[d] == s.staging[d])
    && (StagedBy(t.procs[p]).Some? ==>
          var d := StagedBy(t.procs[p]).value;
          && d in t.staging && Progressed(t.procs[p], t.staging[d])
          && (d !in s.staging || (p in s.procs && StagedBy(s.procs[p]) == Some(d))))
  }

  lemma MovesKeepStaging(s: System, t: System, p: nat)
    requires StagingSound(s) && Moves(s, t, p)
    ensures StagingSound(t)
  {
    forall q | q in t.procs && StagedBy(t.procs[q]).Some?
      ensures StagedBy(t.procs[q]).value in t.staging && Progressed(t.procs[q], t.staging[StagedBy(t.procs[q]).value])
    {
      if q != p {
        assert q in s.procs && t.procs[q] == s.procs[q];
        assert p in s.procs ==> StagedBy(s.procs[p]) != StagedBy(s.procs[q]);
      }
    }
    forall q, r | q in t.procs && r in t.procs && StagedBy(t.procs[q]).Some? && StagedBy(t.procs[q]) == StagedBy(t.procs[r])
      ensures q == r
    {
      assert q != p ==> q in s.procs && t.procs[q] == s.procs[q];
      assert r != p ==> r in s.procs && t.procs[r] == s.procs[r];
    }
  }

  /** What the staging invariant says about one process. */
  predicate OwnStage(s: System, p: nat)
    requires p in s.procs
  {
    StagedBy(s.procs[p]).Some? ==>
      StagedBy(s.procs[p]).value in s.staging && Progressed(s.procs[p], s.staging[StagedBy(s.procs[p]).value])
  }

  lemma ThrowMoves(s: System, p: nat)
    requires p in s.procs && OwnStage(s, p)
    ensures Moves(s, Throw(s, p, s.procs[p]), p)
  {
  }

  lemma ApproachMoves(s: System, p: nat)
    requires p in s.procs && OwnStage(s, p)
    ensures Moves(s, Approach(s, p, s.procs[p]), p)
  {
  }

  lemma PrepareMoves(s: System, p: nat, choice: Choice)
    requires p in s.procs && OwnStage(s, p)
    ensures Moves(s, Prepare(s, p, s.procs[p], choice), p)
  {
  }

  lemma MarkMoves(s: System, p: nat)
    requires p in s.procs && OwnStage(s, p) && (s.procs[p].Validate? || s.procs[p].Mark? || s.procs[p].Marking?)
    ensures Moves(s, Conclude(s, p, s.procs[p]), p)
  {
  }

  lemma ConcludeMoves(s: System, p: nat)
    requires p in s.procs && OwnStage(s, p)
    ensures Moves(s, Conclude(s, p, s.procs[p]), p)
  {
    if s.procs[p].Validate? || s.procs[p].Mark? || s.procs[p].Marking? {
      MarkMoves(s, p);
    }
  }

  lemma StepMoves(s: System, p: nat, choice: Choice)
    requires p in s.procs && OwnStage(s, p)
    ensures Moves(s, StepOf(s, p, choice), p)
  {
    ThrowMoves(s, p);
    ApproachMoves(s, p);
    PrepareMoves(s, p, choice);
    ConcludeMoves(s, p);
  }

  lemma ApplyKeepsStaging(s: System, e: Event)
    requires StagingSound(s)
    ensures StagingSound(Apply(s, e))
  {
    if e.Step? && e.p in s.procs {
      StepMoves(s, e.p, e.choice);
      MovesKeepStaging(s, Apply(s, e), e.p);
    } else if e.Spawn? && e.p !in s.procs {
      MovesKeepStaging(s, Apply(s, e), e.p);
    } else if e.Crash? && e.p in s.procs && !s.procs[e.p].Returned? {
      MovesKeepStaging(s, Apply(s, e), e.p);
    }
  }

  lemma ApplyKeepsInstall(s: System, e: Event, origin: Option<Tree>)
    requires StagingSound(s) && InstallSound(s, origin)
    ensures InstallSound(Apply(s, e), origin)
  {
  }

  lemma {:induction false} RunKeepsInstall(s: System, events: seq<Event>, origin: Option<Tree>)
    requires StagingSound(s) && InstallSound(s, origin)
    ensures InstallSound(Run(s, events), origin)
    decreases |events|
  {
    if events != [] {
      ApplyKeepsStaging(s, events[0]);
      ApplyKeepsInstall(s, events[0], origin);
      RunKeepsInstall(Apply(s, events[0]), events[1..], origin);
    }
  }

  /** In every run of any number of installers, whatever crashes and evictions it contains, the
      install path holds what was there at the start, nothing, or a complete validated tree with its
      marker: all four files, and library, manifest and marker with the pinned contents. */
  lemma InstalledTreesAreComplete(s: System, events: seq<Event>)
    requires Initial(s)
    ensures var last := Run(s, events).install;
            || last == s.install || last.None?
            || (last.value.Keys == {License, Library, ManifestFile, Marker}
                && last.value[Library] && last.value[ManifestFile] && last.value[Marker])
  {
    RunKeepsInstall(s, events, s.install);
    var last := Run(s, events).install;
    if last.Some? && Complete(last.value) {
      CompleteTree(last.value);
    }
  }

  lemma CompleteTree(t: Tree)
    requires Complete(t)
    ensures t.Keys == {License, Library, ManifestFile, Marker} && t[Library] && t[ManifestFile] && t[Marker]
  {
    forall f | f in t.Keys ensures f in {License, Library, ManifestFile, Marker} {
      match f case License => case Library => case ManifestFile => case Marker =>
    }
  }

  /** Every tree ever seen at the install path is still there or in quarantine: installers delete
      nothing but their own staging directories. */
  predicate Kept(s: System, t: Tree) {
    s.install == Some(t) || t in s.quarantined
  }

  lemma ApplyKeepsTree(s: System, e: Event, t: Tree)
    requires Kept(s, t) && t != map[]
    ensures Kept(Apply(s, e), t)
  {
  }

  lemma {:induction false} NoTreeIsDestroyed(s: System, events: seq<Event>, t: Tree)
    requires Kept(s, t) && t != map[]
    ensures Kept(Run(s, events), t)
    decreases |events|
  {
    if events != [] {
      ApplyKeepsTree(s, events[0], t);
      NoTreeIsDestroyed(Apply(s, events[0]), events[1..], t);
    }
  }

  // ------------------------------------------------- runs that never find a stale lock

  predicate Stale(s: System) {
    s.lock.Some? && s.now - s.lock.value > 900_000
  }

  /** A waiting process looks at the lock and finds it stale: the only way into an eviction. */
  predicate FindsStale(s: System, e: Event) {
    e.Step? && e.p in s.procs && s.procs[e.p].Inspect? && !e.choice.Fail? && Stale(s)
  }

  ghost predicate LocksRespected(s: System, events: seq<Event>)
    decreases |events|
  {
    events == [] || (!FindsStale(s, events[0]) && LocksRespected(Apply(s, events[0]), events[1..]))
  }

  /** At most one process is between making the lock directory and removing it, and the lock is its. */
  ghost predicate Exclusive(s: System) {
    && (forall p, q | p in s.procs && q in s.procs && Critical(s.procs[p]) && Critical(s.procs[q]) :: p == q)
    && (forall p | p in s.procs && Critical(s.procs[p]) :: s.lock == Some(s.procs[p].since))
    && (forall p | p in s.procs :: !s.procs[p].Evict?)
  }

  /** Nobody builds once a complete install exists, and nobody returns success without one. */
  ghost predicate Settled(s: System) {
    && (Installed(s.install) ==> forall p | p in s.procs :: !Building(s.procs[p]))
    && (forall p | p in s.procs && Succeeding(s.procs[p]) :: Installed(s.install))
  }

  predicate Succeeding(phase: Phase) {
    phase == Returned(true) || phase == Reuse || (phase.Cleanup? && phase.ok) || (phase.Unlock? && phase.ok)
  }

  /** The lock as the step of `p` moves it, together with the phase of `p`. */
  predicate LockMoves(s: System, t: System, p: nat)
    requires p in s.procs && p in t.procs
  {
    var before, after := s.procs[p], t.procs[p];
    && (before.Evict? || !after.Evict?)
    && (if Critical(before) then
          if Critical(after) then t.lock == s.lock && after.since == before.since else t.lock.None?
        else if Critical(after) then s.lock.None? && t.lock == Some(after.since)
        else t.lock == s.lock)
  }

  lemma ApproachMovesLock(s: System, p: nat)
    requires p in s.procs && !Critical(s.procs[p]) && !s.procs[p].Evict?
    requires s.procs[p].Inspect? ==> !Stale(s)
    ensures var t := Approach(s, p, s.procs[p]); p in t.procs && LockMoves(s, t, p)
  {
  }

  lemma CriticalMovesLock(s: System, p: nat, choice: Choice)
    requires p in s.procs && Critical(s.procs[p])
    ensures var t := Prepare(s, p, s.procs[p], choice); p in t.procs && LockMoves(s, t, p)
    ensures var t := Conclude(s, p, s.procs[p]); p in t.procs && LockMoves(s, t, p)
  {
  }

  lemma ThrowMovesLock(s: System, p: nat)
    requires p in s.procs
    ensures var t := Throw(s, p, s.procs[p]); p in t.procs && LockMoves(s, t, p)
  {
  }

  lemma StepMovesLock(s: System, p: nat, choice: Choice)
    requires p in s.procs && !s.procs[p].Evict? && !FindsStale(s, Step(p, choice))
    ensures p in StepOf(s, p, choice).procs && LockMoves(s, StepOf(s, p, choice), p)
  {
    ThrowMovesLock(s, p);
    if Critical(s.procs[p]) {
      CriticalMovesLock(s, p, choice);
    } else if !choice.Fail? {
      ApproachMovesLock(s, p);
    }
  }

  lemma LockMovesKeep(s: System, t: System, p: nat)
    requires Exclusive(s) && p in s.procs && t.procs.Keys == s.procs.Keys
    requires forall q | q in s.procs && q != p :: t.procs[q] == s.procs[q]
    requires LockMoves(s, t, p)
    ensures Exclusive(t)
  {
    if Critical(s.procs[p]) {
      assert forall q | q in s.procs && q != p :: !Critical(t.procs[q]);
    } else if Critical(t.procs[p]) {
      assert forall q | q in s.procs :: !Critical(s.procs[q]);
    }
  }

  lemma StepKeepsExclusive(s: System, p: nat, choice: Choice)
    requires StagingSound(s) && Exclusive(s) && p in s.procs && !FindsStale(s, Step(p, choice))
    ensures Exclusive(StepOf(s, p, choice))
  {
    StepMovesLock(s, p, choice);
    StepMoves(s, p, choice);
    hide StepOf;
    LockMovesKeep(s, StepOf(s, p, choice), p);
  }

  /** Events other than steps start, crash or age processes. */
  lemma IdleKeepsExclusive(s: System, e: Event)
    requires Exclusive(s) && !(e.Step? && e.p in s.procs)
    ensures Exclusive(Apply(s, e))
  {
    var t := Apply(s, e);
    assert forall p | p in t.procs && Critical(t.procs[p]) :: p in s.procs && t.procs[p] == s.procs[p];
  }

  /** Crashes included: a crashed process leaves its lock behind and is inside no longer. */
  lemma ApplyKeepsExclusive(s: System, e: Event)
    requires StagingSound(s) && Exclusive(s) && !FindsStale(s, e)
    ensures Exclusive(Apply(s, e))
  {
    hide Exclusive;
    hide StepOf;
    if e.Step? && e.p in s.procs {
      StepKeepsExclusive(s, e.p, e.choice);
    } else {
      IdleKeepsExclusive(s, e);
    }
  }

  /** How the step of `p` moves the install path, given that nobody else holds the lock. */
  predicate InstallMoves(s: System, t: System, p: nat)
    requires p in s.procs && p in t.procs
  {
    var before, after := s.procs[p], t.procs[p];
    && (t.install == s.install || Building(before))
    && (t.downloads == s.downloads || Building(before))
    && (Building(after) ==> !Installed(t.install))
    && (Succeeding(after) ==> Installed(t.install))
    && (Installed(t.install) ==> Installed(s.install) || Critical(before))
  }

  /** What the invariants say about one process. */
  predicate OwnSettled(s: System, p: nat)
    requires p in s.procs
  {
    && OwnStage(s, p)
    && (Installed(s.install) ==> !Building(s.procs[p])) && (Succeeding(s.procs[p]) ==> Installed(s.install))
  }

  lemma ThrowMovesInstall(s: System, p: nat)
    requires p in s.procs && OwnSettled(s, p)
    ensures var t := Throw(s, p, s.procs[p]); p in t.procs && InstallMoves(s, t, p)
  {
  }

  lemma ApproachMovesInstall(s: System, p: nat)
    requires p in s.procs && OwnSettled(s, p) && !Critical(s.procs[p])
    ensures var t := Approach(s, p, s.procs[p]); p in t.procs && InstallMoves(s, t, p)
  {
  }

  lemma PrepareMovesInstall(s: System, p: nat, choice: Choice)
    requires p in s.procs && OwnSettled(s, p) && Critical(s.procs[p])
    ensures var t := Prepare(s, p, s.procs[p], choice); p in t.procs && InstallMoves(s, t, p)
  {
  }

  lemma ConcludeMovesInstall(s: System, p: nat)
    requires p in s.procs && OwnSettled(s, p) && Critical(s.procs[p])
    ensures var t := Conclude(s, p, s.procs[p]); p in t.procs && InstallMoves(s, t, p)
  {
  }

  lemma StepMovesInstall(s: System, p: nat, choice: Choice)
    requires p in s.procs && OwnSettled(s, p)
    ensures p in StepOf(s, p, choice).procs && InstallMoves(s, StepOf(s, p, choice), p)
  {
    ThrowMovesInstall(s, p);
    if Critical(s.procs[p]) {
      PrepareMovesInstall(s, p, choice);
      ConcludeMovesInstall(s, p);
    } else {
      ApproachMovesInstall(s, p);
    }
  }

  lemma InstallMovesKeep(s: System, t: System, p: nat)
    requires Exclusive(s) && Settled(s) && p in s.procs && Moves(s, t, p) && InstallMoves(s, t, p)
    ensures Settled(t)
  {
    var before := s.procs[p];
    forall q | q in t.procs && Succeeding(t.procs[q]) ensures Installed(t.install) {
      if q != p {
        assert t.procs[q] == s.procs[q];
        assert Installed(s.install);
      }
    }
    assert forall q | q in s.procs && Building(s.procs[q]) :: Critical(s.procs[q]);
    if Installed(t.install) {
      forall q | q in t.procs ensures !Building(t.procs[q]) {
        assert q != p ==> t.procs[q] == s.procs[q];
      }
    }
  }

  /** The invariant of runs that never find a stale lock. */
  ghost predicate Orderly(s: System) {
    StagingSound(s) && Exclusive(s) && Settled(s)
  }

  lemma StepKeepsSettled(s: System, p: nat, choice: Choice)
    requires Orderly(s) && p in s.procs
    ensures var t := StepOf(s, p, choice);
            Settled(t) && (Installed(s.install) ==> t.install == s.install && t.downloads == s.downloads)
  {
    hide StepOf;
    StepMovesInstall(s, p, choice);
    StepMoves(s, p, choice);
    hide StagingSound;
    InstallMovesKeep(s, StepOf(s, p, choice), p);
  }

  lemma IdleKeepsSettled(s: System, e: Event)
    requires Settled(s) && !(e.Step? && e.p in s.procs)
    ensures var t := Apply(s, e); Settled(t) && t.install == s.install && t.downloads == s.downloads
  {
    hide StepOf;
    var t := Apply(s, e);
    assert forall p | p in t.procs :: (p in s.procs && t.procs[p] == s.procs[p]) || t.procs[p] in {Begin, Crashed};
  }

  lemma ApplyKeepsSettled(s: System, e: Event)
    requires Orderly(s)
    ensures Settled(Apply(s, e))
    ensures Installed(s.install) ==> Apply(s, e).install == s.install && Apply(s, e).downloads == s.downloads
  {
    hide StepOf;
    hide Settled;
    if e.Step? && e.p in s.procs {
      StepKeepsSettled(s, e.p, e.choice);
    } else {
      IdleKeepsSettled(s, e);
    }
  }

  lemma {:induction false} RunKeepsOrder(s: System, events: seq<Event>)
    requires Orderly(s) && LocksRespected(s, events)
    ensures Orderly(Run(s, events))
    ensures Installed(s.install) ==> Run(s, events).install == s.install && Run(s, events).downloads == s.downloads
    decreases |events|
  {
    if events != [] {
      ApplyKeepsStaging(s, events[0]);
      ApplyKeepsExclusive(s, events[0]);
      ApplyKeepsSettled(s, events[0]);
      RunKeepsOrder(Apply(s, events[0]), events[1..]);
    }
  }

  /** However many processes crash, and whatever lock was left behind at the start: as long as nobody
      finds a stale lock, at most one process is between making the lock directory and removing it, and
      every process that returns success does so with a complete install in place. */
  lemma OneInstallerAtATime(s: System, events: seq<Event>, p: nat, q: nat)
    requires Initial(s) && LocksRespected(s, events)
    requires p in Run(s, events).procs && q in Run(s, events).procs
    ensures var last := Run(s, events);
            && (Critical(last.procs[p]) && Critical(last.procs[q]) ==> p == q)
            && (last.procs[p] == Returned(true) ==> Installed(last.install))
  {
    RunKeepsOrder(s, events);
  }

  lemma {:induction false} RunConcat(s: System, before: seq<Event>, after: seq<Event>)
    ensures Run(s, before + after) == Run(Run(s, before), after)
    ensures LocksRespected(s, before + after) ==> LocksRespected(s, before) && LocksRespected(Run(s, before), after)
    decreases |before|
  {
    if before == [] {
      assert before + after == after;
    } else {
      assert (before + after)[1..] == before[1..] + after;
      RunConcat(Apply(s, before[0]), before[1..], after);
    }
  }

  /** In the same runs a complete install stays as it is, and nobody downloads again. */
  lemma InstalledOnce(s: System, before: seq<Event>, after: seq<Event>)
    requires Initial(s) && LocksRespected(s, before + after)
    requires Installed(Run(s, before).install)
    ensures var found := Run(s, before);
            var last := Run(s, before + after);
            last.install == found.install && last.downloads == found.downloads
  {
    RunConcat(s, before, after);
    RunKeepsOrder(s, before);
    RunKeepsOrder(Run(s, before), after);
  }

  // --------------------------------------------- without crash, overstay or leftover

  /** No process has been in its critical section for longer than the age that makes a lock stale. */
  ghost predicate Timely(s: System) {
    forall p | p in s.procs && Critical(s.procs[p]) :: s.now - s.procs[p].since <= STALE_LOCK_AGE
  }

  ghost predicate TimelyRun(s: System, events: seq<Event>)
    decreases |events|
  {
    && Timely(s)
    && (events == [] || (!events[0].Crash? && TimelyRun(Apply(s, events[0]), events[1..])))
  }

  /** The lock directory exists only while somebody is inside. */
  ghost predicate Attended(s: System) {
    s.lock.Some? ==> exists p :: p in s.procs && Critical(s.procs[p])
  }

  lemma AttendedIsFresh(s: System)
    requires Exclusive(s) && Attended(s) && Timely(s)
    ensures !Stale(s)
  {
    if s.lock.Some? {
      var p :| p in s.procs && Critical(s.procs[p]);
      assert s.lock == Some(s.procs[p].since);
    }
  }

  lemma ApplyKeepsAttended(s: System, e: Event)
    requires StagingSound(s) && Exclusive(s) && Attended(s) && !FindsStale(s, e) && !e.Crash?
    ensures Attended(Apply(s, e))
  {
    var t := Apply(s, e);
    if e.Step? && e.p in s.procs {
      StepMovesLock(s, e.p, e.choice);
      StepMoves(s, e.p, e.choice);
    }
    if t.lock.Some? && s.lock.Some? {
      var p :| p in s.procs && Critical(s.procs[p]);
      assert p in t.procs && (t.procs[p] == s.procs[p] || (e.Step? && p == e.p));
      assert Critical(t.procs[p]);
    } else if t.lock.Some? {
      assert Critical(t.procs[e.p]);
    }
  }

  /** If nobody crashes, nobody overstays and no lock was left behind, nobody finds a stale lock. */
  lemma {:induction false} TimelyRunsRespectLocks(s: System, events: seq<Event>)
    requires StagingSound(s) && Exclusive(s) && Attended(s) && TimelyRun(s, events)
    ensures LocksRespected(s, events)
    decreases |events|
  {
    if events != [] {
      AttendedIsFresh(s);
      ApplyKeepsStaging(s, events[0]);
      ApplyKeepsExclusive(s, events[0]);
      ApplyKeepsAttended(s, events[0]);
      TimelyRunsRespectLocks(Apply(s, events[0]), events[1..]);
    }
  }

  lemma PromptInstallersRespectLocks(s: System, events: seq<Event>)
    requires Initial(s) && s.lock.None? && TimelyRun(s, events)
    ensures LocksRespected(s, events)
  {
    TimelyRunsRespectLocks(s, events);
  }
}
