/** When an installer succeeds: what its exits answer, that nothing but a timeout makes it fail, how many
    steps it needs, and what it leaves behind. */
module InstallOutcomes {
  import opened Basics
  import opened Install
  import opened InstallTheorems
  import opened InstallRaces

  // ------------------------------------------------------------------ the waiting loop

  function DeadlineOf(phase: Phase): Option<nat> {
    match phase
    case Contend(deadline) => Some(deadline)
    case Peek(deadline) => Some(deadline)
    case Inspect(deadline) => Some(deadline)
    case Evict(deadline) => Some(deadline)
    case Wait(deadline) => Some(deadline)
    case _ => None
  }

  /** A process that has a deadline keeps it for as long as it waits, and cannot begin to wait again. */
  predicate KeepsDeadline(s: System, p: nat, deadline: nat) {
    p in s.procs && !s.procs[p].Begin? && (DeadlineOf(s.procs[p]).Some? ==> DeadlineOf(s.procs[p]).value == deadline)
  }

  /** The step of `p` moves no other process, and its deadline stays. */
  predicate WaitsOn(s: System, t: System, p: nat)
    requires p in s.procs
  {
    && p in t.procs && t.procs == s.procs[p := t.procs[p]]
    && (!s.procs[p].Begin? ==> !t.procs[p].Begin? && (DeadlineOf(t.procs[p]).Some? ==> DeadlineOf(t.procs[p]) == DeadlineOf(s.procs[p])))
  }

  lemma ThrowWaitsOn(s: System, p: nat)
    requires p in s.procs
    ensures WaitsOn(s, Throw(s, p, s.procs[p]), p)
  {
  }

  lemma ApproachWaitsOn(s: System, p: nat)
    requires p in s.procs
    ensures WaitsOn(s, Approach(s, p, s.procs[p]), p)
  {
  }

  lemma PrepareWaitsOn(s: System, p: nat, choice: Choice)
    requires p in s.procs
    ensures WaitsOn(s, Prepare(s, p, s.procs[p], choice), p)
  {
  }

  lemma ConcludeWaitsOn(s: System, p: nat)
    requires p in s.procs
    ensures WaitsOn(s, Conclude(s, p, s.procs[p]), p)
  {
  }

  lemma StepWaitsOn(s: System, p: nat, choice: Choice)
    requires p in s.procs
    ensures WaitsOn(s, StepOf(s, p, choice), p)
  {
    hide Throw;
    hide Approach;
    hide Prepare;
    hide Conclude;
    hide WaitsOn;
    ThrowWaitsOn(s, p);
    ApproachWaitsOn(s, p);
    PrepareWaitsOn(s, p, choice);
    ConcludeWaitsOn(s, p);
  }

  lemma ApplyKeepsDeadline(s: System, e: Event, p: nat, deadline: nat)
    requires KeepsDeadline(s, p, deadline)
    ensures KeepsDeadline(Apply(s, e), p, deadline)
  {
    hide StepOf;
    if e.Step? && e.p in s.procs {
      StepWaitsOn(s, e.p, e.choice);
    }
  }

  lemma {:induction false} RunKeepsDeadline(s: System, events: seq<Event>, p: nat, deadline: nat)
    requires KeepsDeadline(s, p, deadline)
    ensures KeepsDeadline(Run(s, events), p, deadline)
    decreases |events|
  {
    if events != [] {
      ApplyKeepsDeadline(s, events[0], p, deadline);
      RunKeepsDeadline(Apply(s, events[0]), events[1..], p, deadline);
    }
  }

  /** A process that begins without a complete install waits, whatever the others do, until two minutes
      after it began: a look at the clock then ends the wait, and no earlier look does. */
  lemma WaitsTwoMinutes(s: System, events: seq<Event>, p: nat)
    requires p in s.procs && s.procs[p].Begin? && !Installed(s.install)
    ensures var last := Run(Apply(s, Step(p, Proceed)), events);
            && p in last.procs
            && (last.procs[p].Wait? ==>
                  Apply(last, Step(p, Proceed)).procs
                  == last.procs[p := if last.now >= s.now + 120_000 then Returned(false) else Contend(s.now + 120_000)])
  {
    var t := Goto(s, p, Contend(s.now + 120_000));
    assert Apply(s, Step(p, Proceed)) == t;
    RunKeepsDeadline(t, events, p, s.now + 120_000);
    hide Run;
  }

  // --------------------------------------------------------- what a builder finds in place

  /** Once its process knows what is at the install path, nobody changes it behind its back. */
  predicate Prepared(s: System, p: nat)
    requires p in s.procs
  {
    var phase := s.procs[p];
    && (phase.Confirm? ==> Installed(s.install))
    && (phase.Quarantine? ==> s.install.Some?)
    && (phase.Download? || phase.Stage? || phase.Extract? || phase.Validate? || phase.Mark? || phase.Marking? || phase.Publish? ==>
          s.install.None?)
  }

  ghost predicate Undisturbed(s: System) {
    forall p | p in s.procs :: Prepared(s, p)
  }

  /** The invariant of runs that never find a stale lock, with what builders know. */
  ghost predicate Sound(s: System) {
    Orderly(s) && Undisturbed(s)
  }

  lemma ThrowKeepsPrepared(s: System, p: nat)
    requires p in s.procs && Prepared(s, p)
    ensures var t := Throw(s, p, s.procs[p]); p in t.procs && Prepared(t, p)
  {
  }

  lemma ApproachKeepsPrepared(s: System, p: nat)
    requires p in s.procs && Prepared(s, p) && !Critical(s.procs[p])
    ensures var t := Approach(s, p, s.procs[p]); p in t.procs && Prepared(t, p)
  {
  }

  lemma PrepareKeepsPrepared(s: System, p: nat, choice: Choice)
    requires p in s.procs && Prepared(s, p) && Critical(s.procs[p])
    ensures var t := Prepare(s, p, s.procs[p], choice); p in t.procs && Prepared(t, p)
  {
  }

  lemma ConcludeKeepsPrepared(s: System, p: nat)
    requires p in s.procs && OwnStage(s, p) && Prepared(s, p) && Critical(s.procs[p])
    ensures var t := Conclude(s, p, s.procs[p]); p in t.procs && Prepared(t, p)
  {
  }

  lemma StepKeepsPrepared(s: System, p: nat, choice: Choice)
    requires p in s.procs && OwnStage(s, p) && Prepared(s, p)
    ensures p in StepOf(s, p, choice).procs && Prepared(StepOf(s, p, choice), p)
  {
    ThrowKeepsPrepared(s, p);
    if Critical(s.procs[p]) {
      PrepareKeepsPrepared(s, p, choice);
      ConcludeKeepsPrepared(s, p);
    } else {
      ApproachKeepsPrepared(s, p);
    }
    hide Throw;
    hide Approach;
    hide Prepare;
    hide Conclude;
    hide Prepared;
  }

  lemma ApplyKeepsUndisturbed(s: System, e: Event)
    requires Sound(s)
    ensures Undisturbed(Apply(s, e))
  {
    var t := Apply(s, e);
    if e.Step? && e.p in s.procs {
      StepKeepsPrepared(s, e.p, e.choice);
      StepMovesInstall(s, e.p, e.choice);
      StepMoves(s, e.p, e.choice);
    }
    hide StepOf;
    forall q | q in t.procs ensures Prepared(t, q) {
      if q in s.procs && t.procs[q] == s.procs[q] && Critical(s.procs[q]) && !(e.Step? && e.p == q) {
        assert Prepared(s, q);
        assert e.Step? && e.p in s.procs ==> !Building(s.procs[e.p]);
        assert t.install == s.install;
      }
    }
  }

  lemma ApplyKeepsSound(s: System, e: Event)
    requires Sound(s) && !FindsStale(s, e)
    ensures Sound(Apply(s, e))
  {
    ApplyKeepsStaging(s, e);
    ApplyKeepsExclusive(s, e);
    ApplyKeepsSettled(s, e);
    ApplyKeepsUndisturbed(s, e);
  }

  lemma {:induction false} RunKeepsSound(s: System, events: seq<Event>)
    requires Sound(s) && LocksRespected(s, events)
    ensures Sound(Run(s, events))
    decreases |events|
  {
    if events != [] {
      ApplyKeepsSound(s, events[0]);
      RunKeepsSound(Apply(s, events[0]), events[1..]);
    }
  }

  // ------------------------------------------------------------------- good processes

  /** Nothing goes wrong at this step of `p`: no call fails, the download is the pinned archive, and the
      archive is extracted in full. */
  predicate Good(s: System, p: nat, choice: Choice)
    requires p in s.procs
  {
    match s.procs[p]
    case Download(_) => choice == Fetched(true)
    case Extract(_, dir) =>
      if choice.Write? then choice.file != Marker && choice.good
      else choice == Proceed && dir in s.staging && Validates(s.staging[dir])
    case _ => choice != Fail
  }

  predicate Behaves(s: System, e: Event, p: nat) {
    e != Crash(p) && (e.Step? && e.p == p && p in s.procs ==> Good(s, p, e.choice))
  }

  ghost predicate GoodRun(s: System, events: seq<Event>, p: nat)
    decreases |events|
  {
    events == [] || (Behaves(s, events[0], p) && GoodRun(Apply(s, events[0]), events[1..], p))
  }

  /** Not on the way to failure before the clock says `limit`. */
  predicate Hopeful(s: System, p: nat, limit: nat)
    requires p in s.procs
  {
    var phase := s.procs[p];
    && (phase.Begin? ==> limit <= s.now + 120_000)
    && (DeadlineOf(phase).Some? ==> limit <= DeadlineOf(phase).value)
    && (phase.Validate? ==> phase.dir in s.staging && Validates(s.staging[phase.dir]))
    && (phase.Cleanup? ==> phase.ok)
    && (phase.Unlock? ==> phase.ok)
    && (phase == Returned(false) ==> limit <= s.now)
    && !phase.Crashed?
  }

  /** What the invariants say about one process. */
  predicate OwnSound(s: System, p: nat)
    requires p in s.procs
  {
    OwnSettled(s, p) && Prepared(s, p) && !s.procs[p].Evict?
  }

  lemma OwnShare(s: System, p: nat)
    requires Sound(s) && p in s.procs
    ensures OwnSound(s, p)
  {
  }

  /** The first half of building: up to the staged tree. */
  predicate Early(phase: Phase) {
    phase.Recheck? || phase.Examine? || phase.Quarantine? || phase.Download? || phase.Stage? || phase.Extract?
  }

  lemma StepIs(s: System, p: nat, choice: Choice)
    requires p in s.procs && Good(s, p, choice)
    ensures StepOf(s, p, choice) == if !Critical(s.procs[p]) then Approach(s, p, s.procs[p])
                                    else if Early(s.procs[p]) then Prepare(s, p, s.procs[p], choice)
                                    else Conclude(s, p, s.procs[p])
  {
    hide Approach;
    hide Prepare;
    hide Conclude;
    hide Throw;
  }

  lemma ApproachStaysHopeful(s: System, p: nat, limit: nat)
    requires p in s.procs && OwnSound(s, p) && Hopeful(s, p, limit) && !Critical(s.procs[p])
    ensures var t := Approach(s, p, s.procs[p]); p in t.procs && Hopeful(t, p, limit)
  {
  }

  lemma PrepareStaysHopeful(s: System, p: nat, choice: Choice, limit: nat)
    requires p in s.procs && OwnSound(s, p) && Hopeful(s, p, limit) && Good(s, p, choice) && Early(s.procs[p])
    ensures var t := Prepare(s, p, s.procs[p], choice); p in t.procs && Hopeful(t, p, limit)
  {
  }

  lemma ConcludeStaysHopeful(s: System, p: nat, limit: nat)
    requires p in s.procs && OwnSound(s, p) && Hopeful(s, p, limit) && Critical(s.procs[p]) && !Early(s.procs[p])
    ensures var t := Conclude(s, p, s.procs[p]); p in t.procs && Hopeful(t, p, limit)
  {
  }

  lemma StepKeepsHope(s: System, p: nat, choice: Choice, limit: nat)
    requires p in s.procs && OwnSound(s, p) && Hopeful(s, p, limit) && Good(s, p, choice)
    ensures var t := StepOf(s, p, choice); p in t.procs && Hopeful(t, p, limit)
  {
    hide StepOf;
    hide Approach;
    hide Prepare;
    hide Conclude;
    hide Hopeful;
    hide OwnSound;
    StepIs(s, p, choice);
    if !Critical(s.procs[p]) {
      ApproachStaysHopeful(s, p, limit);
    } else if Early(s.procs[p]) {
      PrepareStaysHopeful(s, p, choice, limit);
    } else {
      ConcludeStaysHopeful(s, p, limit);
    }
  }

  lemma OthersKeepHope(s: System, e: Event, p: nat, limit: nat)
    requires Sound(s) && p in s.procs && Hopeful(s, p, limit) && e != Crash(p) && !(e.Step? && e.p == p)
    ensures var t := Apply(s, e); p in t.procs && t.procs[p] == s.procs[p] && Hopeful(t, p, limit)
  {
    if e.Step? && e.p in s.procs {
      StepMoves(s, e.p, e.choice);
      StepKeepsTime(s, e.p, e.choice);
      assert StagedBy(s.procs[e.p]).Some? ==> StagedBy(s.procs[e.p]) != StagedBy(s.procs[p]);
      hide StepOf;
      hide Settled;
      hide Exclusive;
    }
  }

  lemma StepKeepsTime(s: System, p: nat, choice: Choice)
    requires p in s.procs
    ensures StepOf(s, p, choice).now == s.now
  {
  }

  lemma ApplyKeepsHope(s: System, e: Event, p: nat, limit: nat)
    requires Sound(s) && p in s.procs && Hopeful(s, p, limit) && Behaves(s, e, p)
    ensures p in Apply(s, e).procs && Hopeful(Apply(s, e), p, limit)
  {
    if e.Step? && e.p == p {
      OwnShare(s, p);
      StepKeepsHope(s, p, e.choice, limit);
      hide StepOf;
      hide Sound;
      hide Hopeful;
    } else {
      OthersKeepHope(s, e, p, limit);
    }
  }

  lemma {:induction false} RunKeepsHope(s: System, events: seq<Event>, p: nat, limit: nat)
    requires Sound(s) && LocksRespected(s, events) && GoodRun(s, events, p)
    requires p in s.procs ==> Hopeful(s, p, limit)
    requires limit <= s.now + 120_000 || p in s.procs
    ensures p in Run(s, events).procs ==> Hopeful(Run(s, events), p, limit)
    decreases |events|
  {
    if events != [] {
      var e, t := events[0], Apply(s, events[0]);
      ApplyKeepsSound(s, e);
      if p in s.procs {
        ApplyKeepsHope(s, e, p, limit);
      } else {
        AbsentStaysAbsent(s, e, p);
      }
      hide Apply;
      hide Sound;
      hide Hopeful;
      RunKeepsHope(t, events[1..], p, limit);
    }
  }

  lemma AbsentStaysAbsent(s: System, e: Event, p: nat)
    requires p !in s.procs
    ensures var t := Apply(s, e); t.now >= s.now && (p in t.procs ==> t.procs[p] == Begin && t.now == s.now)
  {
    if e.Step? && e.p in s.procs {
      StepKeepsTime(s, e.p, e.choice);
    }
  }

  /** In the runs that never find a stale lock: whatever the other processes do and however they crash, a
      process at which nothing goes wrong can fail in one way only, by waiting two minutes for the lock. */
  lemma OnlyTimeoutsFail(s: System, before: seq<Event>, after: seq<Event>, p: nat)
    requires Initial(s) && LocksRespected(s, before + after)
    requires var start := Run(s, before); p !in start.procs && GoodRun(start, after, p)
    requires p in Run(s, before + after).procs
    ensures var start, last := Run(s, before), Run(s, before + after);
            && last.procs[p] != Crashed
            && (last.procs[p] == Returned(false) ==> last.now >= start.now + 120_000)
            && (last.procs[p] == Returned(true) ==> Installed(last.install))
  {
    RunConcat(s, before, after);
    RunKeepsSound(s, before);
    RunKeepsHope(Run(s, before), after, p, Run(s, before).now + 120_000);
    RunKeepsSound(Run(s, before), after);
  }

  // ----------------------------------------------------------- how many steps it takes

  /** More than the number of steps to the end that are neither the writing of a file nor a retry of a
      staging name. */
  function Rank(phase: Phase): nat {
    match phase
    case Inspect(_) => 16
    case Begin => 15
    case Evict(_) => 15
    case Wait(_) => 15
    case Contend(_) => 14
    case Recheck(_) => 13
    case Examine(_) => 12
    case Quarantine(_) => 11
    case Download(_) => 10
    case Stage(_) => 9
    case Extract(_, _) => 8
    case Validate(_, _) => 7
    case Mark(_, _) => 6
    case Marking(_, _) => 5
    case Publish(_, _) => 4
    case Confirm(_) => 3
    case Cleanup(_, _, _) => 2
    case Unlock(_, _) => 1
    case Peek(_) => 2
    case Reuse => 1
    case Returned(_) => 0
    case Crashed => 0
  }

  /** A step of `p` that is neither the writing of a file nor a name that is taken. */
  predicate Working(s: System, e: Event, p: nat) {
    && e.Step? && e.p == p && p in s.procs
    && (s.procs[p].Stage? ==> e.choice.Named? && e.choice.dir !in s.staging)
    && (s.procs[p].Extract? ==> !e.choice.Write?)
  }

  function Work(s: System, events: seq<Event>, p: nat): nat
    decreases |events|
  {
    if events == [] then 0
    else (if Working(s, events[0], p) then 1 else 0) + Work(Apply(s, events[0]), events[1..], p)
  }

  /** A process that does not depend on when another gives the lock back. */
  predicate Assured(s: System, p: nat)
    requires p in s.procs
  {
    Critical(s.procs[p]) || Installed(s.install) || s.procs[p].Returned?
  }

  /** Nobody holds the lock and `p` is about to take it. */
  predicate Next(s: System, p: nat)
    requires p in s.procs
  {
    s.lock.None? && (s.procs[p].Begin? || s.procs[p].Contend?)
  }

  lemma ApproachAdvances(s: System, p: nat)
    requires p in s.procs && OwnSound(s, p) && !Critical(s.procs[p]) && !s.procs[p].Crashed?
    requires Assured(s, p) || Next(s, p)
    ensures var t := Approach(s, p, s.procs[p]);
            && p in t.procs && (Assured(t, p) || (!Assured(s, p) && Next(t, p)))
            && (Rank(t.procs[p]) < Rank(s.procs[p]) || t.procs[p].Returned?)
  {
  }

  lemma PrepareAdvances(s: System, p: nat, choice: Choice)
    requires p in s.procs && OwnSound(s, p) && Good(s, p, choice) && Early(s.procs[p])
    ensures var t := Prepare(s, p, s.procs[p], choice);
            && p in t.procs && Critical(t.procs[p])
            && Rank(t.procs[p]) + (if Working(s, Step(p, choice), p) then 1 else 0) <= Rank(s.procs[p])
  {
  }

  lemma ConcludeAdvances(s: System, p: nat)
    requires p in s.procs && OwnSound(s, p) && Critical(s.procs[p]) && !Early(s.procs[p])
    ensures var t := Conclude(s, p, s.procs[p]);
            && p in t.procs && (Critical(t.procs[p]) || t.procs[p].Returned?) && Rank(t.procs[p]) < Rank(s.procs[p])
  {
  }

  lemma StepAdvances(s: System, p: nat, choice: Choice)
    requires p in s.procs && OwnSound(s, p) && Good(s, p, choice) && !s.procs[p].Crashed?
    requires Assured(s, p) || Next(s, p)
    ensures var t := StepOf(s, p, choice);
            && p in t.procs && (Assured(t, p) || (!Assured(s, p) && Next(t, p)))
            && (t.procs[p].Returned? || Rank(t.procs[p]) + (if Working(s, Step(p, choice), p) then 1 else 0) <= Rank(s.procs[p]))
  {
    hide StepOf;
    hide Approach;
    hide Prepare;
    hide Conclude;
    hide OwnSound;
    StepIs(s, p, choice);
    if !Critical(s.procs[p]) {
      ApproachAdvances(s, p);
    } else if Early(s.procs[p]) {
      PrepareAdvances(s, p, choice);
    } else {
      ConcludeAdvances(s, p);
    }
  }

  lemma OthersKeepAssurance(s: System, e: Event, p: nat)
    requires Sound(s) && p in s.procs && Assured(s, p) && e != Crash(p) && !(e.Step? && e.p == p)
    ensures var t := Apply(s, e); p in t.procs && t.procs[p] == s.procs[p] && Assured(t, p)
  {
    ApplyKeepsSettled(s, e);
    if e.Step? && e.p in s.procs {
      StepMoves(s, e.p, e.choice);
      hide StepOf;
    }
  }

  /** Only `p` acts. */
  predicate Alone(events: seq<Event>, p: nat) {
    forall e | e in events :: e.Tick? || (e.Step? && e.p == p)
  }

  /** What one event does to a process that is sure to get to its end. */
  lemma ApplyAdvances(s: System, e: Event, p: nat, limit: nat)
    requires Sound(s) && p in s.procs && Hopeful(s, p, limit) && Behaves(s, e, p)
    requires Assured(s, p) || (Next(s, p) && Alone([e], p))
    ensures var t := Apply(s, e);
            && p in t.procs && (Assured(t, p) || (!Assured(s, p) && Next(t, p)))
            && (t.procs[p].Returned? || Rank(t.procs[p]) + (if Working(s, e, p) then 1 else 0) <= Rank(s.procs[p]))
  {
    if e.Step? && e.p == p {
      OwnShare(s, p);
      StepAdvances(s, p, e.choice);
      hide StepOf;
      hide Sound;
      hide OwnSound;
    } else if Assured(s, p) {
      OthersKeepAssurance(s, e, p);
    } else {
      assert [e][0] in [e];
    }
  }

  lemma {:induction false} RunAdvances(s: System, events: seq<Event>, p: nat, limit: nat)
    requires Sound(s) && LocksRespected(s, events) && p in s.procs && Hopeful(s, p, limit) && GoodRun(s, events, p)
    requires Assured(s, p) || (Next(s, p) && Alone(events, p))
    requires s.procs[p].Returned? || Rank(s.procs[p]) <= Work(s, events, p)
    ensures var t := Run(s, events); p in t.procs && Hopeful(t, p, limit) && t.procs[p].Returned?
    decreases |events|
  {
    if events != [] {
      var e, t := events[0], Apply(s, events[0]);
      assert Alone(events, p) ==> Alone([e], p) && Alone(events[1..], p) by {
        assert e in events && forall x | x in events[1..] :: x in events;
      }
      ApplyKeepsSound(s, e);
      ApplyKeepsHope(s, e, p, limit);
      ApplyAdvances(s, e, p, limit);
      ReturnedStays(s, e, p);
      hide Apply;
      hide Sound;
      hide Hopeful;
      RunAdvances(t, events[1..], p, limit);
    }
  }

  lemma ReturnedStays(s: System, e: Event, p: nat)
    requires p in s.procs
    ensures s.procs[p].Returned? ==> p in Apply(s, e).procs && Apply(s, e).procs[p] == s.procs[p]
  {
    if e.Step? && e.p in s.procs && e.p != p {
      hide StepOf;
      StepWaitsOn(s, e.p, e.choice);
    }
  }

  /** Once a process holds the lock, or once a complete install is in place, sixteen steps of its own get
      it to its end, whatever the others do in between; if nothing goes wrong at it, that end is success
      unless it waited for two minutes. */
  lemma AssuredProcessesSucceed(s: System, before: seq<Event>, after: seq<Event>, p: nat, limit: nat)
    requires Initial(s) && LocksRespected(s, before + after)
    requires var now := Run(s, before);
             && p in now.procs && Hopeful(now, p, limit) && Assured(now, p)
             && GoodRun(now, after, p) && Work(now, after, p) >= 16
    ensures var last := Run(s, before + after);
            && p in last.procs && last.procs[p].Returned?
            && (last.procs[p].ok ==> Installed(last.install))
            && (!last.procs[p].ok ==> last.now >= limit)
  {
    hide Apply;
    hide Run;
    RunConcat(s, before, after);
    RunKeepsSound(s, before);
    RunAdvances(Run(s, before), after, p, limit);
    RunKeepsSound(Run(s, before), after);
  }

  // ------------------------------------------------------------------------ the exits

  /** Where a process can leave early, it answers what is at the install path then. */
  lemma ExitsAnswerTheInstall(s: System, p: nat)
    requires p in s.procs
    ensures var t := Apply(s, Step(p, Proceed)).procs;
            && (s.procs[p].Begin? && Installed(s.install) ==> t == s.procs[p := Returned(true)])
            && (s.procs[p].Reuse? ==> t == s.procs[p := Returned(Installed(s.install))])
            && (s.procs[p].Recheck? && Installed(s.install) ==> t == s.procs[p := Cleanup(s.procs[p].since, None, true)])
            && (s.procs[p].Recheck? && !Installed(s.install) ==> t == s.procs[p := Examine(s.procs[p].since)])
  {
    hide Conclude;
    hide Throw;
  }

  /** A process that waits: it takes the lock whenever it finds none, looks for an install and at the age of
      the lock in turn, and removes only a lock it found older than fifteen minutes. */
  lemma WaitersTakeTurns(s: System, p: nat)
    requires p in s.procs && DeadlineOf(s.procs[p]).Some?
    ensures var t, d := Apply(s, Step(p, Proceed)), DeadlineOf(s.procs[p]).value;
            && t.lock == (if s.procs[p].Evict? then None
                          else if s.procs[p].Contend? && s.lock.None? then Some(s.now) else s.lock)
            && t == s.(procs := t.procs, lock := t.lock) && p in t.procs && t.procs == s.procs[p := t.procs[p]]
            && (s.procs[p].Contend? ==> t.procs[p] == if s.lock.None? then Recheck(s.now) else Peek(d))
            && (s.procs[p].Peek? ==> t.procs[p] == if Installed(s.install) then Reuse else Inspect(d))
            && (s.procs[p].Inspect? ==>
                  t.procs[p] == if s.lock.None? then Contend(d) else if s.now > s.lock.value + 900_000 then Evict(d) else Wait(d))
            && (s.procs[p].Evict? ==> t.procs[p] == Contend(d))
  {
    hide Prepare;
    hide Conclude;
    hide Throw;
  }

  /** Where a process is that many steps after it renamed its tree into place. */
  function Ending(since: nat, steps: nat): Phase {
    match steps
    case 0 => Confirm(since)
    case 1 => Cleanup(since, None, true)
    case 2 => Unlock(since, true)
    case _ => Returned(true)
  }

  function Steps(events: seq<Event>, p: nat): nat {
    if events == [] then 0 else Own(events[0], p) + Steps(events[1..], p)
  }

  predicate Unharmed(events: seq<Event>, p: nat) {
    forall i | 0 <= i < |events| :: events[i] != Crash(p) && events[i] != Step(p, Fail)
  }

  lemma EndingStep(s: System, p: nat, choice: Choice, since: nat, steps: nat)
    requires p in s.procs && Prepared(s, p) && s.procs[p] == Ending(since, steps) && choice != Fail
    ensures p in StepOf(s, p, choice).procs && StepOf(s, p, choice).procs[p] == Ending(since, steps + 1)
  {
    hide Prepare;
    if steps >= 3 {
      hide Conclude;
    } else {
      hide Approach;
    }
  }

  function Own(e: Event, p: nat): nat {
    if e.Step? && e.p == p then 1 else 0
  }

  lemma EndingApplies(s: System, e: Event, p: nat, since: nat, steps: nat)
    requires Sound(s) && !FindsStale(s, e) && e != Crash(p) && e != Step(p, Fail)
    requires p in s.procs && s.procs[p] == Ending(since, steps)
    ensures var t := Apply(s, e); Sound(t) && p in t.procs && t.procs[p] == Ending(since, steps + Own(e, p))
  {
    hide StepOf;
    hide Sound;
    hide Ending;
    hide FindsStale;
    hide OwnSettled;
    ApplyKeepsSound(s, e);
    OwnShare(s, p);
    if e.Step? && e.p == p {
      EndingStep(s, p, e.choice, since, steps);
    } else if e.Step? && e.p in s.procs {
      StepWaitsOn(s, e.p, e.choice);
    }
  }

  lemma {:induction false} EndingRun(s: System, events: seq<Event>, p: nat, since: nat, steps: nat)
    requires Sound(s) && LocksRespected(s, events) && Unharmed(events, p)
    requires p in s.procs && s.procs[p] == Ending(since, steps)
    ensures p in Run(s, events).procs && Run(s, events).procs[p] == Ending(since, steps + Steps(events, p))
    decreases |events|
  {
    hide Apply;
    hide Sound;
    hide Ending;
    hide FindsStale;
    if events != [] {
      var e := events[0];
      EndingApplies(s, e, p, since, steps);
      EndingRun(Apply(s, e), events[1..], p, since, steps + Own(e, p));
    }
  }

  /** A process that has renamed its tree into place validates it, cleans up, gives the lock back and
      returns success: its next three steps do that, however the steps of others come in between. */
  lemma RenamedReturnsSuccess(s: System, before: seq<Event>, after: seq<Event>, p: nat)
    requires Initial(s) && LocksRespected(s, before + after) && Unharmed(after, p)
    requires p in Run(s, before).procs && Run(s, before).procs[p].Confirm?
    ensures var last := Run(s, before + after);
            && p in last.procs && last.procs[p] == Ending(Run(s, before).procs[p].since, Steps(after, p))
            && last.install == Run(s, before).install && Installed(last.install)
  {
    hide Apply;
    hide Run;
    RunConcat(s, before, after);
    RunKeepsSound(s, before);
    OwnShare(Run(s, before), p);
    EndingRun(Run(s, before), after, p, Run(s, before).procs[p].since, 0);
    RunKeepsOrder(Run(s, before), after);
  }

  /** What goes wrong inside: a call fails, the download is not the pinned archive, the staged files do not
      validate, what was to be quarantined is gone, or something is in the way of the rename. */
  predicate GoesWrong(s: System, p: nat, choice: Choice)
    requires p in s.procs
  {
    var phase := s.procs[p];
    && Critical(phase) && !phase.Cleanup? && !phase.Unlock?
    && (|| choice == Fail
        || (phase.Download? && choice != Fetched(true))
        || (phase.Validate? && !(phase.dir in s.staging && Validates(s.staging[phase.dir])))
        || (phase.Quarantine? && s.install.None?)
        || (phase.Publish? && s.install.Some? && s.install.value != map[]))
  }

  function OwnDirectory(phase: Phase): set<nat> {
    if StagedBy(phase).Some? then {StagedBy(phase).value} else {}
  }

  lemma WrongStep(s: System, p: nat, choice: Choice)
    requires p in s.procs && GoesWrong(s, p, choice)
    ensures var t := Apply(s, Step(p, choice));
            && t == Goto(s.(downloads := t.downloads), p, Cleanup(s.procs[p].since, StagedBy(s.procs[p]), false))
            && t.downloads == s.downloads + (if s.procs[p].Download? && choice != Fail then 1 else 0)
  {
    hide Approach;
    if choice == Fail {
      hide Prepare;
      hide Conclude;
    } else {
      hide Throw;
    }
  }

  /** A process at which something goes wrong inside removes its staging directory, gives the lock back
      and fails, and changes nothing else but the count of downloads. */
  lemma FailuresCleanUp(s: System, p: nat, choice: Choice)
    requires p in s.procs && GoesWrong(s, p, choice)
    ensures var t := Run(s, [Step(p, choice), Step(p, Proceed)] + [Step(p, Proceed)]);
            t == Goto(s.(lock := None, staging := s.staging - OwnDirectory(s.procs[p]), downloads := t.downloads), p, Returned(false))
  {
    var go := Step(p, Proceed);
    var since, staged := s.procs[p].since, StagedBy(s.procs[p]);
    var more := s.(downloads := Apply(s, Step(p, choice)).downloads);
    var tidy := more.(staging := s.staging - OwnDirectory(s.procs[p]));
    var s1, s2 := Goto(more, p, Cleanup(since, staged, false)), Goto(tidy, p, Unlock(since, false));
    WrongStep(s, p, choice);
    GotoTwice(tidy, p, Cleanup(since, staged, false), Unlock(since, false));
    GotoTwice(tidy.(lock := None), p, Unlock(since, false), Returned(false));
    CleanerSteps(more, p, since, staged);
    assert s.staging - {} == s.staging;
    hide Apply;
    hide Run;
    RunTwo(s, Step(p, choice), go);
    RunOne(s2, go);
    RunConcat(s, [Step(p, choice), go], [go]);
  }

  lemma CleanerSteps(s: System, p: nat, since: nat, staged: Option<nat>)
    ensures var tidy := s.(staging := if staged.Some? then s.staging - {staged.value} else s.staging);
            && Apply(Goto(s, p, Cleanup(since, staged, false)), Step(p, Proceed)) == Goto(tidy, p, Unlock(since, false))
            && Apply(Goto(tidy, p, Unlock(since, false)), Step(p, Proceed)) == Goto(tidy.(lock := None), p, Returned(false))
  {
    var tidy := s.(staging := if staged.Some? then s.staging - {staged.value} else s.staging);
    GotoTwice(tidy, p, Cleanup(since, staged, false), Unlock(since, false));
    GotoTwice(tidy.(lock := None), p, Unlock(since, false), Returned(false));
    hide Approach;
    hide Prepare;
  }

  // ------------------------------------------------------------------- a lone installer

  /** `p` is the only process: the lock is there only while it is inside, and it never has to wait. */
  predicate Solo(s: System, p: nat) {
    && s.procs.Keys == {p}
    && (Critical(s.procs[p]) || (s.lock.None? && (s.procs[p].Begin? || s.procs[p].Contend? || s.procs[p].Returned?)))
  }

  lemma SoloStep(s: System, p: nat, choice: Choice)
    requires Solo(s, p)
    ensures Solo(StepOf(s, p, choice), p)
  {
    StepWaitsOn(s, p, choice);
    StepMovesLock(s, p, choice);
    if Critical(s.procs[p]) {
      CriticalStays(s, p, choice);
      hide StepOf;
    } else {
      hide Prepare;
      hide Conclude;
    }
  }

  lemma CriticalStays(s: System, p: nat, choice: Choice)
    requires p in s.procs && Critical(s.procs[p])
    ensures var t := StepOf(s, p, choice); p in t.procs && (Critical(t.procs[p]) || t.procs[p].Returned?)
  {
    hide Approach;
    assert var t := Prepare(s, p, s.procs[p], choice); p in t.procs && Critical(t.procs[p]) by { hide Conclude; hide Throw; }
    hide Prepare;
  }

  lemma {:induction false} SoloRun(s: System, events: seq<Event>, p: nat)
    requires Solo(s, p) && Alone(events, p)
    ensures Solo(Run(s, events), p) && LocksRespected(s, events)
    decreases |events|
  {
    if events != [] {
      var e := events[0];
      assert e in events && forall x | x in events[1..] :: x in events;
      if e.Step? {
        SoloStep(s, p, e.choice);
      }
      hide StepOf;
      SoloRun(Apply(s, e), events[1..], p);
    }
  }

  lemma {:induction false} SoloNeverFails(s: System, events: seq<Event>, p: nat)
    requires Sound(s) && Solo(s, p) && Alone(events, p) && GoodRun(s, events, p)
    requires Hopeful(s, p, 0) && s.procs[p] != Returned(false)
    ensures Solo(Run(s, events), p) && Run(s, events).procs[p] != Returned(false)
    decreases |events|
  {
    if events != [] {
      var e := events[0];
      assert e in events && [e][0] == e;
      SoloApplies(s, e, p);
      assert forall x | x in events[1..] :: x in events;
      hide Sound;
      hide Hopeful;
      hide Apply;
      SoloNeverFails(Apply(s, e), events[1..], p);
    }
  }

  lemma TakesTheLock(s: System, p: nat, choice: Choice)
    requires p in s.procs && Good(s, p, choice) && s.lock.None?
    requires s.procs[p].Begin? || s.procs[p].Contend? || s.procs[p] == Returned(true)
    ensures var t := StepOf(s, p, choice); p in t.procs && t.procs[p] != Returned(false)
  {
    hide Prepare;
    hide Conclude;
    hide Throw;
  }

  lemma SoloApplies(s: System, e: Event, p: nat)
    requires Sound(s) && Solo(s, p) && Alone([e], p) && Behaves(s, e, p)
    requires Hopeful(s, p, 0) && s.procs[p] != Returned(false)
    ensures var t := Apply(s, e); Sound(t) && Solo(t, p) && Hopeful(t, p, 0) && t.procs[p] != Returned(false)
  {
    hide StepOf;
    hide Sound;
    hide Good;
    assert e == [e][0] && e in [e];
    ApplyKeepsSound(s, e);
    ApplyKeepsHope(s, e, p, 0);
    if e.Step? {
      SoloStep(s, p, e.choice);
      if Critical(s.procs[p]) {
        StepKeepsTime(s, p, e.choice);
        ApplyKeepsHope(s, e, p, s.now + 1);
      } else {
        TakesTheLock(s, p, e.choice);
      }
    }
  }

  /** An installer that nobody disturbs, over any cache without a lock and whatever is at the install path:
      if nothing goes wrong, sixteen steps besides the writing of files end in success, with a complete
      install in place and the lock given back. */
  lemma AloneInstalls(s: System, events: seq<Event>, p: nat)
    requires Initial(s) && s.lock.None? && Alone(events, p)
    requires var start := Apply(s, Spawn(p)); GoodRun(start, events, p) && Work(start, events, p) >= 16
    ensures var last := Run(Apply(s, Spawn(p)), events);
            last.procs == map[p := Returned(true)] && Installed(last.install) && last.lock.None?
  {
    var start := Goto(s, p, Begin);
    assert start == Apply(s, Spawn(p));
    SoloRun(start, events, p);
    var last := Run(start, events);
    hide Apply;
    hide Run;
    SoloNeverFails(start, events, p);
    RunAdvances(start, events, p, 0);
    RunKeepsSound(start, events);
    assert last.procs == map[p := last.procs[p]];
  }

  /** One such run: the calls of a first install that stages in `d`. */
  function InstallCalls(p: nat, d: nat): seq<Event> {
    EnterCalls(p) + Twice(p) + BuildCalls(p, d) + LeaveCalls(p)
  }

  function EnterCalls(p: nat): seq<Event> {
    [Spawn(p), Step(p, Proceed)] + [Step(p, Proceed)]
  }

  function LeaveCalls(p: nat): seq<Event> {
    Twice(p) + [Step(p, Proceed)]
  }

  lemma RunOne(s: System, e: Event)
    ensures Run(s, [e]) == Apply(s, e)
  {
    hide Apply;
    assert [e][1..] == [] && Run(Apply(s, e), []) == Apply(s, e);
  }

  lemma EntererSteps(s: System, p: nat)
    requires s.lock.None? && s.install.None? && p !in s.procs
    ensures Run(s, EnterCalls(p)) == Goto(s.(lock := Some(s.now)), p, Recheck(s.now))
  {
    var go := Step(p, Proceed);
    var d := s.now + LOCK_WAIT_TIMEOUT;
    var s1, s2 := Goto(s, p, Begin), Goto(s, p, Contend(d));
    GotoTwice(s, p, Begin, Contend(d));
    GotoTwice(s.(lock := Some(s.now)), p, Contend(d), Recheck(s.now));
    assert Apply(s, Spawn(p)) == s1 && Apply(s1, go) == s2;
    assert Apply(s2, go) == Goto(s.(lock := Some(s.now)), p, Recheck(s.now));
    hide Apply;
    hide Run;
    RunTwo(s, Spawn(p), go);
    RunOne(s2, go);
    RunConcat(s, [Spawn(p), go], [go]);
  }

  lemma LeaverSteps(s: System, p: nat, since: nat)
    requires Installed(s.install) && p in s.procs && s.procs[p] == Confirm(since)
    ensures Run(s, LeaveCalls(p)) == Goto(s.(lock := None), p, Returned(true))
  {
    var go := Step(p, Proceed);
    var s1, s2 := Goto(s, p, Cleanup(since, None, true)), Goto(s, p, Unlock(since, true));
    GotoTwice(s, p, Cleanup(since, None, true), Unlock(since, true));
    GotoTwice(s.(lock := None), p, Unlock(since, true), Returned(true));
    assert Apply(s, go) == s1 && Apply(s1, go) == s2;
    assert Apply(s2, go) == Goto(s.(lock := None), p, Returned(true));
    hide Apply;
    hide Run;
    RunTwo(s, go, go);
    RunOne(s2, go);
    RunConcat(s, Twice(p), [go]);
  }

  lemma InstallerBuilds(s: System, p: nat, d: nat)
    requires s.lock.None? && s.install.None? && p !in s.procs && d !in s.staging
    ensures Run(s, EnterCalls(p) + Twice(p) + BuildCalls(p, d))
         == Goto(s.(lock := Some(s.now), downloads := s.downloads + 1, install := Some(TREE)), p, Confirm(s.now))
  {
    hide Run;
    hide BuildCalls;
    hide Twice;
    hide EnterCalls;
    var held := s.(lock := Some(s.now));
    EntererSteps(s, p);
    BuilderEnters(Goto(held, p, Recheck(s.now)), p, s.now);
    GotoTwice(held, p, Recheck(s.now), Download(s.now));
    BuilderBuilds(Goto(held, p, Download(s.now)), p, d, s.now);
    GotoTwice(held.(downloads := s.downloads + 1, install := Some(TREE)), p, Download(s.now), Confirm(s.now));
    RunConcat(s, EnterCalls(p), Twice(p));
    RunConcat(s, EnterCalls(p) + Twice(p), BuildCalls(p, d));
  }

  /** It downloads once, and but for the installed tree the cache is as before. */
  lemma FirstInstall(s: System, p: nat, d: nat)
    requires s.lock.None? && s.install.None? && p !in s.procs && d !in s.staging
    ensures Run(s, InstallCalls(p, d)) == Goto(s.(install := Some(TREE), downloads := s.downloads + 1), p, Returned(true))
    ensures Complete(TREE)
  {
    hide Run;
    hide BuildCalls;
    hide Twice;
    hide EnterCalls;
    hide LeaveCalls;
    var built := s.(lock := Some(s.now), downloads := s.downloads + 1, install := Some(TREE));
    InstallerBuilds(s, p, d);
    LeaverSteps(Goto(built, p, Confirm(s.now)), p, s.now);
    GotoTwice(built.(lock := None), p, Confirm(s.now), Returned(true));
    RunConcat(s, EnterCalls(p) + Twice(p) + BuildCalls(p, d), LeaveCalls(p));
  }

  // ------------------------------------------------------------------ nothing left behind

  /** Every staging directory was there at the start and is as it was, or belongs to a process. */
  ghost predicate Tidy(s: System, origin: map<nat, Tree>) {
    && (forall d | d in s.staging && d !in origin :: exists p :: p in s.procs && StagedBy(s.procs[p]) == Some(d))
    && (forall d | d in origin :: d in s.staging && s.staging[d] == origin[d])
    && (forall p | p in s.procs && StagedBy(s.procs[p]).Some? :: StagedBy(s.procs[p]).value !in origin)
  }

  /** The step of `p` makes no directory but its own, and takes its own along or removes it. */
  predicate TidyStep(s: System, t: System, p: nat)
    requires p in s.procs && p in t.procs
  {
    && (forall d | d in t.staging :: d in s.staging || StagedBy(t.procs[p]) == Some(d))
    && (StagedBy(s.procs[p]).Some? && StagedBy(t.procs[p]) != StagedBy(s.procs[p]) ==>
          StagedBy(s.procs[p]).value !in t.staging)
  }

  lemma ThrowTidies(s: System, p: nat)
    requires p in s.procs
    ensures var t := Throw(s, p, s.procs[p]); p in t.procs && TidyStep(s, t, p)
  {
  }

  lemma ApproachTidies(s: System, p: nat)
    requires p in s.procs && !Critical(s.procs[p])
    ensures var t := Approach(s, p, s.procs[p]); p in t.procs && TidyStep(s, t, p)
  {
  }

  lemma PrepareTidies(s: System, p: nat, choice: Choice)
    requires p in s.procs && Critical(s.procs[p])
    ensures var t := Prepare(s, p, s.procs[p], choice); p in t.procs && TidyStep(s, t, p)
  {
  }

  lemma ConcludeTidies(s: System, p: nat)
    requires p in s.procs && Critical(s.procs[p])
    ensures var t := Conclude(s, p, s.procs[p]); p in t.procs && TidyStep(s, t, p)
  {
  }

  lemma StepTidies(s: System, p: nat, choice: Choice)
    requires p in s.procs
    ensures var t := StepOf(s, p, choice); p in t.procs && TidyStep(s, t, p)
  {
    hide Throw;
    hide Approach;
    hide Prepare;
    hide Conclude;
    hide TidyStep;
    ThrowTidies(s, p);
    if Critical(s.procs[p]) {
      PrepareTidies(s, p, choice);
      ConcludeTidies(s, p);
    } else {
      ApproachTidies(s, p);
    }
  }

  lemma TidyStepKeeps(s: System, t: System, p: nat, origin: map<nat, Tree>)
    requires p in s.procs && p in t.procs && Tidy(s, origin) && Moves(s, t, p) && TidyStep(s, t, p)
    ensures Tidy(t, origin)
  {
    forall d | d in t.staging && d !in origin ensures exists q :: q in t.procs && StagedBy(t.procs[q]) == Some(d) {
      if StagedBy(t.procs[p]) != Some(d) {
        var q :| q in s.procs && StagedBy(s.procs[q]) == Some(d);
        assert q in t.procs && StagedBy(t.procs[q]) == Some(d);
      }
    }
  }

  lemma ApplyKeepsTidy(s: System, e: Event, origin: map<nat, Tree>)
    requires StagingSound(s) && Tidy(s, origin) && !e.Crash?
    ensures Tidy(Apply(s, e), origin)
  {
    var t := Apply(s, e);
    hide StepOf;
    if e.Step? && e.p in s.procs {
      StepMoves(s, e.p, e.choice);
      StepTidies(s, e.p, e.choice);
      TidyStepKeeps(s, t, e.p, origin);
    } else {
      forall d | d in t.staging && d !in origin ensures exists q :: q in t.procs && StagedBy(t.procs[q]) == Some(d) {
        var q :| q in s.procs && StagedBy(s.procs[q]) == Some(d);
        assert q in t.procs && StagedBy(t.procs[q]) == Some(d);
      }
    }
  }

  lemma {:induction false} RunKeepsTidy(s: System, events: seq<Event>, origin: map<nat, Tree>)
    requires StagingSound(s) && Tidy(s, origin) && forall e | e in events :: !e.Crash?
    ensures Tidy(Run(s, events), origin)
    decreases |events|
  {
    if events != [] {
      assert events[0] in events && forall e | e in events[1..] :: e in events;
      ApplyKeepsStaging(s, events[0]);
      ApplyKeepsTidy(s, events[0], origin);
      RunKeepsTidy(Apply(s, events[0]), events[1..], origin);
    }
  }

  /** If nobody crashes, whatever calls fail, then once all processes have returned the staging
      directories are those from before the first started, untouched. */
  lemma NothingLeftBehind(s: System, events: seq<Event>)
    requires Initial(s) && forall e | e in events :: !e.Crash?
    requires forall p | p in Run(s, events).procs :: Run(s, events).procs[p].Returned?
    ensures Run(s, events).staging == s.staging
  {
    hide Run;
    RunKeepsTidy(s, events, s.staging);
  }
}
