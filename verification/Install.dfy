/** Any number of installer processes over one shared cache directory. Every filesystem call is
    one step; steps of different processes interleave in any order, and a process may crash
    between any two of them. */
module Install {
  import opened Basics

  const STALE_LOCK_AGE: nat := 900_000
  const LOCK_WAIT_TIMEOUT: nat := 120_000

  // --------------------------------------------------------------- filesystem

  datatype File = License | Library | ManifestFile | Marker

  /** A directory's files; the flag tells whether the contents are the pinned ones. */
  type Tree = map<File, bool>

  /** Validation without the marker. Of the license only its presence is checked. */
  predicate Validates(t: Tree) {
    License in t && ManifestFile in t && t[ManifestFile] && Library in t && t[Library]
  }

  predicate Complete(t: Tree) {
    Validates(t) && Marker in t && t[Marker]
  }

  /** Where a process stands. `since` is when it made the lock directory; `dir` its staging root. */
  datatype Phase =
    | Begin
    | Contend(deadline: nat)
    | Peek(deadline: nat)
    | Inspect(deadline: nat)
    | Evict(deadline: nat)
    | Wait(deadline: nat)
    | Reuse
    | Recheck(since: nat)
    | Examine(since: nat)
    | Quarantine(since: nat)
    | Download(since: nat)
    | Stage(since: nat)
    | Extract(since: nat, dir: nat)
    | Validate(since: nat, dir: nat)
    | Mark(since: nat, dir: nat)
    | Marking(since: nat, dir: nat)
    | Publish(since: nat, dir: nat)
    | Confirm(since: nat)
    | Cleanup(since: nat, staged: Option<nat>, ok: bool)
    | Unlock(since: nat, ok: bool)
    | Returned(ok: bool)
    | Crashed

  datatype System = System(
    procs: map<nat, Phase>,
    lock: Option<nat>,          // the lock directory and its modification time
    install: Option<Tree>,
    staging: map<nat, Tree>,
    quarantined: seq<Tree>,
    downloads: nat,
    now: nat)

  datatype Choice = Proceed | Fail | Fetched(good: bool) | Named(dir: nat) | Write(file: File, good: bool)

  datatype Event = Spawn(p: nat) | Step(p: nat, choice: Choice) | Crash(p: nat) | Tick(elapsed: nat)

  predicate Installed(install: Option<Tree>) {
    install.Some? && Complete(install.value)
  }

  // --------------------------------------------------------------------- steps

  function Goto(s: System, p: nat, phase: Phase): System {
    s.(procs := s.procs[p := phase])
  }

  /** A process without the lock. */
  function Approach(s: System, p: nat, phase: Phase): System {
    match phase
    case Begin => if Installed(s.install) then Goto(s, p, Returned(true)) else Goto(s, p, Contend(s.now + LOCK_WAIT_TIMEOUT))
    case Contend(deadline) =>
      if s.lock.Some? then Goto(s, p, Peek(deadline))
      else Goto(s.(lock := Some(s.now)), p, Recheck(s.now))
    case Peek(deadline) => if Installed(s.install) then Goto(s, p, Reuse) else Goto(s, p, Inspect(deadline))
    case Inspect(deadline) =>
      if s.lock.None? then Goto(s, p, Contend(deadline))
      else if s.now - s.lock.value > STALE_LOCK_AGE then Goto(s, p, Evict(deadline))
      else Goto(s, p, Wait(deadline))
    case Evict(deadline) => Goto(s.(lock := None), p, Contend(deadline))
    case Wait(deadline) => Goto(s, p, if s.now >= deadline then Returned(false) else Contend(deadline))
    case Reuse => Goto(s, p, Returned(Installed(s.install)))
    case _ => s
  }

  /** A process that holds the lock, up to the staged tree. */
  function Prepare(s: System, p: nat, phase: Phase, choice: Choice): System {
    match phase
    case Recheck(since) =>
      if Installed(s.install) then Goto(s, p, Cleanup(since, None, true)) else Goto(s, p, Examine(since))
    case Examine(since) => Goto(s, p, if s.install.Some? then Quarantine(since) else Download(since))
    case Quarantine(since) =>
      if s.install.Some?
      then Goto(s.(install := None, quarantined := s.quarantined + [s.install.value]), p, Download(since))
      else Goto(s, p, Cleanup(since, None, false))
    case Download(since) =>
      var t := s.(downloads := s.downloads + 1);
      if choice == Fetched(true) then Goto(t, p, Stage(since)) else Goto(t, p, Cleanup(since, None, false))
    case Stage(since) =>
      if choice.Named? && choice.dir !in s.staging
      then Goto(s.(staging := s.staging[choice.dir := map[]]), p, Extract(since, choice.dir))
      else s
    case Extract(since, dir) =>
      if choice.Write? && choice.file != Marker && dir in s.staging
      then s.(staging := s.staging[dir := s.staging[dir][choice.file := choice.good]])
      else Goto(s, p, Validate(since, dir))
    case _ => s
  }

  /** A process that holds the lock, from the staged tree to the end. */
  function Conclude(s: System, p: nat, phase: Phase): System {
    match phase
    case Validate(since, dir) =>
      if dir in s.staging && Validates(s.staging[dir]) then Goto(s, p, Mark(since, dir))
      else Goto(s, p, Cleanup(since, Some(dir), false))
    case Mark(since, dir) =>
      if dir in s.staging then Goto(s.(staging := s.staging[dir := s.staging[dir][Marker := false]]), p, Marking(since, dir))
      else Goto(s, p, Cleanup(since, Some(dir), false))
    case Marking(since, dir) =>
      if dir in s.staging then Goto(s.(staging := s.staging[dir := s.staging[dir][Marker := true]]), p, Publish(since, dir))
      else Goto(s, p, Cleanup(since, Some(dir), false))
    case Publish(since, dir) =>
      // Renaming a directory fails on a target that exists and is not empty.
      if dir in s.staging && (s.install.None? || s.install.value == map[])
      then Goto(s.(install := Some(s.staging[dir]), staging := s.staging - {dir}), p, Confirm(since))
      else Goto(s, p, Cleanup(since, Some(dir), false))
    case Confirm(since) => Goto(s, p, Cleanup(since, None, Installed(s.install)))
    case Cleanup(since, staged, ok) =>
      Goto(s.(staging := if staged.Some? then s.staging - {staged.value} else s.staging), p, Unlock(since, ok))
    case Unlock(_, ok) => Goto(s.(lock := None), p, Returned(ok))
    case _ => s
  }

  /** An error thrown at a step that is not part of giving the lock back. */
  function Throw(s: System, p: nat, phase: Phase): System {
    if !Critical(phase) then (if phase.Returned? || phase.Crashed? then s else Goto(s, p, Returned(false)))
    else if phase.Cleanup? || phase.Unlock? then s
    else Goto(s, p, Cleanup(phase.since, StagedBy(phase), false))
  }

  /** Between making the lock directory and removing it. */
  predicate Critical(phase: Phase) {
    phase.Recheck? || Building(phase) || phase.Confirm? || phase.Cleanup? || phase.Unlock?
  }

  /** Has seen no complete install since it took the lock. */
  predicate Building(phase: Phase) {
    phase.Examine? || phase.Quarantine? || phase.Download? || phase.Stage? || phase.Extract? || phase.Validate?
    || phase.Mark? || phase.Marking? || phase.Publish?
  }

  function StagedBy(phase: Phase): Option<nat> {
    match phase
    case Extract(_, dir) => Some(dir)
    case Validate(_, dir) => Some(dir)
    case Mark(_, dir) => Some(dir)
    case Marking(_, dir) => Some(dir)
    case Publish(_, dir) => Some(dir)
    case Cleanup(_, staged, _) => staged
    case _ => None
  }

  function StepOf(s: System, p: nat, choice: Choice): System
    requires p in s.procs
  {
    var phase := s.procs[p];
    if choice.Fail? then Throw(s, p, phase)
    else if !Critical(phase) then Approach(s, p, phase)
    else if phase.Recheck? || phase.Examine? || phase.Quarantine? || phase.Download? || phase.Stage? || phase.Extract?
    then Prepare(s, p, phase, choice)
    else Conclude(s, p, phase)
  }

  /** `Crash` also stands for an error thrown while the lock is given back. */
  function Apply(s: System, e: Event): System {
    match e
    case Spawn(p) => if p in s.procs then s else Goto(s, p, Begin)
    case Step(p, choice) => if p in s.procs then StepOf(s, p, choice) else s
    case Crash(p) => if p in s.procs && !s.procs[p].Returned? then Goto(s, p, Crashed) else s
    case Tick(elapsed) => s.(now := s.now + elapsed)
  }

  function Run(s: System, events: seq<Event>): System
    decreases |events|
  {
    if events == [] then s else Run(Apply(s, events[0]), events[1..])
  }

  /** Before the first installer starts. The cache may hold anything: an install of unknown quality,
      abandoned staging directories, a lock left behind. */
  predicate Initial(s: System) {
    s.procs == map[] && s.quarantined == [] && s.downloads == 0
  }
}
