/** What a stale lock allows, and that nothing else does. */
module InstallRaces {
  import opened Basics
  import opened Install
  import opened InstallTheorems

  // ----------------------------------------------------------- what a stale lock allows

  /** Whenever the age of the lock has passed the stale age while its maker is still inside, a waiting
      process can be the second one inside three steps later. */
  lemma OverstayLetsAnotherIn(s: System, p: nat, q: nat)
    requires p in s.procs && q in s.procs && Critical(s.procs[p]) && s.procs[q].Inspect?
    requires s.lock == Some(s.procs[p].since) && s.now - s.procs[p].since > STALE_LOCK_AGE
    ensures var t := Run(s, [Step(q, Proceed), Step(q, Proceed), Step(q, Proceed)]);
            p != q && p in t.procs && q in t.procs && Critical(t.procs[p]) && Critical(t.procs[q])
  {
    var go := Step(q, Proceed);
    var deadline := s.procs[q].deadline;
    var s1 := Goto(s, q, Evict(deadline));
    var s2 := Goto(s1.(lock := None), q, Contend(deadline));
    var s3 := Goto(s2.(lock := Some(s.now)), q, Recheck(s.now));
    WaiterSteps(s, q);
    EvictorSteps(s1, q);
    hide Apply;
    assert Run(s, [go, go, go]) == s3 by {
      assert [go, go, go][1..] == [go, go] && [go, go][1..] == [go] && [go][1..] == [];
      assert Run(s3, []) == s3 && Run(s2, [go]) == s3 && Run(s1, [go, go]) == s3;
    }
  }

  lemma RunTwo(s: System, e: Event, f: Event)
    ensures Run(s, [e, f]) == Apply(Apply(s, e), f)
  {
    var s2 := Apply(Apply(s, e), f);
    assert [e, f][1..] == [f] && [f][1..] == [];
    assert Run(s2, []) == s2 && Run(Apply(s, e), [f]) == s2;
  }

  /** Both waiters pass the age test before either removes the lock, so the second removes the new lock
      of the first. */
  function BothEvict(p: nat, q: nat): seq<Event> {
    [Step(p, Proceed), Step(q, Proceed)] + [Step(p, Proceed), Step(p, Proceed)] + [Step(q, Proceed), Step(q, Proceed)]
  }

  /** Both hold what they take for the lock, and the lock is the second one's. */
  function BothInside(s: System, p: nat, q: nat): System {
    s.(lock := Some(s.now), procs := s.procs[p := Recheck(s.now)][q := Recheck(s.now)])
  }

  lemma WaiterSteps(s: System, p: nat)
    requires Stale(s) && p in s.procs && s.procs[p].Inspect?
    ensures Apply(s, Step(p, Proceed)) == Goto(s, p, Evict(s.procs[p].deadline))
  {
  }

  lemma EvictorSteps(s: System, p: nat)
    requires p in s.procs && s.procs[p].Evict?
    ensures var t := Goto(s.(lock := None), p, Contend(s.procs[p].deadline));
            && Apply(s, Step(p, Proceed)) == t
            && Apply(t, Step(p, Proceed)) == Goto(t.(lock := Some(s.now)), p, Recheck(s.now))
  {
  }

  lemma TwoWaitersGetIn(s: System, p: nat, q: nat)
    requires Stale(s) && p != q && p in s.procs && q in s.procs && s.procs[p].Inspect? && s.procs[q].Inspect?
    ensures Run(s, BothEvict(p, q)) == BothInside(s, p, q)
  {
    var d, e := s.procs[p].deadline, s.procs[q].deadline;
    var s1 := Goto(s, p, Evict(d));
    var s2 := Goto(s1, q, Evict(e));
    var s3 := Goto(s2.(lock := None), p, Contend(d));
    var s4 := Goto(s3.(lock := Some(s.now)), p, Recheck(s.now));
    var s5 := Goto(s4.(lock := None), q, Contend(e));
    var s6 := Goto(s5.(lock := Some(s.now)), q, Recheck(s.now));
    var first, second, third := [Step(p, Proceed), Step(q, Proceed)], [Step(p, Proceed), Step(p, Proceed)],
                                [Step(q, Proceed), Step(q, Proceed)];
    WaiterSteps(s, p);
    WaiterSteps(s1, q);
    EvictorSteps(s2, p);
    EvictorSteps(s4, q);
    hide Apply;
    hide Run;
    RunTwo(s, Step(p, Proceed), Step(q, Proceed));
    RunTwo(s2, Step(p, Proceed), Step(p, Proceed));
    RunTwo(s4, Step(q, Proceed), Step(q, Proceed));
    RunConcat(s, first, second);
    RunConcat(s, first + second, third);
    assert s6.procs == BothInside(s, p, q).procs;
  }

  /** A new process comes to wait at a lock. */
  function ComesToWait(p: nat): seq<Event> {
    [Spawn(p), Step(p, Proceed)] + [Step(p, Proceed), Step(p, Proceed)]
  }

  lemma NewcomerWaits(s: System, p: nat)
    requires s.lock.Some? && !Installed(s.install) && p !in s.procs
    ensures Run(s, ComesToWait(p)) == Goto(s, p, Inspect(s.now + LOCK_WAIT_TIMEOUT))
  {
    var d := s.now + LOCK_WAIT_TIMEOUT;
    var s1, s2, s3, s4 := Goto(s, p, Begin), Goto(s, p, Contend(d)), Goto(s, p, Peek(d)), Goto(s, p, Inspect(d));
    NewcomerSteps(s, p, d);
    hide Apply;
    hide Run;
    RunTwo(s, Spawn(p), Step(p, Proceed));
    RunTwo(s2, Step(p, Proceed), Step(p, Proceed));
    RunConcat(s, [Spawn(p), Step(p, Proceed)], [Step(p, Proceed), Step(p, Proceed)]);
  }

  lemma NewcomerSteps(s: System, p: nat, d: nat)
    requires s.lock.Some? && !Installed(s.install) && p !in s.procs && d == s.now + LOCK_WAIT_TIMEOUT
    ensures Apply(s, Spawn(p)) == Goto(s, p, Begin)
    ensures Apply(Goto(s, p, Begin), Step(p, Proceed)) == Goto(s, p, Contend(d))
    ensures Apply(Goto(s, p, Contend(d)), Step(p, Proceed)) == Goto(s, p, Peek(d))
    ensures Apply(Goto(s, p, Peek(d)), Step(p, Proceed)) == Goto(s, p, Inspect(d))
  {
    GotoTwice(s, p, Begin, Contend(d));
    GotoTwice(s, p, Contend(d), Peek(d));
    GotoTwice(s, p, Peek(d), Inspect(d));
  }

  lemma GotoTwice(s: System, p: nat, x: Phase, y: Phase)
    ensures Goto(Goto(s, p, x), p, y) == Goto(s, p, y)
  {
    assert s.procs[p := x][p := y] == s.procs[p := y];
  }

  /** Whenever a lock is stale and no install is complete, any two newcomers can both be inside without
      a crash and without any time passing. */
  lemma StaleLockLetsTwoIn(s: System, p: nat, q: nat)
    requires Stale(s) && !Installed(s.install) && p !in s.procs && q !in s.procs && p != q
    ensures Run(s, ComesToWait(p) + ComesToWait(q) + BothEvict(p, q)) == BothInside(s, p, q)
  {
    hide Apply;
    hide Run;
    hide ComesToWait;
    hide BothEvict;
    NewcomerWaits(s, p);
    var s1 := Goto(s, p, Inspect(s.now + LOCK_WAIT_TIMEOUT));
    NewcomerWaits(s1, q);
    var s2 := Goto(s1, q, Inspect(s.now + LOCK_WAIT_TIMEOUT));
    TwoWaitersGetIn(s2, p, q);
    RunConcat(s, ComesToWait(p), ComesToWait(q));
    RunConcat(s, ComesToWait(p) + ComesToWait(q), BothEvict(p, q));
    assert BothInside(s2, p, q).procs == BothInside(s, p, q).procs;
  }

  /** Nothing but the passing of time makes a lock stale. */
  predicate Instant(events: seq<Event>) {
    forall e | e in events :: !e.Tick?
  }

  lemma LockStaysFresh(s: System, e: Event)
    requires !Stale(s) && !e.Tick?
    ensures !Stale(Apply(s, e))
  {
  }

  lemma {:induction false} InstantRunsRespectLocks(s: System, events: seq<Event>)
    requires !Stale(s) && Instant(events)
    ensures LocksRespected(s, events)
    decreases |events|
  {
    if events != [] {
      assert events[0] in events && forall e | e in events[1..] :: e in events;
      LockStaysFresh(s, events[0]);
      InstantRunsRespectLocks(Apply(s, events[0]), events[1..]);
    }
  }

  lemma {:induction false} PidsLeft(keys: set<nat>) returns (n: nat)
    ensures forall k | k in keys :: k < n
    decreases keys
  {
    n := 0;
    if keys != {} {
      var k :| k in keys;
      var m := PidsLeft(keys - {k});
      n := if m <= k then k + 1 else m;
      assert forall j | j in keys :: j == k || j in keys - {k};
    }
  }

  /** Two processes are inside after `events`. */
  ghost predicate TwoInside(s: System, events: seq<Event>) {
    var t := Run(s, events);
    exists p, q :: p in t.procs && q in t.procs && p != q && Critical(t.procs[p]) && Critical(t.procs[q])
  }

  /** The condition is exact: while no install is complete, exclusion can be lost before more time passes
      if and only if the lock is stale now. */
  lemma ExclusionIsLostExactlyWhenStale(s: System)
    requires Orderly(s) && !Installed(s.install)
    ensures Stale(s) <==> exists events :: Instant(events) && TwoInside(s, events)
  {
    if Stale(s) {
      var p := PidsLeft(s.procs.Keys);
      var events := ComesToWait(p) + ComesToWait(p + 1) + BothEvict(p, p + 1);
      StaleLockLetsTwoIn(s, p, p + 1);
      assert Instant(events);
      var t := BothInside(s, p, p + 1);
      assert p in t.procs && p + 1 in t.procs && Critical(t.procs[p]) && Critical(t.procs[p + 1]);
      assert TwoInside(s, events);
    } else {
      forall events | Instant(events) ensures !TwoInside(s, events) {
        InstantRunsRespectLocks(s, events);
        RunKeepsOrder(s, events);
      }
    }
  }

  // ------------------------------------------------------ what two inside then do

  function Twice(p: nat): seq<Event> {
    [Step(p, Proceed), Step(p, Proceed)]
  }

  function StageCalls(p: nat, d: nat): seq<Event> {
    [Step(p, Fetched(true)), Step(p, Named(d))]
  }

  function ExtractCalls(p: nat): seq<Event> {
    [Step(p, Write(License, true)), Step(p, Write(Library, true))] + [Step(p, Write(ManifestFile, true)), Step(p, Proceed)]
  }

  /** One builder from its download to a published install, staging in `d`. */
  function BuildCalls(p: nat, d: nat): seq<Event> {
    StageCalls(p, d) + ExtractCalls(p) + (Twice(p) + Twice(p))
  }

  const FILES: Tree := map[License := true, Library := true, ManifestFile := true]
  const TREE: Tree := FILES[Marker := true]

  lemma StagerSteps(s: System, p: nat, d: nat, since: nat)
    requires p in s.procs && s.procs[p] == Download(since) && d !in s.staging
    ensures Apply(s, Step(p, Fetched(true))) == Goto(s.(downloads := s.downloads + 1), p, Stage(since))
    ensures Apply(Goto(s.(downloads := s.downloads + 1), p, Stage(since)), Step(p, Named(d)))
         == Staged(s.(downloads := s.downloads + 1), p, d, map[], Extract(since, d))
  {
    GotoTwice(s.(downloads := s.downloads + 1, staging := s.staging[d := map[]]), p, Stage(since), Extract(since, d));
  }

  lemma BuilderStages(s: System, p: nat, d: nat, since: nat)
    requires p in s.procs && s.procs[p] == Download(since) && d !in s.staging
    ensures Run(s, StageCalls(p, d)) == Staged(s.(downloads := s.downloads + 1), p, d, map[], Extract(since, d))
  {
    StagerSteps(s, p, d, since);
    hide Apply;
    hide Run;
    RunTwo(s, Step(p, Fetched(true)), Step(p, Named(d)));
  }

  /** The staging directory `d` holds `files` and its owner is at `phase`. */
  function Staged(s: System, p: nat, d: nat, files: Tree, phase: Phase): System {
    Goto(s.(staging := s.staging[d := files]), p, phase)
  }

  lemma StagedTwice(s: System, p: nat, d: nat, files: Tree, phase: Phase, more: Tree, next: Phase)
    ensures Staged(Staged(s, p, d, files, phase), p, d, more, next) == Staged(s, p, d, more, next)
  {
    GotoTwice(s.(staging := s.staging[d := more]), p, phase, next);
    assert s.staging[d := files][d := more] == s.staging[d := more];
  }

  lemma WriterSteps(s: System, p: nat, d: nat, files: Tree, file: File, since: nat)
    requires file != Marker
    ensures Apply(Staged(s, p, d, files, Extract(since, d)), Step(p, Write(file, true)))
         == Staged(s, p, d, files[file := true], Extract(since, d))
  {
    var x := Staged(s, p, d, files, Extract(since, d));
    StagedTwice(s, p, d, files, Extract(since, d), files[file := true], Extract(since, d));
    assert Goto(x.(staging := x.staging[d := files[file := true]]), p, Extract(since, d))
        == x.(staging := x.staging[d := files[file := true]]);
  }

  lemma ExtractorEnds(s: System, p: nat, d: nat, since: nat)
    ensures Apply(Staged(s, p, d, FILES, Extract(since, d)), Step(p, Proceed)) == Staged(s, p, d, FILES, Validate(since, d))
  {
    GotoTwice(s.(staging := s.staging[d := FILES]), p, Extract(since, d), Validate(since, d));
  }

  lemma BuilderExtracts(s: System, p: nat, d: nat, since: nat)
    ensures Run(Staged(s, p, d, map[], Extract(since, d)), ExtractCalls(p)) == Staged(s, p, d, FILES, Validate(since, d))
  {
    hide Apply;
    hide Run;
    hide Staged;
    var none: Tree := map[];
    var two := none[License := true][Library := true];
    assert two[ManifestFile := true] == FILES;
    WriterSteps(s, p, d, none, License, since);
    WriterSteps(s, p, d, none[License := true], Library, since);
    WriterSteps(s, p, d, two, ManifestFile, since);
    ExtractorEnds(s, p, d, since);
    var s0, s2 := Staged(s, p, d, none, Extract(since, d)), Staged(s, p, d, two, Extract(since, d));
    RunTwo(s0, Step(p, Write(License, true)), Step(p, Write(Library, true)));
    RunTwo(s2, Step(p, Write(ManifestFile, true)), Step(p, Proceed));
    RunConcat(s0, [Step(p, Write(License, true)), Step(p, Write(Library, true))],
              [Step(p, Write(ManifestFile, true)), Step(p, Proceed)]);
  }

  lemma MarkerSteps(s: System, p: nat, d: nat, since: nat)
    ensures Apply(Staged(s, p, d, FILES, Validate(since, d)), Step(p, Proceed)) == Staged(s, p, d, FILES, Mark(since, d))
    ensures Apply(Staged(s, p, d, FILES, Mark(since, d)), Step(p, Proceed))
         == Staged(s, p, d, FILES[Marker := false], Marking(since, d))
  {
    StagedTwice(s, p, d, FILES, Validate(since, d), FILES, Mark(since, d));
    StagedTwice(s, p, d, FILES, Mark(since, d), FILES[Marker := false], Marking(since, d));
  }

  lemma MarkerEnds(s: System, p: nat, d: nat, since: nat)
    ensures Apply(Staged(s, p, d, FILES[Marker := false], Marking(since, d)), Step(p, Proceed))
         == Staged(s, p, d, TREE, Publish(since, d))
  {
    StagedTwice(s, p, d, FILES[Marker := false], Marking(since, d), TREE, Publish(since, d));
    assert FILES[Marker := false][Marker := true] == TREE;
  }

  lemma PublisherSteps(s: System, p: nat, d: nat, since: nat)
    requires s.install.None? && d !in s.staging
    ensures Apply(Staged(s, p, d, TREE, Publish(since, d)), Step(p, Proceed)) == Goto(s.(install := Some(TREE)), p, Confirm(since))
  {
    GotoTwice(s.(install := Some(TREE)), p, Publish(since, d), Confirm(since));
    assert s.staging[d := TREE] - {d} == s.staging;
  }

  lemma BuilderPublishes(s: System, p: nat, d: nat, since: nat)
    requires s.install.None? && d !in s.staging
    ensures Run(Staged(s, p, d, FILES, Validate(since, d)), Twice(p) + Twice(p)) == Goto(s.(install := Some(TREE)), p, Confirm(since))
  {
    hide Apply;
    hide Run;
    hide Staged;
    var s0, s2 := Staged(s, p, d, FILES, Validate(since, d)), Staged(s, p, d, FILES[Marker := false], Marking(since, d));
    MarkerSteps(s, p, d, since);
    MarkerEnds(s, p, d, since);
    PublisherSteps(s, p, d, since);
    RunTwo(s0, Step(p, Proceed), Step(p, Proceed));
    RunTwo(s2, Step(p, Proceed), Step(p, Proceed));
    RunConcat(s0, Twice(p), Twice(p));
  }

  lemma BuilderBuilds(s: System, p: nat, d: nat, since: nat)
    requires p in s.procs && s.procs[p] == Download(since) && d !in s.staging && s.install.None?
    ensures Run(s, BuildCalls(p, d)) == Goto(s.(downloads := s.downloads + 1, install := Some(TREE)), p, Confirm(since))
  {
    hide Run;
    hide Staged;
    hide StageCalls;
    hide ExtractCalls;
    hide Twice;
    var more := s.(downloads := s.downloads + 1);
    BuilderStages(s, p, d, since);
    BuilderExtracts(more, p, d, since);
    BuilderPublishes(more, p, d, since);
    RunConcat(s, StageCalls(p, d), ExtractCalls(p));
    RunConcat(s, StageCalls(p, d) + ExtractCalls(p), Twice(p) + Twice(p));
  }

  lemma BuilderEnters(s: System, p: nat, since: nat)
    requires p in s.procs && s.procs[p] == Recheck(since) && s.install.None?
    ensures Run(s, Twice(p)) == Goto(s, p, Download(since))
  {
    var s1 := Goto(s, p, Examine(since));
    assert Apply(s, Step(p, Proceed)) == s1;
    GotoTwice(s, p, Examine(since), Download(since));
    assert Apply(s1, Step(p, Proceed)) == Goto(s, p, Download(since));
    hide Apply;
    hide Run;
    RunTwo(s, Step(p, Proceed), Step(p, Proceed));
  }

  lemma DownloadsAgain(s: System, q: nat, since: nat)
    requires q in s.procs && s.procs[q] == Download(since)
    ensures Apply(s, Step(q, Fetched(true))).downloads == s.downloads + 1
  {
  }

  /** Two inside, nothing installed: one installs, and the other downloads all the same. */
  function DoubleCalls(p: nat, q: nat, d: nat): seq<Event> {
    Twice(p) + Twice(q) + BuildCalls(p, d)
  }

  lemma TwoInsideDownloadTwice(s: System, p: nat, q: nat, d: nat)
    requires p != q && s.install.None? && d !in s.staging
    ensures var t := Run(BothInside(s, p, q), DoubleCalls(p, q, d));
            && Installed(t.install) && t.downloads == s.downloads + 1
            && Apply(t, Step(q, Fetched(true))).downloads == s.downloads + 2
  {
    hide Apply;
    hide Run;
    hide BuildCalls;
    hide Twice;
    var both := BothInside(s, p, q);
    var s1 := Goto(both, p, Download(s.now));
    var s2 := Goto(s1, q, Download(s.now));
    var t := Goto(s2.(downloads := s.downloads + 1, install := Some(TREE)), p, Confirm(s.now));
    BuilderEnters(both, p, s.now);
    BuilderEnters(s1, q, s.now);
    BuilderBuilds(s2, p, d, s.now);
    DownloadsAgain(t, q, s.now);
    RunConcat(both, Twice(p), Twice(q));
    RunConcat(both, Twice(p) + Twice(q), BuildCalls(p, d));
  }

  // --------------------------------------------------------------- one failing input

  /** A cache whose only trace of earlier runs is a lock made at time zero. */
  const LEFTOVER: System := System(map[], Some(0), None, map[], [], 0, 900_001)

  /** So a lock that was left behind is enough to break exclusion, although nobody crashes and nobody
      overstays in the run itself. */
  lemma LeftoverLockLetsTwoIn()
    ensures Initial(LEFTOVER)
    ensures var events := ComesToWait(0) + ComesToWait(1) + BothEvict(0, 1);
            var t := Run(LEFTOVER, events);
            && |events| == 14 && (forall i | 0 <= i < 14 :: events[i].Spawn? || events[i].Step?)
            && 0 in t.procs && 1 in t.procs && Critical(t.procs[0]) && Critical(t.procs[1])
  {
    hide Run;
    StaleLockLetsTwoIn(LEFTOVER, 0, 1);
  }

  /** In the same run somebody downloads although a complete install is in place. */
  lemma LeftoverLockDownloadsTwice()
    ensures var t := Run(LEFTOVER, ComesToWait(0) + ComesToWait(1) + BothEvict(0, 1) + DoubleCalls(0, 1, 0));
            && Installed(t.install) && t.downloads == 1
            && Apply(t, Step(1, Fetched(true))).downloads == 2
  {
    hide Apply;
    hide Run;
    var entering := ComesToWait(0) + ComesToWait(1) + BothEvict(0, 1);
    StaleLockLetsTwoIn(LEFTOVER, 0, 1);
    TwoInsideDownloadTwice(LEFTOVER, 0, 1, 0);
    RunConcat(LEFTOVER, entering, DoubleCalls(0, 1, 0));
  }
}
