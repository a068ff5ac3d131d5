/**
 Whole runs of the reseed script on one disk: it never writes into the source, exactly because it
 refuses nested arguments and symbolic links on their paths; what it publishes is complete, also after
 power loss; and when it publishes.
 */
module OfflineReseedRuns {
  import opened Wrappers
  import opened OfflineReseed
  import opened OfflineReseedProgress
  import opened OfflineReseedLock
  import opened OfflineReseedDisk
  import opened OfflineReseedHost

  predicate ScriptOnly(events: seq<Event>) {
    forall i :: 0 <= i < |events| ==> events[i].Script? && IsOurs(events[i].a)
  }

  lemma TraceIsOurs(k: Host, e: Event, env: Env)
    ensures e.Script? && IsOurs(e.a) ==> OursOnly(Trace(k, e, env))
  {
  }

  /** The disk refines the three trees: every run is one of theirs. */
  lemma {:induction false} RunRefines(k: Host, events: seq<Event>, env: Env) returns (actions: seq<Action>)
    requires Placed(k) && Linkless(k) && env.refuseSymlinks
    ensures Placed(HostRun(k, events, env)) && Linkless(HostRun(k, events, env))
    ensures View(HostRun(k, events, env)) == Run(View(k), actions, env)
    ensures ScriptOnly(events) ==> OursOnly(actions)
    decreases |events|
  {
    if events == [] {
      actions := [];
    } else {
      var next := HostStep(k, events[0], env);
      EventRefines(k, events[0], env);
      TraceIsOurs(k, events[0], env);
      var rest := RunRefines(next, events[1..], env);
      actions := Trace(k, events[0], env) + rest;
      RunConcat(View(k), Trace(k, events[0], env), rest, env);
      if ScriptOnly(events) {
        assert events[0].Script? && IsOurs(events[0].a);
      }
    }
  }

  lemma InitialIsPlaced(k: Host)
    requires HostInitial(k) && Apart(k.source, k.target)
    ensures Placed(k) && Linkless(k) && Initial(View(k))
  {
    SourceIsWellFormed(k.disk, k.source);
  }

  // ---------------------------------------------------------------------------------------------
  // Before the arguments are accepted
  // ---------------------------------------------------------------------------------------------

  /** Until then the script writes nothing. */
  lemma StartWritesNothing(k: Host, a: Action, random: string, env: Env)
    requires k.pc.Start? && IsOurs(a)
    ensures var r := FollowStep(k, a, random, env);
            r.disk == k.disk && r.source == k.source && r.target == k.target && (r.pc.Start? || ArgsOk(k, env))
  {
    FollowAtStart(k, a, random, env);
    if !a.CheckArgs? {
      ScriptAtStart(k, a, random, env);
    }
  }

  lemma OthersKeepProcess(k: Host, e: Event, env: Env)
    requires !e.Script?
    ensures var r := HostStep(k, e, env); r.source == k.source && r.target == k.target && r.pc == k.pc
  {
  }

  /** Nested arguments are never accepted, whatever the others do. */
  lemma {:induction false} NestedIsRefused(k: Host, events: seq<Event>, env: Env)
    requires k.pc.Start? && env.refuseNested && !Apart(k.source, k.target)
    ensures var r := HostRun(k, events, env); r.pc.Start? && r.source == k.source && r.target == k.target
    decreases |events|
  {
    if events != [] {
      var e := events[0];
      if !e.Script? {
        OthersKeepProcess(k, e, env);
      } else if IsOurs(e.a) && k.status.Running? {
        StartWritesNothing(k, e.a, e.random, env);
      }
      NestedIsRefused(HostStep(k, e, env), events[1..], env);
    }
  }

  /** Either everything is in place and free of links, or nested arguments still wait to be refused. */
  lemma RunPlaced(k: Host, events: seq<Event>, env: Env)
    requires HostInitial(k) && env.refuseNested && env.refuseSymlinks
    ensures var m := HostRun(k, events, env);
            (Placed(m) && Linkless(m)) || (m.pc.Start? && !Apart(m.source, m.target))
  {
    if Apart(k.source, k.target) {
      InitialIsPlaced(k);
      var _ := RunRefines(k, events, env);
    } else {
      NestedIsRefused(k, events, env);
    }
  }

  lemma StepSpares(m: Host, a: Action, random: string, env: Env)
    requires env.refuseNested && env.refuseSymlinks
    requires (Placed(m) && Linkless(m)) || (m.pc.Start? && !Apart(m.source, m.target))
    ensures Spares(m, HostStep(m, Script(a, random), env))
  {
    if !IsOurs(a) || !m.status.Running? {
      assert HostStep(m, Script(a, random), env) == m;
      assert Rank(m.pc) >= 6 ==> Siblings(m.staging, m.target);
    } else if m.pc.Start? && !Apart(m.source, m.target) {
      StartWritesNothing(m, a, random, env);
    } else {
      FollowRefines(m, a, random, env);
    }
  }

  /**
   In every run a step of the script changes nothing in the source, nothing at or below a target
   that is there, and nothing outside its staging directory and target. Other processes may do what
   `MayChange` allows.
   */
  lemma ScriptSpares(k: Host, events: seq<Event>, a: Action, random: string, env: Env)
    requires HostInitial(k) && env.refuseNested && env.refuseSymlinks
    ensures var m := HostRun(k, events, env); Spares(m, HostStep(m, Script(a, random), env))
  {
    RunPlaced(k, events, env);
    StepSpares(HostRun(k, events, env), a, random, env);
  }

  /** In every run the record lock is held from lockf to the end, and a published target is complete. */
  lemma PublishedOnDisk(k: Host, events: seq<Event>, env: Env)
    requires HostInitial(k) && env.refuseNested && env.refuseSymlinks && KeepsLock(env)
    ensures var m := HostRun(k, events, env);
            LockHeld(View(m)) &&
            (HasPublished(m.pc) ==>
               Complete(ItemsBelow(m.disk, m.target), m.verified, m.checksums, m.snapshot, env))
  {
    var m := HostRun(k, events, env);
    if Apart(k.source, k.target) {
      InitialIsPlaced(k);
      var actions := RunRefines(k, events, env);
      LockHeldThroughout(View(k), actions, env);
      PublishedIsComplete(View(k), actions, env);
    } else {
      NestedIsRefused(k, events, env);
    }
  }

  /** What may be found on the disk after power loss, of a target that we have published. */
  ghost predicate DiskAfterPowerLoss(m: Host, d: Disk) {
    if m.target !in d.tree then !m.parentSynced
    else m.target in m.disk.tree && Survives(ItemsBelow(m.disk, m.target), ItemsBelow(d, m.target))
  }

  /**
   After power loss at any point behind the rename the target path holds nothing or all of the
   published tree, byte for byte, and all of it for certain once the parent was fsynced.
   */
  lemma PowerLossOnDisk(k: Host, events: seq<Event>, env: Env, d: Disk)
    requires HostInitial(k) && env.refuseNested && env.refuseSymlinks && KeepsLock(env)
    requires var m := HostRun(k, events, env); HasPublished(m.pc) && DiskAfterPowerLoss(m, d)
    ensures var m := HostRun(k, events, env);
            (m.target in d.tree ==>
               Intact(ItemsBelow(d, m.target), ItemsBelow(m.disk, m.target), m.checksums, m.snapshot, env)) &&
            (m.pc.Settled? ==> m.target in d.tree)
  {
    var m := HostRun(k, events, env);
    if Apart(k.source, k.target) {
      InitialIsPlaced(k);
      var actions := RunRefines(k, events, env);
      var found := if m.target in d.tree then Ours(ItemsBelow(d, m.target)) else Absent;
      PowerLossIsSafe(View(k), actions, env, found);
    } else {
      NestedIsRefused(k, events, env);
    }
  }

  // ---------------------------------------------------------------------------------------------
  // Arguments that lead into the source, if they were not refused
  // ---------------------------------------------------------------------------------------------

  lemma {:induction false} LongestName(paths: set<Path>) returns (n: nat)
    ensures forall p :: p in paths && p != [] ==> |p[|p| - 1]| <= n
  {
    if paths == {} {
      n := 0;
    } else {
      var q :| q in paths;
      var m := LongestName(paths - {q});
      n := if q != [] && |q[|q| - 1]| > m then |q[|q| - 1]| else m;
      assert forall p :: p in paths ==> p == q || p in paths - {q};
    }
  }

  /** mkdtemp can find a name. */
  lemma FreshName(d: Disk, target: Path) returns (random: string)
    requires target != []
    ensures StagingPath(target, random) !in d.tree
  {
    var n := LongestName(d.tree.Keys);
    random := seq(n, _ => 'x');
    var p := StagingPath(target, random);
    assert |p[|p| - 1]| > n;
  }

  function Scripted(actions: seq<Action>): (events: seq<Event>)
    ensures |events| == |actions| && forall i :: 0 <= i < |actions| ==> events[i] == Script(actions[i], "")
  {
    seq(|actions|, i requires 0 <= i < |actions| => Script(actions[i], ""))
  }

  /** The arguments are accepted and lead to a target that is not there, and nothing is written yet. */
  predicate Accepted(k: Host, env: Env) {
    ArgsOk(k, env) && Resolved(k, env).target !in k.disk.tree && Rank(k.pc) < 6
  }

  lemma CheckOnDisk(k: Host, env: Env)
    requires Accepted(k, env) && k.status.Running?
    ensures View(Resolved(HostCheckArgs(k, env), env)) == OurStep(View(Resolved(k, env)), CheckArgs, env)
  {
    SameView(Resolved(k, env), Resolved(HostCheckArgs(k, env), env));
  }

  lemma QuietOnDisk(k: Host, a: Action, env: Env)
    requires Rank(k.pc) < 6 && IsQuiet(a)
    ensures var r := FollowStep(k, a, "", env);
            r.disk == k.disk && r.source == k.source && r.target == k.target && Rank(r.pc) < 6 &&
            View(Resolved(r, env)) == OurStep(View(Resolved(k, env)), a, env)
  {
    var at := Resolved(k, env);
    var t := OurStep(View(at), a, env);
    QuietSteps(View(at), a, env);
    ProcessView(at, t);
    assert Resolved(FollowStep(k, a, "", env), env) == WithProcess(at, t);
  }

  lemma EarlyStepOnDisk(k: Host, a: Action, env: Env)
    requires Accepted(k, env) && IsEarly(a)
    ensures var r := HostStep(k, Script(a, ""), env);
            r.disk == k.disk && r.source == k.source && r.target == k.target && Accepted(r, env) &&
            View(Resolved(r, env)) == Step(View(Resolved(k, env)), a, env)
  {
    if k.status.Running? {
      if a.CheckArgs? {
        CheckOnDisk(k, env);
      } else {
        QuietOnDisk(k, a, env);
      }
    }
  }

  /** Early steps write nothing, and the views of what the paths lead to step along. */
  lemma {:induction false} EarlyRunOnDisk(k: Host, actions: seq<Action>, env: Env)
    requires Accepted(k, env) && forall i :: 0 <= i < |actions| ==> IsEarly(actions[i])
    ensures var r := HostRun(k, Scripted(actions), env);
            r.disk == k.disk && r.source == k.source && r.target == k.target &&
            View(Resolved(r, env)) == Run(View(Resolved(k, env)), actions, env)
    decreases |actions|
  {
    if actions != [] {
      var next := HostStep(k, Script(actions[0], ""), env);
      EarlyStepOnDisk(k, actions[0], env);
      assert Scripted(actions)[1..] == Scripted(actions[1..]);
      EarlyRunOnDisk(next, actions[1..], env);
    }
  }

  lemma ReachVetted(k: Host, env: Env) returns (events: seq<Event>)
    requires HostInitial(k) && Accepted(k, env) && k.lock.Free?
    requires Acceptable(SourceAt(k.disk, Resolved(k, env).source), env)
    ensures var m := HostRun(k, events, env);
            m.disk == k.disk && m.source == k.source && m.target == k.target && m.pc.Vetted? && m.status.Running?
  {
    var s := View(Resolved(k, env));
    SourceIsWellFormed(k.disk, Resolved(k, env).source);
    assert Initial(s);
    var actions := TakeInventory(s, env);
    Vets(Run(s, actions, env), s.src, env);
    actions := Extend(s, actions, VetCurrent, env);
    EarlyRunOnDisk(k, actions, env);
    events := Scripted(actions);
    assert View(Resolved(HostRun(k, events, env), env)).pc.Vetted?;
  }

  /** If the target leads into the source, the staging directory is made in the source. */
  lemma StagingInSource(m: Host, random: string, env: Env)
    requires m.pc.Vetted? && m.status.Running? && m.target != []
    requires var at := Resolved(m, env);
             IsDir(m.disk, Parent(at.target)) && at.source <= Parent(at.target) &&
             StagingPath(at.target, random) !in m.disk.tree
    ensures !SameBelow(m.disk, HostStep(m, Script(MakeStaging, random), env).disk, Resolved(m, env).source)
  {
    var at := Resolved(m, env);
    var path := StagingPath(at.target, random);
    var r := HostStep(m, Script(MakeStaging, random), env);
    assert r.disk == HostMakeStaging(at, random).disk;
    assert path in r.disk.tree && at.source <= path;
    assert !SameAt(m.disk, r.disk, path);
  }

  lemma WritesSource(k: Host, env: Env) returns (events: seq<Event>, random: string)
    requires HostInitial(k) && Accepted(k, env) && k.lock.Free?
    requires var at := Resolved(k, env);
             Acceptable(SourceAt(k.disk, at.source), env) && at.source <= Parent(at.target)
    ensures var m := HostRun(k, events, env);
            !SameBelow(m.disk, HostStep(m, Script(MakeStaging, random), env).disk, Resolved(m, env).source)
  {
    events := ReachVetted(k, env);
    random := FreshName(k.disk, Resolved(k, env).target);
    ParentOfTarget(k, env);
    StagingInSource(HostRun(k, events, env), random, env);
  }

  lemma ParentOfTarget(k: Host, env: Env)
    requires k.target != []
    ensures Parent(Resolved(k, env).target) == Real(k.disk, Parent(k.target), env.linkLimit)
  {
  }

  const SRC: Path := ["s"]

  const LINK: Path := ["l"]

  /** A disk with nothing but a source of three files and a link to it. */
  function SmallDisk(current: Bytes): (d: Disk) {
    Disk(map[SRC := Dir(false), SRC + LOCK := Name(0), SRC + CURRENT := Name(1), SRC + ["MANIFEST-1"] := Name(2),
             LINK := Symlink(SRC)],
         map[0 := [], 1 := current, 2 := []], map[0 := 1, 1 := 1, 2 := 1], {})
  }

  lemma DifferentNames(a: string, b: string)
    requires |a| != |b|
    ensures SRC + [a] != SRC + [b]
  {
    assert (SRC + [a])[1] == a && (SRC + [b])[1] == b;
  }

  lemma SmallEntries(current: Bytes)
    ensures var d := SmallDisk(current);
            d.tree[SRC + LOCK] == Name(0) && d.tree[SRC + CURRENT] == Name(1) &&
            d.tree[SRC + ["MANIFEST-1"]] == Name(2) && SRC + ["t"] !in d.tree
  {
    DifferentNames("LOCK", "CURRENT");
    DifferentNames("LOCK", "MANIFEST-1");
    DifferentNames("CURRENT", "MANIFEST-1");
    DifferentNames("t", "LOCK");
    DifferentNames("t", "CURRENT");
    DifferentNames("t", "MANIFEST-1");
  }

  lemma SmallDiskIsOk(current: Bytes)
    ensures DiskOk(SmallDisk(current))
  {
    var d := SmallDisk(current);
    forall p ensures Rooted(d, p) {
    }
  }

  lemma SmallSource(current: Bytes)
    ensures SourceAt(SmallDisk(current), SRC) == ThreeFiles(0, 1, 1, current)
  {
    var d, f := SmallDisk(current), ThreeFiles(0, 1, 1, current);
    var t := NodesBelow(d, SRC);
    forall p ensures (p in t <==> p in f.tree) && (p in t ==> t[p] == f.tree[p]) {
      assert ShowsNode(t, d, SRC, p);
      RestOf(SRC, p);
      RestOf(SRC, LOCK);
      RestOf(SRC, CURRENT);
      RestOf(SRC, ["MANIFEST-1"]);
    }
    SmallInodes(current);
    assert DataBelow(d, SRC) == f.data;
    assert LinksBelow(d, SRC) == f.links;
  }

  lemma SmallInodes(current: Bytes)
    ensures InodesBelow(SmallDisk(current), SRC) == {0, 1, 2}
  {
    var d := SmallDisk(current);
    forall i: nat ensures i in InodesBelow(d, SRC) <==> i in {0, 1, 2} {
      assert ShowsInode(InodesBelow(d, SRC), d, SRC, i);
      SmallEntries(current);
    }
  }

  /** The script started on that source. */
  function StartWith(current: Bytes, target: Path): (k: Host) {
    Host(SmallDisk(current), SRC, target, [], Free, false, Start, Running, 0, {}, Idle, map[],
         ThreeFiles(0, 1, 1, current), map[])
  }

  lemma SourceIsPlain(current: Bytes, links: nat)
    ensures var d := SmallDisk(current);
            LinkFree(d, SRC, SRC + ["t"]) && Real(d, SRC, links) == SRC && Real(d, SRC + ["t"], links) == SRC + ["t"]
  {
    var d := SmallDisk(current);
    SmallEntries(current);
    assert (SRC + ["t"])[..0] == [] && (SRC + ["t"])[..1] == SRC && (SRC + ["t"])[..2] == SRC + ["t"];
    assert SRC[..0] == [] && SRC[..1] == SRC;
    RealIsPlain(d, SRC, links);
    RealIsPlain(d, SRC + ["t"], links);
  }

  /** Through the link the same places are reached. */
  lemma LinkLeadsThere(current: Bytes, links: nat)
    requires links > 0
    ensures var d := SmallDisk(current);
            Real(d, LINK, links) == SRC && Real(d, LINK + ["t"], links) == SRC + ["t"]
  {
    var d := SmallDisk(current);
    SourceIsPlain(current, links);
    assert LINK == [] + ["l"] && LINK[1..] == [] && (LINK + ["t"])[1..] == ["t"] && SRC + [] == SRC;
    assert [] + SRC == SRC && [] + (SRC + ["t"]) == SRC + ["t"];
    WalkStraight(d, [], SRC, links - 1);
    WalkStraight(d, [], SRC + ["t"], links - 1);
  }

  /** A start that gets past the weakened checks and leads into the source. */
  ghost predicate LeadsInside(k: Host, env: Env) {
    HostInitial(k) && k.lock.Free? && Accepted(k, env) &&
    var at := Resolved(k, env);
    Acceptable(SourceAt(k.disk, at.source), env) && at.source <= Parent(at.target)
  }

  lemma NestedLeadsInside(env: Env, current: Bytes)
    requires !env.refuseNested && env.text(current) == Some("MANIFEST-1")
    ensures LeadsInside(StartWith(current, SRC + ["t"]), env)
  {
    SmallDiskIsOk(current);
    SmallEntries(current);
    SmallSource(current);
    SourceIsPlain(current, env.linkLimit);
    RealIsPlain(SmallDisk(current), SRC + ["t"], env.linkLimit);
    ThreeFilesWork(0, 1, 1, current, env);
  }

  lemma LinkLeadsInside(env: Env, current: Bytes)
    requires !env.refuseSymlinks && env.linkLimit > 0 && env.text(current) == Some("MANIFEST-1")
    ensures LeadsInside(StartWith(current, LINK + ["t"]), env)
  {
    SmallDiskIsOk(current);
    SmallEntries(current);
    SmallSource(current);
    SourceIsPlain(current, env.linkLimit);
    LinkLeadsThere(current, env.linkLimit);
    assert Parent(LINK + ["t"]) == LINK;
    ThreeFilesWork(0, 1, 1, current, env);
  }

  /** Every step of the script, in every run, leaves the source as it was, wherever its path leads. */
  ghost predicate SourceIsSafe(env: Env) {
    forall k: Host, events: seq<Event>, a: Action, random: string :: HostInitial(k) ==>
      var m := HostRun(k, events, env);
      SameBelow(m.disk, HostStep(m, Script(a, random), env).disk, Resolved(m, env).source)
  }

  lemma SourceUnchanged(k: Host, events: seq<Event>, a: Action, random: string, env: Env)
    requires HostInitial(k) && env.refuseNested && env.refuseSymlinks
    ensures var m := HostRun(k, events, env);
            SameBelow(m.disk, HostStep(m, Script(a, random), env).disk, Resolved(m, env).source)
  {
    RunPlaced(k, events, env);
    StepLeavesSource(HostRun(k, events, env), a, random, env);
  }

  lemma StepLeavesSource(m: Host, a: Action, random: string, env: Env)
    requires env.refuseNested && env.refuseSymlinks
    requires (Placed(m) && Linkless(m)) || (m.pc.Start? && !Apart(m.source, m.target))
    ensures SameBelow(m.disk, HostStep(m, Script(a, random), env).disk, Resolved(m, env).source)
  {
    var r, source := HostStep(m, Script(a, random), env), Resolved(m, env).source;
    if m.pc.Start? {
      StartLeavesDisk(m, a, random, env);
    } else {
      ResolvedIsPlain(m, env);
      StepSpares(m, a, random, env);
    }
    assert SameBelow(m.disk, r.disk, source);
  }

  lemma StartLeavesDisk(m: Host, a: Action, random: string, env: Env)
    requires m.pc.Start?
    ensures HostStep(m, Script(a, random), env).disk == m.disk
  {
    if IsOurs(a) && m.status.Running? {
      StartWritesNothing(m, a, random, env);
    }
  }

  /**
   No step of the script ever changes anything in the source, if and only if it refuses both nested
   arguments and symbolic links on their paths. (`current` is any content that decodes to a manifest
   name, and the kernel follows links at all.)
   */
  lemma SourceSafeExactly(env: Env, current: Bytes)
    requires env.text(current) == Some("MANIFEST-1") && env.linkLimit > 0
    ensures SourceIsSafe(env) <==> env.refuseNested && env.refuseSymlinks
  {
    if env.refuseNested && env.refuseSymlinks {
      forall k: Host, events: seq<Event>, a: Action, random: string | HostInitial(k)
        ensures var m := HostRun(k, events, env);
                SameBelow(m.disk, HostStep(m, Script(a, random), env).disk, Resolved(m, env).source)
      {
        SourceUnchanged(k, events, a, random, env);
      }
    } else if !env.refuseNested {
      NestedLeadsInside(env, current);
      var events, random := WritesSource(StartWith(current, SRC + ["t"]), env);
    } else {
      LinkLeadsInside(env, current);
      var events, random := WritesSource(StartWith(current, LINK + ["t"]), env);
    }
  }

  /** If the other checks pass, nested arguments are a target inside the source: one above it would exist. */
  lemma NestedMeansInside(k: Host, env: Env)
    requires DiskOk(k.disk) && LinkFree(k.disk, k.source, k.target) && ArgsOk(k, env.(refuseNested := false))
    ensures !Apart(k.source, k.target) <==> k.source <= Parent(k.target)
  {
    RealIsPlain(k.disk, k.source, env.linkLimit);
    RealIsPlain(k.disk, k.target, env.linkLimit);
    if k.target <= k.source {
      AncestorsExist(k.disk, k.target, k.source);
    } else if k.source <= k.target {
      assert Parent(k.target)[..|k.source|] == k.target[..|k.source|];
    }
  }

  // ---------------------------------------------------------------------------------------------
  // When the script publishes
  // ---------------------------------------------------------------------------------------------

  /** An undisturbed host on which a run of the three trees can be followed. */
  ghost predicate Ready(k: Host, env: Env) {
    Placed(k) && Linkless(k) && env.refuseSymlinks && (k.pc.Start? ==> ArgsOk(k, env)) &&
    IsDir(k.disk, Parent(k.target))
  }

  lemma ParentStays(k: Host, r: Host)
    requires k.target != [] && IsDir(k.disk, Parent(k.target)) && Spares(k, r)
    ensures IsDir(r.disk, Parent(r.target))
  {
    if Rank(r.pc) >= 6 && Parent(k.target) != [] {
      assert SameAt(k.disk, r.disk, Parent(k.target));
    }
  }

  lemma Follow(k: Host, a: Action, env: Env) returns (e: Event)
    requires Ready(k, env) && IsOurs(a)
    ensures e.Script? && IsOurs(e.a)
    ensures View(HostStep(k, e, env)) == Step(View(k), a, env)
    ensures var r := HostStep(k, e, env); Placed(r) && Linkless(r) && Spares(k, r)
  {
    var random := FreshName(k.disk, k.target);
    e := Script(a, random);
    if k.status.Running? {
      FollowRefines(k, a, random, env);
      RunOne(View(k), a, env);
    } else {
      NothingWritten(k, k);
    }
  }

  lemma EarlyNeverBack(s: State, a: Action, env: Env)
    requires !s.pc.Start? && IsEarly(a)
    ensures !OurStep(s, a, env).pc.Start?
  {
  }

  lemma LaterNeverBack(s: State, a: Action, env: Env)
    requires !s.pc.Start? && (IsCopying(a) || IsBuilding(a) || IsLate(a))
    ensures !OurStep(s, a, env).pc.Start?
  {
  }

  lemma NeverBackToStart(s: State, a: Action, env: Env)
    requires IsOurs(a) && Step(s, a, env).pc.Start?
    ensures s.pc.Start?
  {
    if !s.pc.Start? && s.status.Running? {
      if IsEarly(a) {
        EarlyNeverBack(s, a, env);
      } else {
        LaterNeverBack(s, a, env);
      }
    }
  }

  lemma ReadyStays(k: Host, r: Host, a: Action, env: Env)
    requires Ready(k, env) && Placed(r) && Linkless(r) && Spares(k, r)
    requires IsOurs(a) && View(r) == Step(View(k), a, env)
    ensures Ready(r, env)
  {
    ParentStays(k, r);
    if r.pc.Start? {
      assert View(r).pc.Start?;
      NeverBackToStart(View(k), a, env);
    }
  }

  /** Every undisturbed run of the three trees can be followed on the disk. */
  lemma {:induction false} FollowAll(k: Host, actions: seq<Action>, env: Env) returns (events: seq<Event>)
    requires Ready(k, env) && OursOnly(actions)
    ensures ScriptOnly(events) && View(HostRun(k, events, env)) == Run(View(k), actions, env)
    decreases |actions|
  {
    if actions == [] {
      events := [];
    } else {
      assert IsOurs(actions[0]);
      var e := Follow(k, actions[0], env);
      ReadyStays(k, HostStep(k, e, env), actions[0], env);
      var rest := FollowAll(HostStep(k, e, env), actions[1..], env);
      events := [e] + rest;
      assert events[1..] == rest;
    }
  }

  /** An undisturbed run that gets beyond the start had acceptable arguments. */
  lemma {:induction false} ArgsWereOk(k: Host, m: Host, events: seq<Event>, env: Env)
    requires ScriptOnly(events) && (!m.pc.Start? ==> ArgsOk(k, env))
    requires m.pc.Start? ==> m.disk == k.disk && m.source == k.source && m.target == k.target
    ensures HostRun(m, events, env).pc.Start? || ArgsOk(k, env)
    decreases |events|
  {
    if events != [] && m.pc.Start? {
      var e := events[0];
      assert e.Script? && IsOurs(e.a);
      StartWritesNothing(m, e.a, e.random, env);
      ArgsWereOk(k, HostStep(m, e, env), events[1..], env);
    }
  }

  /**
   Undisturbed, the script can publish exactly when its arguments pass the checks (no symlink on
   either path, not nested, the target new, its parent and the source directories), the lock is
   free, and the source is a plain directory with LOCK, a CURRENT naming a manifest that is there,
   and no directory where the metadata has to go.
   */
  lemma PublishesExactly(k: Host, env: Env)
    requires HostInitial(k) && env.refuseNested && env.refuseSymlinks && KeepsLock(env)
    ensures (exists events: seq<Event> :: ScriptOnly(events) && HasPublished(HostRun(k, events, env).pc)) <==>
            ArgsOk(k, env) && k.lock.Free? && Acceptable(SourceAt(k.disk, k.source), env)
  {
    if ArgsOk(k, env) && k.lock.Free? && Acceptable(SourceAt(k.disk, k.source), env) {
      InitialIsPlaced(k);
      RealIsPlain(k.disk, k.target, env.linkLimit);
      var actions := Succeeds(View(k), env);
      var events := FollowAll(k, actions, env);
      assert View(HostRun(k, events, env)).target.Ours?;
    }
    forall events: seq<Event> | ScriptOnly(events) && HasPublished(HostRun(k, events, env).pc)
      ensures ArgsOk(k, env) && k.lock.Free? && Acceptable(SourceAt(k.disk, k.source), env)
    {
      ArgsWereOk(k, k, events, env);
      InitialIsPlaced(k);
      var actions := RunRefines(k, events, env);
      PublishedWasAcceptable(View(k), actions, env);
    }
  }
}
