/**
 When an undisturbed reseed gets through: the steps of OfflineReseed lead to publication from every
 source that meets the script's checks, and from no other.
 */
module OfflineReseedProgress {
  import opened OfflineReseed

  /** Left alone, the script accepts this source. */
  ghost predicate Acceptable(f: Source, env: Env) {
    IsRegular(f.tree, LOCK) && Listable(f, env) && Readable(f, CURRENT) &&
    var manifest := Manifest(env, Content(f, CURRENT));
    manifest.Some? && IsRegular(f.tree, manifest.value) && !IsDirectory(f.tree, PROVENANCE)
  }

  predicate OursOnly(actions: seq<Action>) {
    forall i :: 0 <= i < |actions| ==> IsOurs(actions[i])
  }

  lemma {:induction false} RunConcat(s: State, a: seq<Action>, b: seq<Action>, env: Env)
    ensures Run(s, a + b, env) == Run(Run(s, a, env), b, env)
    decreases |a|
  {
    if a == [] {
      assert a + b == b;
    } else {
      assert (a + b)[0] == a[0] && (a + b)[1..] == a[1..] + b;
      RunConcat(Step(s, a[0], env), a[1..], b, env);
    }
  }

  lemma RunOne(s: State, a: Action, env: Env)
    ensures Run(s, [a], env) == Step(s, a, env)
  {
    assert [a][1..] == [];
    assert Run(Step(s, a, env), [], env) == Step(s, a, env);
  }

  lemma RunCons(s: State, a: Action, rest: seq<Action>, env: Env)
    ensures Run(s, [a] + rest, env) == Run(Step(s, a, env), rest, env)
  {
    assert ([a] + rest)[1..] == rest;
  }

  /** One more step after some others. */
  lemma Extend(s: State, before: seq<Action>, a: Action, env: Env) returns (actions: seq<Action>)
    requires OursOnly(before) && IsOurs(a)
    ensures actions == before + [a] && OursOnly(actions) && Run(s, actions, env) == Step(Run(s, before, env), a, env)
  {
    actions := before + [a];
    RunConcat(s, before, [a], env);
    RunOne(Run(s, before, env), a, env);
  }

  /** Running at this point, nothing at the target. */
  predicate Going(s: State, pc: Pc, f: Source) {
    s.status.Running? && s.pc == pc && s.target.Absent? && s.src == f && (Rank(pc) < 6 ==> s.verified == map[])
  }

  /** Between two files of the copying loop. */
  ghost predicate Copying(s: State, f: Source) {
    Going(s, Staging, f) && s.copy.Idle? && s.files - {LOCK} == CopySet(f) &&
    s.staging.Keys <= Folders(f) + CopySet(f) && FoldersOk(s.staging, f) &&
    forall p :: p in s.staging && p in CopySet(f) ==> s.staging[p].File?
  }

  /** The same, with a root to make entries in. */
  ghost predicate Making(s: State, f: Source) {
    Copying(s, f) && [] in s.staging
  }

  lemma Shrinks(all: set<Path>, done: set<Path>, p: Path)
    requires p in all - done
    ensures |all - (done + {p})| < |all - done|
  {
    assert all - (done + {p}) == (all - done) - {p};
  }

  lemma MakesDirectory(s: State, f: Source, p: Path, env: Env)
    requires WellFormed(f) && Making(s, f) && p in Directories(f) - s.staging.Keys && p != [] && Parent(p) in s.staging
    ensures var t := Step(s, MakeDirectory(p), env);
            Making(t, f) && t.staging.Keys == s.staging.Keys + {p}
  {
    assert InDirectory(f.tree, p) && Parent(p) in Folders(f);
    assert Step(s, MakeDirectory(p), env) == s.(staging := s.staging[p := Folder(false)]);
  }

  /** Of the directories still to be made, one whose parent is there. */
  lemma {:induction false} NextDirectory(f: Source, done: set<Path>, p: Path) returns (q: Path)
    requires WellFormed(f) && [] in done && p in Directories(f) - done
    ensures q in Directories(f) - done && q != [] && Parent(q) in done
    decreases |p|
  {
    if Parent(p) in done {
      q := p;
    } else {
      assert InDirectory(f.tree, p);
      q := NextDirectory(f, done, Parent(p));
    }
  }

  function ToMake(s: State, f: Source): (ps: set<Path>)
    ensures ps == {} ==> Directories(f) <= s.staging.Keys
  {
    assert forall p :: p in Directories(f) && p !in s.staging ==> p in Directories(f) - s.staging.Keys;
    Directories(f) - s.staging.Keys
  }

  lemma MakeNext(s: State, f: Source, env: Env) returns (a: Action, t: State)
    requires WellFormed(f) && Making(s, f) && ToMake(s, f) != {}
    ensures t == Run(s, [a], env) && IsOurs(a) && Making(t, f) && |ToMake(t, f)| < |ToMake(s, f)|
  {
    var missing :| missing in ToMake(s, f);
    var p := NextDirectory(f, s.staging.Keys, missing);
    a := MakeDirectory(p);
    MakesDirectory(s, f, p, env);
    Shrinks(Directories(f), s.staging.Keys, p);
    t := Step(s, a, env);
    RunOne(s, a, env);
  }

  lemma {:induction false} MakeDirectories(s: State, f: Source, env: Env) returns (actions: seq<Action>)
    requires WellFormed(f) && Making(s, f)
    ensures OursOnly(actions) && Making(Run(s, actions, env), f) && ToMake(Run(s, actions, env), f) == {}
    decreases |ToMake(s, f)|, 0
  {
    actions := [];
    if ToMake(s, f) != {} {
      var a, t := MakeNext(s, f, env);
      actions := MakeRest(s, [a], t, f, env);
    }
  }

  lemma {:induction false} MakeRest(s: State, before: seq<Action>, t: State, f: Source, env: Env)
    returns (actions: seq<Action>)
    requires WellFormed(f) && OursOnly(before) && t == Run(s, before, env) && Making(t, f)
    ensures OursOnly(actions) && Making(Run(s, actions, env), f) && ToMake(Run(s, actions, env), f) == {}
    decreases |ToMake(t, f)|, 1
  {
    var rest := MakeDirectories(t, f, env);
    actions := before + rest;
    RunConcat(s, before, rest, env);
  }

  lemma MayCopy(s: State, f: Source, p: Path, env: Env)
    requires Making(s, f) && Directories(f) <= s.staging.Keys && p in CopySet(f) && p !in s.verified && Readable(f, p)
    requires env.skipLock && WellFormed(f)
    ensures CanCopy(s, p, Content(f, p), env)
  {
    assert p in s.files - {LOCK};
    assert InDirectory(f.tree, p) && Parent(p) in Folders(f);
  }

  lemma Copies(s: State, f: Source, p: Path, env: Env)
    requires Making(s, f) && Directories(f) <= s.staging.Keys && p in CopySet(f) && p !in s.verified && Readable(f, p)
    requires env.skipLock && WellFormed(f)
    ensures var t := Step(s, CopyFile(p, Content(f, p)), env);
            Going(t, Staging, f) && t.copy == Written(p) && t.files == s.files && t.verified == s.verified &&
            t.staging == s.staging[p := File(Content(f, p), false)]
  {
    MayCopy(s, f, p, env);
  }

  lemma Compares(s: State, f: Source, p: Path, env: Env)
    requires Going(s, Staging, f) && s.copy == Written(p) && Readable(f, p)
    requires p in s.staging && s.staging[p] == File(Content(f, p), false)
    ensures var t := Step(s, CompareDigests(Content(f, p)), env);
            Going(t, Staging, f) && t.copy == Checked(p) && t.files == s.files && t.staging == s.staging &&
            t.verified == s.verified[p := Content(f, p)]
  {
  }

  lemma Syncs(s: State, f: Source, p: Path, env: Env)
    requires Going(s, Staging, f) && s.copy == Checked(p) && p in s.staging && s.staging[p].File?
    ensures var t := Step(s, SyncFile, env);
            Going(t, Staging, f) && t.copy.Idle? && t.files == s.files && t.verified == s.verified &&
            t.staging == s.staging[p := File(s.staging[p].data, true)]
  {
  }

  /** Copy, compare and fsync one file. */
  lemma CopyOne(s: State, f: Source, p: Path, env: Env) returns (actions: seq<Action>)
    requires Making(s, f) && Directories(f) <= s.staging.Keys && p in CopySet(f) && p !in s.verified && Readable(f, p)
    requires env.skipLock && WellFormed(f)
    ensures OursOnly(actions)
    ensures var t := Run(s, actions, env);
            Making(t, f) && Directories(f) <= t.staging.Keys && t.verified.Keys == s.verified.Keys + {p}
  {
    Copies(s, f, p, env);
    var s1 := Step(s, CopyFile(p, Content(f, p)), env);
    Compares(s1, f, p, env);
    var s2 := Step(s1, CompareDigests(Content(f, p)), env);
    Syncs(s2, f, p, env);
    actions := Extend(s, [], CopyFile(p, Content(f, p)), env);
    actions := Extend(s, actions, CompareDigests(Content(f, p)), env);
    actions := Extend(s, actions, SyncFile, env);
  }

  /** All directories are made and all files can be read. */
  ghost predicate CopyReady(s: State, f: Source, env: Env) {
    Making(s, f) && Directories(f) <= s.staging.Keys && (forall p :: p in CopySet(f) ==> Readable(f, p)) && env.skipLock
  }

  lemma {:induction false} CopyAll(s: State, f: Source, env: Env) returns (actions: seq<Action>)
    requires WellFormed(f) && CopyReady(s, f, env)
    ensures OursOnly(actions)
    ensures CopyReady(Run(s, actions, env), f, env) && CopySet(f) <= Run(s, actions, env).verified.Keys
    decreases |CopySet(f) - s.verified.Keys|, 0
  {
    if p :| p in CopySet(f) - s.verified.Keys {
      var one := CopyOne(s, f, p, env);
      Shrinks(CopySet(f), s.verified.Keys, p);
      actions := CopyRest(s, one, Run(s, one, env), f, env);
    } else {
      actions := [];
      assert CopySet(f) - s.verified.Keys == {};
    }
  }

  lemma {:induction false} CopyRest(s: State, before: seq<Action>, t: State, f: Source, env: Env)
    returns (actions: seq<Action>)
    requires WellFormed(f) && OursOnly(before) && t == Run(s, before, env) && CopyReady(t, f, env)
    ensures OursOnly(actions)
    ensures CopyReady(Run(s, actions, env), f, env) && CopySet(f) <= Run(s, actions, env).verified.Keys
    decreases |CopySet(f) - t.verified.Keys|, 1
  {
    var rest := CopyAll(t, f, env);
    actions := before + rest;
    RunConcat(s, before, rest, env);
  }

  function Unsynced(t: Staged): (ps: set<Path>) {
    set p | p in t && t[p] == Folder(false)
  }

  lemma {:induction false} SyncDirectories(s: State, f: Source, env: Env) returns (actions: seq<Action>)
    requires Going(s, Described, f)
    ensures OursOnly(actions)
    ensures Going(Run(s, actions, env), Described, f) && FoldersSynced(Run(s, actions, env).staging)
    decreases |Unsynced(s.staging)|
  {
    actions := [];
    if p :| p in Unsynced(s.staging) {
      var t := Step(s, SyncDirectory(p), env);
      assert Unsynced(t.staging) == Unsynced(s.staging) - {p};
      var rest := SyncDirectories(t, f, env);
      actions := [SyncDirectory(p)] + rest;
      RunCons(s, SyncDirectory(p), rest, env);
    } else {
      forall p | p in s.staging && s.staging[p].Folder? ensures s.staging[p].synced {
        assert p !in Unsynced(s.staging);
      }
    }
  }

  lemma Opens(s: State, env: Env)
    requires Initial(s) && s.lock.Free? && s.target.Absent? && IsRegular(s.src.tree, LOCK)
    ensures var t := Step(Step(s, CheckArgs, env), OpenLock, env);
            Going(t, LockOpened, s.src) && t.copy.Idle? && t.lock.Free?
  {
    assert Step(s, CheckArgs, env) == s.(pc := ArgsChecked);
  }

  lemma Lists(s: State, f: Source, env: Env)
    requires Going(s, LockOpened, f) && s.copy.Idle? && s.lock.Free? && Listable(f, env)
    ensures var t := Step(Step(s, TakeLock, env), Inventory, env);
            Going(t, Listed, f) && t.copy.Idle? && t.files == Files(f)
  {
    assert Step(s, TakeLock, env) == s.(pc := Locked, lock := Us, snapshot := f);
  }

  lemma Vets(s: State, f: Source, env: Env)
    requires Going(s, Listed, f) && s.copy.Idle? && s.files == Files(f) && Acceptable(f, env)
    ensures var t := Step(s, VetCurrent, env);
            Going(t, Vetted, f) && t.copy.Idle? && t.files - {LOCK} == CopySet(f)
  {
    var manifest := Manifest(env, Content(f, CURRENT)).value;
    assert CURRENT in s.files && manifest in s.files;
  }

  lemma Stages(s: State, f: Source, env: Env)
    requires Going(s, Vetted, f) && s.copy.Idle? && s.files - {LOCK} == CopySet(f) && WellFormed(f)
    ensures var t := Step(s, MakeStaging, env);
            Copying(t, f) && t.staging == map[[] := Folder(false)] && t.verified == map[]
  {
    assert [] !in CopySet(f);
  }

  /** Through the checks, to the list of files. */
  lemma TakeInventory(s: State, env: Env) returns (actions: seq<Action>)
    requires Initial(s) && s.lock.Free? && s.target.Absent? && IsRegular(s.src.tree, LOCK) && Listable(s.src, env)
    ensures OursOnly(actions) && forall i :: 0 <= i < |actions| ==> IsEarly(actions[i])
    ensures var t := Run(s, actions, env); Going(t, Listed, s.src) && t.copy.Idle? && t.files == Files(s.src)
  {
    Opens(s, env);
    actions := Extend(s, [], CheckArgs, env);
    actions := Extend(s, actions, OpenLock, env);
    Lists(Run(s, actions, env), s.src, env);
    actions := Extend(s, actions, TakeLock, env);
    actions := Extend(s, actions, Inventory, env);
  }

  /** And on to an empty staging directory. */
  lemma Prepare(s: State, env: Env) returns (actions: seq<Action>)
    requires Initial(s) && s.lock.Free? && s.target.Absent? && Acceptable(s.src, env)
    ensures OursOnly(actions)
    ensures var t := Run(s, actions, env);
            Copying(t, s.src) && t.staging == map[[] := Folder(false)] && t.verified == map[]
  {
    actions := TakeInventory(s, env);
    Vets(Run(s, actions, env), s.src, env);
    actions := Extend(s, actions, VetCurrent, env);
    Stages(Run(s, actions, env), s.src, env);
    actions := Extend(s, actions, MakeStaging, env);
  }

  lemma Describes(s: State, f: Source, env: Env)
    requires Copying(s, f) && Directories(f) <= s.staging.Keys && CopySet(f) <= s.verified.Keys
    requires env.skipLock && !IsDirectory(f.tree, PROVENANCE)
    ensures Going(Step(Step(s, TouchLock, env), WriteMetadata, env), Described, f)
  {
    var s1 := Step(s, TouchLock, env);
    assert Going(s1, Touched, f) && s1.staging.Keys <= s.staging.Keys + {LOCK};
    assert PROVENANCE !in Folders(f) + CopySet(f) + {LOCK};
  }

  lemma Publishes(s: State, f: Source, env: Env)
    requires Going(s, Described, f) && FoldersSynced(s.staging)
    ensures Step(s, Publish, env).target.Ours?
  {
  }

  /** From a full staging directory to the target. */
  lemma Deliver(s: State, f: Source, env: Env) returns (actions: seq<Action>)
    requires Copying(s, f) && Directories(f) <= s.staging.Keys && CopySet(f) <= s.verified.Keys
    requires env.skipLock && !IsDirectory(f.tree, PROVENANCE)
    ensures OursOnly(actions) && Run(s, actions, env).target.Ours?
  {
    Describes(s, f, env);
    actions := Extend(s, [], TouchLock, env);
    actions := Extend(s, actions, WriteMetadata, env);
    actions := SyncAndPublish(s, actions, f, env);
  }

  lemma SyncAndPublish(s: State, before: seq<Action>, f: Source, env: Env) returns (actions: seq<Action>)
    requires OursOnly(before) && Going(Run(s, before, env), Described, f)
    ensures OursOnly(actions) && Run(s, actions, env).target.Ours?
  {
    var sync := SyncDirectories(Run(s, before, env), f, env);
    RunConcat(s, before, sync, env);
    Publishes(Run(s, before + sync, env), f, env);
    actions := Extend(s, before + sync, Publish, env);
  }

  /** Undisturbed, the steps can be taken to the end. */
  lemma Succeeds(s: State, env: Env) returns (actions: seq<Action>)
    requires env.skipLock && Initial(s) && s.lock.Free? && s.target.Absent? && Acceptable(s.src, env)
    ensures OursOnly(actions) && Run(s, actions, env).target.Ours?
  {
    actions := Prepare(s, env);
    var dirs := MakeDirectories(Run(s, actions, env), s.src, env);
    RunConcat(s, actions, dirs, env);
    actions := actions + dirs;
    AllReadable(s.src);
    var files := CopyAll(Run(s, actions, env), s.src, env);
    RunConcat(s, actions, files, env);
    actions := actions + files;
    var last := Deliver(Run(s, actions, env), s.src, env);
    RunConcat(s, actions, last, env);
    actions := actions + last;
  }

  lemma AllReadable(f: Source)
    requires WellFormed(f)
    ensures forall p :: p in CopySet(f) ==> Readable(f, p)
  {
  }

  // ---------------------------------------------------------------------------------------------
  // Necessity
  // ---------------------------------------------------------------------------------------------

  /** What an undisturbed run has checked by the time it gets this far. */
  ghost predicate HasChecked(s0: State, s: State, env: Env) {
    s.src == s0.src &&
    (Rank(s.pc) < 9 ==> s.target == s0.target) && (Rank(s.pc) < 3 && s.status.Running? ==> s.lock == s0.lock) &&
    (Rank(s.pc) >= 1 ==> s0.target.Absent?) &&
    (Rank(s.pc) >= 2 ==> IsRegular(s0.src.tree, LOCK) && s.lockInode == s0.src.tree[LOCK].inode) &&
    (Rank(s.pc) >= 3 ==> s0.lock.Free? && s.snapshot == s0.src) &&
    (Rank(s.pc) >= 4 ==> Listable(s0.src, env)) &&
    (Rank(s.pc) == 4 ==> s.files == Files(s0.src)) &&
    (Rank(s.pc) >= 5 ==>
       s.files == Files(s0.src) - {PROVENANCE} && Readable(s0.src, CURRENT) &&
       var manifest := Manifest(env, Content(s0.src, CURRENT));
       manifest.Some? && IsRegular(s0.src.tree, manifest.value))
  }

  lemma EarlyStepChecks(s0: State, s: State, a: Action, env: Env)
    requires HasChecked(s0, s, env) && IsEarly(a) && !a.VetCurrent? && s.status.Running?
    ensures HasChecked(s0, OurStep(s, a, env), env)
  {
  }

  lemma VetStepChecks(s0: State, s: State, env: Env)
    requires HasChecked(s0, s, env) && s.status.Running?
    ensures HasChecked(s0, DoVetCurrent(s, env), env)
  {
  }

  lemma CopyingStepChecks(s0: State, s: State, a: Action, env: Env)
    requires HasChecked(s0, s, env) && IsCopying(a) && s.status.Running?
    ensures HasChecked(s0, OurStep(s, a, env), env)
  {
  }

  lemma BuildingStepChecks(s0: State, s: State, a: Action, env: Env)
    requires HasChecked(s0, s, env) && IsBuilding(a) && s.status.Running?
    ensures HasChecked(s0, OurStep(s, a, env), env)
  {
  }

  lemma LateStepChecks(s0: State, s: State, a: Action, env: Env)
    requires HasChecked(s0, s, env) && IsLate(a) && s.status.Running?
    ensures HasChecked(s0, OurStep(s, a, env), env)
  {
  }

  lemma {:induction false} UndisturbedRunChecks(s0: State, s: State, actions: seq<Action>, env: Env)
    requires HasChecked(s0, s, env) && OursOnly(actions)
    ensures HasChecked(s0, Run(s, actions, env), env)
    decreases |actions|
  {
    if actions != [] {
      var a := actions[0];
      assert IsOurs(a);
      if s.status.Running? {
        if a.VetCurrent? {
          VetStepChecks(s0, s, env);
        } else if IsEarly(a) {
          EarlyStepChecks(s0, s, a, env);
        } else if IsCopying(a) {
          CopyingStepChecks(s0, s, a, env);
        } else if IsBuilding(a) {
          BuildingStepChecks(s0, s, a, env);
        } else {
          LateStepChecks(s0, s, a, env);
        }
      }
      UndisturbedRunChecks(s0, Step(s, a, env), actions[1..], env);
    }
  }

  /** An undisturbed run that has published started from an absent target, a free lock and such a source. */
  lemma PublishedWasAcceptable(s: State, actions: seq<Action>, env: Env)
    requires Initial(s) && KeepsLock(env) && OursOnly(actions) && Run(s, actions, env).target.Ours?
    ensures s.target.Absent? && s.lock.Free? && Acceptable(s.src, env)
  {
    UndisturbedRunChecks(s, s, actions, env);
    InitialHasInv(s, env);
    RunKeepsInv(s, actions, env);
    var t := Run(s, actions, env);
    assert t.target.tree[PROVENANCE].File?;
    assert PROVENANCE !in Folders(t.snapshot);
  }
}
