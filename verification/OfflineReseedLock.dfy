/**
 The record lock over whole runs of OfflineReseed: it is held from a successful lockf to the end of the
 process, and both precautions of the script, the refusal of hard links and the skipping of LOCK in the
 copy loop, are needed for that.
 */
module OfflineReseedLock {
  import opened Wrappers
  import opened OfflineReseed
  import opened OfflineReseedProgress

  /** From lockf to the end of the process the record lock is ours. */
  predicate LockHeld(s: State) {
    InLockedPhase(s) ==> s.lock.Us?
  }

  lemma {:induction false} RunKeepsLock(s: State, actions: seq<Action>, env: Env)
    requires LockInv(s, env)
    ensures LockInv(Run(s, actions, env), env)
    decreases |actions|
  {
    if actions != [] {
      var a := actions[0];
      if !IsOurs(a) {
        OtherStepKeepsLock(s, a, env);
      } else if s.status.Running? {
        OurStepKeepsLock(s, a, env);
      }
      RunKeepsLock(Step(s, a, env), actions[1..], env);
    }
  }

  /**
   With both precautions the record lock is ours exactly from a successful lockf to the end of the
   process, in every run; and unless there are rogue writers the source does not change meanwhile.
   */
  lemma LockHeldThroughout(s: State, actions: seq<Action>, env: Env)
    requires Initial(s) && KeepsLock(env)
    ensures var t := Run(s, actions, env);
            (InLockedPhase(t) <==> t.lock.Us?) && (InLockedPhase(t) && !env.rogue ==> t.src == t.snapshot)
  {
    RunKeepsLock(s, actions, env);
  }

  /** A fresh start on a source whose lock is free. */
  function StartOn(f: Source): (s: State) {
    State(f, Free, map[], Absent, false, Start, Running, 0, {}, Idle, map[], f, map[])
  }

  /** Reading a file that is a link to LOCK drops the lock. */
  lemma ReadDropsLock(s: State, p: Path)
    requires IsRegular(s.src.tree, p) && s.src.tree[p].inode == s.lockInode
    ensures !ReadSource(s, p).lock.Us?
  {
  }

  lemma VetOfLinkDrops(s: State, env: Env)
    requires Going(s, Listed, s.src) && s.copy.Idle? && s.files == Files(s.src) && Acceptable(s.src, env)
    requires s.src.tree[CURRENT].inode == s.lockInode
    ensures !LockHeld(Step(s, VetCurrent, env))
  {
    ReadDropsLock(s, CURRENT);
    Vets(s, s.src, env);
  }

  /** If CURRENT is a second name of LOCK and gets past the inventory, reading it drops the lock. */
  lemma LinkDropsLock(s: State, env: Env) returns (actions: seq<Action>)
    requires Initial(s) && s.lock.Free? && s.target.Absent? && Acceptable(s.src, env)
    requires s.src.tree[CURRENT] == s.src.tree[LOCK]
    ensures !LockHeld(Run(s, actions, env))
  {
    actions := TakeInventory(s, env);
    UndisturbedRunChecks(s, s, actions, env);
    VetOfLinkDrops(Run(s, actions, env), env);
    actions := Extend(s, actions, VetCurrent, env);
  }

  lemma CopyOfLockDrops(s: State, env: Env)
    requires Copying(s, s.src) && s.staging == map[[] := Folder(false)] && s.verified == map[] && !env.skipLock
    requires Directories(s.src) == {} && LOCK in s.files && Readable(s.src, LOCK)
    requires s.src.tree[LOCK].inode == s.lockInode
    ensures !LockHeld(Step(s, CopyFile(LOCK, Content(s.src, LOCK)), env))
  {
    ReadDropsLock(s, LOCK);
  }

  /** If LOCK is not skipped, copying it drops the lock. */
  lemma CopyDropsLock(s: State, env: Env) returns (actions: seq<Action>)
    requires Initial(s) && s.lock.Free? && s.target.Absent? && Acceptable(s.src, env)
    requires Directories(s.src) == {} && !env.skipLock
    ensures !LockHeld(Run(s, actions, env))
  {
    actions := Prepare(s, env);
    var staged := Run(s, actions, env);
    UndisturbedRunChecks(s, s, actions, env);
    CopyOfLockDrops(staged, env);
    actions := Extend(s, actions, CopyFile(LOCK, Content(s.src, LOCK)), env);
  }

  /** A source of three files: the inodes of LOCK and CURRENT, and how many links CURRENT has. */
  function ThreeFiles(lock: nat, current: nat, links: nat, text: Bytes): (f: Source) {
    Source(map[LOCK := Regular(lock), CURRENT := Regular(current), ["MANIFEST-1"] := Regular(2)],
           map[lock := [], 2 := [], current := text], map[lock := 1, 2 := 1, current := links])
  }

  lemma ThreeFilesWork(lock: nat, current: nat, links: nat, text: Bytes, env: Env)
    requires env.text(text) == Some("MANIFEST-1") && lock < 2 && current < 2
    requires links == 1 <==> lock != current
    requires lock == current ==> !env.refuseLinks
    ensures var f := ThreeFiles(lock, current, links, text); Acceptable(f, env) && Directories(f) == {}
  {
    assert Manifest(env, text) == Some(["MANIFEST-1"]);
  }

  lemma ThreeFilesAreWellFormed(lock: nat, current: nat, links: nat, text: Bytes)
    requires lock < 2 && current < 2 && (links == 1 <==> lock != current)
    ensures WellFormed(ThreeFiles(lock, current, links, text))
  {
  }

  /**
   The lock is held in every run from every start if and only if the script refuses hard links and
   skips LOCK. (`current` is any content that decodes to a manifest name.)
   */
  lemma LockHeldExactly(env: Env, current: Bytes)
    requires env.text(current) == Some("MANIFEST-1")
    ensures (forall s: State, actions: seq<Action> :: Initial(s) ==> LockHeld(Run(s, actions, env))) <==>
            KeepsLock(env)
  {
    if KeepsLock(env) {
      forall s: State, actions: seq<Action> | Initial(s) ensures LockHeld(Run(s, actions, env)) {
        LockHeldThroughout(s, actions, env);
      }
    } else if !env.refuseLinks {
      ThreeFilesWork(0, 0, 2, current, env);
      ThreeFilesAreWellFormed(0, 0, 2, current);
      var actions := LinkDropsLock(StartOn(ThreeFiles(0, 0, 2, current)), env);
    } else {
      ThreeFilesWork(0, 1, 1, current, env);
      ThreeFilesAreWellFormed(0, 1, 1, current);
      var actions := CopyDropsLock(StartOn(ThreeFiles(0, 1, 1, current)), env);
    }
  }
}
