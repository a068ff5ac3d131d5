/**
 The offline reseed of scripts/nano-offline-reseed.py as a state machine: every file-system effect of
 `reseed` is one step, and between any two steps other processes may create, change or remove the
 target, take or release the database lock, change the source while they hold it, or (as `rogue`
 writers) overwrite source data without it. The process may fail or crash at every step.
 Loops over files and directories take their next element in any order, which includes the code's.
 Source, staging directory and target are three trees here; OfflineReseedDisk places them on one disk.
 */
module OfflineReseed {
  import opened Wrappers

  type Bytes = seq<int>
  type Path = seq<string>

  const LOCK: Path := ["LOCK"]
  const CURRENT: Path := ["CURRENT"]
  const PROVENANCE: Path := ["NANO-OFFLINE-SNAPSHOT.json"]

  // ---------------------------------------------------------------------------------------------
  // The source directory
  // ---------------------------------------------------------------------------------------------

  datatype Node = Directory | Regular(inode: nat) | Special

  /** Paths are relative to the root, which is []; `links` is st_nlink and counts links anywhere. */
  datatype Source = Source(tree: map<Path, Node>, data: map<nat, Bytes>, links: map<nat, nat>)

  function Parent(p: Path): (q: Path)
    requires p != []
  {
    p[..|p| - 1]
  }

  predicate IsDirectory(t: map<Path, Node>, p: Path) {
    p == [] || (p in t && t[p].Directory?)
  }

  predicate IsRegular(t: map<Path, Node>, p: Path) {
    p in t && t[p].Regular?
  }

  /** An entry is in a directory. */
  predicate InDirectory(t: map<Path, Node>, p: Path) {
    p in t ==> p != [] && IsDirectory(t, Parent(p))
  }

  ghost predicate WellFormed(f: Source) {
    [] !in f.tree && (forall p :: InDirectory(f.tree, p)) &&
    (forall p :: IsRegular(f.tree, p) ==> f.tree[p].inode in f.data && f.tree[p].inode in f.links) &&
    (forall p, q :: IsRegular(f.tree, p) && IsRegular(f.tree, q) && p != q && f.tree[p].inode == f.tree[q].inode ==>
       f.links[f.tree[p].inode] != 1)
  }

  function Files(f: Source): (s: set<Path>) {
    set p | p in f.tree && f.tree[p].Regular?
  }

  function Directories(f: Source): (s: set<Path>) {
    set p | p in f.tree && f.tree[p].Directory?
  }

  predicate Unlinked(f: Source) {
    forall p :: p in f.tree && f.tree[p].Regular? ==> f.tree[p].inode in f.links && f.links[f.tree[p].inode] == 1
  }

  predicate NothingSpecial(f: Source) {
    forall p :: p in f.tree ==> !f.tree[p].Special?
  }

  /** Nothing but directories and regular files, and no second links. */
  predicate Plain(f: Source) {
    NothingSpecial(f) && Unlinked(f)
  }

  /** What gets copied: neither the live lock nor an older provenance file. */
  function CopySet(f: Source): (s: set<Path>) {
    Files(f) - {LOCK, PROVENANCE}
  }

  predicate Readable(f: Source, p: Path) {
    IsRegular(f.tree, p) && f.tree[p].inode in f.data
  }

  function Content(f: Source, p: Path): (b: Bytes)
    requires Readable(f, p)
  {
    f.data[f.tree[p].inode]
  }

  // ---------------------------------------------------------------------------------------------
  // States and steps
  // ---------------------------------------------------------------------------------------------

  /** An entry of the staging directory, with whether fsync has been called on it since it was written. */
  datatype Item = Folder(synced: bool) | File(data: Bytes, synced: bool) | Odd

  type Staged = map<Path, Item>

  /** What is at the target path: nothing, something another process put there, or our renamed tree. */
  datatype Found = Absent | Foreign(tree: Staged) | Ours(tree: Staged)

  datatype Holder = Free | Us | Other

  /** The file being copied, and how far. */
  datatype Copy = Idle | Written(path: Path) | Checked(path: Path)

  /** How far `reseed` has come. */
  datatype Pc =
    | Start | ArgsChecked | LockOpened | Locked | Listed | Vetted | Staging | Touched | Described | Published | Settled

  function Rank(pc: Pc): (n: nat) {
    match pc
    case Start => 0
    case ArgsChecked => 1
    case LockOpened => 2
    case Locked => 3
    case Listed => 4
    case Vetted => 5
    case Staging => 6
    case Touched => 7
    case Described => 8
    case Published => 9
    case Settled => 10
  }

  datatype Status = Running | Ended | Crashed

  /**
   `parentSynced`: the target's directory entry has been fsynced. `snapshot` and `verified` only
   record, for the properties below, the source when the lock was taken and the bytes that the
   comparing pass read from each source file.
   */
  datatype State = State(
    src: Source, lock: Holder, staging: Staged, target: Found, parentSynced: bool,
    pc: Pc, status: Status, lockInode: nat, files: set<Path>, copy: Copy, checksums: map<Path, nat>,
    snapshot: Source, verified: map<Path, Bytes>)

  /**
   SHA-256, the JSON text of the metadata, the stripped text of a file if it decodes, and whether
   writers that ignore the lock exist; how many symbolic links the kernel follows on one path. The
   last four say which precautions the script takes.
   */
  datatype Env = Env(
    digest: Bytes -> nat, render: map<Path, nat> -> Bytes, text: Bytes -> Option<string>, rogue: bool,
    linkLimit: nat, refuseLinks: bool, skipLock: bool, refuseNested: bool, refuseSymlinks: bool)

  /** `inventory` succeeds. */
  predicate Listable(f: Source, env: Env) {
    NothingSpecial(f) && (env.refuseLinks ==> Unlinked(f))
  }

  /** The script as it is written keeps the lock: it refuses hard links and never opens LOCK again. */
  predicate KeepsLock(env: Env) {
    env.refuseLinks && env.skipLock
  }

  /** The manifest file that the text of CURRENT names: one path component with the right prefix. */
  function Manifest(env: Env, current: Bytes): (p: Option<Path>) {
    match env.text(current)
    case None => None
    case Some(name) => if "MANIFEST-" <= name && '/' !in name then Some([name]) else None
  }

  datatype Action =
    // other processes
    | OtherTarget(found: Found)
    | OtherLock
    | OtherUnlock
    | OtherChange(f: Source)
    | RogueWrite(inode: nat, bytes: Bytes)
    // reseed
    | CheckArgs
    | OpenLock
    | TakeLock
    | Inventory
    | VetCurrent
    | MakeStaging
    | MakeDirectory(p: Path)
    | CopyFile(p: Path, bytes: Bytes)
    | CompareDigests(bytes: Bytes)
    | SyncFile
    | TouchLock
    | WriteMetadata
    | SyncDirectory(p: Path)
    | Publish
    | SyncParent
    | CloseLock
    | Fail
    | Crash

  predicate IsOurs(a: Action) {
    !(a.OtherTarget? || a.OtherLock? || a.OtherUnlock? || a.OtherChange? || a.RogueWrite?)
  }

  /** The process ends and its descriptors, the lock descriptor among them, are closed. */
  function Finish(s: State, how: Status): (r: State) {
    s.(status := how, lock := if s.lock.Us? then Free else s.lock)
  }

  /** Opening and closing a source file drops our record lock if it is the lock's own inode. */
  function ReadSource(s: State, p: Path): (r: State)
    requires IsRegular(s.src.tree, p)
  {
    s.(lock := if s.lock.Us? && s.src.tree[p].inode == s.lockInode then Free else s.lock)
  }

  /**
   What reading a file block by block may give: its content, or anything at all if writers that
   ignore the lock can come between the blocks.
   */
  predicate MayRead(f: Source, p: Path, bytes: Bytes, env: Env) {
    Readable(f, p) && (env.rogue || bytes == Content(f, p))
  }

  /** Other processes keep the tree well formed and never replace the LOCK file. */
  ghost predicate LawfulChange(before: Source, after: Source) {
    WellFormed(after) &&
    (IsRegular(before.tree, LOCK) ==> IsRegular(after.tree, LOCK) && after.tree[LOCK] == before.tree[LOCK])
  }

  // Each step does nothing when the process is not at that point.

  /** The target must be new; the checks on the two paths belong to OfflineReseedDisk. */
  function DoCheckArgs(s: State): (r: State) {
    if !s.pc.Start? then s
    else if s.target.Absent? then s.(pc := ArgsChecked)
    else Finish(s, Ended)
  }

  function DoOpenLock(s: State): (r: State) {
    if !s.pc.ArgsChecked? then s
    else if IsRegular(s.src.tree, LOCK) then s.(pc := LockOpened, lockInode := s.src.tree[LOCK].inode)
    else Finish(s, Ended)
  }

  function DoTakeLock(s: State): (r: State) {
    if !s.pc.LockOpened? then s
    else if s.lock.Free? then s.(pc := Locked, lock := Us, snapshot := s.src)
    else Finish(s, Ended)
  }

  function DoInventory(s: State, env: Env): (r: State) {
    if !s.pc.Locked? then s
    else if Listable(s.src, env) then s.(pc := Listed, files := Files(s.src))
    else Finish(s, Ended)
  }

  /** CURRENT must be listed and name a listed manifest; an old provenance file is then forgotten. */
  function DoVetCurrent(s: State, env: Env): (r: State) {
    if !s.pc.Listed? then s
    else if CURRENT !in s.files || !Readable(s.src, CURRENT) then Finish(s, Ended)
    else
      var manifest := Manifest(env, Content(s.src, CURRENT));
      if manifest.Some? && manifest.value in s.files then
        ReadSource(s, CURRENT).(pc := Vetted, files := s.files - {PROVENANCE})
      else Finish(ReadSource(s, CURRENT), Ended)
  }

  function DoMakeStaging(s: State): (r: State) {
    if s.pc.Vetted? then s.(pc := Staging, staging := map[[] := Folder(false)]) else s
  }

  /** Directories are made from the top down. */
  predicate CanMakeDirectory(s: State, p: Path) {
    s.pc.Staging? && p != [] && IsDirectory(s.src.tree, p) && p !in s.staging &&
    Parent(p) in s.staging && s.staging[Parent(p)].Folder?
  }

  function DoMakeDirectory(s: State, p: Path): (r: State) {
    if CanMakeDirectory(s, p) then s.(staging := s.staging[p := Folder(false)]) else s
  }

  function ToCopy(files: set<Path>, env: Env): (ps: set<Path>) {
    if env.skipLock then files - {LOCK} else files
  }

  /** Files are copied once all directories are made. */
  predicate CanCopy(s: State, p: Path, bytes: Bytes, env: Env) {
    s.pc.Staging? && s.copy.Idle? && Directories(s.src) <= s.staging.Keys &&
    p in ToCopy(s.files, env) && p !in s.verified && MayRead(s.src, p, bytes, env) &&
    p != [] && Parent(p) in s.staging && s.staging[Parent(p)].Folder?
  }

  /** A directory in the place of a file is an error. */
  function DoCopyFile(s: State, p: Path, bytes: Bytes, env: Env): (r: State) {
    if !CanCopy(s, p, bytes, env) then s
    else if p in s.staging && !s.staging[p].File? then Finish(ReadSource(s, p), Ended)
    else ReadSource(s, p).(copy := Written(p), staging := s.staging[p := File(bytes, false)])
  }

  /** `bytes` is what the second reading of the source file gives. */
  function DoCompareDigests(s: State, bytes: Bytes, env: Env): (r: State) {
    if s.pc.Staging? && s.copy.Written? && s.copy.path in s.staging && s.staging[s.copy.path].File? &&
       MayRead(s.src, s.copy.path, bytes, env) then
      var p := s.copy.path;
      var digest := env.digest(s.staging[p].data);
      if digest == env.digest(bytes) then
        ReadSource(s, p).(copy := Checked(p), checksums := s.checksums[p := digest], verified := s.verified[p := bytes])
      else Finish(ReadSource(s, p), Ended)
    else s
  }

  predicate CanSyncFile(s: State) {
    s.pc.Staging? && s.copy.Checked? && s.copy.path in s.staging && s.staging[s.copy.path].File?
  }

  function DoSyncFile(s: State): (r: State) {
    if CanSyncFile(s) then
      s.(copy := Idle, staging := s.staging[s.copy.path := File(s.staging[s.copy.path].data, true)])
    else s
  }

  predicate CanTouchLock(s: State, env: Env) {
    s.pc.Staging? && s.copy.Idle? && Directories(s.src) <= s.staging.Keys && ToCopy(s.files, env) <= s.verified.Keys
  }

  /** `touch` makes an empty file unless one is there. */
  function DoTouchLock(s: State, env: Env): (r: State) {
    if !CanTouchLock(s, env) then s
    else s.(pc := Touched, staging := if LOCK in s.staging then s.staging else s.staging[LOCK := File([], false)])
  }

  /** The metadata file is created exclusively. */
  function DoWriteMetadata(s: State, env: Env): (r: State) {
    if !s.pc.Touched? then s
    else if PROVENANCE in s.staging then Finish(s, Ended)
    else s.(pc := Described, staging := s.staging[PROVENANCE := File(env.render(s.checksums), true)])
  }

  predicate CanSyncDirectory(s: State, p: Path) {
    s.pc.Described? && p in s.staging && s.staging[p].Folder?
  }

  function DoSyncDirectory(s: State, p: Path): (r: State) {
    if CanSyncDirectory(s, p) then s.(staging := s.staging[p := Folder(true)]) else s
  }

  predicate FoldersSynced(t: Staged) {
    forall p :: p in t && t[p].Folder? ==> t[p].synced
  }

  /** The walk has fsynced every directory. */
  predicate CanPublish(s: State) {
    s.pc.Described? && FoldersSynced(s.staging)
  }

  /** renameat2 with RENAME_NOREPLACE. */
  function DoPublish(s: State): (r: State) {
    if !CanPublish(s) then s
    else if s.target.Absent? then s.(pc := Published, target := Ours(s.staging), staging := map[])
    else Finish(s, Ended)
  }

  function DoSyncParent(s: State): (r: State) {
    if s.pc.Published? then s.(pc := Settled, parentSynced := true) else s
  }

  ghost function OtherStep(s: State, a: Action, env: Env): (r: State) {
    match a
    case OtherTarget(found) => if s.target.Ours? || found.Ours? then s else s.(target := found)
    case OtherLock => if s.lock.Free? then s.(lock := Other) else s
    case OtherUnlock => if s.lock.Other? then s.(lock := Free) else s
    case OtherChange(f) => if s.lock.Other? && LawfulChange(s.src, f) then s.(src := f) else s
    case RogueWrite(inode, bytes) =>
      if env.rogue && inode in s.src.data then s.(src := s.src.(data := s.src.data[inode := bytes])) else s
    case _ => s
  }

  function OurStep(s: State, a: Action, env: Env): (r: State) {
    match a
    case CheckArgs => DoCheckArgs(s)
    case OpenLock => DoOpenLock(s)
    case TakeLock => DoTakeLock(s)
    case Inventory => DoInventory(s, env)
    case VetCurrent => DoVetCurrent(s, env)
    case MakeStaging => DoMakeStaging(s)
    case MakeDirectory(p) => DoMakeDirectory(s, p)
    case CopyFile(p, bytes) => DoCopyFile(s, p, bytes, env)
    case CompareDigests(bytes) => DoCompareDigests(s, bytes, env)
    case SyncFile => DoSyncFile(s)
    case TouchLock => DoTouchLock(s, env)
    case WriteMetadata => DoWriteMetadata(s, env)
    case SyncDirectory(p) => DoSyncDirectory(s, p)
    case Publish => DoPublish(s)
    case SyncParent => DoSyncParent(s)
    case CloseLock => if s.pc.Settled? then Finish(s, Ended) else s
    case Fail => Finish(s, Ended)
    case Crash => Finish(s, Crashed)
    case _ => s
  }

  ghost function Step(s: State, a: Action, env: Env): (r: State) {
    if !IsOurs(a) then OtherStep(s, a, env) else if s.status.Running? then OurStep(s, a, env) else s
  }

  ghost function Run(s: State, actions: seq<Action>, env: Env): (r: State)
    decreases |actions|
  {
    if actions == [] then s else Run(Step(s, actions[0], env), actions[1..], env)
  }

  /** Before `reseed` starts: any source, any target, the lock free or held by another process. */
  ghost predicate Initial(s: State) {
    WellFormed(s.src) && !s.lock.Us? && s.staging == map[] && !s.target.Ours? && !s.parentSynced &&
    s.pc.Start? && s.status.Running? && s.copy.Idle? && s.checksums == map[] && s.verified == map[]
  }

  // ---------------------------------------------------------------------------------------------
  // Kinds of steps
  // ---------------------------------------------------------------------------------------------

  predicate IsEarly(a: Action) {
    a.CheckArgs? || a.OpenLock? || a.TakeLock? || a.Inventory? || a.VetCurrent?
  }

  predicate IsCopying(a: Action) {
    a.CopyFile? || a.CompareDigests? || a.SyncFile? || a.TouchLock?
  }

  predicate IsBuilding(a: Action) {
    a.MakeStaging? || a.MakeDirectory? || a.WriteMetadata? || a.SyncDirectory?
  }

  predicate IsLate(a: Action) {
    a.Publish? || a.SyncParent? || a.CloseLock? || a.Fail? || a.Crash?
  }

  // ---------------------------------------------------------------------------------------------
  // The lock
  // ---------------------------------------------------------------------------------------------

  predicate InLockedPhase(s: State) {
    s.status.Running? && Rank(s.pc) >= 3
  }

  /** The shape of the source is what it was when the lock was taken. */
  predicate SameShape(f: Source, g: Source) {
    f.tree == g.tree && f.links == g.links && f.data.Keys == g.data.Keys
  }

  function ListedFiles(f: Source, pc: Pc): (ps: set<Path>) {
    if Rank(pc) >= 5 then Files(f) - {PROVENANCE} else Files(f)
  }

  ghost predicate LockInv(s: State, env: Env) {
    KeepsLock(env) && WellFormed(s.src) && (s.copy.Written? ==> s.copy.path != LOCK) &&
    (Rank(s.pc) >= 3 ==> WellFormed(s.snapshot)) &&
    (s.status.Running? && Rank(s.pc) >= 2 ==> IsRegular(s.src.tree, LOCK) && s.src.tree[LOCK].inode == s.lockInode) &&
    (s.lock.Us? <==> InLockedPhase(s)) &&
    (InLockedPhase(s) ==> SameShape(s.src, s.snapshot)) &&
    (InLockedPhase(s) && !env.rogue ==> s.src == s.snapshot) &&
    (Rank(s.pc) >= 4 ==> Plain(s.snapshot) && s.files == ListedFiles(s.snapshot, s.pc))
  }

  /** In a plain source no file but LOCK itself shares the lock's inode. */
  lemma OnlyLockHasItsInode(f: Source, p: Path)
    requires WellFormed(f) && Plain(f) && IsRegular(f.tree, LOCK) && IsRegular(f.tree, p)
    ensures f.tree[p].inode == f.tree[LOCK].inode <==> p == LOCK
  {
    assert f.links[f.tree[p].inode] == 1;
  }

  /** The lock is ours, on a plain source. */
  ghost predicate HoldsPlain(s: State) {
    WellFormed(s.src) && Plain(s.src) && IsRegular(s.src.tree, LOCK) && s.src.tree[LOCK].inode == s.lockInode
  }

  lemma ListedIsPlain(s: State, env: Env)
    requires LockInv(s, env) && InLockedPhase(s) && Rank(s.pc) >= 4
    ensures HoldsPlain(s)
  {
  }

  /** Reading any file but LOCK leaves the lock alone. */
  lemma ReadIsSafe(s: State, p: Path)
    requires HoldsPlain(s) && IsRegular(s.src.tree, p) && p != LOCK
    ensures ReadSource(s, p) == s
  {
    OnlyLockHasItsInode(s.src, p);
  }

  lemma RogueWriteKeepsShape(f: Source, inode: nat, bytes: Bytes)
    requires WellFormed(f) && inode in f.data
    ensures WellFormed(f.(data := f.data[inode := bytes])) && SameShape(f.(data := f.data[inode := bytes]), f)
  {
    assert f.data[inode := bytes].Keys == f.data.Keys;
  }

  lemma OtherStepKeepsLock(s: State, a: Action, env: Env)
    requires LockInv(s, env) && !IsOurs(a)
    ensures LockInv(OtherStep(s, a, env), env)
  {
    if a.RogueWrite? && a.inode in s.src.data {
      RogueWriteKeepsShape(s.src, a.inode, a.bytes);
    }
  }

  lemma FinishKeepsLock(s: State, how: Status, env: Env)
    requires LockInv(s, env) && !how.Running?
    ensures LockInv(Finish(s, how), env)
  {
  }

  /** Once the source is vetted, nothing the lock invariant mentions changes but the step counter. */
  predicate SameLocks(s: State, t: State) {
    t.src == s.src && t.lock == s.lock && t.status == s.status && t.lockInode == s.lockInode &&
    (t.copy.Written? ==> t.copy.path != LOCK) &&
    t.files == s.files && t.snapshot == s.snapshot && (t.pc == s.pc || (Rank(s.pc) >= 5 && Rank(t.pc) >= 5))
  }

  predicate LockEffect(s: State, t: State) {
    SameLocks(s, t) || t == Finish(s, Ended) || t == Finish(s, Crashed)
  }

  lemma LockEffectKeepsLock(s: State, t: State, env: Env)
    requires LockInv(s, env) && LockEffect(s, t)
    ensures LockInv(t, env)
  {
    FinishKeepsLock(s, Ended, env);
    FinishKeepsLock(s, Crashed, env);
  }

  lemma BuildingEffects(s: State, a: Action, env: Env)
    requires IsBuilding(a) && (s.copy.Written? ==> s.copy.path != LOCK)
    ensures LockEffect(s, OurStep(s, a, env))
  {
  }

  lemma SyncFileEffect(s: State, env: Env)
    requires s.copy.Written? ==> s.copy.path != LOCK
    ensures LockEffect(s, DoSyncFile(s)) && LockEffect(s, DoTouchLock(s, env))
  {
  }

  lemma LateEffects(s: State, a: Action, env: Env)
    requires IsLate(a) && (s.copy.Written? ==> s.copy.path != LOCK)
    ensures LockEffect(s, OurStep(s, a, env))
  {
  }

  lemma CopyEffect(s: State, p: Path, bytes: Bytes, env: Env)
    requires env.skipLock && (s.copy.Written? ==> s.copy.path != LOCK)
    requires s.pc.Staging? && p != LOCK && IsRegular(s.src.tree, p) ==> ReadSource(s, p) == s
    ensures LockEffect(s, DoCopyFile(s, p, bytes, env))
  {
  }

  lemma CompareEffect(s: State, bytes: Bytes, env: Env)
    requires s.copy.Written? ==> s.copy.path != LOCK
    requires s.pc.Staging? && s.copy.Written? && IsRegular(s.src.tree, s.copy.path) ==> ReadSource(s, s.copy.path) == s
    ensures LockEffect(s, DoCompareDigests(s, bytes, env))
  {
  }

  lemma EarlyStepsKeepLock(s: State, a: Action, env: Env)
    requires LockInv(s, env) && s.status.Running?
    requires a.CheckArgs? || a.OpenLock? || a.TakeLock? || a.Inventory?
    ensures LockInv(OurStep(s, a, env), env)
  {
    FinishKeepsLock(s, Ended, env);
  }

  lemma VetEffect(s: State, env: Env)
    requires s.pc.Listed? && IsRegular(s.src.tree, CURRENT) ==> ReadSource(s, CURRENT) == s
    ensures var t := DoVetCurrent(s, env);
            t == s || t == Finish(s, Ended) || (s.pc.Listed? && t == s.(pc := Vetted, files := s.files - {PROVENANCE}))
  {
  }

  lemma VettedKeepsLock(s: State, env: Env)
    requires LockInv(s, env) && s.pc.Listed?
    ensures LockInv(s.(pc := Vetted, files := s.files - {PROVENANCE}), env)
  {
    assert s.files == Files(s.snapshot);
    assert s.files - {PROVENANCE} == ListedFiles(s.snapshot, Vetted);
  }

  lemma VetKeepsLock(s: State, env: Env)
    requires LockInv(s, env) && s.status.Running?
    ensures LockInv(DoVetCurrent(s, env), env)
  {
    if s.pc.Listed? {
      ListedIsPlain(s, env);
      if IsRegular(s.src.tree, CURRENT) {
        ReadIsSafe(s, CURRENT);
      }
      VettedKeepsLock(s, env);
      VetEffect(s, env);
      FinishKeepsLock(s, Ended, env);
    }
  }

  /** In the copying phase reading any file but LOCK leaves the lock alone. */
  ghost predicate ReadsSafe(s: State) {
    forall p :: s.pc.Staging? && p != LOCK && IsRegular(s.src.tree, p) ==> ReadSource(s, p) == s
  }

  lemma ReadsAreSafe(s: State)
    requires s.pc.Staging? ==> HoldsPlain(s)
    ensures ReadsSafe(s)
  {
    forall p | s.pc.Staging? && p != LOCK && IsRegular(s.src.tree, p) ensures ReadSource(s, p) == s {
      ReadIsSafe(s, p);
    }
  }

  lemma SafeReadsHold(s: State, env: Env)
    requires LockInv(s, env) && s.status.Running?
    ensures ReadsSafe(s)
  {
    if s.pc.Staging? {
      ListedIsPlain(s, env);
    }
    ReadsAreSafe(s);
  }

  /** Every step of ours keeps the lock where it should be. */
  lemma OurStepKeepsLock(s: State, a: Action, env: Env)
    requires LockInv(s, env) && s.status.Running? && IsOurs(a)
    ensures LockInv(OurStep(s, a, env), env)
  {
    if a.VetCurrent? {
      VetKeepsLock(s, env);
    } else if IsEarly(a) {
      EarlyStepsKeepLock(s, a, env);
    } else {
      SafeReadsHold(s, env);
      LaterStepEffect(s, a, env);
      LockEffectKeepsLock(s, OurStep(s, a, env), env);
    }
  }

  lemma LaterStepEffect(s: State, a: Action, env: Env)
    requires ReadsSafe(s) && env.skipLock && (s.copy.Written? ==> s.copy.path != LOCK)
    requires IsCopying(a) || IsBuilding(a) || IsLate(a)
    ensures LockEffect(s, OurStep(s, a, env))
  {
    match a
    case CopyFile(p, bytes) => CopyEffect(s, p, bytes, env);
    case CompareDigests(bytes) => CompareEffect(s, bytes, env);
    case SyncFile => SyncFileEffect(s, env);
    case TouchLock => SyncFileEffect(s, env);
    case _ =>
      if IsLate(a) {
        LateEffects(s, a, env);
      } else {
        BuildingEffects(s, a, env);
      }
  }

  // ---------------------------------------------------------------------------------------------
  // The staging directory
  // ---------------------------------------------------------------------------------------------

  type Compared = map<Path, Bytes>

  /** The recorded digest of every file compared so far. */
  ghost predicate VerifiedOk(v: Compared, sums: map<Path, nat>, f: Source, env: Env) {
    v.Keys <= CopySet(f) && sums.Keys == v.Keys && forall p :: p in v ==> sums[p] == env.digest(v[p])
  }

  /** Unless there are rogue writers, a copy is the file as it was when the lock was taken. */
  predicate Genuine(data: Bytes, f: Source, p: Path, env: Env) {
    !env.rogue ==> Readable(f, p) && data == Content(f, p)
  }

  /** Every compared file is staged, matches by digest, and is fsynced unless it is the current one. */
  ghost predicate Holds(t: Staged, v: Compared, copy: Copy, f: Source, env: Env) {
    forall p :: p in v ==>
      p in t && t[p].File? && env.digest(t[p].data) == env.digest(v[p]) && Genuine(t[p].data, f, p, env) &&
      (t[p].synced || copy == Checked(p))
  }

  function Folders(f: Source): (ps: set<Path>) {
    {[]} + Directories(f)
  }

  ghost predicate FoldersOk(t: Staged, f: Source) {
    forall d :: d in t && d in Folders(f) ==> t[d].Folder?
  }

  ghost predicate CopyOk(t: Staged, v: Compared, copy: Copy, f: Source, env: Env) {
    match copy
    case Idle => true
    case Written(p) => p in CopySet(f) && p !in v && p in t && t[p].File? && Genuine(t[p].data, f, p, env)
    case Checked(p) => p in v
  }

  function InProgress(copy: Copy): (ps: set<Path>) {
    if copy.Idle? then {} else {copy.path}
  }

  ghost predicate StagingOk(t: Staged, v: Compared, copy: Copy, f: Source, env: Env) {
    Holds(t, v, copy, f, env) && FoldersOk(t, f) && CopyOk(t, v, copy, f, env) && [] in t &&
    t.Keys <= Folders(f) + v.Keys + InProgress(copy)
  }

  /** Everything is staged, up to the files made last. */
  ghost predicate Filled(t: Staged, v: Compared, f: Source, extra: set<Path>, env: Env) {
    Holds(t, v, Idle, f, env) && FoldersOk(t, f) && v.Keys == CopySet(f) &&
    t.Keys == Folders(f) + CopySet(f) + extra && (forall p :: p in extra ==> t[p].File?)
  }

  lemma FolderAdded(t: Staged, v: Compared, copy: Copy, f: Source, p: Path, env: Env)
    requires StagingOk(t, v, copy, f, env) && p in Folders(f) && p !in t
    ensures StagingOk(t[p := Folder(false)], v, copy, f, env)
  {
  }

  lemma CopyAdded(t: Staged, v: Compared, f: Source, p: Path, bytes: Bytes, env: Env)
    requires [] !in f.tree && StagingOk(t, v, Idle, f, env) && p in CopySet(f) && p !in v
    requires Genuine(bytes, f, p, env)
    ensures p !in t && StagingOk(t[p := File(bytes, false)], v, Written(p), f, env)
  {
    assert p !in Folders(f);
  }

  lemma CopyCompared(t: Staged, v: Compared, sums: map<Path, nat>, f: Source, p: Path, bytes: Bytes, env: Env)
    requires StagingOk(t, v, Written(p), f, env) && VerifiedOk(v, sums, f, env)
    requires env.digest(t[p].data) == env.digest(bytes)
    ensures StagingOk(t, v[p := bytes], Checked(p), f, env)
    ensures VerifiedOk(v[p := bytes], sums[p := env.digest(bytes)], f, env)
  {
  }

  lemma CopySynced(t: Staged, v: Compared, f: Source, p: Path, env: Env)
    requires StagingOk(t, v, Checked(p), f, env) && VerifiedKeys(v, f) && [] !in f.tree
    ensures StagingOk(t[p := File(t[p].data, true)], v, Idle, f, env)
  {
    assert p !in Folders(f);
  }

  predicate VerifiedKeys(v: Compared, f: Source) {
    v.Keys <= CopySet(f)
  }

  lemma LockTouched(t: Staged, v: Compared, f: Source, env: Env)
    requires StagingOk(t, v, Idle, f, env) && VerifiedKeys(v, f) && IsRegular(f.tree, LOCK)
    requires Directories(f) <= t.Keys && CopySet(f) <= v.Keys
    ensures LOCK !in t && Filled(t[LOCK := File([], false)], v, f, {LOCK}, env)
  {
    var u := t[LOCK := File([], false)];
    assert u.Keys == Folders(f) + CopySet(f) + {LOCK};
  }

  lemma MetadataWritten(t: Staged, v: Compared, f: Source, bytes: Bytes, env: Env)
    requires Filled(t, v, f, {LOCK}, env) && PROVENANCE !in t
    ensures Filled(t[PROVENANCE := File(bytes, true)], v, f, {LOCK, PROVENANCE}, env)
  {
    var u := t[PROVENANCE := File(bytes, true)];
    assert u.Keys == Folders(f) + CopySet(f) + {LOCK, PROVENANCE};
  }

  lemma FolderSynced(t: Staged, v: Compared, f: Source, extra: set<Path>, p: Path, env: Env)
    requires Filled(t, v, f, extra, env) && p in t && t[p].Folder?
    ensures Filled(t[p := Folder(true)], v, f, extra, env)
  {
    assert t[p := Folder(true)].Keys == t.Keys;
  }

  /** Where the build stands at each point of the run. */
  ghost predicate BuildInv(s: State, env: Env) {
    VerifiedOk(s.verified, s.checksums, s.snapshot, env) &&
    (Rank(s.pc) < 6 ==> s.verified == map[] && s.copy.Idle?) &&
    (s.pc.Staging? ==> StagingOk(s.staging, s.verified, s.copy, s.snapshot, env)) &&
    (s.pc.Touched? ==> Filled(s.staging, s.verified, s.snapshot, {LOCK}, env)) &&
    (s.pc.Described? ==>
       Filled(s.staging, s.verified, s.snapshot, {LOCK, PROVENANCE}, env) &&
       s.staging[PROVENANCE] == File(env.render(s.checksums), true))
  }

  /**
   A published tree: exactly the source's directories and files, without the source's LOCK and old
   provenance, with a new LOCK and the metadata. Each copied file has the recorded digest, which is
   also that of the bytes read from its source for comparison, and without rogue writers it is the
   file as it was when the lock was taken. Every copied file, the metadata and every directory had
   been fsynced.
   */
  ghost predicate Complete(t: Staged, v: Compared, sums: map<Path, nat>, f: Source, env: Env) {
    v.Keys == CopySet(f) && sums.Keys == CopySet(f) &&
    t.Keys == Folders(f) + CopySet(f) + {LOCK, PROVENANCE} &&
    (forall d :: d in Folders(f) ==> t[d] == Folder(true)) &&
    (forall p :: p in CopySet(f) ==>
       t[p].File? && t[p].synced && env.digest(t[p].data) == sums[p] == env.digest(v[p]) &&
       Genuine(t[p].data, f, p, env)) &&
    t[LOCK].File? && t[PROVENANCE] == File(env.render(sums), true)
  }

  lemma FilledIsComplete(t: Staged, v: Compared, sums: map<Path, nat>, f: Source, env: Env)
    requires VerifiedOk(v, sums, f, env) && Filled(t, v, f, {LOCK, PROVENANCE}, env) && FoldersSynced(t)
    requires t[PROVENANCE] == File(env.render(sums), true)
    ensures Complete(t, v, sums, f, env)
  {
    assert LOCK in {LOCK, PROVENANCE};
  }

  ghost predicate TargetInv(s: State, env: Env) {
    (s.target.Ours? <==> Rank(s.pc) >= 9) &&
    (s.target.Ours? ==> Complete(s.target.tree, s.verified, s.checksums, s.snapshot, env)) &&
    (s.parentSynced <==> s.pc.Settled?)
  }

  /** What the copying phase needs to know of the lock invariant. */
  ghost predicate CopyFacts(s: State, env: Env) {
    WellFormed(s.snapshot) && IsRegular(s.snapshot.tree, LOCK) && s.src.tree == s.snapshot.tree &&
    s.files - {LOCK} == CopySet(s.snapshot) && (!env.rogue ==> s.src == s.snapshot)
  }

  lemma CopyFactsHold(s: State, env: Env)
    requires LockInv(s, env) && InLockedPhase(s) && Rank(s.pc) >= 5
    ensures CopyFacts(s, env)
  {
  }

  lemma MakeDirectoryKeepsBuild(s: State, p: Path, env: Env)
    requires BuildInv(s, env) && (s.pc.Staging? ==> CopyFacts(s, env))
    ensures BuildInv(DoMakeDirectory(s, p), env)
  {
    if s.pc.Staging? && p in Folders(s.snapshot) && p !in s.staging {
      FolderAdded(s.staging, s.verified, s.copy, s.snapshot, p, env);
    }
  }

  lemma CopyFileKeepsBuild(s: State, p: Path, bytes: Bytes, env: Env)
    requires BuildInv(s, env) && env.skipLock && (s.pc.Staging? ==> CopyFacts(s, env))
    ensures BuildInv(DoCopyFile(s, p, bytes, env), env)
  {
    if s.pc.Staging? && s.copy.Idle? && p in s.files - {LOCK} && p !in s.verified && MayRead(s.src, p, bytes, env) {
      CopyAdded(s.staging, s.verified, s.snapshot, p, bytes, env);
      WrittenKeepsBuild(s, p, s.staging[p := File(bytes, false)], ReadSource(s, p).lock, env);
    }
  }

  lemma WrittenKeepsBuild(s: State, p: Path, t: Staged, lock: Holder, env: Env)
    requires BuildInv(s, env) && s.pc.Staging?
    requires StagingOk(t, s.verified, Written(p), s.snapshot, env)
    ensures BuildInv(s.(lock := lock, copy := Written(p), staging := t), env)
  {
  }

  lemma CompareKeepsBuild(s: State, bytes: Bytes, env: Env)
    requires BuildInv(s, env) && (s.pc.Staging? ==> CopyFacts(s, env))
    ensures BuildInv(DoCompareDigests(s, bytes, env), env)
  {
    if s.pc.Staging? && s.copy.Written? {
      var p := s.copy.path;
      if env.digest(s.staging[p].data) == env.digest(bytes) {
        CopyCompared(s.staging, s.verified, s.checksums, s.snapshot, p, bytes, env);
      }
    }
  }

  lemma SyncFileKeepsBuild(s: State, env: Env)
    requires BuildInv(s, env) && (s.pc.Staging? ==> CopyFacts(s, env))
    ensures BuildInv(DoSyncFile(s), env)
  {
    if s.pc.Staging? && s.copy.Checked? {
      CopySynced(s.staging, s.verified, s.snapshot, s.copy.path, env);
    }
  }

  lemma TouchLockKeepsBuild(s: State, env: Env)
    requires BuildInv(s, env) && env.skipLock
    requires s.pc.Staging? ==>
               IsRegular(s.snapshot.tree, LOCK) && Directories(s.src) == Directories(s.snapshot) &&
               s.files - {LOCK} == CopySet(s.snapshot)
    ensures BuildInv(DoTouchLock(s, env), env)
  {
    if s.pc.Staging? && s.copy.Idle? && Directories(s.src) <= s.staging.Keys && s.files - {LOCK} <= s.verified.Keys {
      LockTouched(s.staging, s.verified, s.snapshot, env);
      FilledKeepsBuild(s, s.staging[LOCK := File([], false)], env);
    }
  }

  lemma FilledKeepsBuild(s: State, t: Staged, env: Env)
    requires VerifiedOk(s.verified, s.checksums, s.snapshot, env) && s.copy.Idle?
    requires Filled(t, s.verified, s.snapshot, {LOCK}, env)
    ensures BuildInv(s.(pc := Touched, staging := t), env)
  {
  }

  lemma WriteMetadataKeepsBuild(s: State, env: Env)
    requires BuildInv(s, env)
    ensures BuildInv(DoWriteMetadata(s, env), env)
  {
    if s.pc.Touched? && PROVENANCE !in s.staging {
      MetadataWritten(s.staging, s.verified, s.snapshot, env.render(s.checksums), env);
    }
  }

  lemma SyncDirectoryKeepsBuild(s: State, p: Path, env: Env)
    requires BuildInv(s, env)
    ensures BuildInv(DoSyncDirectory(s, p), env)
  {
    if s.pc.Described? && p in s.staging && s.staging[p].Folder? {
      FolderSynced(s.staging, s.verified, s.snapshot, {LOCK, PROVENANCE}, p, env);
    }
  }

  lemma MakeStagingKeepsBuild(s: State, env: Env)
    requires BuildInv(s, env)
    ensures BuildInv(DoMakeStaging(s), env)
  {
  }

  lemma PublishKeeps(s: State, env: Env)
    requires BuildInv(s, env) && TargetInv(s, env)
    ensures BuildInv(DoPublish(s), env) && TargetInv(DoPublish(s), env)
  {
    if s.pc.Described? && FoldersSynced(s.staging) {
      FilledIsComplete(s.staging, s.verified, s.checksums, s.snapshot, env);
    }
  }

  lemma LateStepsKeep(s: State, a: Action, env: Env)
    requires BuildInv(s, env) && TargetInv(s, env) && IsLate(a)
    ensures BuildInv(OurStep(s, a, env), env) && TargetInv(OurStep(s, a, env), env)
  {
    if a.Publish? {
      PublishKeeps(s, env);
    }
  }

  lemma VetKeeps(s: State, env: Env)
    requires BuildInv(s, env) && TargetInv(s, env)
    ensures BuildInv(DoVetCurrent(s, env), env) && TargetInv(DoVetCurrent(s, env), env)
  {
  }

  lemma EarlyStepsKeep(s: State, a: Action, env: Env)
    requires BuildInv(s, env) && TargetInv(s, env) && IsEarly(a)
    ensures BuildInv(OurStep(s, a, env), env) && TargetInv(OurStep(s, a, env), env)
  {
    if a.VetCurrent? {
      VetKeeps(s, env);
    }
  }

  /** Copying and building touch neither the target nor the fields its invariant reads once it is ours. */
  predicate TargetEffect(s: State, t: State) {
    t.target == s.target && t.parentSynced == s.parentSynced && t.snapshot == s.snapshot &&
    (t.pc == s.pc || (Rank(s.pc) < 9 && Rank(t.pc) < 9)) &&
    (Rank(s.pc) < 9 || (t.verified == s.verified && t.checksums == s.checksums))
  }

  lemma TargetEffectKeeps(s: State, t: State, env: Env)
    requires TargetInv(s, env) && TargetEffect(s, t)
    ensures TargetInv(t, env)
  {
  }

  lemma CopyingStepsSpareTarget(s: State, a: Action, env: Env)
    requires IsCopying(a)
    ensures TargetEffect(s, OurStep(s, a, env))
  {
  }

  lemma BuildingStepsSpareTarget(s: State, a: Action, env: Env)
    requires IsBuilding(a)
    ensures TargetEffect(s, OurStep(s, a, env))
  {
  }

  lemma CopyingStepsKeepBuild(s: State, a: Action, env: Env)
    requires BuildInv(s, env) && env.skipLock && (s.pc.Staging? ==> CopyFacts(s, env)) && IsCopying(a)
    ensures BuildInv(OurStep(s, a, env), env)
  {
    match a
    case CopyFile(p, bytes) => CopyFileKeepsBuild(s, p, bytes, env);
    case CompareDigests(bytes) => CompareKeepsBuild(s, bytes, env);
    case SyncFile => SyncFileKeepsBuild(s, env);
    case TouchLock => TouchLockKeepsBuild(s, env);
  }

  lemma BuildingStepsKeepBuild(s: State, a: Action, env: Env)
    requires BuildInv(s, env) && (s.pc.Staging? ==> CopyFacts(s, env)) && IsBuilding(a)
    ensures BuildInv(OurStep(s, a, env), env)
  {
    match a
    case MakeStaging => MakeStagingKeepsBuild(s, env);
    case MakeDirectory(p) => MakeDirectoryKeepsBuild(s, p, env);
    case WriteMetadata => WriteMetadataKeepsBuild(s, env);
    case SyncDirectory(p) => SyncDirectoryKeepsBuild(s, p, env);
  }

  lemma OtherStepKeepsWork(s: State, a: Action, env: Env)
    requires BuildInv(s, env) && TargetInv(s, env) && !IsOurs(a)
    ensures BuildInv(OtherStep(s, a, env), env) && TargetInv(OtherStep(s, a, env), env)
  {
  }

  // ---------------------------------------------------------------------------------------------
  // Whole runs
  // ---------------------------------------------------------------------------------------------

  ghost predicate Inv(s: State, env: Env) {
    LockInv(s, env) && BuildInv(s, env) && TargetInv(s, env)
  }

  lemma StagingFacts(s: State, env: Env)
    requires LockInv(s, env) && s.status.Running?
    ensures s.pc.Staging? ==> CopyFacts(s, env)
  {
    if s.pc.Staging? {
      CopyFactsHold(s, env);
    }
  }

  lemma CopyingStepsKeep(s: State, a: Action, env: Env)
    requires BuildInv(s, env) && TargetInv(s, env) && env.skipLock && IsCopying(a)
    requires s.pc.Staging? ==> CopyFacts(s, env)
    ensures BuildInv(OurStep(s, a, env), env) && TargetInv(OurStep(s, a, env), env)
  {
    CopyingStepsKeepBuild(s, a, env);
    CopyingStepsSpareTarget(s, a, env);
    TargetEffectKeeps(s, OurStep(s, a, env), env);
  }

  lemma BuildingStepsKeep(s: State, a: Action, env: Env)
    requires BuildInv(s, env) && TargetInv(s, env) && env.skipLock && IsBuilding(a)
    requires s.pc.Staging? ==> CopyFacts(s, env)
    ensures BuildInv(OurStep(s, a, env), env) && TargetInv(OurStep(s, a, env), env)
  {
    BuildingStepsKeepBuild(s, a, env);
    BuildingStepsSpareTarget(s, a, env);
    TargetEffectKeeps(s, OurStep(s, a, env), env);
  }

  lemma OurStepKeepsWork(s: State, a: Action, env: Env)
    requires BuildInv(s, env) && TargetInv(s, env) && env.skipLock && IsOurs(a)
    requires s.pc.Staging? ==> CopyFacts(s, env)
    ensures BuildInv(OurStep(s, a, env), env) && TargetInv(OurStep(s, a, env), env)
  {
    if IsEarly(a) {
      EarlyStepsKeep(s, a, env);
    } else if IsLate(a) {
      LateStepsKeep(s, a, env);
    } else if IsCopying(a) {
      CopyingStepsKeep(s, a, env);
    } else {
      BuildingStepsKeep(s, a, env);
    }
  }

  lemma OurStepKeepsInv(s: State, a: Action, env: Env)
    requires Inv(s, env) && IsOurs(a) && s.status.Running?
    ensures Inv(OurStep(s, a, env), env)
  {
    OurStepKeepsLock(s, a, env);
    StagingFacts(s, env);
    OurStepKeepsWork(s, a, env);
  }

  lemma StepKeepsInv(s: State, a: Action, env: Env)
    requires Inv(s, env)
    ensures Inv(Step(s, a, env), env)
  {
    if !IsOurs(a) {
      OtherStepKeepsLock(s, a, env);
      OtherStepKeepsWork(s, a, env);
    } else if s.status.Running? {
      OurStepKeepsInv(s, a, env);
    }
  }

  lemma {:induction false} RunKeepsInv(s: State, actions: seq<Action>, env: Env)
    requires Inv(s, env)
    ensures Inv(Run(s, actions, env), env)
    decreases |actions|
  {
    if actions != [] {
      StepKeepsInv(s, actions[0], env);
      RunKeepsInv(Step(s, actions[0], env), actions[1..], env);
    }
  }

  lemma InitialHasInv(s: State, env: Env)
    requires Initial(s) && KeepsLock(env)
    ensures Inv(s, env)
  {
  }

  lemma RunTarget(s: State, actions: seq<Action>, env: Env)
    requires Initial(s) && KeepsLock(env)
    ensures var t := Run(s, actions, env); TargetInv(t, env) && (t.target.Ours? ==> WellFormed(t.snapshot))
  {
    InitialHasInv(s, env);
    RunKeepsInv(s, actions, env);
  }

  /**
   In every run, a target of ours is a complete, fsynced, digest-matched copy; if every writer
   respects the lock, each of its files is the source's content at the moment the lock was taken.
   */
  lemma PublishedIsComplete(s: State, actions: seq<Action>, env: Env)
    requires Initial(s) && KeepsLock(env)
    ensures var t := Run(s, actions, env);
            t.target.Ours? ==>
              Complete(t.target.tree, t.verified, t.checksums, t.snapshot, env) &&
              (!env.rogue ==> forall p :: p in CopySet(t.snapshot) ==>
                 Readable(t.snapshot, p) && t.target.tree[p] == File(Content(t.snapshot, p), true))
  {
    RunTarget(s, actions, env);
    var t := Run(s, actions, env);
    if t.target.Ours? && !env.rogue {
      forall p | p in CopySet(t.snapshot)
        ensures Readable(t.snapshot, p) && t.target.tree[p] == File(Content(t.snapshot, p), true)
      {
        assert Genuine(t.target.tree[p].data, t.snapshot, p, env);
      }
    }
  }

  /**
   File by file: every regular file of the locked source but LOCK and an old provenance file is in
   a target of ours, under the same path; every directory is; and nothing else but a new LOCK and
   the metadata.
   */
  lemma PublishesEveryFile(s: State, actions: seq<Action>, env: Env, p: Path)
    requires Initial(s) && KeepsLock(env) && Run(s, actions, env).target.Ours?
    ensures var t := Run(s, actions, env);
            var copied := IsRegular(t.snapshot.tree, p) && p != ["LOCK"] && p != ["NANO-OFFLINE-SNAPSHOT.json"];
            (copied ==>
               p in t.target.tree && t.target.tree[p].File? && t.target.tree[p].synced &&
               (!env.rogue ==>
                  Readable(t.snapshot, p) && t.target.tree[p].data == t.snapshot.data[t.snapshot.tree[p].inode])) &&
            (IsDirectory(t.snapshot.tree, p) ==> p in t.target.tree && t.target.tree[p] == Folder(true)) &&
            (p in t.target.tree ==>
               copied || IsDirectory(t.snapshot.tree, p) || p == ["LOCK"] || p == ["NANO-OFFLINE-SNAPSHOT.json"])
  {
    PublishedIsComplete(s, actions, env);
    var t := Run(s, actions, env);
    assert p in CopySet(t.snapshot) <==> IsRegular(t.snapshot.tree, p) && p != LOCK && p != PROVENANCE;
    assert p in Folders(t.snapshot) <==> IsDirectory(t.snapshot.tree, p);
    if p in CopySet(t.snapshot) {
      assert Genuine(t.target.tree[p].data, t.snapshot, p, env);
    }
  }

  // ---------------------------------------------------------------------------------------------
  // The manifest
  // ---------------------------------------------------------------------------------------------

  ghost predicate NamesManifest(f: Source, env: Env) {
    Readable(f, CURRENT) &&
    var manifest := Manifest(env, Content(f, CURRENT));
    manifest.Some? && IsRegular(f.tree, manifest.value)
  }

  ghost predicate VetInv(s: State, env: Env) {
    Rank(s.pc) >= 5 && !env.rogue ==> NamesManifest(s.snapshot, env)
  }

  /** Only a vetting step gets past the check of CURRENT, and only TakeLock takes a snapshot. */
  predicate PassesNoVetting(s: State, t: State) {
    t.snapshot == s.snapshot && (Rank(t.pc) >= 5 ==> Rank(s.pc) >= 5)
  }

  lemma OtherPassesNoVetting(s: State, a: Action, env: Env)
    requires !IsOurs(a)
    ensures PassesNoVetting(s, OtherStep(s, a, env))
  {
  }

  lemma CopyingPassesNoVetting(s: State, a: Action, env: Env)
    requires IsCopying(a)
    ensures PassesNoVetting(s, OurStep(s, a, env))
  {
  }

  lemma BuildingPassesNoVetting(s: State, a: Action, env: Env)
    requires IsBuilding(a) || IsLate(a)
    ensures PassesNoVetting(s, OurStep(s, a, env))
  {
  }

  lemma VettingKeepsVet(s: State, a: Action, env: Env)
    requires LockInv(s, env) && VetInv(s, env) && IsEarly(a) && s.status.Running?
    ensures VetInv(OurStep(s, a, env), env)
  {
  }

  lemma StepKeepsVet(s: State, a: Action, env: Env)
    requires LockInv(s, env) && VetInv(s, env)
    ensures VetInv(Step(s, a, env), env)
  {
    if !IsOurs(a) {
      OtherPassesNoVetting(s, a, env);
    } else if s.status.Running? {
      if IsEarly(a) {
        VettingKeepsVet(s, a, env);
      } else if IsCopying(a) {
        CopyingPassesNoVetting(s, a, env);
      } else {
        BuildingPassesNoVetting(s, a, env);
      }
    }
  }

  lemma {:induction false} RunKeepsVet(s: State, actions: seq<Action>, env: Env)
    requires Inv(s, env) && VetInv(s, env)
    ensures VetInv(Run(s, actions, env), env)
    decreases |actions|
  {
    if actions != [] {
      StepKeepsInv(s, actions[0], env);
      StepKeepsVet(s, actions[0], env);
      RunKeepsVet(Step(s, actions[0], env), actions[1..], env);
    }
  }

  lemma ManifestIsCopied(f: Source, env: Env, name: string)
    requires Readable(f, CURRENT) && Manifest(env, Content(f, CURRENT)) == Some([name]) && IsRegular(f.tree, [name])
    ensures CURRENT in CopySet(f) && [name] in CopySet(f)
  {
    assert name[0] == 'M' && "LOCK"[0] == 'L' && PROVENANCE[0][0] == 'N' && "CURRENT"[0] == 'C';
    assert [name][0] == name && LOCK[0] == "LOCK" && CURRENT[0] == "CURRENT";
  }

  /**
   If every writer respects the lock, a target of ours can be opened: its CURRENT holds the name of a
   manifest, a single name that starts with MANIFEST-, and that manifest is among its files.
   */
  lemma PublishedHasManifest(s: State, actions: seq<Action>, env: Env)
    requires Initial(s) && KeepsLock(env) && !env.rogue && Run(s, actions, env).target.Ours?
    ensures var tree := Run(s, actions, env).target.tree;
            ["CURRENT"] in tree && tree[["CURRENT"]].File? &&
            var name := env.text(tree[["CURRENT"]].data);
            name.Some? && "MANIFEST-" <= name.value && '/' !in name.value &&
            [name.value] in tree && tree[[name.value]].File?
  {
    var t := Run(s, actions, env);
    InitialHasInv(s, env);
    RunKeepsInv(s, actions, env);
    RunKeepsVet(s, actions, env);
    PublishedIsComplete(s, actions, env);
    var name := env.text(Content(t.snapshot, CURRENT)).value;
    ManifestIsCopied(t.snapshot, env, name);
  }

  // ---------------------------------------------------------------------------------------------
  // Power loss
  // ---------------------------------------------------------------------------------------------

  /**
   What may be left of a tree after power loss: an entry of a directory that was fsynced is there if
   the directory is, a file that was fsynced has its bytes, and nothing else is promised.
   */
  ghost predicate Survives(t: Staged, u: Staged) {
    [] in u && u.Keys <= t.Keys &&
    (forall p :: p in u ==> (u[p].File? <==> t[p].File?)) &&
    (forall p :: p in u && t[p].File? && t[p].synced ==> u[p].data == t[p].data) &&
    (forall p :: p in t && p != [] && Parent(p) in u && Parent(p) in t && t[Parent(p)] == Folder(true) ==> p in u)
  }

  /** What may be found at the target path afterwards: our rename is certain once the parent was fsynced. */
  ghost predicate FoundAfterPowerLoss(s: State, found: Found) {
    match s.target
    case Ours(t) => (found.Absent? && !s.parentSynced) || (found.Ours? && Survives(t, found.tree))
    case _ => found == s.target
  }

  lemma {:induction false} NothingIsLost(
    t: Staged, u: Staged, v: Compared, sums: map<Path, nat>, f: Source, env: Env, p: Path)
    requires Complete(t, v, sums, f, env) && WellFormed(f) && Survives(t, u) && p in t
    ensures p in u
    decreases |p|
  {
    if p != [] {
      ParentIsFolder(t, v, sums, f, env, p);
      NothingIsLost(t, u, v, sums, f, env, Parent(p));
    }
  }

  lemma ParentIsFolder(t: Staged, v: Compared, sums: map<Path, nat>, f: Source, env: Env, p: Path)
    requires Complete(t, v, sums, f, env) && WellFormed(f) && p in t && p != []
    ensures Parent(p) in t && t[Parent(p)] == Folder(true)
  {
    if p == LOCK || p == PROVENANCE {
      assert Parent(p) == [];
    } else {
      assert p in f.tree && InDirectory(f.tree, p);
    }
    assert Parent(p) in Folders(f);
  }

  /** `u` is all of the published tree `t`: each directory and file, the copies and the metadata byte for byte. */
  ghost predicate Intact(u: Staged, t: Staged, sums: map<Path, nat>, f: Source, env: Env) {
    u.Keys == t.Keys && PROVENANCE in u && u[PROVENANCE].File? && u[PROVENANCE].data == env.render(sums) &&
    (forall p :: p in u ==> (u[p].File? <==> t[p].File?)) &&
    (forall p :: p in CopySet(f) ==>
       p in u && p in sums && u[p].File? && t[p].File? && u[p].data == t[p].data && env.digest(u[p].data) == sums[p])
  }

  lemma CompleteSurvives(t: Staged, u: Staged, v: Compared, sums: map<Path, nat>, f: Source, env: Env)
    requires Complete(t, v, sums, f, env) && WellFormed(f) && Survives(t, u)
    ensures Intact(u, t, sums, f, env)
  {
    forall p | p in t ensures p in u {
      NothingIsLost(t, u, v, sums, f, env, p);
    }
  }

  lemma PowerLossSpares(t: State, env: Env, found: Found)
    requires TargetInv(t, env) && WellFormed(t.snapshot) && t.target.Ours? && FoundAfterPowerLoss(t, found)
    ensures found.Ours? ==> Intact(found.tree, t.target.tree, t.checksums, t.snapshot, env)
    ensures t.pc.Settled? ==> found.Ours?
  {
    if found.Ours? {
      CompleteSurvives(t.target.tree, found.tree, t.verified, t.checksums, t.snapshot, env);
    }
  }

  /**
   Power loss at any point of any run leaves at the target path nothing of ours or all of it: every
   directory and file, each copied file and the metadata byte for byte; and all of it for certain
   once `reseed` has fsynced the parent. A target of another process is as that process left it.
   */
  lemma PowerLossIsSafe(s: State, actions: seq<Action>, env: Env, found: Found)
    requires Initial(s) && KeepsLock(env)
    requires FoundAfterPowerLoss(Run(s, actions, env), found)
    ensures var t := Run(s, actions, env);
            (found.Ours? ==> t.target.Ours? && Intact(found.tree, t.target.tree, t.checksums, t.snapshot, env)) &&
            (t.pc.Settled? ==> found.Ours?) && (t.target.Foreign? ==> found == t.target)
  {
    RunTarget(s, actions, env);
    if Run(s, actions, env).target.Ours? {
      PowerLossSpares(Run(s, actions, env), env, found);
    }
  }
}
