/**
 The reseed script on one disk with absolute paths. Every write of a step names its path; what the
 steps of OfflineReseed call source, staging directory and target are views of that disk. Shown here:
 the checks of the arguments keep every write out of the source, the disk refines the three trees,
 and when the script publishes.
 */
module OfflineReseedHost {
  import opened OfflineReseed
  import opened OfflineReseedProgress
  import opened OfflineReseedDisk

  /** The disk, the two arguments (absolute and normalised), the staging path, and the process. */
  datatype Host = Host(
    disk: Disk, source: Path, target: Path, staging: Path,
    lock: Holder, parentSynced: bool, pc: Pc, status: Status, lockInode: nat, files: set<Path>, copy: Copy,
    checksums: map<Path, nat>, snapshot: Source, verified: map<Path, Bytes>)

  predicate HasStaging(pc: Pc) {
    6 <= Rank(pc) <= 8
  }

  predicate HasPublished(pc: Pc) {
    Rank(pc) >= 9
  }

  ghost function TargetAt(d: Disk, target: Path, pc: Pc): (found: Found) {
    if target !in d.tree then Absent
    else if HasPublished(pc) then Ours(ItemsBelow(d, target)) else Foreign(ItemsBelow(d, target))
  }

  ghost function View(k: Host): (s: State) {
    State(SourceAt(k.disk, k.source), k.lock, if HasStaging(k.pc) then ItemsBelow(k.disk, k.staging) else map[],
          TargetAt(k.disk, k.target, k.pc), k.parentSynced, k.pc, k.status, k.lockInode, k.files, k.copy, k.checksums,
          k.snapshot, k.verified)
  }

  // ---------------------------------------------------------------------------------------------
  // Steps
  // ---------------------------------------------------------------------------------------------

  /** No symbolic link on either path. */
  predicate LinkFree(d: Disk, source: Path, target: Path) {
    NoSymlinks(d, source) && NoSymlinks(d, target)
  }

  /** The checks at the start of `reseed`: on the paths as they are given, and on what they lead to. */
  predicate ArgsOk(k: Host, env: Env) {
    var n := env.linkLimit;
    (env.refuseSymlinks ==> LinkFree(k.disk, k.source, k.target)) &&
    (env.refuseNested ==> Apart(k.source, k.target)) &&
    k.target != [] && !Exists(k.disk, Real(k.disk, k.target, n)) &&
    IsDir(k.disk, Real(k.disk, Parent(k.target), n)) && IsDir(k.disk, Real(k.disk, k.source, n))
  }

  /** mkdtemp: beside the target, with a random part. */
  function StagingPath(target: Path, random: string): (p: Path)
    requires target != []
  {
    Parent(target) + ["." + target[|target| - 1] + ".reseed-" + random + ".partial"]
  }

  /** The process moves on; nothing is written. */
  function WithProcess(k: Host, t: State): (r: Host) {
    k.(lock := t.lock, parentSynced := t.parentSynced, pc := t.pc, status := t.status, lockInode := t.lockInode,
       files := t.files, copy := t.copy, checksums := t.checksums, snapshot := t.snapshot, verified := t.verified)
  }

  function Halt(k: Host): (r: Host) {
    k.(status := Ended, lock := if k.lock.Us? then Free else k.lock)
  }

  ghost function HostCheckArgs(k: Host, env: Env): (r: Host) {
    if !k.pc.Start? then k else if ArgsOk(k, env) then k.(pc := ArgsChecked) else Halt(k)
  }

  /** A name that is taken is tried again. */
  ghost function HostMakeStaging(k: Host, random: string): (r: Host) {
    if !k.pc.Vetted? then k
    else if k.target == [] || !IsDir(k.disk, Parent(k.target)) then Halt(k)
    else
      var path := StagingPath(k.target, random);
      if path in k.disk.tree then k
      else k.(pc := Staging, staging := path, disk := PutDir(k.disk, path, false))
  }

  ghost function HostMakeDirectory(k: Host, p: Path): (r: Host) {
    if CanMakeDirectory(View(k), p) then k.(disk := PutDir(k.disk, k.staging + p, false)) else k
  }

  ghost function HostCopyFile(k: Host, p: Path, bytes: Bytes, env: Env): (r: Host) {
    if !CanCopy(View(k), p, bytes, env) then k
    else
      var lock := ReadSource(View(k), p).lock;
      var path := k.staging + p;
      if path in k.disk.tree && !k.disk.tree[path].Name? then Halt(k.(lock := lock))
      else k.(lock := lock, copy := Written(p), disk := WriteFile(k.disk, path, bytes))
  }

  ghost function HostSyncFile(k: Host): (r: Host) {
    if CanSyncFile(View(k)) && IsName(k.disk, k.staging + k.copy.path) then
      k.(copy := Idle, disk := SyncName(k.disk, k.staging + k.copy.path))
    else k
  }

  ghost function HostTouchLock(k: Host, env: Env): (r: Host) {
    if !CanTouchLock(View(k), env) then k
    else if k.staging + LOCK in k.disk.tree then k.(pc := Touched)
    else k.(pc := Touched, disk := WriteFile(k.disk, k.staging + LOCK, []))
  }

  /** Open exclusively, write, fsync. */
  ghost function HostWriteMetadata(k: Host, env: Env): (r: Host) {
    var path := k.staging + PROVENANCE;
    if !k.pc.Touched? then k
    else if path in k.disk.tree then Halt(k)
    else k.(pc := Described, disk := SyncName(WriteFile(k.disk, path, env.render(k.checksums)), path))
  }

  ghost function HostSyncDirectory(k: Host, p: Path): (r: Host) {
    if CanSyncDirectory(View(k), p) then k.(disk := PutDir(k.disk, k.staging + p, true)) else k
  }

  ghost function HostPublish(k: Host): (r: Host) {
    if !CanPublish(View(k)) then k
    else if k.target in k.disk.tree then Halt(k)
    else k.(pc := Published, disk := Rename(k.disk, k.staging, k.target))
  }

  predicate Writes(a: Action) {
    a.MakeStaging? || a.MakeDirectory? || a.CopyFile? || a.SyncFile? || a.TouchLock? || a.WriteMetadata? ||
    a.SyncDirectory? || a.Publish?
  }

  /** One step of the script; those that write nothing do what they do on the view. */
  ghost function ScriptStep(k: Host, a: Action, random: string, env: Env): (r: Host) {
    match a
    case CheckArgs => HostCheckArgs(k, env)
    case MakeStaging => HostMakeStaging(k, random)
    case MakeDirectory(p) => HostMakeDirectory(k, p)
    case CopyFile(p, bytes) => HostCopyFile(k, p, bytes, env)
    case SyncFile => HostSyncFile(k)
    case TouchLock => HostTouchLock(k, env)
    case WriteMetadata => HostWriteMetadata(k, env)
    case SyncDirectory(p) => HostSyncDirectory(k, p)
    case Publish => HostPublish(k)
    case _ => WithProcess(k, OurStep(View(k), a, env))
  }

  /** The places that the three paths of the script lead to at this moment. */
  function Resolved(k: Host, env: Env): (r: Host) {
    k.(source := Real(k.disk, k.source, env.linkLimit),
       target := if k.target == [] then [] else RealEntry(k.disk, k.target, env.linkLimit),
       staging := if Rank(k.pc) < 6 || k.staging == [] then k.staging
                  else RealEntry(k.disk, k.staging, env.linkLimit))
  }

  /** One step of the script on the paths it was given: every access follows the links on them. */
  ghost function FollowStep(k: Host, a: Action, random: string, env: Env): (r: Host) {
    if a.CheckArgs? then HostCheckArgs(k, env)
    else
      var at := Resolved(k, env);
      var r := ScriptStep(at, a, random, env);
      r.(source := k.source, target := k.target,
         staging := if r.staging == at.staging || k.target == [] then k.staging else StagingPath(k.target, random))
  }

  datatype Event =
    | OthersLock
    | OthersUnlock
    | Overwrite(inode: nat, bytes: Bytes)
    | Change(disk: Disk)
    | Script(a: Action, random: string)

  /**
   What other processes may make of the disk: anything, except that they change entries of the source
   only under the lock and never replace LOCK, that they leave our staging directory and our
   published target alone, and that once the arguments are accepted they put no symbolic link on a
   path that had none.
   */
  ghost predicate MayChange(k: Host, d: Disk) {
    DiskOk(d) && (Rank(k.pc) >= 1 && LinkFree(k.disk, k.source, k.target) ==> LinkFree(d, k.source, k.target)) &&
    LawfulChange(SourceAt(k.disk, k.source), SourceAt(d, k.source)) &&
    (k.lock.Other? || SameBelow(k.disk, d, k.source)) &&
    (HasStaging(k.pc) ==> SameBelow(k.disk, d, k.staging) && Private(d, k.staging)) &&
    (HasPublished(k.pc) ==> SameBelow(k.disk, d, k.target) && Private(d, k.target))
  }

  /** Other data for an inode, under all its names. */
  function Overwritten(d: Disk, inode: nat, bytes: Bytes): (e: Disk) {
    d.(data := d.data[inode := bytes], flushed := d.flushed - {inode})
  }

  ghost function HostStep(k: Host, e: Event, env: Env): (r: Host) {
    match e
    case OthersLock => if k.lock.Free? then k.(lock := Other) else k
    case OthersUnlock => if k.lock.Other? then k.(lock := Free) else k
    case Overwrite(inode, bytes) =>
      if env.rogue && inode in SourceAt(k.disk, k.source).data then
        k.(disk := Overwritten(k.disk, inode, bytes))
      else k
    case Change(d) => if MayChange(k, d) then k.(disk := d) else k
    case Script(a, random) => if IsOurs(a) && k.status.Running? then FollowStep(k, a, random, env) else k
  }

  ghost function HostRun(k: Host, events: seq<Event>, env: Env): (r: Host)
    decreases |events|
  {
    if events == [] then k else HostRun(HostStep(k, events[0], env), events[1..], env)
  }

  ghost predicate HostInitial(k: Host) {
    DiskOk(k.disk) && !k.lock.Us? && !k.parentSynced && k.pc.Start? && k.status.Running? && k.copy.Idle? &&
    k.checksums == map[] && k.verified == map[]
  }

  // ---------------------------------------------------------------------------------------------
  // Where things are
  // ---------------------------------------------------------------------------------------------

  ghost predicate StagingPlaced(k: Host) {
    IsDir(k.disk, k.staging) && Private(k.disk, k.staging)
  }

  ghost predicate Placed(k: Host) {
    DiskOk(k.disk) && Apart(k.source, k.target) &&
    (Rank(k.pc) >= 2 ==> IsRegular(NodesBelow(k.disk, k.source), LOCK)) &&
    (Rank(k.pc) >= 6 ==> Siblings(k.staging, k.target) && Apart(k.source, k.staging)) &&
    (HasStaging(k.pc) ==> StagingPlaced(k)) &&
    (HasPublished(k.pc) ==> k.target in k.disk.tree && k.disk.tree[k.target].Dir? && Private(k.disk, k.target))
  }

  /**
   What a step of ours leaves alone: the source, the target unless it is absent and the step
   publishes, and everything else that is not at or below the staging directory or the target.
   */
  ghost predicate Spares(k: Host, r: Host) {
    r.source == k.source && r.target == k.target && SameBelow(k.disk, r.disk, k.source) &&
    (SameBelow(k.disk, r.disk, k.target) ||
     (!Exists(k.disk, k.target) && !HasPublished(k.pc) && HasPublished(r.pc))) &&
    (if Rank(r.pc) >= 6 then Siblings(r.staging, r.target) && OnlyIn(k.disk, r.disk, r.staging, r.target)
     else r.disk == k.disk)
  }

  /** The views of source and target are kept. */
  ghost predicate KeepsEnds(k: Host, r: Host) {
    View(r).src == View(k).src && View(r).target == View(k).target
  }

  lemma SameTarget(k: Host, r: Host)
    requires SameBelow(k.disk, r.disk, k.target) && r.target == k.target && HasPublished(k.pc) == HasPublished(r.pc)
    ensures View(r).target == View(k).target
  {
    assert SameAt(k.disk, r.disk, k.target);
    SameItems(k.disk, r.disk, k.target);
  }

  /** A step that writes nothing and neither makes nor publishes the staging directory. */
  ghost predicate WroteNothing(k: Host, r: Host) {
    r.disk == k.disk && r.source == k.source && r.target == k.target && r.staging == k.staging &&
    HasStaging(r.pc) == HasStaging(k.pc) && HasPublished(r.pc) == HasPublished(k.pc)
  }

  lemma StaysPlaced(k: Host, r: Host)
    requires Placed(k) && WroteNothing(k, r)
    requires Rank(r.pc) >= 2 ==> IsRegular(NodesBelow(k.disk, k.source), LOCK)
    ensures Placed(r) && Spares(k, r)
  {
  }

  lemma SameView(k: Host, r: Host)
    requires WroteNothing(k, r)
    ensures KeepsEnds(k, r) && View(r).staging == View(k).staging
  {
  }

  lemma NothingWritten(k: Host, r: Host)
    requires Placed(k) && WroteNothing(k, r) && (Rank(r.pc) >= 2 ==> Rank(k.pc) >= 2)
    ensures Placed(r) && Spares(k, r) && KeepsEnds(k, r) && View(r).staging == View(k).staging
  {
    StaysPlaced(k, r);
    SameView(k, r);
  }

  /** A step that writes at one path in the staging directory. */
  lemma StagingWrite(k: Host, r: Host, rel: Path)
    requires Placed(k) && HasStaging(k.pc) && HasStaging(r.pc)
    requires r.source == k.source && r.target == k.target && r.staging == k.staging
    requires WroteAt(k.disk, r.disk, k.staging, k.staging + rel) && IsDir(r.disk, k.staging)
    ensures Placed(r) && Spares(k, r) && KeepsEnds(k, r)
    ensures View(r).staging == View(k).staging[rel := ItemOf(r.disk, r.disk.tree[k.staging + rel])]
  {
    assert OnlyIn(k.disk, r.disk, k.staging, k.staging) && OnlyIn(k.disk, r.disk, k.staging, k.target);
    SiblingsAreApart(k.staging, k.target);
    OnlyInSpares(k.disk, r.disk, k.staging, k.staging, k.source);
    OnlyInSpares(k.disk, r.disk, k.staging, k.staging, k.target);
    SameSource(k.disk, r.disk, k.source);
    SameTarget(k, r);
    OnlyAtItems(k.disk, r.disk, k.staging, rel);
  }

  lemma InStaging(k: Host, p: Path)
    requires Placed(k) && HasStaging(k.pc)
    ensures p in View(k).staging <==> k.staging + p in k.disk.tree
    ensures p in View(k).staging ==> View(k).staging[p] == ItemOf(k.disk, k.disk.tree[k.staging + p])
    ensures IsName(k.disk, k.staging + p) <==> p in View(k).staging && View(k).staging[p].File?
  {
    assert ShowsItem(View(k).staging, k.disk, k.staging, p);
    assert IsName(k.disk, k.staging + p) ==> k.disk.tree[k.staging + p].inode in k.disk.data;
  }

  /** The parent of a staged path is a directory on the disk. */
  lemma WritableAt(k: Host, p: Path)
    requires Placed(k) && HasStaging(k.pc)
    requires p != [] ==> Parent(p) in View(k).staging && View(k).staging[Parent(p)].Folder?
    ensures Writable(k.disk, k.staging, k.staging + p)
  {
    RestOf(k.staging, p);
    if p != [] {
      ParentOfConcat(k.staging, p);
      InStaging(k, Parent(p));
    } else {
      assert k.staging + p == k.staging && Rooted(k.disk, k.staging);
    }
  }

  lemma MakeDirectoryRefines(k: Host, p: Path)
    requires Placed(k)
    ensures var r := HostMakeDirectory(k, p); Placed(r) && Spares(k, r) && View(r) == DoMakeDirectory(View(k), p)
  {
    var r := HostMakeDirectory(k, p);
    if CanMakeDirectory(View(k), p) {
      WritableAt(k, p);
      InStaging(k, p);
      PutDirEffect(k.disk, k.staging, k.staging + p, false);
      StagingWrite(k, r, p);
    }
  }

  /** The same process on a disk with one more or rewritten file in the staging directory. */
  ghost predicate WroteFile(k: Host, r: Host, rel: Path, item: Item) {
    Placed(r) && Spares(k, r) && KeepsEnds(k, r) && View(r).staging == View(k).staging[rel := item]
  }

  lemma StagingFile(k: Host, r: Host, rel: Path, bytes: Bytes)
    requires Placed(k) && HasStaging(k.pc) && HasStaging(r.pc)
    requires r.source == k.source && r.target == k.target && r.staging == k.staging
    requires rel != [] && Parent(rel) in View(k).staging && View(k).staging[Parent(rel)].Folder?
    requires k.staging + rel !in k.disk.tree || IsName(k.disk, k.staging + rel)
    requires r.disk == WriteFile(k.disk, k.staging + rel, bytes)
    ensures WroteFile(k, r, rel, File(bytes, false))
  {
    WritableAt(k, rel);
    WriteEffect(k.disk, k.staging, k.staging + rel, bytes);
    assert SameAt(k.disk, r.disk, k.staging);
    StagingWrite(k, r, rel);
  }

  lemma CopyWrites(k: Host, p: Path, bytes: Bytes, env: Env)
    requires Placed(k) && CanCopy(View(k), p, bytes, env)
    requires k.staging + p !in k.disk.tree || IsName(k.disk, k.staging + p)
    ensures WroteFile(k, HostCopyFile(k, p, bytes, env), p, File(bytes, false))
  {
    StagingFile(k, HostCopyFile(k, p, bytes, env), p, bytes);
  }

  lemma CopyFileRefines(k: Host, p: Path, bytes: Bytes, env: Env)
    requires Placed(k)
    ensures var r := HostCopyFile(k, p, bytes, env);
            Placed(r) && Spares(k, r) && View(r) == DoCopyFile(View(k), p, bytes, env)
  {
    var r := HostCopyFile(k, p, bytes, env);
    if CanCopy(View(k), p, bytes, env) {
      InStaging(k, p);
      if k.staging + p !in k.disk.tree || IsName(k.disk, k.staging + p) {
        CopyWrites(k, p, bytes, env);
      } else {
        NothingWritten(k, r);
      }
    } else {
      NothingWritten(k, r);
    }
  }

  lemma SyncFileRefines(k: Host)
    requires Placed(k)
    ensures var r := HostSyncFile(k); Placed(r) && Spares(k, r) && View(r) == DoSyncFile(View(k))
  {
    if CanSyncFile(View(k)) {
      InStaging(k, k.copy.path);
      SyncFileEffect(k, HostSyncFile(k), k.copy.path);
    }
  }

  lemma SyncWritable(k: Host, p: Path)
    requires Placed(k) && HasStaging(k.pc) && k.staging + p in k.disk.tree
    ensures Writable(k.disk, k.staging, k.staging + p)
  {
    RestOf(k.staging, p);
    assert Rooted(k.disk, k.staging + p);
  }

  lemma TouchWrites(k: Host, env: Env)
    requires Placed(k) && CanTouchLock(View(k), env) && k.staging + LOCK !in k.disk.tree
    ensures WroteFile(k, HostTouchLock(k, env), LOCK, File([], false))
  {
    RootIsFolder(k);
    assert Parent(LOCK) == [];
    StagingFile(k, HostTouchLock(k, env), LOCK, []);
  }

  lemma TouchLockRefines(k: Host, env: Env)
    requires Placed(k)
    ensures var r := HostTouchLock(k, env); Placed(r) && Spares(k, r) && View(r) == DoTouchLock(View(k), env)
  {
    if HasStaging(k.pc) {
      InStaging(k, LOCK);
    }
    if CanTouchLock(View(k), env) && k.staging + LOCK !in k.disk.tree {
      TouchWrites(k, env);
    } else {
      NothingWritten(k, HostTouchLock(k, env));
    }
  }

  lemma RootIsFolder(k: Host)
    requires Placed(k) && HasStaging(k.pc)
    ensures [] in View(k).staging && View(k).staging[[]].Folder?
  {
    InStaging(k, []);
    assert k.staging + [] == k.staging;
  }

  lemma SyncFileEffect(k: Host, r: Host, p: Path)
    requires Placed(k) && HasStaging(k.pc) && IsName(k.disk, k.staging + p)
    requires r == k.(disk := SyncName(k.disk, k.staging + p), pc := r.pc, copy := r.copy) && HasStaging(r.pc)
    ensures p in View(k).staging && View(k).staging[p].File?
    ensures WroteFile(k, r, p, File(View(k).staging[p].data, true))
  {
    InStaging(k, p);
    SyncWritable(k, p);
    SyncEffect(k.disk, k.staging, k.staging + p);
    StagingWrite(k, r, p);
  }

  lemma SparesTransitive(k: Host, m: Host, r: Host)
    requires Spares(k, m) && Spares(m, r) && m.staging == r.staging && HasStaging(m.pc) && HasStaging(r.pc)
    ensures Spares(k, r)
  {
    forall p ensures SameAt(k.disk, m.disk, p) && SameAt(m.disk, r.disk, p) ==> SameAt(k.disk, r.disk, p) {
    }
  }

  lemma WroteTwice(k: Host, m: Host, r: Host, rel: Path, first: Item, item: Item)
    requires WroteFile(k, m, rel, first) && WroteFile(m, r, rel, item)
    requires m.staging == r.staging && HasStaging(m.pc) && HasStaging(r.pc)
    ensures WroteFile(k, r, rel, item)
  {
    SparesTransitive(k, m, r);
    assert View(k).staging[rel := first][rel := item] == View(k).staging[rel := item];
  }

  lemma MetadataFile(k: Host, m: Host, bytes: Bytes)
    requires Placed(k) && k.pc.Touched? && k.staging + PROVENANCE !in k.disk.tree
    requires m == k.(disk := WriteFile(k.disk, k.staging + PROVENANCE, bytes))
    ensures WroteFile(k, m, PROVENANCE, File(bytes, false)) && IsName(m.disk, m.staging + PROVENANCE)
  {
    RootIsFolder(k);
    StagingFile(k, m, PROVENANCE, bytes);
  }

  lemma MetadataWrites(k: Host, env: Env)
    requires Placed(k) && k.pc.Touched? && k.staging + PROVENANCE !in k.disk.tree
    ensures WroteFile(k, HostWriteMetadata(k, env), PROVENANCE, File(env.render(k.checksums), true))
  {
    var r := HostWriteMetadata(k, env);
    var m := k.(disk := WriteFile(k.disk, k.staging + PROVENANCE, env.render(k.checksums)));
    MetadataFile(k, m, env.render(k.checksums));
    SyncFileEffect(m, r, PROVENANCE);
    WroteTwice(k, m, r, PROVENANCE, File(env.render(k.checksums), false), File(env.render(k.checksums), true));
  }

  lemma WriteMetadataRefines(k: Host, env: Env)
    requires Placed(k)
    ensures var r := HostWriteMetadata(k, env); Placed(r) && Spares(k, r) && View(r) == DoWriteMetadata(View(k), env)
  {
    if k.pc.Touched? {
      InStaging(k, PROVENANCE);
    }
    if k.pc.Touched? && k.staging + PROVENANCE !in k.disk.tree {
      MetadataWrites(k, env);
    } else {
      NothingWritten(k, HostWriteMetadata(k, env));
    }
  }

  lemma SyncDirectoryRefines(k: Host, p: Path)
    requires Placed(k)
    ensures var r := HostSyncDirectory(k, p); Placed(r) && Spares(k, r) && View(r) == DoSyncDirectory(View(k), p)
  {
    var r := HostSyncDirectory(k, p);
    if CanSyncDirectory(View(k), p) {
      InStaging(k, p);
      SyncWritable(k, p);
      PutDirEffect(k.disk, k.staging, k.staging + p, true);
      StagingWrite(k, r, p);
    }
  }

  // ---------------------------------------------------------------------------------------------
  // Making the staging directory, and the rename
  // ---------------------------------------------------------------------------------------------

  lemma StagingIsSibling(target: Path, random: string)
    requires target != []
    ensures Siblings(StagingPath(target, random), target)
  {
    var p, last := StagingPath(target, random), target[|target| - 1];
    assert Parent(p) == Parent(target);
    assert |p[|p| - 1]| > |last|;
  }

  /** Nothing is at or below a path that does not exist. */
  lemma NothingBelow(d: Disk, root: Path, p: Path)
    requires DiskOk(d) && !Exists(d, root) && root <= p
    ensures p !in d.tree
  {
    if p in d.tree {
      AncestorsExist(d, root, p);
    }
  }

  lemma FreshIsPlaced(k: Host, path: Path)
    requires Placed(k) && Rank(k.pc) >= 2 && Siblings(path, k.target) && path !in k.disk.tree
    ensures Apart(k.source, path)
  {
    if path <= k.source {
      assert ShowsNode(NodesBelow(k.disk, k.source), k.disk, k.source, LOCK);
      NothingBelow(k.disk, path, k.source + LOCK);
    }
    BesideTarget(k.source, path, k.target);
  }

  lemma EmptyDirectory(d: Disk, path: Path)
    requires DiskOk(d) && path != [] && path !in d.tree && IsDir(d, Parent(path))
    ensures var e := PutDir(d, path, false);
            DiskOk(e) && Private(e, path) && OnlyIn(d, e, path, path) && ItemsBelow(e, path) == map[[] := Folder(false)]
  {
    var e := PutDir(d, path, false);
    PutDirKeepsDisk(d, path, false);
    forall p | IsName(e, p) ensures !(path <= p) {
      if path <= p {
        NothingBelow(d, path, p);
      }
    }
    var t: Staged, u := map[[] := Folder(false)], ItemsBelow(e, path);
    forall p ensures (p in t <==> p in u) && (p in t ==> u[p] == t[p]) {
      assert ShowsItem(u, e, path, p);
      RestOf(path, p);
      NothingBelow(d, path, path + p);
      assert p == [] ==> path + p == path;
    }
    assert t == u;
  }

  lemma MakeStagingSpares(k: Host, random: string)
    requires Placed(k) && k.pc.Vetted? && k.target != [] && IsDir(k.disk, Parent(k.target))
    requires StagingPath(k.target, random) !in k.disk.tree
    ensures var r := HostMakeStaging(k, random);
            r.pc.Staging? && Siblings(r.staging, k.target) && Apart(k.source, r.staging) &&
            DiskOk(r.disk) && Private(r.disk, r.staging) && IsDir(r.disk, r.staging) &&
            OnlyIn(k.disk, r.disk, r.staging, r.staging) &&
            ItemsBelow(r.disk, r.staging) == map[[] := Folder(false)]
  {
    StagingIsSibling(k.target, random);
    FreshIsPlaced(k, StagingPath(k.target, random));
    EmptyDirectory(k.disk, StagingPath(k.target, random));
  }

  lemma MakeStagingPlaces(k: Host, random: string)
    requires Placed(k) && k.pc.Vetted? && k.target != [] && IsDir(k.disk, Parent(k.target))
    requires StagingPath(k.target, random) !in k.disk.tree
    ensures var r := HostMakeStaging(k, random);
            Placed(r) && Spares(k, r) && SameBelow(k.disk, r.disk, k.target)
  {
    var r := HostMakeStaging(k, random);
    MakeStagingSpares(k, random);
    SiblingsAreApart(r.staging, k.target);
    OnlyInSpares(k.disk, r.disk, r.staging, r.staging, k.source);
    OnlyInSpares(k.disk, r.disk, r.staging, r.staging, k.target);
    SameNodes(k.disk, r.disk, k.source);
  }

  /** The action of the three trees that a step of MakeStaging amounts to, if any. */
  function StagingTrace(k: Host, random: string): (actions: seq<Action>) {
    if !k.pc.Vetted? then []
    else if k.target == [] || !IsDir(k.disk, Parent(k.target)) then [Fail]
    else if StagingPath(k.target, random) in k.disk.tree then [] else [MakeStaging]
  }

  lemma MakeStagingDone(k: Host, random: string)
    requires Placed(k) && StagingTrace(k, random) == [MakeStaging]
    ensures var r := HostMakeStaging(k, random); Placed(r) && Spares(k, r) && View(r) == DoMakeStaging(View(k))
  {
    var r := HostMakeStaging(k, random);
    MakeStagingSpares(k, random);
    MakeStagingPlaces(k, random);
    SameSource(k.disk, r.disk, k.source);
    SameTarget(k, r);
  }

  lemma MakeStagingNotDone(k: Host, random: string, env: Env)
    requires Placed(k) && k.status.Running? && StagingTrace(k, random) != [MakeStaging]
    ensures var r := HostMakeStaging(k, random);
            Placed(r) && Spares(k, r) &&
            View(r) == if StagingTrace(k, random) == [] then View(k) else OurStep(View(k), Fail, env)
  {
    NothingWritten(k, HostMakeStaging(k, random));
  }

  lemma StagingTraceRuns(k: Host, random: string, s: State, env: Env)
    requires s.status.Running?
    ensures Run(s, StagingTrace(k, random), env) ==
            if StagingTrace(k, random) == [] then s
            else if StagingTrace(k, random) == [Fail] then OurStep(s, Fail, env) else DoMakeStaging(s)
  {
    RunOne(s, Fail, env);
    RunOne(s, MakeStaging, env);
  }

  lemma MakeStagingRefines(k: Host, random: string, env: Env)
    requires Placed(k) && k.status.Running?
    ensures var r := HostMakeStaging(k, random);
            Placed(r) && Spares(k, r) && View(r) == Run(View(k), StagingTrace(k, random), env)
  {
    var s := View(k);
    StagingTraceRuns(k, random, s, env);
    if StagingTrace(k, random) == [MakeStaging] {
      MakeStagingDone(k, random);
    } else {
      MakeStagingNotDone(k, random, env);
    }
  }

  lemma RenameSpares(k: Host)
    requires Placed(k) && HasStaging(k.pc)
    ensures var e := Rename(k.disk, k.staging, k.target);
            OnlyIn(k.disk, e, k.staging, k.target) && SameBelow(k.disk, e, k.source)
  {
    SiblingsAreApart(k.staging, k.target);
    RenameOnlyIn(k.disk, k.staging, k.target);
    OnlyInSpares(k.disk, Rename(k.disk, k.staging, k.target), k.staging, k.target, k.source);
  }

  lemma PublishPlaces(k: Host)
    requires Placed(k) && CanPublish(View(k)) && k.target !in k.disk.tree
    ensures Placed(HostPublish(k))
  {
    RenameEffect(k.disk, k.staging, k.target);
    RenameSpares(k);
    SameNodes(k.disk, HostPublish(k).disk, k.source);
  }

  lemma PublishSpares(k: Host)
    requires Placed(k) && CanPublish(View(k)) && k.target !in k.disk.tree
    ensures Spares(k, HostPublish(k))
  {
    RenameSpares(k);
  }

  lemma PublishViews(k: Host)
    requires Placed(k) && CanPublish(View(k)) && k.target !in k.disk.tree
    ensures View(HostPublish(k)) == DoPublish(View(k))
  {
    RenameEffect(k.disk, k.staging, k.target);
    RenameSpares(k);
    RenameItems(k.disk, k.staging, k.target);
    SameSource(k.disk, HostPublish(k).disk, k.source);
  }

  lemma PublishRefines(k: Host)
    requires Placed(k)
    ensures var r := HostPublish(k); Placed(r) && Spares(k, r) && View(r) == DoPublish(View(k))
  {
    if CanPublish(View(k)) && k.target !in k.disk.tree {
      PublishPlaces(k);
      PublishSpares(k);
      PublishViews(k);
    } else {
      NothingWritten(k, HostPublish(k));
    }
  }

  // ---------------------------------------------------------------------------------------------
  // Steps that write nothing
  // ---------------------------------------------------------------------------------------------

  /** What such a step does on the view. */
  predicate QuietEffect(s: State, t: State) {
    t.src == s.src && t.staging == s.staging && t.target == s.target &&
    HasStaging(t.pc) == HasStaging(s.pc) && HasPublished(t.pc) == HasPublished(s.pc) &&
    (Rank(t.pc) >= 2 ==> Rank(s.pc) >= 2 || IsRegular(s.src.tree, LOCK))
  }

  predicate IsQuiet(a: Action) {
    IsOurs(a) && !Writes(a) && !a.CheckArgs?
  }

  lemma EarlyIsQuiet(s: State, a: Action, env: Env)
    requires IsEarly(a) && !a.CheckArgs? && !a.VetCurrent?
    ensures QuietEffect(s, OurStep(s, a, env))
  {
  }

  lemma VetIsQuiet(s: State, env: Env)
    ensures QuietEffect(s, DoVetCurrent(s, env))
  {
  }

  lemma CompareIsQuiet(s: State, bytes: Bytes, env: Env)
    ensures QuietEffect(s, DoCompareDigests(s, bytes, env))
  {
  }

  lemma LateIsQuiet(s: State, a: Action, env: Env)
    requires IsLate(a) && !a.Publish?
    ensures QuietEffect(s, OurStep(s, a, env))
  {
  }

  lemma QuietSteps(s: State, a: Action, env: Env)
    requires IsQuiet(a)
    ensures QuietEffect(s, OurStep(s, a, env))
  {
    match a
    case VetCurrent => VetIsQuiet(s, env);
    case CompareDigests(bytes) => CompareIsQuiet(s, bytes, env);
    case _ =>
      if IsEarly(a) {
        EarlyIsQuiet(s, a, env);
      } else {
        LateIsQuiet(s, a, env);
      }
  }

  lemma ProcessView(k: Host, t: State)
    requires QuietEffect(View(k), t)
    ensures WroteNothing(k, WithProcess(k, t)) && View(WithProcess(k, t)) == t
  {
    SameView(k, WithProcess(k, t));
  }

  lemma QuietRefines(k: Host, a: Action, random: string, env: Env)
    requires Placed(k) && IsQuiet(a)
    ensures var r := ScriptStep(k, a, random, env); Placed(r) && Spares(k, r) && View(r) == OurStep(View(k), a, env)
  {
    var t := OurStep(View(k), a, env);
    QuietSteps(View(k), a, env);
    ProcessView(k, t);
    StaysPlaced(k, WithProcess(k, t));
  }

  // ---------------------------------------------------------------------------------------------
  // Refinement
  // ---------------------------------------------------------------------------------------------

  /** What an event is in the machine of the three trees. A failed check of the arguments ends the process. */
  ghost function Trace(k: Host, e: Event, env: Env): (actions: seq<Action>) {
    match e
    case OthersLock => [OtherLock]
    case OthersUnlock => [OtherUnlock]
    case Overwrite(inode, bytes) => [RogueWrite(inode, bytes), OtherTarget(View(HostStep(k, e, env)).target)]
    case Change(d) => [OtherChange(View(HostStep(k, e, env)).src), OtherTarget(View(HostStep(k, e, env)).target)]
    case Script(a, random) =>
      if !IsOurs(a) || !k.status.Running? then []
      else if a.MakeStaging? then StagingTrace(k, random)
      else if a.CheckArgs? && k.pc.Start? && !ArgsOk(k, env) then [Fail]
      else [a]
  }

  lemma AcceptedIsAbsent(k: Host, env: Env)
    requires env.refuseSymlinks && ArgsOk(k, env)
    ensures View(k).target.Absent?
  {
    RealIsPlain(k.disk, k.target, env.linkLimit);
  }

  lemma CheckArgsRefines(k: Host, env: Env)
    requires Placed(k) && k.status.Running? && env.refuseSymlinks
    ensures var r := HostCheckArgs(k, env);
            Placed(r) && Spares(k, r) &&
            View(r) == OurStep(View(k), if k.pc.Start? && !ArgsOk(k, env) then Fail else CheckArgs, env)
  {
    if ArgsOk(k, env) {
      AcceptedIsAbsent(k, env);
    }
    NothingWritten(k, HostCheckArgs(k, env));
  }

  /** A step of ours and the step of the three trees it is. */
  ghost predicate Refines(k: Host, r: Host, t: State) {
    Placed(r) && Spares(k, r) && View(r) == t
  }

  lemma BuildRefines(k: Host, a: Action, random: string, env: Env)
    requires Placed(k) && (a.MakeDirectory? || a.SyncDirectory? || a.Publish?)
    ensures Refines(k, ScriptStep(k, a, random, env), OurStep(View(k), a, env))
  {
    match a
    case MakeDirectory(p) => MakeDirectoryRefines(k, p);
    case SyncDirectory(p) => SyncDirectoryRefines(k, p);
    case Publish => PublishRefines(k);
  }

  lemma WriteRefines(k: Host, a: Action, random: string, env: Env)
    requires Placed(k) && Writes(a) && !a.MakeStaging?
    ensures Refines(k, ScriptStep(k, a, random, env), OurStep(View(k), a, env))
  {
    match a
    case CopyFile(p, bytes) => CopyFileRefines(k, p, bytes, env);
    case SyncFile => SyncFileRefines(k);
    case TouchLock => TouchLockRefines(k, env);
    case WriteMetadata => WriteMetadataRefines(k, env);
    case _ => BuildRefines(k, a, random, env);
  }

  /** A step of the script stays in place, spares the source, and is a step of the three trees. */
  lemma ScriptRefines(k: Host, a: Action, random: string, env: Env)
    requires Placed(k) && k.status.Running? && IsOurs(a) && env.refuseSymlinks
    ensures var r := ScriptStep(k, a, random, env);
            Placed(r) && Spares(k, r) && View(r) == Run(View(k), Trace(k, Script(a, random), env), env)
  {
    if a.MakeStaging? {
      MakeStagingRefines(k, random, env);
    } else if a.CheckArgs? {
      CheckArgsRefines(k, env);
      RunOne(View(k), CheckArgs, env);
      RunOne(View(k), Fail, env);
    } else {
      RunOne(View(k), a, env);
      if Writes(a) {
        WriteRefines(k, a, random, env);
      } else {
        QuietRefines(k, a, random, env);
      }
    }
  }

  lemma RunTwo(s: State, a: Action, b: Action, env: Env)
    ensures Run(s, [a, b], env) == Step(Step(s, a, env), b, env)
  {
    RunCons(s, a, [b], env);
    assert [a] + [b] == [a, b];
    RunOne(Step(s, a, env), b, env);
  }

  lemma SameStaging(k: Host, r: Host)
    requires HasStaging(k.pc) ==> SameBelow(k.disk, r.disk, k.staging)
    requires r == k.(disk := r.disk)
    ensures View(r).staging == View(k).staging
  {
    if HasStaging(k.pc) {
      SameItems(k.disk, r.disk, k.staging);
    }
  }

  lemma ChangeKeepsPlaces(k: Host, d: Disk)
    requires Placed(k) && MayChange(k, d)
    ensures Placed(k.(disk := d))
  {
    if HasStaging(k.pc) {
      assert SameAt(k.disk, d, k.staging);
    }
    if HasPublished(k.pc) {
      assert SameAt(k.disk, d, k.target);
    }
  }

  lemma ChangeRefines(k: Host, d: Disk, env: Env)
    requires Placed(k) && MayChange(k, d)
    ensures var r := k.(disk := d);
            View(r) == Run(View(k), [OtherChange(View(r).src), OtherTarget(View(r).target)], env)
  {
    var r := k.(disk := d);
    RunTwo(View(k), OtherChange(View(r).src), OtherTarget(View(r).target), env);
    SameStaging(k, r);
    if !k.lock.Other? {
      SameSource(k.disk, d, k.source);
    }
    if HasPublished(k.pc) {
      SameTarget(k, r);
    }
  }

  // ---------------------------------------------------------------------------------------------
  // Writers that ignore the lock
  // ---------------------------------------------------------------------------------------------

  lemma OverwriteKeepsTree(d: Disk, root: Path, inode: nat, bytes: Bytes)
    ensures var e := Overwritten(d, inode, bytes);
            NodesBelow(e, root) == NodesBelow(d, root) && InodesBelow(e, root) == InodesBelow(d, root)
  {
    var e := Overwritten(d, inode, bytes);
    var t, u := NodesBelow(d, root), NodesBelow(e, root);
    forall p ensures (p in t <==> p in u) && (p in t ==> u[p] == t[p]) {
      assert ShowsNode(t, d, root, p) && ShowsNode(u, e, root, p);
    }
    forall i: nat ensures i in InodesBelow(d, root) <==> i in InodesBelow(e, root) {
      assert ShowsInode(InodesBelow(d, root), d, root, i) && ShowsInode(InodesBelow(e, root), e, root, i);
      assert HasInode(d, root, i) <==> HasInode(e, root, i);
    }
  }

  lemma OverwriteSource(d: Disk, root: Path, inode: nat, bytes: Bytes)
    requires inode in DataBelow(d, root)
    ensures var f := SourceAt(d, root);
            SourceAt(Overwritten(d, inode, bytes), root) == f.(data := f.data[inode := bytes])
  {
    var e := Overwritten(d, inode, bytes);
    OverwriteKeepsTree(d, root, inode, bytes);
    assert LinksBelow(e, root) == LinksBelow(d, root);
    assert DataBelow(e, root) == DataBelow(d, root)[inode := bytes];
  }

  lemma OverwriteKeepsDisk(d: Disk, inode: nat, bytes: Bytes)
    requires DiskOk(d)
    ensures DiskOk(Overwritten(d, inode, bytes))
  {
    var e := Overwritten(d, inode, bytes);
    forall p ensures Rooted(e, p) && (IsName(e, p) <==> IsName(d, p)) {
      assert Rooted(d, p);
    }
  }

  /** A directory of ours shares no inode with the source. */
  lemma OverwriteSpares(d: Disk, source: Path, root: Path, inode: nat, bytes: Bytes)
    requires Private(d, root) && Apart(source, root) && inode in InodesBelow(d, source)
    ensures SameBelow(d, Overwritten(d, inode, bytes), root) && Private(Overwritten(d, inode, bytes), root)
  {
    var e := Overwritten(d, inode, bytes);
    assert ShowsInode(InodesBelow(d, source), d, source, inode);
    var q :| q in d.tree && source < q && d.tree[q] == Name(inode);
    forall p | root <= p ensures SameAt(d, e, p) {
      NothingBelowBoth(root, source, p);
      assert IsName(d, p) && IsName(d, q) && d.tree[p].inode == d.tree[q].inode ==> p == q;
    }
    forall p ensures IsName(e, p) <==> IsName(d, p) {
    }
  }

  lemma OverwriteKeepsPlaces(k: Host, inode: nat, bytes: Bytes)
    requires Placed(k) && inode in SourceAt(k.disk, k.source).data
    ensures var r := k.(disk := Overwritten(k.disk, inode, bytes));
            Placed(r) && (HasStaging(k.pc) ==> SameBelow(k.disk, r.disk, k.staging)) &&
            (HasPublished(k.pc) ==> SameBelow(k.disk, r.disk, k.target))
  {
    OverwriteKeepsDisk(k.disk, inode, bytes);
    OverwriteKeepsTree(k.disk, k.source, inode, bytes);
    if HasStaging(k.pc) {
      OverwriteSpares(k.disk, k.source, k.staging, inode, bytes);
    }
    if HasPublished(k.pc) {
      OverwriteSpares(k.disk, k.source, k.target, inode, bytes);
    }
  }

  lemma OverwriteRefines(k: Host, inode: nat, bytes: Bytes, env: Env)
    requires Placed(k) && env.rogue && inode in SourceAt(k.disk, k.source).data
    ensures var r := k.(disk := Overwritten(k.disk, inode, bytes));
            View(r) == Run(View(k), [RogueWrite(inode, bytes), OtherTarget(View(r).target)], env)
  {
    var r := k.(disk := Overwritten(k.disk, inode, bytes));
    RunTwo(View(k), RogueWrite(inode, bytes), OtherTarget(View(r).target), env);
    OverwriteKeepsPlaces(k, inode, bytes);
    OverwriteSource(k.disk, k.source, inode, bytes);
    SameStaging(k, r);
    if HasPublished(k.pc) {
      SameTarget(k, r);
    }
  }

  lemma OverwriteEvent(k: Host, inode: nat, bytes: Bytes, env: Env)
    requires Placed(k)
    ensures var e := Overwrite(inode, bytes);
            Placed(HostStep(k, e, env)) && View(HostStep(k, e, env)) == Run(View(k), Trace(k, e, env), env)
  {
    if env.rogue && inode in SourceAt(k.disk, k.source).data {
      OverwriteKeepsPlaces(k, inode, bytes);
      OverwriteRefines(k, inode, bytes, env);
    } else {
      RunTwo(View(k), RogueWrite(inode, bytes), OtherTarget(View(k).target), env);
    }
  }

  lemma ChangeEvent(k: Host, d: Disk, env: Env)
    requires Placed(k)
    ensures var e := Change(d);
            Placed(HostStep(k, e, env)) && View(HostStep(k, e, env)) == Run(View(k), Trace(k, e, env), env)
  {
    if MayChange(k, d) {
      ChangeKeepsPlaces(k, d);
      ChangeRefines(k, d, env);
    } else {
      RunTwo(View(k), OtherChange(View(k).src), OtherTarget(View(k).target), env);
    }
  }

  // ---------------------------------------------------------------------------------------------
  // Following links
  // ---------------------------------------------------------------------------------------------

  /** Once the arguments are accepted there is no link on the two paths. */
  predicate Linkless(k: Host) {
    Rank(k.pc) >= 1 ==> LinkFree(k.disk, k.source, k.target)
  }

  lemma PrefixOf(p: Path, n: nat)
    requires n <= |p|
    ensures p[..n] <= p && |p[..n]| == n
  {
  }

  lemma SourceStaysLinkFree(k: Host, r: Host)
    requires Placed(r) && Spares(k, r) && NoSymlinks(k.disk, k.source)
    ensures NoSymlinks(r.disk, k.source)
  {
    forall n | 0 <= n <= |k.source| ensures SameAt(k.disk, r.disk, k.source[..n]) {
      PrefixOf(k.source, n);
    }
  }

  lemma TargetStaysLinkFree(k: Host, r: Host)
    requires Placed(r) && Spares(k, r) && NoSymlinks(k.disk, k.target)
    ensures NoSymlinks(r.disk, k.target)
  {
    forall n | 0 <= n < |k.target| ensures SameAt(k.disk, r.disk, k.target[..n]) {
      PrefixOf(k.target, n);
    }
    assert k.target[..|k.target|] == k.target;
    assert SameBelow(k.disk, r.disk, k.target) ==> SameAt(k.disk, r.disk, k.target);
  }

  lemma ResolvedIsPlain(k: Host, env: Env)
    requires Placed(k) && Linkless(k) && Rank(k.pc) >= 1
    ensures Resolved(k, env) == k
  {
    RealIsPlain(k.disk, k.source, env.linkLimit);
    RealIsPlain(k.disk, k.target, env.linkLimit);
    if Rank(k.pc) >= 6 {
      assert k.staging == Parent(k.staging) + [k.staging[|k.staging| - 1]];
    }
  }

  lemma QuietKeepsPaths(k: Host, a: Action, random: string, env: Env)
    requires IsQuiet(a)
    ensures var r := ScriptStep(k, a, random, env);
            r.source == k.source && r.target == k.target && r.staging == k.staging
  {
  }

  /** Only making the staging directory gives the script another path. */
  lemma ScriptKeepsPaths(k: Host, a: Action, random: string, env: Env)
    requires IsOurs(a)
    ensures var r := ScriptStep(k, a, random, env);
            r.source == k.source && r.target == k.target &&
            (r.staging == k.staging || (k.target != [] && r.staging == StagingPath(k.target, random)))
  {
    if IsQuiet(a) {
      QuietKeepsPaths(k, a, random, env);
    }
  }

  /** Before the arguments are accepted the other steps only end the process. */
  function StartEffect(k: Host, a: Action): (r: Host) {
    if a.Fail? then Halt(k)
    else if a.Crash? then Halt(k).(status := Crashed)
    else k
  }

  lemma QuietAtStart(s: State, a: Action, env: Env)
    requires s.pc.Start? && IsQuiet(a)
    ensures OurStep(s, a, env) == if a.Fail? then Finish(s, Ended) else if a.Crash? then Finish(s, Crashed) else s
  {
  }

  lemma ScriptAtStart(k: Host, a: Action, random: string, env: Env)
    requires k.pc.Start? && IsOurs(a) && !a.CheckArgs?
    ensures ScriptStep(k, a, random, env) == StartEffect(k, a)
  {
    if IsQuiet(a) {
      QuietAtStart(View(k), a, env);
    }
  }

  /** Before the arguments are accepted, links on their paths make no difference. */
  lemma FollowAtStart(k: Host, a: Action, random: string, env: Env)
    requires k.pc.Start? && IsOurs(a)
    ensures FollowStep(k, a, random, env) == ScriptStep(k, a, random, env)
  {
    if !a.CheckArgs? {
      ScriptAtStart(k, a, random, env);
      ScriptAtStart(Resolved(k, env), a, random, env);
    }
  }

  /** Afterwards there are none, and every access is where its path says. */
  lemma FollowIsScript(k: Host, a: Action, random: string, env: Env)
    requires Placed(k) && Linkless(k) && IsOurs(a)
    ensures FollowStep(k, a, random, env) == ScriptStep(k, a, random, env)
  {
    if k.pc.Start? {
      FollowAtStart(k, a, random, env);
    } else {
      ResolvedIsPlain(k, env);
      ScriptKeepsPaths(k, a, random, env);
    }
  }

  lemma LinklessStays(k: Host, a: Action, random: string, env: Env)
    requires Placed(k) && Linkless(k) && k.status.Running? && IsOurs(a) && env.refuseSymlinks
    ensures Linkless(ScriptStep(k, a, random, env))
  {
    var r := ScriptStep(k, a, random, env);
    ScriptRefines(k, a, random, env);
    if !k.pc.Start? {
      SourceStaysLinkFree(k, r);
      TargetStaysLinkFree(k, r);
    } else if !a.CheckArgs? {
      ScriptAtStart(k, a, random, env);
    }
  }

  lemma OthersKeepLinkless(k: Host, e: Event, env: Env)
    requires Linkless(k) && !e.Script?
    ensures Linkless(HostStep(k, e, env))
  {
  }

  /** A step of the script on the disk: where it may write, and what it is for the three trees. */
  lemma FollowRefines(k: Host, a: Action, random: string, env: Env)
    requires Placed(k) && Linkless(k) && k.status.Running? && IsOurs(a) && env.refuseSymlinks
    ensures var r := FollowStep(k, a, random, env);
            Placed(r) && Linkless(r) && Spares(k, r) &&
            View(r) == Run(View(k), Trace(k, Script(a, random), env), env)
  {
    FollowIsScript(k, a, random, env);
    ScriptRefines(k, a, random, env);
    LinklessStays(k, a, random, env);
  }

  lemma LockEvents(k: Host, e: Event, env: Env)
    requires Placed(k) && (e.OthersLock? || e.OthersUnlock?)
    ensures Placed(HostStep(k, e, env)) && View(HostStep(k, e, env)) == Run(View(k), Trace(k, e, env), env)
  {
    var a := if e.OthersLock? then OtherLock else OtherUnlock;
    LockChanges(k, HostStep(k, e, env).lock);
    LockStep(View(k), a, env);
    RunOne(View(k), a, env);
  }

  lemma LockChanges(k: Host, lock: Holder)
    requires Placed(k)
    ensures var r := k.(lock := lock); Placed(r) && View(r) == View(k).(lock := lock)
  {
    NothingWritten(k, k.(lock := lock));
  }

  lemma LockStep(s: State, a: Action, env: Env)
    requires a.OtherLock? || a.OtherUnlock?
    ensures Step(s, a, env) ==
            if a.OtherLock? && s.lock.Free? then s.(lock := Other)
            else if a.OtherUnlock? && s.lock.Other? then s.(lock := Free) else s
  {
  }

  /** Every event keeps things in place and is a run of the three trees. */
  lemma EventRefines(k: Host, e: Event, env: Env)
    requires Placed(k) && Linkless(k) && env.refuseSymlinks
    ensures Placed(HostStep(k, e, env)) && Linkless(HostStep(k, e, env))
    ensures View(HostStep(k, e, env)) == Run(View(k), Trace(k, e, env), env)
  {
    match e
    case Overwrite(inode, bytes) =>
      OverwriteEvent(k, inode, bytes, env);
      OthersKeepLinkless(k, e, env);
    case Change(d) =>
      ChangeEvent(k, d, env);
      OthersKeepLinkless(k, e, env);
    case Script(a, random) =>
      if IsOurs(a) && k.status.Running? {
        FollowRefines(k, a, random, env);
      }
    case _ =>
      LockEvents(k, e, env);
      OthersKeepLinkless(k, e, env);
  }
}
