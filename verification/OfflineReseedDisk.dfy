/**
 One file system with absolute paths, and what is written to it: the ground on which
 OfflineReseedHost places the source, the staging directory and the target of a reseed.
 */
module OfflineReseedDisk {
  import opened Wrappers
  import opened OfflineReseed

  /**
   A directory entry; `synced` is whether the directory has been fsynced since it was changed, and
   `dest` is the absolute path a symbolic link leads to.
   */
  datatype Entry = Dir(synced: bool) | Name(inode: nat) | Device | Symlink(dest: Path)

  /** Absolute paths; the root [] is always there and is not listed. Names may share an inode. */
  datatype Disk = Disk(tree: map<Path, Entry>, data: map<nat, Bytes>, links: map<nat, nat>, flushed: set<nat>)

  predicate Exists(d: Disk, p: Path) {
    p == [] || p in d.tree
  }

  predicate IsDir(d: Disk, p: Path) {
    p == [] || (p in d.tree && d.tree[p].Dir?)
  }

  predicate IsName(d: Disk, p: Path) {
    p in d.tree && d.tree[p].Name?
  }

  /** An entry is in a directory. */
  predicate Rooted(d: Disk, p: Path) {
    p in d.tree ==> p != [] && IsDir(d, Parent(p))
  }

  ghost predicate DiskOk(d: Disk) {
    (forall p :: Rooted(d, p)) &&
    (forall p :: IsName(d, p) ==> d.tree[p].inode in d.data && d.tree[p].inode in d.links) &&
    (forall p, q :: IsName(d, p) && IsName(d, q) && p != q && d.tree[p].inode == d.tree[q].inode ==>
       d.links[d.tree[p].inode] != 1)
  }

  // ---------------------------------------------------------------------------------------------
  // Paths
  // ---------------------------------------------------------------------------------------------

  predicate Apart(a: Path, b: Path) {
    !(a <= b) && !(b <= a)
  }

  lemma PrefixesCompare(a: Path, b: Path, p: Path)
    requires a <= p && b <= p
    ensures a <= b || b <= a
  {
    assert a == p[..|a|] && b == p[..|b|];
  }

  lemma NothingBelowBoth(a: Path, b: Path, p: Path)
    requires Apart(a, b) && a <= p
    ensures !(b <= p)
  {
    if b <= p {
      PrefixesCompare(a, b, p);
    }
  }

  predicate Siblings(a: Path, b: Path) {
    a != [] && b != [] && a != b && Parent(a) == Parent(b)
  }

  lemma SiblingsAreApart(a: Path, b: Path)
    requires Siblings(a, b)
    ensures Apart(a, b)
  {
    assert a == Parent(a) + [a[|a| - 1]] && b == Parent(b) + [b[|b| - 1]];
  }

  lemma AboveOneAboveBoth(p: Path, a: Path, b: Path)
    requires Siblings(a, b) && p <= a && p != a
    ensures p <= b
  {
    assert p == a[..|p|] && |p| <= |Parent(a)|;
    assert Parent(a)[..|p|] == a[..|p|] && Parent(b)[..|p|] == b[..|p|];
  }

  predicate AtOrBelow(p: Path, root: Path) {
    root <= p
  }

  /** No path at or below the staging directory or the target is at or below the source. */
  ghost predicate WritesClear(source: Path, staging: Path, target: Path) {
    forall p :: AtOrBelow(p, staging) || AtOrBelow(p, target) ==> !AtOrBelow(p, source)
  }

  lemma BesideTarget(source: Path, staging: Path, target: Path)
    requires Siblings(staging, target) && !(staging <= source) && Apart(source, target)
    ensures Apart(source, staging)
  {
    if source <= staging {
      AboveOneAboveBoth(source, staging, target);
    }
  }

  /**
   For a staging directory beside the target that is not above the source, the writes stay clear of
   the source exactly when source and target are neither equal nor nested: the check of `reseed`.
   */
  lemma WritesClearExactly(source: Path, staging: Path, target: Path)
    requires Siblings(staging, target) && !(staging <= source)
    ensures WritesClear(source, staging, target) <==> Apart(source, target)
  {
    if Apart(source, target) {
      BesideTarget(source, staging, target);
      forall p | AtOrBelow(p, staging) || AtOrBelow(p, target) ensures !AtOrBelow(p, source) {
        if staging <= p {
          NothingBelowBoth(staging, source, p);
        } else {
          NothingBelowBoth(target, source, p);
        }
      }
    } else {
      var p := if source <= target then target else source;
      assert AtOrBelow(p, target) && AtOrBelow(p, source);
    }
  }

  lemma {:induction false} AncestorsExist(d: Disk, root: Path, p: Path)
    requires DiskOk(d) && root <= p && p in d.tree
    ensures Exists(d, root)
    decreases |p|
  {
    if root != p {
      assert Rooted(d, p) && root <= Parent(p);
      if Parent(p) != [] {
        AncestorsExist(d, root, Parent(p));
      }
    }
  }

  // ---------------------------------------------------------------------------------------------
  // Symbolic links
  // ---------------------------------------------------------------------------------------------

  /** Where a path leads, with at most `links` symbolic links followed; `done` is resolved already. */
  function Walk(d: Disk, done: Path, todo: Path, links: nat): (p: Option<Path>)
    decreases links, |todo|
  {
    if todo == [] then Some(done)
    else
      var next := done + [todo[0]];
      if next in d.tree && d.tree[next].Symlink? then
        if links == 0 then None else Walk(d, [], d.tree[next].dest + todo[1..], links - 1)
      else Walk(d, next, todo[1..], links)
  }

  /** A path with too many links is left as it is: nothing is found there. */
  function Real(d: Disk, p: Path, links: nat): (q: Path) {
    match Walk(d, [], p, links)
    case Some(q) => q
    case None => p
  }

  /** The entry itself, which may be a link, in the directory its parent leads to. */
  function RealEntry(d: Disk, p: Path, links: nat): (q: Path)
    requires p != []
  {
    Real(d, Parent(p), links) + [p[|p| - 1]]
  }

  predicate NoSymlinks(d: Disk, p: Path) {
    forall n :: 0 <= n <= |p| ==> !(p[..n] in d.tree && d.tree[p[..n]].Symlink?)
  }

  lemma {:induction false} WalkStraight(d: Disk, done: Path, todo: Path, links: nat)
    requires NoSymlinks(d, done + todo)
    ensures Walk(d, done, todo, links) == Some(done + todo)
    decreases |todo|
  {
    if todo == [] {
      assert done + todo == done;
    } else {
      var next := done + [todo[0]];
      assert (done + todo)[..|done| + 1] == next && done + todo == next + todo[1..];
      WalkStraight(d, next, todo[1..], links);
    }
  }

  /** Without links on it a path leads to itself. */
  lemma RealIsPlain(d: Disk, p: Path, links: nat)
    requires NoSymlinks(d, p)
    ensures Real(d, p, links) == p
    ensures p != [] ==> Real(d, Parent(p), links) == Parent(p) && RealEntry(d, p, links) == p
  {
    assert [] + p == p;
    WalkStraight(d, [], p, links);
    if p != [] {
      assert [] + Parent(p) == Parent(p);
      assert forall n :: 0 <= n <= |Parent(p)| ==> Parent(p)[..n] == p[..n];
      WalkStraight(d, [], Parent(p), links);
      assert p == Parent(p) + [p[|p| - 1]];
    }
  }

  // ---------------------------------------------------------------------------------------------
  // What is seen below a directory
  // ---------------------------------------------------------------------------------------------

  function NodeOf(e: Entry): (n: Node) {
    match e
    case Dir(_) => Directory
    case Name(i) => Regular(i)
    case _ => Special
  }

  function ItemOf(d: Disk, e: Entry): (i: Item) {
    match e
    case Dir(synced) => Folder(synced)
    case Name(i) => if i in d.data then File(d.data[i], i in d.flushed) else Odd
    case _ => Odd
  }

  /** The rest of a path below `root`. */
  function Rest(root: Path, p: Path): (q: Path)
    ensures root <= p ==> root + q == p
  {
    if root <= p then p[|root|..] else []
  }

  lemma RestOf(root: Path, p: Path)
    ensures root <= root + p && Rest(root, root + p) == p
  {
  }

  predicate ShowsNode(t: map<Path, Node>, d: Disk, root: Path, p: Path) {
    (p in t <==> p != [] && root + p in d.tree) && (p in t ==> t[p] == NodeOf(d.tree[root + p]))
  }

  ghost predicate ShowsNodes(t: map<Path, Node>, d: Disk, root: Path) {
    forall p :: ShowsNode(t, d, root, p)
  }

  lemma NodesExist(d: Disk, root: Path)
    ensures exists t :: ShowsNodes(t, d, root)
  {
    var t := map q | q in d.tree && root < q :: Rest(root, q) := NodeOf(d.tree[q]);
    forall p ensures ShowsNode(t, d, root, p) {
      RestOf(root, p);
    }
    assert ShowsNodes(t, d, root);
  }

  /** The tree below `root`, as a walk shows it. */
  ghost function NodesBelow(d: Disk, root: Path): (t: map<Path, Node>)
    ensures ShowsNodes(t, d, root)
  {
    NodesExist(d, root);
    var t :| ShowsNodes(t, d, root);
    t
  }

  predicate ShowsItem(t: Staged, d: Disk, root: Path, p: Path) {
    (p in t <==> root + p in d.tree) && (p in t ==> t[p] == ItemOf(d, d.tree[root + p]))
  }

  ghost predicate ShowsItems(t: Staged, d: Disk, root: Path) {
    forall p :: ShowsItem(t, d, root, p)
  }

  lemma ItemsExist(d: Disk, root: Path)
    ensures exists t :: ShowsItems(t, d, root)
  {
    var t := map q | q in d.tree && root <= q :: Rest(root, q) := ItemOf(d, d.tree[q]);
    forall p ensures ShowsItem(t, d, root, p) {
      RestOf(root, p);
    }
    assert ShowsItems(t, d, root);
  }

  /** The tree at and below `root`, with contents. */
  ghost function ItemsBelow(d: Disk, root: Path): (t: Staged)
    ensures ShowsItems(t, d, root)
  {
    ItemsExist(d, root);
    var t :| ShowsItems(t, d, root);
    t
  }

  predicate HasInode(d: Disk, root: Path, i: nat) {
    exists q :: q in d.tree && root < q && d.tree[q] == Name(i)
  }

  predicate ShowsInode(s: set<nat>, d: Disk, root: Path, i: nat) {
    i in s <==> HasInode(d, root, i)
  }

  ghost predicate ShowsInodes(s: set<nat>, d: Disk, root: Path) {
    forall i :: ShowsInode(s, d, root, i)
  }

  lemma InodesExist(d: Disk, root: Path)
    ensures exists s :: ShowsInodes(s, d, root)
  {
    var s := set q | q in d.tree && root < q && d.tree[q].Name? :: d.tree[q].inode;
    assert ShowsInodes(s, d, root);
  }

  ghost function InodesBelow(d: Disk, root: Path): (s: set<nat>)
    ensures ShowsInodes(s, d, root)
  {
    InodesExist(d, root);
    var s :| ShowsInodes(s, d, root);
    s
  }

  ghost function DataBelow(d: Disk, root: Path): (m: map<nat, Bytes>) {
    map i | i in InodesBelow(d, root) && i in d.data :: d.data[i]
  }

  ghost function LinksBelow(d: Disk, root: Path): (m: map<nat, nat>) {
    map i | i in InodesBelow(d, root) && i in d.links :: d.links[i]
  }

  /** The directory `root` as a source. */
  ghost function SourceAt(d: Disk, root: Path): (f: Source) {
    Source(NodesBelow(d, root), DataBelow(d, root), LinksBelow(d, root))
  }

  lemma ParentsAreDirectories(d: Disk, root: Path, p: Path)
    requires DiskOk(d) && p in NodesBelow(d, root)
    ensures p != [] && IsDirectory(NodesBelow(d, root), Parent(p))
  {
    var t := NodesBelow(d, root);
    assert ShowsNode(t, d, root, p) && ShowsNode(t, d, root, Parent(p));
    assert Parent(root + p) == root + Parent(p);
    assert Rooted(d, root + p);
  }

  lemma FilesHaveInodes(d: Disk, root: Path, p: Path)
    requires DiskOk(d) && IsRegular(NodesBelow(d, root), p)
    ensures var i := NodesBelow(d, root)[p].inode;
            IsName(d, root + p) && d.tree[root + p].inode == i &&
            i in InodesBelow(d, root) && i in d.data && i in d.links
  {
    assert ShowsNode(NodesBelow(d, root), d, root, p);
    assert ShowsInode(InodesBelow(d, root), d, root, NodesBelow(d, root)[p].inode);
    assert IsName(d, root + p) && root < root + p;
  }

  lemma LinkedFiles(d: Disk, root: Path, p: Path, q: Path)
    requires DiskOk(d) && IsRegular(NodesBelow(d, root), p) && IsRegular(NodesBelow(d, root), q) && p != q
    requires NodesBelow(d, root)[p].inode == NodesBelow(d, root)[q].inode
    ensures var i := NodesBelow(d, root)[p].inode; i in LinksBelow(d, root) && LinksBelow(d, root)[i] != 1
  {
    FilesHaveInodes(d, root, p);
    FilesHaveInodes(d, root, q);
    RestOf(root, p);
    RestOf(root, q);
  }

  lemma SourceIsWellFormed(d: Disk, root: Path)
    requires DiskOk(d)
    ensures WellFormed(SourceAt(d, root))
  {
    var t := NodesBelow(d, root);
    forall p | p in t ensures p != [] && IsDirectory(t, Parent(p)) {
      ParentsAreDirectories(d, root, p);
    }
    forall p | IsRegular(t, p) ensures t[p].inode in DataBelow(d, root) && t[p].inode in LinksBelow(d, root) {
      FilesHaveInodes(d, root, p);
    }
    forall p, q | IsRegular(t, p) && IsRegular(t, q) && p != q && t[p].inode == t[q].inode
      ensures LinksBelow(d, root)[t[p].inode] != 1
    {
      LinkedFiles(d, root, p, q);
    }
  }

  // ---------------------------------------------------------------------------------------------
  // Changes
  // ---------------------------------------------------------------------------------------------

  predicate SameInode(d: Disk, e: Disk, i: nat) {
    (i in d.data <==> i in e.data) && (i in d.data ==> e.data[i] == d.data[i]) &&
    (i in d.links <==> i in e.links) && (i in d.links ==> e.links[i] == d.links[i]) &&
    (i in d.flushed <==> i in e.flushed)
  }

  /** The same is found at `p`, name and content. */
  predicate SameAt(d: Disk, e: Disk, p: Path) {
    (p in d.tree <==> p in e.tree) &&
    (p in d.tree ==> e.tree[p] == d.tree[p] && (d.tree[p].Name? ==> SameInode(d, e, d.tree[p].inode)))
  }

  ghost predicate SameBelow(d: Disk, e: Disk, root: Path) {
    forall p :: root <= p ==> SameAt(d, e, p)
  }

  /** Whatever changed is at or below `a` or `b`. */
  ghost predicate OnlyIn(d: Disk, e: Disk, a: Path, b: Path) {
    forall p :: !(a <= p) && !(b <= p) ==> SameAt(d, e, p)
  }

  lemma OnlyInSpares(d: Disk, e: Disk, a: Path, b: Path, root: Path)
    requires OnlyIn(d, e, a, b) && Apart(root, a) && Apart(root, b)
    ensures SameBelow(d, e, root)
  {
    forall p | root <= p ensures SameAt(d, e, p) {
      NothingBelowBoth(root, a, p);
      NothingBelowBoth(root, b, p);
    }
  }

  lemma SameItems(d: Disk, e: Disk, root: Path)
    requires SameBelow(d, e, root)
    ensures ItemsBelow(e, root) == ItemsBelow(d, root)
  {
    var t, u := ItemsBelow(d, root), ItemsBelow(e, root);
    forall p ensures (p in t <==> p in u) && (p in t ==> u[p] == t[p]) {
      assert ShowsItem(t, d, root, p) && ShowsItem(u, e, root, p) && SameAt(d, e, root + p);
    }
  }

  lemma SameInodes(d: Disk, e: Disk, root: Path, i: nat)
    requires SameBelow(d, e, root) && i in InodesBelow(d, root)
    ensures i in InodesBelow(e, root) && SameInode(d, e, i)
  {
    assert ShowsInode(InodesBelow(d, root), d, root, i) && ShowsInode(InodesBelow(e, root), e, root, i);
    var q :| q in d.tree && root < q && d.tree[q] == Name(i);
    assert SameAt(d, e, q);
  }

  lemma SameBelowIsSymmetric(d: Disk, e: Disk, root: Path)
    requires SameBelow(d, e, root)
    ensures SameBelow(e, d, root)
  {
    forall p | root <= p ensures SameAt(e, d, p) {
      assert SameAt(d, e, p);
    }
  }

  lemma SameNodes(d: Disk, e: Disk, root: Path)
    requires SameBelow(d, e, root)
    ensures NodesBelow(e, root) == NodesBelow(d, root)
  {
    var t, u := NodesBelow(d, root), NodesBelow(e, root);
    forall p ensures (p in t <==> p in u) && (p in t ==> u[p] == t[p]) {
      assert ShowsNode(t, d, root, p) && ShowsNode(u, e, root, p);
      assert SameAt(d, e, root + p);
    }
  }

  lemma SameInodeSets(d: Disk, e: Disk, root: Path)
    requires SameBelow(d, e, root)
    ensures InodesBelow(e, root) == InodesBelow(d, root)
  {
    SameBelowIsSymmetric(d, e, root);
    forall i: nat ensures i in InodesBelow(d, root) <==> i in InodesBelow(e, root) {
      if i in InodesBelow(d, root) {
        SameInodes(d, e, root, i);
      } else if i in InodesBelow(e, root) {
        SameInodes(e, d, root, i);
      }
    }
  }

  lemma SameData(d: Disk, e: Disk, root: Path)
    requires InodesBelow(e, root) == InodesBelow(d, root)
    requires forall i :: i in InodesBelow(d, root) ==> SameInode(d, e, i)
    ensures DataBelow(e, root) == DataBelow(d, root)
  {
    assert DataBelow(e, root).Keys == DataBelow(d, root).Keys;
  }

  lemma SameLinks(d: Disk, e: Disk, root: Path)
    requires InodesBelow(e, root) == InodesBelow(d, root)
    requires forall i :: i in InodesBelow(d, root) ==> SameInode(d, e, i)
    ensures LinksBelow(e, root) == LinksBelow(d, root)
  {
    assert LinksBelow(e, root).Keys == LinksBelow(d, root).Keys;
  }

  lemma SameSource(d: Disk, e: Disk, root: Path)
    requires SameBelow(d, e, root)
    ensures SourceAt(e, root) == SourceAt(d, root)
  {
    SameNodes(d, e, root);
    SameInodeSets(d, e, root);
    forall i | i in InodesBelow(d, root) ensures SameInode(d, e, i) {
      SameInodes(d, e, root, i);
    }
    SameData(d, e, root);
    SameLinks(d, e, root);
  }

  /** Files at or below `root` have no other names. */
  ghost predicate Private(d: Disk, root: Path) {
    forall p, q :: IsName(d, p) && root <= p && IsName(d, q) && d.tree[p].inode == d.tree[q].inode ==> p == q
  }

  // ---------------------------------------------------------------------------------------------
  // Writing
  // ---------------------------------------------------------------------------------------------

  lemma {:induction false} Bound(s: set<nat>) returns (n: nat)
    ensures forall i :: i in s ==> i < n
  {
    if s == {} {
      n := 0;
    } else {
      var i :| i in s;
      var m := Bound(s - {i});
      assert forall j :: j in s ==> j == i || j in s - {i};
      n := if m > i then m else i + 1;
    }
  }

  ghost function NewInode(d: Disk): (i: nat)
    ensures i !in d.data
  {
    assert exists i: nat :: i !in d.data by {
      var n := Bound(d.data.Keys);
      assert n !in d.data;
    }
    var i: nat :| i !in d.data;
    i
  }

  /** mkdir, or fsync of a directory. */
  function PutDir(d: Disk, p: Path, synced: bool): (e: Disk) {
    d.(tree := d.tree[p := Dir(synced)])
  }

  /** Open for writing, truncate or create, and write. An existing file keeps its inode. */
  ghost function WriteFile(d: Disk, p: Path, bytes: Bytes): (e: Disk) {
    if IsName(d, p) then
      var i := d.tree[p].inode;
      d.(data := d.data[i := bytes], flushed := d.flushed - {i})
    else
      var i := NewInode(d);
      d.(tree := d.tree[p := Name(i)], data := d.data[i := bytes], links := d.links[i := 1], flushed := d.flushed - {i})
  }

  /** fsync of a file. */
  function SyncName(d: Disk, p: Path): (e: Disk)
    requires IsName(d, p)
  {
    d.(flushed := d.flushed + {d.tree[p].inode})
  }

  /** Where the entry at `p` was before `from` was renamed to `to`. */
  function Origin(from: Path, to: Path, p: Path): (q: Path) {
    if to <= p then from + Rest(to, p) else p
  }

  /** After the rename: what was at or below `from` is at or below `to`, the rest is where it was. */
  ghost predicate IsRenamed(t: map<Path, Entry>, d: Disk, from: Path, to: Path) {
    forall p :: IsFromOrigin(t, d, from, to, p)
  }

  predicate IsFromOrigin(t: map<Path, Entry>, d: Disk, from: Path, to: Path, p: Path) {
    (p in t <==> Origin(from, to, p) in d.tree && (to <= p || !(from <= p))) &&
    (p in t ==> t[p] == d.tree[Origin(from, to, p)])
  }

  lemma MoveEntries(d: Disk, from: Path, to: Path) returns (t: map<Path, Entry>)
    ensures forall p :: p in t <==> to <= p && Origin(from, to, p) in d.tree
    ensures forall p :: p in t ==> t[p] == d.tree[Origin(from, to, p)]
  {
    var old_ := map q | q in d.tree && from <= q :: Rest(from, q) := d.tree[q];
    forall r ensures Rest(to, to + r) == r && Rest(from, from + r) == r {
      RestOf(to, r);
      RestOf(from, r);
    }
    t := map r | r in old_ :: to + r := old_[r];
    forall p | to <= p && Origin(from, to, p) in d.tree ensures p in t {
      RestOf(from, Rest(to, p));
      assert Rest(to, p) in old_ && to + Rest(to, p) == p;
    }
  }

  lemma RenameExists(d: Disk, from: Path, to: Path)
    ensures exists t :: IsRenamed(t, d, from, to)
  {
    var moved := MoveEntries(d, from, to);
    var kept := map p | p in d.tree && !(from <= p) && !(to <= p) :: d.tree[p];
    forall p ensures IsFromOrigin(kept + moved, d, from, to, p) {
    }
    assert IsRenamed(kept + moved, d, from, to);
  }

  /** Move a directory with all that is below it. */
  ghost function Rename(d: Disk, from: Path, to: Path): (e: Disk)
    ensures IsRenamed(e.tree, d, from, to) && e == d.(tree := e.tree)
  {
    RenameExists(d, from, to);
    var t :| IsRenamed(t, d, from, to);
    d.(tree := t)
  }

  // ---------------------------------------------------------------------------------------------
  // The effect of a write at or below a directory whose files nobody else names
  // ---------------------------------------------------------------------------------------------

  /** Nothing changed but what is found at `q`. */
  ghost predicate OnlyAt(d: Disk, e: Disk, q: Path) {
    forall p :: p != q ==> SameAt(d, e, p)
  }

  lemma OnlyAtItems(d: Disk, e: Disk, root: Path, rel: Path)
    requires OnlyAt(d, e, root + rel) && root + rel in e.tree
    ensures ItemsBelow(e, root) == ItemsBelow(d, root)[rel := ItemOf(e, e.tree[root + rel])]
  {
    var t, u := ItemsBelow(d, root), ItemsBelow(e, root);
    var t' := t[rel := ItemOf(e, e.tree[root + rel])];
    forall p ensures (p in t' <==> p in u) && (p in t' ==> u[p] == t'[p]) {
      assert ShowsItem(t, d, root, p) && ShowsItem(u, e, root, p);
      if p != rel {
        RestOf(root, p);
        RestOf(root, rel);
        assert SameAt(d, e, root + p);
      }
    }
  }

  /** What a step that writes at `q` may rely on and leaves behind. */
  ghost predicate Writable(d: Disk, root: Path, q: Path) {
    DiskOk(d) && Private(d, root) && root <= q && q != [] && IsDir(d, Parent(q))
  }

  ghost predicate WroteAt(d: Disk, e: Disk, root: Path, q: Path) {
    DiskOk(e) && Private(e, root) && OnlyAt(d, e, q) && q in e.tree
  }

  lemma PutDirKeepsDisk(d: Disk, q: Path, synced: bool)
    requires DiskOk(d) && q != [] && IsDir(d, Parent(q)) && (q !in d.tree || d.tree[q].Dir?)
    ensures DiskOk(PutDir(d, q, synced))
  {
    var e := PutDir(d, q, synced);
    forall p ensures Rooted(e, p) {
      assert Rooted(d, p);
    }
    forall p | IsName(e, p) ensures IsName(d, p) {
    }
  }

  lemma PutDirEffect(d: Disk, root: Path, q: Path, synced: bool)
    requires Writable(d, root, q) && (q !in d.tree || d.tree[q].Dir?)
    ensures WroteAt(d, PutDir(d, q, synced), root, q)
  {
    PutDirKeepsDisk(d, q, synced);
    forall p | IsName(PutDir(d, q, synced), p) ensures IsName(d, p) {
    }
  }

  lemma WriteKeepsDisk(d: Disk, root: Path, q: Path, bytes: Bytes)
    requires Writable(d, root, q) && (q !in d.tree || IsName(d, q))
    ensures DiskOk(WriteFile(d, q, bytes)) && Private(WriteFile(d, q, bytes), root)
  {
    var e := WriteFile(d, q, bytes);
    forall p ensures Rooted(e, p) {
      assert Rooted(d, p);
    }
    forall p | IsName(e, p) && p != q ensures IsName(d, p) && d.tree[p] == e.tree[p] && e.tree[p].inode in d.data {
    }
  }

  lemma WriteEffect(d: Disk, root: Path, q: Path, bytes: Bytes)
    requires Writable(d, root, q) && (q !in d.tree || IsName(d, q))
    ensures var e := WriteFile(d, q, bytes);
            WroteAt(d, e, root, q) && IsName(e, q) && ItemOf(e, e.tree[q]) == File(bytes, false)
  {
    WriteKeepsDisk(d, root, q, bytes);
    var e := WriteFile(d, q, bytes);
    forall p | p != q ensures SameAt(d, e, p) {
      assert IsName(d, p) ==> d.tree[p].inode in d.data;
      assert IsName(d, p) && IsName(d, q) ==> d.tree[p].inode != d.tree[q].inode;
    }
  }

  lemma SyncEffect(d: Disk, root: Path, q: Path)
    requires Writable(d, root, q) && IsName(d, q)
    ensures var e := SyncName(d, q);
            WroteAt(d, e, root, q) && ItemOf(d, d.tree[q]).File? &&
            ItemOf(e, e.tree[q]) == File(ItemOf(d, d.tree[q]).data, true)
  {
    var e := SyncName(d, q);
    forall p ensures Rooted(e, p) && (IsName(e, p) <==> IsName(d, p)) {
      assert Rooted(d, p);
    }
    forall p | p != q ensures SameAt(d, e, p) {
      assert IsName(d, p) ==> d.tree[p].inode != d.tree[q].inode;
    }
  }

  lemma RenameOnlyIn(d: Disk, from: Path, to: Path)
    ensures OnlyIn(d, Rename(d, from, to), from, to)
  {
    var e := Rename(d, from, to);
    forall p | !(from <= p) && !(to <= p) ensures SameAt(d, e, p) {
      assert IsFromOrigin(e.tree, d, from, to, p);
    }
  }

  lemma RenamedAt(d: Disk, from: Path, to: Path, p: Path)
    ensures var e := Rename(d, from, to);
            (to + p in e.tree <==> from + p in d.tree) && (to + p in e.tree ==> e.tree[to + p] == d.tree[from + p])
  {
    assert IsFromOrigin(Rename(d, from, to).tree, d, from, to, to + p);
    RestOf(to, p);
  }

  lemma RenameItems(d: Disk, from: Path, to: Path)
    ensures ItemsBelow(Rename(d, from, to), to) == ItemsBelow(d, from)
  {
    var e := Rename(d, from, to);
    var t, u := ItemsBelow(d, from), ItemsBelow(e, to);
    forall p ensures (p in t <==> p in u) && (p in t ==> u[p] == t[p]) {
      RenamedAt(d, from, to, p);
      assert ShowsItem(t, d, from, p) && ShowsItem(u, e, to, p);
      assert p in u ==> u[p] == ItemOf(e, e.tree[to + p]) == ItemOf(d, e.tree[to + p]);
    }
  }

  lemma OriginInjective(from: Path, to: Path, p: Path, q: Path)
    requires Apart(from, to) && Origin(from, to, p) == Origin(from, to, q)
    requires !(from <= p) && !(from <= q)
    ensures p == q
  {
    if to <= p && to <= q {
      RestOf(from, Rest(to, p));
      RestOf(from, Rest(to, q));
    }
  }

  lemma ParentBelow(root: Path, p: Path)
    requires root <= p && root != p
    ensures root <= Parent(p) && Rest(root, p) != [] && Rest(root, Parent(p)) == Parent(Rest(root, p))
  {
  }

  lemma ParentNotBelow(root: Path, p: Path)
    requires p != [] && !(root <= p)
    ensures !(root <= Parent(p))
  {
  }

  lemma ParentOfConcat(root: Path, r: Path)
    requires r != []
    ensures Parent(root + r) == root + Parent(r)
  {
  }

  lemma RenamedDirs(d: Disk, from: Path, to: Path, p: Path)
    requires to != [] && (to <= p || !(from <= p)) && IsDir(d, Origin(from, to, p)) && Origin(from, to, p) != []
    ensures IsDir(Rename(d, from, to), p)
  {
    assert IsFromOrigin(Rename(d, from, to).tree, d, from, to, p);
  }

  lemma RenameKeepsParents(d: Disk, from: Path, to: Path, p: Path)
    requires DiskOk(d) && Siblings(from, to) && IsDir(d, from)
    requires p in Rename(d, from, to).tree
    ensures p != [] && IsDir(Rename(d, from, to), Parent(p))
  {
    assert IsFromOrigin(Rename(d, from, to).tree, d, from, to, p);
    if to <= p && to != p {
      ParentBelow(to, p);
      ParentOfConcat(from, Rest(to, p));
      assert Rooted(d, Origin(from, to, p));
      RenamedDirs(d, from, to, Parent(p));
    } else {
      var q := if p == to then from else p;
      assert Rest(to, to) == [] && from + [] == from;
      assert q in d.tree && Rooted(d, q) && Parent(q) == Parent(p);
      StaysOutside(from, to, p);
      if Parent(p) != [] {
        RenamedDirs(d, from, to, Parent(p));
      }
    }
  }

  /** The parent of a path beside or outside two siblings is outside both. */
  lemma StaysOutside(a: Path, b: Path, p: Path)
    requires Siblings(a, b) && p != [] && (p == b || (!(a <= p) && !(b <= p)))
    ensures !(a <= Parent(p)) && !(b <= Parent(p))
  {
    if p != b {
      ParentNotBelow(a, p);
      ParentNotBelow(b, p);
    }
  }

  lemma RenameEffect(d: Disk, from: Path, to: Path)
    requires DiskOk(d) && Siblings(from, to) && IsDir(d, from) && Private(d, from)
    ensures var e := Rename(d, from, to); DiskOk(e) && Private(e, to) && to != [] && to in e.tree && e.tree[to].Dir?
  {
    var e := Rename(d, from, to);
    SiblingsAreApart(from, to);
    assert Rest(to, to) == [] && from + [] == from && IsFromOrigin(e.tree, d, from, to, to);
    forall p ensures Rooted(e, p) {
      if p in e.tree {
        RenameKeepsParents(d, from, to, p);
      }
    }
    forall p | IsName(e, p)
      ensures IsName(d, Origin(from, to, p)) && !(from <= p) && d.tree[Origin(from, to, p)] == e.tree[p]
    {
      assert IsFromOrigin(e.tree, d, from, to, p);
      if to <= p {
        NothingBelowBoth(to, from, p);
      }
    }
    forall p, q | IsName(e, p) && IsName(e, q) && p != q ensures Origin(from, to, p) != Origin(from, to, q) {
      if Origin(from, to, p) == Origin(from, to, q) {
        OriginInjective(from, to, p, q);
      }
    }
    forall p | to <= p ensures from <= Origin(from, to, p) {
    }
  }
}
