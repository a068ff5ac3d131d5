/**
 `PlanDiff::compute_tree_diff` (sql/explain_advanced.rs): the recursive structural diff of two plan
 trees. A location is the list of child positions below the root; `Location` is the text the code
 writes for it.
 */
module PlanDiff {
  import opened Decimal

  datatype PlanNode = PlanNode(nodeType: string, operation: string, children: seq<PlanNode>)

  datatype ChangeType = NodeAdded | NodeRemoved | NodeReordered | OperationChanged

  datatype StructureChange = StructureChange(changeType: ChangeType, location: seq<nat>)

  // ---------------------------------------------------------------------------------------------
  // The diff as a function
  // ---------------------------------------------------------------------------------------------

  /** One change per child position from `lo` up to `hi`. */
  function Surplus(kind: ChangeType, at: seq<nat>, lo: nat, hi: nat): (r: seq<StructureChange>)
    decreases hi - lo
  {
    if lo >= hi then [] else [StructureChange(kind, at + [lo])] + Surplus(kind, at, lo + 1, hi)
  }

  function When(b: bool, kind: ChangeType, at: seq<nat>): (r: seq<StructureChange>) {
    if b then [StructureChange(kind, at)] else []
  }

  /** The changes at a node itself, before its children are compared. */
  function Here(prior: PlanNode, latest: PlanNode, at: seq<nat>): (r: seq<StructureChange>) {
    When(prior.nodeType != latest.nodeType, OperationChanged, at) +
    When(prior.operation != latest.operation, OperationChanged, at) +
    Surplus(NodeAdded, at, |prior.children|, |latest.children|) +
    Surplus(NodeRemoved, at, |latest.children|, |prior.children|)
  }

  function Diff(prior: PlanNode, latest: PlanNode, at: seq<nat>): (r: seq<StructureChange>)
    decreases prior, 1, 0
  {
    Here(prior, latest, at) + ChildDiffs(prior, latest, at, Common(prior, latest))
  }

  function Common(prior: PlanNode, latest: PlanNode): (n: nat)
    ensures n <= |prior.children| && n <= |latest.children|
  {
    if |prior.children| < |latest.children| then |prior.children| else |latest.children|
  }

  /** The changes found in the first `n` pairs of children. */
  function ChildDiffs(prior: PlanNode, latest: PlanNode, at: seq<nat>, n: nat): (r: seq<StructureChange>)
    requires n <= Common(prior, latest)
    decreases prior, 0, n
  {
    if n == 0 then []
    else
      var i := n - 1;
      ChildDiffs(prior, latest, at, i) +
      When(prior.children[i].nodeType != latest.children[i].nodeType, NodeReordered, at + [i]) +
      Diff(prior.children[i], latest.children[i], at + [i])
  }

  /** The code: a local list, two counting loops and one loop with the recursive call. */
  method ComputeTreeDiff(prior: PlanNode, latest: PlanNode, path: seq<nat>) returns (changes: seq<StructureChange>)
    ensures changes == Diff(prior, latest, path)
    decreases prior
  {
    changes := [];
    if prior.nodeType != latest.nodeType {
      changes := changes + [StructureChange(OperationChanged, path)];
    }
    if prior.operation != latest.operation {
      changes := changes + [StructureChange(OperationChanged, path)];
    }
    var more := ListSurplus(NodeAdded, path, |prior.children|, |latest.children|);
    changes := changes + more;
    more := ListSurplus(NodeRemoved, path, |latest.children|, |prior.children|);
    changes := changes + more;
    ghost var here := changes;
    assert here == Here(prior, latest, path);
    for i := 0 to Common(prior, latest)
      invariant changes == here + ChildDiffs(prior, latest, path, i)
    {
      var childPath := path + [i];
      if prior.children[i].nodeType != latest.children[i].nodeType {
        changes := changes + [StructureChange(NodeReordered, childPath)];
      }
      var childChanges := ComputeTreeDiff(prior.children[i], latest.children[i], childPath);
      changes := changes + childChanges;
      ghost var moved := When(prior.children[i].nodeType != latest.children[i].nodeType, NodeReordered, childPath);
      Reassociate(here, ChildDiffs(prior, latest, path, i), moved, childChanges);
    }
  }

  lemma Reassociate<T>(a: seq<T>, b: seq<T>, c: seq<T>, d: seq<T>)
    ensures a + b + c + d == a + (b + c + d)
  {
  }

  method ListSurplus(kind: ChangeType, path: seq<nat>, lo: nat, hi: nat) returns (changes: seq<StructureChange>)
    ensures changes == Surplus(kind, path, lo, hi)
  {
    changes := [];
    var i := lo;
    while i < hi
      invariant lo <= i
      invariant changes + Surplus(kind, path, i, hi) == Surplus(kind, path, lo, hi)
    {
      changes := changes + [StructureChange(kind, path + [i])];
      i := i + 1;
    }
  }

  // ---------------------------------------------------------------------------------------------
  // Empty diff
  // ---------------------------------------------------------------------------------------------

  /** Same types, same operations, same shape. */
  predicate SameShape(a: PlanNode, b: PlanNode) {
    a.nodeType == b.nodeType && a.operation == b.operation && |a.children| == |b.children| &&
    forall i :: 0 <= i < |a.children| ==> SameShape(a.children[i], b.children[i])
  }

  /** The diff is empty exactly for plans of the same shape. */
  lemma {:induction false} EmptyDiffExactly(a: PlanNode, b: PlanNode, at: seq<nat>)
    ensures Diff(a, b, at) == [] <==> SameShape(a, b)
    decreases a, 1, 0
  {
    EmptyChildDiffs(a, b, at, Common(a, b));
  }

  lemma {:induction false} EmptyChildDiffs(a: PlanNode, b: PlanNode, at: seq<nat>, n: nat)
    requires n <= Common(a, b)
    ensures ChildDiffs(a, b, at, n) == [] <==> forall i :: 0 <= i < n ==> SameShape(a.children[i], b.children[i])
    decreases a, 0, n
  {
    if n > 0 {
      EmptyChildDiffs(a, b, at, n - 1);
      EmptyDiffExactly(a.children[n - 1], b.children[n - 1], at + [n - 1]);
    }
  }

  // ---------------------------------------------------------------------------------------------
  // Swapping the plans
  // ---------------------------------------------------------------------------------------------

  function FlipType(t: ChangeType): (r: ChangeType) {
    match t
    case NodeAdded => NodeRemoved
    case NodeRemoved => NodeAdded
    case _ => t
  }

  function Flip(cs: seq<StructureChange>): (r: seq<StructureChange>)
    ensures |r| == |cs|
    ensures forall i :: 0 <= i < |cs| ==> r[i] == StructureChange(FlipType(cs[i].changeType), cs[i].location)
  {
    seq(|cs|, i requires 0 <= i < |cs| => StructureChange(FlipType(cs[i].changeType), cs[i].location))
  }

  lemma {:induction false} FlipSurplus(kind: ChangeType, at: seq<nat>, lo: nat, hi: nat)
    ensures Flip(Surplus(kind, at, lo, hi)) == Surplus(FlipType(kind), at, lo, hi)
    decreases hi - lo
  {
    if lo < hi {
      FlipSurplus(kind, at, lo + 1, hi);
    }
  }

  lemma FlipConcat(a: seq<StructureChange>, b: seq<StructureChange>)
    ensures Flip(a + b) == Flip(a) + Flip(b)
  {
  }

  /** At most one of the two counting loops runs, so their order does not show. */
  lemma OneSurplus(s: seq<StructureChange>, k: ChangeType, k': ChangeType, at: seq<nat>, m: nat, n: nat)
    ensures s + Surplus(k, at, m, n) + Surplus(k', at, n, m) == s + Surplus(k', at, n, m) + Surplus(k, at, m, n)
  {
    assert Surplus(k, at, m, n) == [] || Surplus(k', at, n, m) == [];
  }

  lemma FlipHere(a: PlanNode, b: PlanNode, at: seq<nat>)
    ensures Here(b, a, at) == Flip(Here(a, b, at))
  {
    var m, n := |a.children|, |b.children|;
    var types := When(a.nodeType != b.nodeType, OperationChanged, at);
    var ops := When(a.operation != b.operation, OperationChanged, at);
    FlipSurplus(NodeAdded, at, m, n);
    FlipSurplus(NodeRemoved, at, n, m);
    FlipConcat(types + ops + Surplus(NodeAdded, at, m, n), Surplus(NodeRemoved, at, n, m));
    FlipConcat(types + ops, Surplus(NodeAdded, at, m, n));
    assert Flip(types + ops) == types + ops;
    OneSurplus(types + ops, NodeRemoved, NodeAdded, at, m, n);
  }

  /**
   Diffing the other way round reports the same changes at the same locations in the same order,
   with added and removed exchanged.
   */
  lemma {:induction false} SwappedDiff(a: PlanNode, b: PlanNode, at: seq<nat>)
    ensures Diff(b, a, at) == Flip(Diff(a, b, at))
    decreases a, 1, 0
  {
    var n := Common(a, b);
    FlipHere(a, b, at);
    SwappedChildDiffs(a, b, at, n);
    FlipConcat(Here(a, b, at), ChildDiffs(a, b, at, n));
  }

  lemma {:induction false} SwappedChildDiffs(a: PlanNode, b: PlanNode, at: seq<nat>, n: nat)
    requires n <= Common(a, b)
    ensures ChildDiffs(b, a, at, n) == Flip(ChildDiffs(a, b, at, n))
    decreases a, 0, n
  {
    if n > 0 {
      var i := n - 1;
      var before, diff := ChildDiffs(a, b, at, i), Diff(a.children[i], b.children[i], at + [i]);
      var moved := When(a.children[i].nodeType != b.children[i].nodeType, NodeReordered, at + [i]);
      SwappedChildDiffs(a, b, at, i);
      SwappedDiff(a.children[i], b.children[i], at + [i]);
      FlipConcat(before + moved, diff);
      FlipConcat(before, moved);
    }
  }

  // ---------------------------------------------------------------------------------------------
  // Node counts
  // ---------------------------------------------------------------------------------------------

  function Size(n: PlanNode): (s: nat)
    decreases n, 1, 0
  {
    1 + SizeOfChildren(n, |n.children|)
  }

  function SizeOfChildren(n: PlanNode, k: nat): (s: nat)
    requires k <= |n.children|
    decreases n, 0, k
  {
    if k == 0 then 0 else SizeOfChildren(n, k - 1) + Size(n.children[k - 1])
  }

  predicate HasNode(n: PlanNode, path: seq<nat>)
    decreases |path|
  {
    path == [] || (path[0] < |n.children| && HasNode(n.children[path[0]], path[1..]))
  }

  /** The size of the subtree at a location; 0 where there is no node. */
  function SizeAt(n: PlanNode, path: seq<nat>): (s: nat)
    decreases |path|
  {
    if path == [] then Size(n)
    else if path[0] < |n.children| then SizeAt(n.children[path[0]], path[1..])
    else 0
  }

  /** What one change adds to or takes from the node count; locations are read below `depth`. */
  function Weight(c: StructureChange, prior: PlanNode, latest: PlanNode, depth: nat): (w: int) {
    if |c.location| < depth then 0
    else match c.changeType
      case NodeAdded => SizeAt(latest, c.location[depth..])
      case NodeRemoved => 0 - SizeAt(prior, c.location[depth..]) as int
      case _ => 0
  }

  function Balance(cs: seq<StructureChange>, prior: PlanNode, latest: PlanNode, depth: nat): (w: int) {
    if cs == [] then 0 else Weight(cs[0], prior, latest, depth) + Balance(cs[1..], prior, latest, depth)
  }

  lemma {:induction false} BalanceConcat(
    a: seq<StructureChange>, b: seq<StructureChange>, prior: PlanNode, latest: PlanNode, depth: nat)
    ensures Balance(a + b, prior, latest, depth) == Balance(a, prior, latest, depth) + Balance(b, prior, latest, depth)
  {
    if a == [] {
      assert a + b == b;
    } else {
      assert (a + b)[1..] == a[1..] + b;
      BalanceConcat(a[1..], b, prior, latest, depth);
    }
  }

  predicate AllBelow(cs: seq<StructureChange>, at: seq<nat>) {
    forall i :: 0 <= i < |cs| ==> at <= cs[i].location
  }

  lemma {:induction false} DiffIsBelow(a: PlanNode, b: PlanNode, at: seq<nat>)
    ensures AllBelow(Diff(a, b, at), at)
    decreases a, 1, 0
  {
    SurplusIsBelow(NodeAdded, at, |a.children|, |b.children|);
    SurplusIsBelow(NodeRemoved, at, |b.children|, |a.children|);
    ChildDiffsAreBelow(a, b, at, Common(a, b));
  }

  lemma {:induction false} SurplusIsBelow(kind: ChangeType, at: seq<nat>, lo: nat, hi: nat)
    ensures AllBelow(Surplus(kind, at, lo, hi), at)
    decreases hi - lo
  {
    if lo < hi {
      SurplusIsBelow(kind, at, lo + 1, hi);
    }
  }

  lemma {:induction false} ChildDiffsAreBelow(a: PlanNode, b: PlanNode, at: seq<nat>, n: nat)
    requires n <= Common(a, b)
    ensures AllBelow(ChildDiffs(a, b, at, n), at)
    decreases a, 0, n
  {
    if n > 0 {
      var i := n - 1;
      ChildDiffsAreBelow(a, b, at, i);
      DiffIsBelow(a.children[i], b.children[i], at + [i]);
      forall c | c in Diff(a.children[i], b.children[i], at + [i]) ensures at <= c.location {
        assert at <= at + [i] && at + [i] <= c.location;
      }
    }
  }

  /** Changes found below child `i` weigh the same seen from the child and from its parent. */
  lemma {:induction false} BalanceFromParent(cs: seq<StructureChange>, a: PlanNode, b: PlanNode, at: seq<nat>, i: nat)
    requires i < Common(a, b) && AllBelow(cs, at + [i])
    ensures Balance(cs, a, b, |at|) == Balance(cs, a.children[i], b.children[i], |at| + 1)
  {
    if cs != [] {
      BalanceFromParent(cs[1..], a, b, at, i);
      var loc := cs[0].location;
      assert at + [i] <= loc;
      assert loc[|at|..][0] == (at + [i])[|at|] && loc[|at|..][1..] == loc[|at| + 1..];
    }
  }

  lemma {:induction false} BalanceOfSurplus(kind: ChangeType, a: PlanNode, b: PlanNode, at: seq<nat>, lo: nat, hi: nat)
    requires kind == NodeAdded || kind == NodeRemoved
    requires hi <= |(if kind == NodeAdded then b else a).children| && lo <= hi
    ensures var n := if kind == NodeAdded then b else a;
            var total := SizeOfChildren(n, hi) - SizeOfChildren(n, lo);
            Balance(Surplus(kind, at, lo, hi), a, b, |at|) == if kind == NodeAdded then total else -total
    decreases hi - lo
  {
    if lo < hi {
      BalanceOfSurplus(kind, a, b, at, lo + 1, hi);
      var all, n := Surplus(kind, at, lo, hi), if kind == NodeAdded then b else a;
      assert all[0].location[|at|..] == [lo] && all[1..] == Surplus(kind, at, lo + 1, hi);
      assert SizeAt(n, [lo]) == SizeAt(n.children[lo], []);
    }
  }

  lemma BalanceHere(a: PlanNode, b: PlanNode, at: seq<nat>)
    ensures var n := Common(a, b);
            Balance(Here(a, b, at), a, b, |at|) ==
            (SizeOfChildren(b, |b.children|) - SizeOfChildren(b, n)) -
            (SizeOfChildren(a, |a.children|) - SizeOfChildren(a, n))
  {
    var p, q := |a.children|, |b.children|;
    var added, removed := Surplus(NodeAdded, at, p, q), Surplus(NodeRemoved, at, q, p);
    var types := When(a.nodeType != b.nodeType, OperationChanged, at);
    var ops := When(a.operation != b.operation, OperationChanged, at);
    BalanceConcat(types + ops + added, removed, a, b, |at|);
    BalanceConcat(types + ops, added, a, b, |at|);
    BalanceConcat(types, ops, a, b, |at|);
    if p <= q {
      BalanceOfSurplus(NodeAdded, a, b, at, p, q);
    } else {
      BalanceOfSurplus(NodeRemoved, a, b, at, q, p);
    }
  }

  /**
   The difference in node counts is the total size of the subtrees at added locations minus the
   total size of those at removed locations.
   */
  lemma {:induction false} DiffBalances(a: PlanNode, b: PlanNode, at: seq<nat>)
    ensures Balance(Diff(a, b, at), a, b, |at|) == Size(b) - Size(a)
    decreases a, 2, 0
  {
    var n := Common(a, b);
    ChildDiffsBalance(a, b, at, n);
    BalanceHere(a, b, at);
    BalanceConcat(Here(a, b, at), ChildDiffs(a, b, at, n), a, b, |at|);
  }

  /** The changes below the first `n` pairs of children balance. */
  predicate BalancesUpTo(a: PlanNode, b: PlanNode, at: seq<nat>, n: nat)
    requires n <= Common(a, b)
  {
    Balance(ChildDiffs(a, b, at, n), a, b, |at|) == SizeOfChildren(b, n) - SizeOfChildren(a, n)
  }

  lemma {:induction false} ChildDiffsBalance(a: PlanNode, b: PlanNode, at: seq<nat>, n: nat)
    requires n <= Common(a, b)
    ensures BalancesUpTo(a, b, at, n)
    decreases a, 1, n
  {
    if n == 0 {
      NoChildrenBalance(a, b, at);
    } else {
      ChildDiffsBalance(a, b, at, n - 1);
      OneChildBalances(a, b, at, n - 1);
      NextChildBalances(a, b, at, n);
    }
  }

  lemma NoChildrenBalance(a: PlanNode, b: PlanNode, at: seq<nat>)
    ensures BalancesUpTo(a, b, at, 0)
  {
  }

  predicate ChildBalances(a: PlanNode, b: PlanNode, at: seq<nat>, i: nat)
    requires i < Common(a, b)
  {
    Balance(Diff(a.children[i], b.children[i], at + [i]), a.children[i], b.children[i], |at| + 1) ==
    Size(b.children[i]) - Size(a.children[i])
  }

  lemma {:induction false} OneChildBalances(a: PlanNode, b: PlanNode, at: seq<nat>, i: nat)
    requires i < Common(a, b)
    ensures ChildBalances(a, b, at, i)
    decreases a, 0, 0
  {
    DiffBalances(a.children[i], b.children[i], at + [i]);
  }

  lemma NextChildBalances(a: PlanNode, b: PlanNode, at: seq<nat>, n: nat)
    requires 0 < n <= Common(a, b) && BalancesUpTo(a, b, at, n - 1) && ChildBalances(a, b, at, n - 1)
    ensures BalancesUpTo(a, b, at, n)
  {
    PairBalance(a, b, at, n);
    SizeGrows(a, n);
    SizeGrows(b, n);
  }

  lemma SizeGrows(p: PlanNode, n: nat)
    requires 0 < n <= |p.children|
    ensures SizeOfChildren(p, n) == SizeOfChildren(p, n - 1) + Size(p.children[n - 1])
  {
  }

  lemma PairBalance(a: PlanNode, b: PlanNode, at: seq<nat>, n: nat)
    requires 0 < n <= Common(a, b)
    ensures Balance(ChildDiffs(a, b, at, n), a, b, |at|) ==
            Balance(ChildDiffs(a, b, at, n - 1), a, b, |at|) +
            Balance(Diff(a.children[n - 1], b.children[n - 1], at + [n - 1]), a.children[n - 1], b.children[n - 1],
                    |at| + 1)
  {
    var i := n - 1;
    var before, diff := ChildDiffs(a, b, at, i), Diff(a.children[i], b.children[i], at + [i]);
    var moved := When(a.children[i].nodeType != b.children[i].nodeType, NodeReordered, at + [i]);
    DiffIsBelow(a.children[i], b.children[i], at + [i]);
    BalanceFromParent(diff, a, b, at, i);
    BalanceConcat(before + moved, diff, a, b, |at|);
    BalanceConcat(before, moved, a, b, |at|);
  }

  // ---------------------------------------------------------------------------------------------
  // Which positions are new
  // ---------------------------------------------------------------------------------------------

  /** Some reported addition is at or above the position. */
  ghost predicate CoveredByAddition(cs: seq<StructureChange>, loc: seq<nat>) {
    exists c :: c in cs && c.changeType == NodeAdded && c.location <= loc
  }

  lemma CoverConcat(a: seq<StructureChange>, b: seq<StructureChange>, loc: seq<nat>)
    ensures CoveredByAddition(a + b, loc) <==> CoveredByAddition(a, loc) || CoveredByAddition(b, loc)
  {
    assert forall c :: c in a + b <==> c in a || c in b;
  }

  /** Changes below one child cover nothing outside it. */
  lemma CoverNothingBeside(cs: seq<StructureChange>, at: seq<nat>, j: nat, loc: seq<nat>)
    requires AllBelow(cs, at + [j]) && (loc == [] || loc[0] != j)
    ensures !CoveredByAddition(cs, at + loc)
  {
    forall c | c in cs ensures !(c.location <= at + loc) {
      assert at + [j] <= c.location;
      assert c.location[|at|] == (at + [j])[|at|];
    }
  }

  lemma {:induction false} CoverOfSurplus(kind: ChangeType, at: seq<nat>, lo: nat, hi: nat, loc: seq<nat>)
    ensures CoveredByAddition(Surplus(kind, at, lo, hi), at + loc) <==>
            kind == NodeAdded && loc != [] && lo <= loc[0] < hi
    decreases hi - lo
  {
    if lo < hi {
      var first := [StructureChange(kind, at + [lo])];
      CoverOfSurplus(kind, at, lo + 1, hi, loc);
      CoverConcat(first, Surplus(kind, at, lo + 1, hi), at + loc);
      if kind == NodeAdded && loc != [] && loc[0] == lo {
        assert first[0] in first && at + [lo] <= at + loc;
      } else if kind == NodeAdded {
        CoverNothingBeside(first, at, lo, loc);
      }
    }
  }

  lemma CoverHere(a: PlanNode, b: PlanNode, at: seq<nat>, loc: seq<nat>)
    ensures CoveredByAddition(Here(a, b, at), at + loc) <==>
            loc != [] && |a.children| <= loc[0] < |b.children|
  {
    var p, q := |a.children|, |b.children|;
    var added, removed := Surplus(NodeAdded, at, p, q), Surplus(NodeRemoved, at, q, p);
    var types := When(a.nodeType != b.nodeType, OperationChanged, at);
    var ops := When(a.operation != b.operation, OperationChanged, at);
    CoverConcat(types + ops + added, removed, at + loc);
    CoverConcat(types + ops, added, at + loc);
    CoverOfSurplus(NodeAdded, at, p, q, loc);
    CoverOfSurplus(NodeRemoved, at, q, p, loc);
  }

  lemma CoverOfPair(a: PlanNode, b: PlanNode, at: seq<nat>, i: nat, loc: seq<nat>)
    requires i < Common(a, b)
    ensures CoveredByAddition(ChildDiffs(a, b, at, i + 1), at + loc) <==>
            CoveredByAddition(ChildDiffs(a, b, at, i), at + loc) ||
            (loc != [] && loc[0] == i && CoveredInChild(a, b, at, i, loc))
  {
    var before, diff := ChildDiffs(a, b, at, i), Diff(a.children[i], b.children[i], at + [i]);
    var moved := When(a.children[i].nodeType != b.children[i].nodeType, NodeReordered, at + [i]);
    CoverConcat(before + moved, diff, at + loc);
    CoverConcat(before, moved, at + loc);
    DiffIsBelow(a.children[i], b.children[i], at + [i]);
    if loc == [] || loc[0] != i {
      CoverNothingBeside(diff, at, i, loc);
    }
  }

  /** The position is inside child `i` and covered by what was found there. */
  ghost predicate CoveredInChild(a: PlanNode, b: PlanNode, at: seq<nat>, i: nat, loc: seq<nat>)
    requires i < Common(a, b)
  {
    CoveredByAddition(Diff(a.children[i], b.children[i], at + [i]), at + loc)
  }

  lemma {:induction false} CoverOfChildDiffs(a: PlanNode, b: PlanNode, at: seq<nat>, n: nat, loc: seq<nat>)
    requires n <= Common(a, b)
    ensures CoveredByAddition(ChildDiffs(a, b, at, n), at + loc) <==>
            loc != [] && loc[0] < n && CoveredInChild(a, b, at, loc[0], loc)
    decreases n
  {
    if n > 0 {
      CoverOfPair(a, b, at, n - 1, loc);
      CoverOfChildDiffs(a, b, at, n - 1, loc);
    }
  }

  lemma CoverOfDiff(a: PlanNode, b: PlanNode, at: seq<nat>, loc: seq<nat>)
    ensures CoveredByAddition(Diff(a, b, at), at + loc) <==>
            loc != [] && loc[0] < |b.children| &&
            (loc[0] < |a.children| ==>
             CoveredByAddition(Diff(a.children[loc[0]], b.children[loc[0]], at + [loc[0]]), at + loc))
  {
    CoverConcat(Here(a, b, at), ChildDiffs(a, b, at, Common(a, b)), at + loc);
    CoverHere(a, b, at, loc);
    CoverOfChildDiffs(a, b, at, Common(a, b), loc);
  }

  /**
   A position of the later plan is new exactly when a reported addition is at or above it; with
   `SwappedDiff`, the same holds of positions that are gone and reported removals.
   */
  lemma {:induction false} AdditionsCoverExactly(a: PlanNode, b: PlanNode, at: seq<nat>, loc: seq<nat>)
    requires HasNode(b, loc)
    ensures !HasNode(a, loc) <==> CoveredByAddition(Diff(a, b, at), at + loc)
    decreases |loc|
  {
    CoverOfDiff(a, b, at, loc);
    if loc != [] && loc[0] < |a.children| {
      var i := loc[0];
      AdditionsCoverExactly(a.children[i], b.children[i], at + [i], loc[1..]);
      assert at + loc == at + [i] + loc[1..];
    }
  }

  // ---------------------------------------------------------------------------------------------
  // Exactly which changes are reported
  // ---------------------------------------------------------------------------------------------

  /** The node at a position. */
  function NodeAt(n: PlanNode, path: seq<nat>): (r: PlanNode)
    requires HasNode(n, path)
    decreases |path|
  {
    if path == [] then n else NodeAt(n.children[path[0]], path[1..])
  }

  predicate InBoth(a: PlanNode, b: PlanNode, loc: seq<nat>) {
    HasNode(a, loc) && HasNode(b, loc)
  }

  function OneIf(b: bool): (n: nat) {
    if b then 1 else 0
  }

  /** Only `b` has a node here, below a node that both have. */
  predicate OnlyInSecond(a: PlanNode, b: PlanNode, loc: seq<nat>) {
    loc != [] && HasNode(a, loc[..|loc| - 1]) && !HasNode(a, loc) && HasNode(b, loc)
  }

  /** How often a change of each kind has to be reported at a position. */
  function Expected(a: PlanNode, b: PlanNode, kind: ChangeType, loc: seq<nat>): (n: nat) {
    match kind
    case NodeAdded => OneIf(OnlyInSecond(a, b, loc))
    case NodeRemoved => OneIf(OnlyInSecond(b, a, loc))
    case NodeReordered =>
      OneIf(loc != [] && InBoth(a, b, loc) && NodeAt(a, loc).nodeType != NodeAt(b, loc).nodeType)
    case OperationChanged =>
      if !InBoth(a, b, loc) then 0
      else
        OneIf(NodeAt(a, loc).nodeType != NodeAt(b, loc).nodeType) +
        OneIf(NodeAt(a, loc).operation != NodeAt(b, loc).operation)
  }

  function Reported(cs: seq<StructureChange>, kind: ChangeType, loc: seq<nat>): (n: nat) {
    if cs == [] then 0 else OneIf(cs[0] == StructureChange(kind, loc)) + Reported(cs[1..], kind, loc)
  }

  lemma {:induction false} ReportedConcat(
    x: seq<StructureChange>, y: seq<StructureChange>, kind: ChangeType, loc: seq<nat>)
    ensures Reported(x + y, kind, loc) == Reported(x, kind, loc) + Reported(y, kind, loc)
  {
    if x == [] {
      assert x + y == y;
    } else {
      assert (x + y)[0] == x[0] && (x + y)[1..] == x[1..] + y;
      ReportedConcat(x[1..], y, kind, loc);
    }
  }

  lemma ReportedWhen(b: bool, k: ChangeType, at: seq<nat>, kind: ChangeType, loc: seq<nat>)
    ensures Reported(When(b, k, at), kind, loc) == OneIf(b && k == kind && at == loc)
  {
    if b {
      assert When(b, k, at)[1..] == [];
    }
  }

  lemma SamePlace(at: seq<nat>, i: nat, loc: seq<nat>)
    ensures at + [i] == at + loc <==> loc == [i]
    ensures at == at + loc <==> loc == []
  {
    if at + [i] == at + loc {
      assert (at + [i])[|at|..] == [i] && (at + loc)[|at|..] == loc;
    }
  }

  lemma {:induction false} ReportedSurplus(
    k: ChangeType, at: seq<nat>, lo: nat, hi: nat, kind: ChangeType, loc: seq<nat>)
    ensures Reported(Surplus(k, at, lo, hi), kind, at + loc) == OneIf(k == kind && |loc| == 1 && lo <= loc[0] < hi)
    decreases hi - lo
  {
    if lo < hi {
      var all := Surplus(k, at, lo, hi);
      assert all[0] == StructureChange(k, at + [lo]) && all[1..] == Surplus(k, at, lo + 1, hi);
      ReportedSurplus(k, at, lo + 1, hi, kind, loc);
      SamePlace(at, lo, loc);
    }
  }

  lemma {:induction false} NothingReportedBeside(
    cs: seq<StructureChange>, at: seq<nat>, i: nat, kind: ChangeType, loc: seq<nat>)
    requires AllBelow(cs, at + [i]) && (loc == [] || loc[0] != i)
    ensures Reported(cs, kind, at + loc) == 0
  {
    if cs != [] {
      assert at + [i] <= cs[0].location;
      assert cs[0].location[|at|] == i;
      assert loc != [] ==> (at + loc)[|at|] == loc[0];
      NothingReportedBeside(cs[1..], at, i, kind, loc);
    }
  }

  /** How often a change is reported by the comparison of two nodes themselves. */
  function HereCount(a: PlanNode, b: PlanNode, kind: ChangeType, loc: seq<nat>): (n: nat) {
    OneIf(a.nodeType != b.nodeType && kind == OperationChanged && loc == []) +
    OneIf(a.operation != b.operation && kind == OperationChanged && loc == []) +
    OneIf(kind == NodeAdded && |loc| == 1 && |a.children| <= loc[0] < |b.children|) +
    OneIf(kind == NodeRemoved && |loc| == 1 && |b.children| <= loc[0] < |a.children|)
  }

  /** What is reported at a node itself. */
  lemma ReportedHere(a: PlanNode, b: PlanNode, at: seq<nat>, kind: ChangeType, loc: seq<nat>)
    ensures Reported(Here(a, b, at), kind, at + loc) == HereCount(a, b, kind, loc)
  {
    var p, q, place := |a.children|, |b.children|, at + loc;
    var types := When(a.nodeType != b.nodeType, OperationChanged, at);
    var ops := When(a.operation != b.operation, OperationChanged, at);
    var added, removed := Surplus(NodeAdded, at, p, q), Surplus(NodeRemoved, at, q, p);
    ReportedConcat(types + ops + added, removed, kind, place);
    ReportedConcat(types + ops, added, kind, place);
    ReportedConcat(types, ops, kind, place);
    ReportedWhen(a.nodeType != b.nodeType, OperationChanged, at, kind, place);
    ReportedWhen(a.operation != b.operation, OperationChanged, at, kind, place);
    ReportedSurplus(NodeAdded, at, p, q, kind, loc);
    ReportedSurplus(NodeRemoved, at, q, p, kind, loc);
    SamePlace(at, 0, loc);
  }

  /** What is reported for one pair of children. */
  function ReportedInPair(a: PlanNode, b: PlanNode, at: seq<nat>, i: nat, kind: ChangeType, loc: seq<nat>): (n: nat)
    requires i < Common(a, b)
  {
    if loc == [] || loc[0] != i then 0
    else
      OneIf(kind == NodeReordered && |loc| == 1 && a.children[i].nodeType != b.children[i].nodeType) +
      Reported(Diff(a.children[i], b.children[i], at + [i]), kind, at + loc)
  }

  lemma PairReports(a: PlanNode, b: PlanNode, at: seq<nat>, n: nat, kind: ChangeType, loc: seq<nat>)
    requires 0 < n <= Common(a, b)
    ensures Reported(ChildDiffs(a, b, at, n), kind, at + loc) ==
            Reported(ChildDiffs(a, b, at, n - 1), kind, at + loc) + ReportedInPair(a, b, at, n - 1, kind, loc)
  {
    var i := n - 1;
    var before, diff := ChildDiffs(a, b, at, i), Diff(a.children[i], b.children[i], at + [i]);
    var differ := a.children[i].nodeType != b.children[i].nodeType;
    var moved := When(differ, NodeReordered, at + [i]);
    ReportedConcat(before + moved, diff, kind, at + loc);
    ReportedConcat(before, moved, kind, at + loc);
    ReportedWhen(differ, NodeReordered, at + [i], kind, at + loc);
    SamePlace(at, i, loc);
    if loc == [] || loc[0] != i {
      DiffIsBelow(a.children[i], b.children[i], at + [i]);
      NothingReportedBeside(diff, at, i, kind, loc);
    }
  }

  lemma {:induction false} ChildrenReport(
    a: PlanNode, b: PlanNode, at: seq<nat>, n: nat, kind: ChangeType, loc: seq<nat>)
    requires n <= Common(a, b)
    ensures Reported(ChildDiffs(a, b, at, n), kind, at + loc) ==
            if loc != [] && loc[0] < n then ReportedInPair(a, b, at, loc[0], kind, loc) else 0
    decreases n
  {
    if n > 0 {
      ChildrenReport(a, b, at, n - 1, kind, loc);
      PairReports(a, b, at, n, kind, loc);
    } else {
      assert ChildDiffs(a, b, at, 0) == [];
    }
  }

  lemma OneStepDown(n: PlanNode, loc: seq<nat>)
    requires |loc| == 1
    ensures HasNode(n, loc) <==> loc[0] < |n.children|
    ensures HasNode(n, loc) ==> NodeAt(n, loc) == n.children[loc[0]]
    ensures loc[..|loc| - 1] == [] && HasNode(n, loc[..|loc| - 1])
  {
    assert loc[1..] == [];
  }

  /** What has to be reported inside child `i` of both, seen from the child. */
  lemma ExpectedBelow(a: PlanNode, b: PlanNode, kind: ChangeType, loc: seq<nat>)
    requires loc != [] && loc[0] < Common(a, b)
    ensures var i := loc[0];
            Expected(a, b, kind, loc) ==
            OneIf(kind == NodeReordered && |loc| == 1 && a.children[i].nodeType != b.children[i].nodeType) +
            Expected(a.children[i], b.children[i], kind, loc[1..])
  {
    if |loc| > 1 {
      assert loc[..|loc| - 1][0] == loc[0] && loc[..|loc| - 1][1..] == loc[1..][..|loc| - 2];
    } else {
      assert loc[1..] == [];
      OneStepDown(a, loc);
      OneStepDown(b, loc);
    }
  }

  lemma ExpectedHere(a: PlanNode, b: PlanNode, kind: ChangeType, loc: seq<nat>)
    requires loc == [] || loc[0] >= Common(a, b)
    ensures Expected(a, b, kind, loc) == HereCount(a, b, kind, loc)
  {
    if |loc| > 1 {
      assert loc[..|loc| - 1][0] == loc[0];
    } else if |loc| == 1 {
      OneStepDown(a, loc);
      OneStepDown(b, loc);
    }
  }

  /**
   Every change of every kind is reported exactly as often as the two plans call for, at exactly the
   positions they call for: OperationChanged once for the type and once for the operation of a node
   that differs, NodeReordered at nodes below the root whose type differs, NodeAdded and NodeRemoved
   where one plan has a node too many below a node of both.
   */
  lemma {:induction false} ReportedExactly(a: PlanNode, b: PlanNode, at: seq<nat>, kind: ChangeType, loc: seq<nat>)
    ensures Reported(Diff(a, b, at), kind, at + loc) == Expected(a, b, kind, loc)
    decreases |loc|
  {
    DiffReports(a, b, at, kind, loc);
    if loc != [] && loc[0] < Common(a, b) {
      ReportedExactly(a.children[loc[0]], b.children[loc[0]], at + [loc[0]], kind, loc[1..]);
      InsideReports(a, b, at, kind, loc);
    } else {
      ExpectedHere(a, b, kind, loc);
    }
  }

  lemma DiffReports(a: PlanNode, b: PlanNode, at: seq<nat>, kind: ChangeType, loc: seq<nat>)
    ensures Reported(Diff(a, b, at), kind, at + loc) ==
            HereCount(a, b, kind, loc) +
            if loc != [] && loc[0] < Common(a, b) then ReportedInPair(a, b, at, loc[0], kind, loc) else 0
  {
    var n := Common(a, b);
    ReportedConcat(Here(a, b, at), ChildDiffs(a, b, at, n), kind, at + loc);
    ReportedHere(a, b, at, kind, loc);
    ChildrenReport(a, b, at, n, kind, loc);
  }

  lemma InsideReports(a: PlanNode, b: PlanNode, at: seq<nat>, kind: ChangeType, loc: seq<nat>)
    requires loc != [] && loc[0] < Common(a, b)
    requires var i := loc[0];
             Reported(Diff(a.children[i], b.children[i], at + [i]), kind, at + [i] + loc[1..]) ==
             Expected(a.children[i], b.children[i], kind, loc[1..])
    ensures HereCount(a, b, kind, loc) + ReportedInPair(a, b, at, loc[0], kind, loc) == Expected(a, b, kind, loc)
  {
    assert at + loc == at + [loc[0]] + loc[1..];
    ExpectedBelow(a, b, kind, loc);
  }

  // ---------------------------------------------------------------------------------------------
  // Locations as text
  // ---------------------------------------------------------------------------------------------

  function Location(at: seq<nat>): (s: string) {
    if at == [] then "root" else Location(at[..|at| - 1]) + "/child[" + Render(at[|at| - 1]) + "]"
  }

  /** No two locations are written the same way. */
  lemma {:induction false} LocationInjective(a: seq<nat>, b: seq<nat>)
    requires Location(a) == Location(b)
    ensures a == b
    decreases |a|
  {
    var s := Location(a);
    assert a == [] ==> s[|s| - 1] == 't';
    assert a != [] ==> s[|s| - 1] == ']';
    assert b == [] ==> s[|s| - 1] == 't';
    assert b != [] ==> s[|s| - 1] == ']';
    if a != [] {
      var x, y := Location(a[..|a| - 1]) + "/child[", Location(b[..|b| - 1]) + "/child[";
      var m, n := Render(a[|a| - 1]), Render(b[|b| - 1]);
      assert x + m == s[..|s| - 1] && y + n == s[..|s| - 1];
      assert x[|x| - 1] == '[' && y[|y| - 1] == '[';
      DigitSuffixUnique(x, m, y, n);
      RenderInjective(a[|a| - 1], b[|b| - 1]);
      assert Location(a[..|a| - 1]) == x[..|x| - 7] && Location(b[..|b| - 1]) == y[..|y| - 7];
      LocationInjective(a[..|a| - 1], b[..|b| - 1]);
      assert a == a[..|a| - 1] + [a[|a| - 1]] && b == b[..|b| - 1] + [b[|b| - 1]];
    }
  }
}
