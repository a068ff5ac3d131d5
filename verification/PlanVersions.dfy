/**
 `PlanVersionManager` (sql/explain_advanced.rs): bounded retention per query, generated version
 ids, lookup by id across all queries and the cost timeline. The laws are stated over the whole
 history of stores, which the object carries as a ghost.
 */
module PlanVersions {
  import opened Wrappers
  import opened Decimal

  const MAX_VERSIONS_PER_QUERY: nat := 100

  /** An EXPLAIN output: the part the manager reads, and the rest. */
  datatype Plan = Plan(totalCost: real, rest: string)

  datatype PlanVersion = PlanVersion(
    versionId: string, queryHash: string, createdAt: nat, createdBy: string, plan: Plan, environment: string)

  datatype TimelineEvent = TimelineEvent(timestamp: nat, versionId: string, costChange: Option<real>)

  /** Everything ever stored, per query, oldest first. */
  type History = map<string, seq<PlanVersion>>

  /** `{hash}-v{n}` */
  function VersionId(queryHash: string, n: nat): (id: string) {
    queryHash + "-v" + Render(n)
  }

  /** The id format tells queries apart even when a hash itself ends like a version suffix. */
  lemma VersionIdInjective(q: string, n: nat, q': string, n': nat)
    requires VersionId(q, n) == VersionId(q', n')
    ensures q == q' && n == n'
  {
    var a, b := q + "-v", q' + "-v";
    assert a[|a| - 1] == 'v' && b[|b| - 1] == 'v';
    DigitSuffixUnique(a, Render(n), b, Render(n'));
    assert q == a[..|a| - 2] && q' == b[..|b| - 2];
    RenderInjective(n, n');
  }

  /** The number in the id of the i-th store (from 0) for a query: it stops growing once pruning starts. */
  function Number(i: nat): (n: nat) {
    if i < MAX_VERSIONS_PER_QUERY then i + 1 else MAX_VERSIONS_PER_QUERY + 1
  }

  predicate Numbered(q: string, s: seq<PlanVersion>) {
    forall i :: 0 <= i < |s| ==> s[i].queryHash == q && s[i].versionId == VersionId(q, Number(i))
  }

  predicate WellNumbered(h: History) {
    forall q :: q in h ==> Numbered(q, h[q])
  }

  /** The position of the oldest retained version. */
  function Oldest(n: nat): (i: nat)
    ensures i <= n
  {
    if n <= MAX_VERSIONS_PER_QUERY then 0 else n - MAX_VERSIONS_PER_QUERY
  }

  /** The last min(n, 100) stores. */
  function Retained(s: seq<PlanVersion>): (r: seq<PlanVersion>)
    ensures |r| == if |s| <= MAX_VERSIONS_PER_QUERY then |s| else MAX_VERSIONS_PER_QUERY
    ensures forall i :: 0 <= i < |r| ==> r[i] == s[Oldest(|s|) + i]
  {
    s[Oldest(|s|)..]
  }

  /** The head is dropped when the list is too long. */
  function Pruned(list: seq<PlanVersion>): (r: seq<PlanVersion>) {
    if |list| > MAX_VERSIONS_PER_QUERY then list[1..] else list
  }

  /** Pushing and pruning keeps exactly the last stores. */
  lemma PushAndPrune(s: seq<PlanVersion>, v: PlanVersion)
    ensures Pruned(Retained(s) + [v]) == Retained(s + [v])
  {
    assert s[Oldest(|s|)..] + [v] == (s + [v])[Oldest(|s|)..];
  }

  function StoresOf(h: History, q: string): (s: seq<PlanVersion>) {
    if q in h then h[q] else []
  }

  lemma StoreKeepsNumbering(h: History, q: string, v: PlanVersion)
    requires WellNumbered(h) && v.queryHash == q
    requires v.versionId == VersionId(q, Number(|StoresOf(h, q)|))
    ensures WellNumbered(h[q := StoresOf(h, q) + [v]])
  {
    assert Numbered(q, StoresOf(h, q) + [v]);
  }

  // ---------------------------------------------------------------------------------------------
  // Distinctness of ids
  // ---------------------------------------------------------------------------------------------

  /** Two retained versions share an id only if they are the same one. */
  ghost predicate RetainedIdsDistinct(h: History) {
    forall q, i, q', i' |
      q in h && q' in h && 0 <= i < |Retained(h[q])| && 0 <= i' < |Retained(h[q'])| &&
      Retained(h[q])[i].versionId == Retained(h[q'])[i'].versionId :: q == q' && i == i'
  }

  /** Ids are equal only for one query, and there only for the same store or two late ones. */
  predicate TellsApart(h: History, q: string, i: int, q': string, i': int)
    requires q in h && q' in h && 0 <= i < |h[q]| && 0 <= i' < |h[q']|
  {
    h[q][i].versionId == h[q'][i'].versionId <==>
    q == q' && (i == i' || (i >= MAX_VERSIONS_PER_QUERY && i' >= MAX_VERSIONS_PER_QUERY))
  }

  ghost predicate IdsTellApart(h: History) {
    forall q, i, q', i' | q in h && q' in h && 0 <= i < |h[q]| && 0 <= i' < |h[q']| :: TellsApart(h, q, i, q', i')
  }

  lemma NumberedIdsTellApart(h: History)
    requires WellNumbered(h)
    ensures IdsTellApart(h)
  {
    forall q, i, q', i' | q in h && q' in h && 0 <= i < |h[q]| && 0 <= i' < |h[q']|
      ensures TellsApart(h, q, i, q', i')
    {
      assert Numbered(q, h[q]) && Numbered(q', h[q']);
      assert h[q][i].versionId == VersionId(q, Number(i)) && h[q'][i'].versionId == VersionId(q', Number(i'));
      if h[q][i].versionId == h[q'][i'].versionId {
        VersionIdInjective(q, Number(i), q', Number(i'));
      }
    }
  }

  lemma DistinctWhileTold(h: History)
    requires IdsTellApart(h)
    ensures RetainedIdsDistinct(h) <==> forall q :: q in h ==> |h[q]| <= MAX_VERSIONS_PER_QUERY + 1
  {
    if q :| q in h && |h[q]| > MAX_VERSIONS_PER_QUERY + 1 {
      var n := |h[q]|;
      assert TellsApart(h, q, n - 2, q, n - 1);
      var r := Retained(h[q]);
      assert r[98].versionId == r[99].versionId;
    } else {
      forall q, i, q', i' |
        q in h && q' in h && 0 <= i < |Retained(h[q])| && 0 <= i' < |Retained(h[q'])| &&
        Retained(h[q])[i].versionId == Retained(h[q'])[i'].versionId
        ensures q == q' && i == i'
      {
        assert TellsApart(h, q, Oldest(|h[q]|) + i, q', Oldest(|h[q']|) + i');
      }
    }
  }

  /**
   The retained ids are distinct across all queries exactly while no query has been stored more than
   101 times: the 102nd store repeats the id of the 101st.
   */
  lemma IdsDistinctExactly(h: History)
    requires WellNumbered(h)
    ensures RetainedIdsDistinct(h) <==> forall q :: q in h ==> |h[q]| <= MAX_VERSIONS_PER_QUERY + 1
  {
    NumberedIdsTellApart(h);
    DistinctWhileTold(h);
  }

  ghost predicate KeepsRetained(versions: History, h: History) {
    versions.Keys == h.Keys && forall q :: q in h ==> versions[q] == Retained(h[q])
  }

  lemma ListKeepsRetained(versions: History, h: History, q: string, list: seq<PlanVersion>, s: seq<PlanVersion>)
    requires KeepsRetained(versions, h) && list == Retained(s)
    ensures KeepsRetained(versions[q := list], h[q := s])
  {
    var versions', h' := versions[q := list], h[q := s];
    assert versions'.Keys == h'.Keys;
    forall p | p in h' ensures versions'[p] == Retained(h'[p]) {
      if p != q {
        assert versions[p] == Retained(h[p]);
      }
    }
  }

  /** One store on the lists is one more entry in the history. */
  lemma StoreStep(versions: History, h: History, q: string, v: PlanVersion)
    requires WellNumbered(h) && KeepsRetained(versions, h) && v.queryHash == q
    requires v.versionId == VersionId(q, |StoresOf(versions, q)| + 1)
    ensures KeepsRetained(versions[q := Pruned(StoresOf(versions, q) + [v])], h[q := StoresOf(h, q) + [v]])
    ensures v.versionId == VersionId(q, Number(|StoresOf(h, q)|))
    ensures WellNumbered(h[q := StoresOf(h, q) + [v]])
  {
    assert StoresOf(versions, q) == Retained(StoresOf(h, q));
    StoreKeepsNumbering(h, q, v);
    PushAndPrune(StoresOf(h, q), v);
    ListKeepsRetained(versions, h, q, Pruned(StoresOf(versions, q) + [v]), StoresOf(h, q) + [v]);
  }

  // ---------------------------------------------------------------------------------------------
  // Lookup by id
  // ---------------------------------------------------------------------------------------------

  /** The version at position `i` of the list is the first there with the id. */
  predicate FirstWithId(s: seq<PlanVersion>, i: int, id: string) {
    0 <= i < |s| && s[i].versionId == id && forall j :: 0 <= j < i ==> s[j].versionId != id
  }

  /** What `find` over the flattened lists may return, whatever order the map is walked in. */
  ghost predicate Finds(versions: History, id: string, r: Option<PlanVersion>) {
    match r
    case None => forall q, i :: q in versions && 0 <= i < |versions[q]| ==> versions[q][i].versionId != id
    case Some(v) => exists q, i :: q in versions && FirstWithId(versions[q], i, id) && v == versions[q][i]
  }

  /** Where in the history the lookup of the id of store `i` lands: on itself, or on the oldest
      retained version whose id already was the repeated one. */
  function LandsOn(n: nat, i: nat): (j: nat)
    requires Oldest(n) <= i < n
    ensures Oldest(n) <= j <= i
  {
    if i < MAX_VERSIONS_PER_QUERY then i
    else if Oldest(n) < MAX_VERSIONS_PER_QUERY then MAX_VERSIONS_PER_QUERY else Oldest(n)
  }

  /**
   Looking up the id of any retained version lands on a determined store of the same query, in any
   walk order; it is the version itself for all versions exactly while the query has at most 101 stores.
   */
  lemma LookupLands(versions: History, h: History, q: string, i: nat, r: Option<PlanVersion>)
    requires IdsTellApart(h) && KeepsRetained(versions, h)
    requires q in h && Oldest(|h[q]|) <= i < |h[q]|
    requires Finds(versions, h[q][i].versionId, r)
    ensures r == Some(h[q][LandsOn(|h[q]|, i)])
    ensures |h[q]| <= MAX_VERSIONS_PER_QUERY + 1 ==> r == Some(h[q][i])
  {
    var id, start := h[q][i].versionId, Oldest(|h[q]|);
    assert versions[q][i - start] == h[q][i];
    var q', k :| q' in versions && FirstWithId(versions[q'], k, id) && r == Some(versions[q'][k]);
    FirstLands(h, q, i, q', k);
  }

  lemma FirstLands(h: History, q: string, i: nat, q': string, k: nat)
    requires IdsTellApart(h) && q in h && q' in h && Oldest(|h[q]|) <= i < |h[q]|
    requires FirstWithId(Retained(h[q']), k, h[q][i].versionId)
    ensures q == q' && Oldest(|h[q]|) + k == LandsOn(|h[q]|, i)
  {
    assert TellsApart(h, q', Oldest(|h[q']|) + k, q, i);
    assert TellsApart(h, q, LandsOn(|h[q]|, i), q, i);
    FirstInList(h[q], i, k);
  }

  /** Within one list, ids repeat exactly among the late stores. */
  predicate SharesId(s: seq<PlanVersion>, a: int, b: int)
    requires 0 <= a < |s| && 0 <= b < |s|
  {
    s[a].versionId == s[b].versionId <==> a == b || (a >= MAX_VERSIONS_PER_QUERY && b >= MAX_VERSIONS_PER_QUERY)
  }

  lemma FirstInList(s: seq<PlanVersion>, i: nat, k: nat)
    requires Oldest(|s|) <= i < |s| && FirstWithId(Retained(s), k, s[i].versionId)
    requires SharesId(s, Oldest(|s|) + k, i) && SharesId(s, LandsOn(|s|, i), i)
    ensures Oldest(|s|) + k == LandsOn(|s|, i)
  {
    var r, start, j := Retained(s), Oldest(|s|), LandsOn(|s|, i);
    assert r[k] == s[start + k] && r[j - start] == s[j];
    assert s[j].versionId == s[i].versionId;
    assert k <= j - start;
  }

  /** From the 102nd store on, the id of the newest version is shared with an older one, which is found instead. */
  lemma RepeatedIdFindsOlderPlan(h: History, q: string)
    requires IdsTellApart(h) && q in h && |h[q]| >= MAX_VERSIONS_PER_QUERY + 2
    ensures LandsOn(|h[q]|, |h[q]| - 1) < |h[q]| - 1
    ensures h[q][LandsOn(|h[q]|, |h[q]| - 1)].versionId == h[q][|h[q]| - 1].versionId
  {
    assert TellsApart(h, q, LandsOn(|h[q]|, |h[q]| - 1), q, |h[q]| - 1);
  }

  // ---------------------------------------------------------------------------------------------
  // Timeline
  // ---------------------------------------------------------------------------------------------

  /** The change recorded for the i-th retained version: what the two id lookups find, subtracted. */
  function CostChange(s: seq<PlanVersion>, i: nat): (r: Option<real>)
    requires Oldest(|s|) + i < |s|
  {
    var n, at := |s|, Oldest(|s|) + i;
    if i == 0 then None
    else Some(s[LandsOn(n, at)].plan.totalCost - s[LandsOn(n, at - 1)].plan.totalCost)
  }

  lemma PricedByLookups(
    versions: History, h: History, q: string, i: nat, prev: Option<PlanVersion>, curr: Option<PlanVersion>)
    requires IdsTellApart(h) && KeepsRetained(versions, h) && q in h && 0 < i < |versions[q]|
    requires Finds(versions, versions[q][i - 1].versionId, prev) && Finds(versions, versions[q][i].versionId, curr)
    ensures prev.Some? && curr.Some?
    ensures Some(curr.value.plan.totalCost - prev.value.plan.totalCost) == CostChange(h[q], i)
  {
    var at := Oldest(|h[q]|) + i;
    assert versions[q][i - 1] == h[q][at - 1] && versions[q][i] == h[q][at];
    LookupLands(versions, h, q, at - 1, prev);
    LookupLands(versions, h, q, at, curr);
    assert Oldest(|h[q]|) + i == at;
  }

  /** The events for the retained versions of one query with the cost changes the code fills in. */
  predicate IsTimeline(events: seq<TimelineEvent>, s: seq<PlanVersion>) {
    |events| == |s| - Oldest(|s|) &&
    forall i :: 0 <= i < |events| ==>
      events[i] == Unpriced(s[Oldest(|s|) + i]).(costChange := CostChange(s, i))
  }

  /** The sum of the recorded cost changes of the first `k` events. */
  function TotalChange(events: seq<TimelineEvent>, k: nat): (r: real)
    requires k <= |events|
  {
    if k == 0 then 0.0
    else TotalChange(events, k - 1) + (if events[k - 1].costChange.Some? then events[k - 1].costChange.value else 0.0)
  }

  lemma {:induction false} TimelineTelescopes(events: seq<TimelineEvent>, s: seq<PlanVersion>, k: nat)
    requires IsTimeline(events, s) && 0 < k <= |events|
    ensures TotalChange(events, k) ==
            s[LandsOn(|s|, Oldest(|s|) + k - 1)].plan.totalCost - s[Oldest(|s|)].plan.totalCost
  {
    if k == 1 {
      assert TotalChange(events, 1) == TotalChange(events, 0) + 0.0;
    } else {
      TimelineTelescopes(events, s, k - 1);
    }
  }

  /**
   The cost changes of a timeline sum to last cost minus first cost exactly when the lookup of the
   newest id finds a plan with the newest cost, which up to 101 stores is always so.
   */
  lemma TimelineSumExactly(events: seq<TimelineEvent>, s: seq<PlanVersion>)
    requires IsTimeline(events, s) && s != []
    ensures var n := |s|;
            var landed := LandsOn(n, n - 1);
            (TotalChange(events, |events|) == s[n - 1].plan.totalCost - s[Oldest(n)].plan.totalCost <==>
             s[landed].plan.totalCost == s[n - 1].plan.totalCost) &&
            (n <= MAX_VERSIONS_PER_QUERY + 1 ==> landed == n - 1)
  {
    TimelineTelescopes(events, s, |events|);
  }

  // ---------------------------------------------------------------------------------------------
  // The manager object
  // ---------------------------------------------------------------------------------------------

  class PlanVersionManager {
    var versions: map<string, seq<PlanVersion>>
    ghost var stored: History

    ghost predicate Valid()
      reads this
    {
      WellNumbered(stored) && KeepsRetained(versions, stored)
    }

    constructor ()
      ensures Valid() && stored == map[]
    {
      versions := map[];
      stored := map[];
    }

    method StoreVersion(queryHash: string, plan: Plan, createdBy: string, environment: string, now: nat)
      returns (version: PlanVersion)
      requires Valid()
      modifies this
      ensures Valid()
      ensures version == PlanVersion(VersionId(queryHash, Number(|StoresOf(old(stored), queryHash)|)), queryHash,
                                     now, createdBy, plan, environment)
      ensures stored == old(stored)[queryHash := StoresOf(old(stored), queryHash) + [version]]
    {
      var count := if queryHash in versions then |versions[queryHash]| else 0;
      version := PlanVersion(VersionId(queryHash, count + 1), queryHash, now, createdBy, plan, environment);
      Push(queryHash, version);
      StoreStep(old(versions), stored, queryHash, version);
      stored := stored[queryHash := StoresOf(stored, queryHash) + [version]];
    }

    /** Append to the query's list and drop the head of a list that is too long. */
    method Push(queryHash: string, version: PlanVersion)
      modifies this`versions
      ensures versions == old(versions)[queryHash := Pruned(StoresOf(old(versions), queryHash) + [version])]
    {
      var list := (if queryHash in versions then versions[queryHash] else []) + [version];
      versions := versions[queryHash := list];
      if |list| > MAX_VERSIONS_PER_QUERY {
        versions := versions[queryHash := list[1..]];
      }
    }

    /** `order` is the unspecified order in which the hash map yields its lists. */
    method GetVersion(id: string, order: seq<string>) returns (r: Option<PlanVersion>)
      requires forall q :: q in versions <==> q in order
      ensures Finds(versions, id, r)
    {
      for n := 0 to |order|
        invariant forall m, i :: 0 <= m < n && 0 <= i < |versions[order[m]]| ==> versions[order[m]][i].versionId != id
      {
        assert order[n] in versions;
        var list := versions[order[n]];
        for i := 0 to |list|
          invariant forall j :: 0 <= j < i ==> list[j].versionId != id
        {
          if list[i].versionId == id {
            assert FirstWithId(versions[order[n]], i, id);
            return Some(list[i]);
          }
        }
      }
      forall q, i | q in versions && 0 <= i < |versions[q]| ensures versions[q][i].versionId != id {
        assert q in order;
      }
      r := None;
    }

    method GetTimeline(queryHash: string, order: seq<string>) returns (events: seq<TimelineEvent>)
      requires Valid() && forall q :: q in versions <==> q in order
      ensures IsTimeline(events, StoresOf(stored, queryHash))
    {
      if queryHash in versions {
        events := ListEvents(versions[queryHash]);
        if |events| > 0 {
          NumberedIdsTellApart(stored);
          events := AddCostChanges(queryHash, order, events);
        }
      } else {
        events := [];
      }
    }

    /** The first loop of the timeline: one event per version, without a cost change. */
    static method ListEvents(list: seq<PlanVersion>) returns (events: seq<TimelineEvent>)
      ensures |events| == |list| && forall j :: 0 <= j < |list| ==> events[j] == Unpriced(list[j])
    {
      events := [];
      for i := 0 to |list|
        invariant |events| == i
        invariant forall j :: 0 <= j < i ==> events[j] == Unpriced(list[j])
      {
        events := events + [Unpriced(list[i])];
      }
    }

    /** The second loop of the timeline: each event but the first is priced by two lookups. */
    method AddCostChanges(queryHash: string, order: seq<string>, events0: seq<TimelineEvent>)
      returns (events: seq<TimelineEvent>)
      requires IdsTellApart(stored) && KeepsRetained(versions, stored)
      requires forall q :: q in versions <==> q in order
      requires queryHash in versions && |events0| == |versions[queryHash]| > 0
      requires forall j :: 0 <= j < |events0| ==> events0[j] == Unpriced(versions[queryHash][j])
      ensures IsTimeline(events, stored[queryHash])
    {
      events := events0;
      ghost var s := stored[queryHash];
      for i := 1 to |events0|
        invariant |events| == |events0|
        invariant forall j :: i <= j < |events| ==> events[j] == events0[j]
        invariant forall j :: 0 <= j < i ==> events[j] == events0[j].(costChange := CostChange(s, j))
      {
        var prev := GetVersion(events[i - 1].versionId, order);
        var curr := GetVersion(events[i].versionId, order);
        PricedByLookups(versions, stored, queryHash, i, prev, curr);
        events := events[i := events[i].(costChange := Some(curr.value.plan.totalCost - prev.value.plan.totalCost))];
      }
    }
  }

  function Unpriced(v: PlanVersion): (e: TimelineEvent) {
    TimelineEvent(v.createdAt, v.versionId, None)
  }
}
