/**
 * Candidate search of the leader-election message manager: which instance
 * to contact next, given the registry of instances and their liveness.
 */
module LeaderElection {
  import opened JavaLang

  /** The instance registry as candidate search sees it: instance id to whether it is alive. */
  type InstanceMap = map<int, bool>

  predicate IsLive(instances: InstanceMap, id: int) {
    id in instances && instances[id]
  }

  lemma {:induction false} MinimumExists(s: set<int>)
    requires s != {}
    ensures exists m :: m in s && forall y :: y in s ==> m <= y
  {
    if forall y :: y !in s {
      assert false;
    }
    var x :| x in s;
    if s != {x} {
      MinimumExists(s - {x});
      var m :| m in s - {x} && forall y :: y in s - {x} ==> m <= y;
      var least := if x < m then x else m;
      forall y | y in s ensures least <= y {
        if y != x {
          assert y in s - {x};
        }
      }
      assert least in s;
    }
  }

  /** The least element of a non-empty set of ids. */
  function Minimum(s: set<int>): (m: int)
    requires s != {}
    ensures m in s && forall y :: y in s ==> m <= y
  {
    MinimumExists(s);
    var m: int :| m in s && forall y :: y in s ==> m <= y;
    m
  }

  /** A set of ids in ascending order, each exactly once (`sorted()` then `collect(toList())`). */
  function Sorted(s: set<int>): (r: seq<int>)
    ensures |r| == |s|
    ensures forall i :: 0 <= i < |r| ==> r[i] in s
    ensures forall x :: x in s ==> x in r
    ensures forall i, j :: 0 <= i < j < |r| ==> r[i] < r[j]
    decreases |s|
  {
    if s == {} then []
    else
      var m := Minimum(s);
      [m] + Sorted(s - {m})
  }

  /** The first element of an ascending listing is the least element of the set listed. */
  lemma SortedHeadIsMinimum(s: set<int>)
    requires s != {}
    ensures |Sorted(s)| > 0 && Sorted(s)[0] in s
    ensures forall y :: y in s ==> Sorted(s)[0] <= y
  {
    var r := Sorted(s);
    forall y | y in s ensures r[0] <= y {
      var j :| 0 <= j < |r| && r[j] == y;
    }
  }

  /** Live ids strictly greater than `currentId`: the first stream filter. */
  function LiveAbove(instances: InstanceMap, currentId: int): set<int> {
    set id | id in instances && id > currentId && instances[id]
  }

  /** All live ids: the stream filter used for the wrap-around. */
  function LiveIds(instances: InstanceMap): set<int> {
    set id | id in instances && instances[id]
  }

  /**
   * `findNextInstance(currentId)`: the first of the sorted live ids above
   * `currentId`; when there is none, the first of all sorted live ids. With no
   * live instance, `get(0)` on the empty list throws: `None`.
   */
  function FindNextInstance(instances: InstanceMap, currentId: int): (r: Option<int>)
    ensures r.Some? ==> IsLive(instances, r.value)
    ensures r.None? <==> forall id :: !IsLive(instances, id)
  {
    assert forall id :: id in LiveIds(instances) ==> IsLive(instances, id);
    var candidates := Sorted(LiveAbove(instances, currentId));
    if |candidates| == 0 then
      var live := Sorted(LiveIds(instances));
      if |live| == 0 then
        assert forall id :: IsLive(instances, id) ==> id in LiveIds(instances);
        None
      else Some(live[0])
    else Some(candidates[0])
  }

  /**
   * The next instance in the ring of live ids: the nearest live id above
   * `currentId`, or the least live id when nothing live lies above it.
   */
  ghost predicate IsNextInRing(instances: InstanceMap, currentId: int, id: int) {
    && IsLive(instances, id)
    && if exists other :: IsLive(instances, other) && other > currentId
       then id > currentId && forall other :: IsLive(instances, other) && other > currentId ==> id <= other
       else forall other :: IsLive(instances, other) ==> id <= other
  }

  /** When some live id lies above `currentId`, the search returns the smallest of them. */
  lemma FindNextAbove(instances: InstanceMap, currentId: int, above: int)
    requires IsLive(instances, above) && above > currentId
    ensures FindNextInstance(instances, currentId).Some?
    ensures var next := FindNextInstance(instances, currentId).value;
      next > currentId && next <= above &&
      forall other :: IsLive(instances, other) && other > currentId ==> next <= other
  {
    var s := LiveAbove(instances, currentId);
    assert forall other :: IsLive(instances, other) && other > currentId ==> other in s;
    SortedHeadIsMinimum(s);
  }

  /** When no live id lies above `currentId`, the search wraps around to the smallest live id. */
  lemma FindNextWrapsAround(instances: InstanceMap, currentId: int, live: int)
    requires IsLive(instances, live)
    requires forall other :: IsLive(instances, other) ==> other <= currentId
    ensures FindNextInstance(instances, currentId).Some?
    ensures var next := FindNextInstance(instances, currentId).value;
      next <= currentId && forall other :: IsLive(instances, other) ==> next <= other
  {
    var s := LiveIds(instances);
    assert forall other :: IsLive(instances, other) ==> other in s;
    assert forall other :: other in LiveAbove(instances, currentId) ==> IsLive(instances, other) && other > currentId;
    assert LiveAbove(instances, currentId) == {};
    SortedHeadIsMinimum(s);
  }

  /** The search returns exactly the next instance in the ring of live ids. */
  lemma FindNextIsNextInRing(instances: InstanceMap, currentId: int, id: int)
    ensures FindNextInstance(instances, currentId) == Some(id) <==> IsNextInRing(instances, currentId, id)
  {
    if exists other :: IsLive(instances, other) && other > currentId {
      var other :| IsLive(instances, other) && other > currentId;
      FindNextAbove(instances, currentId, other);
    } else if exists live :: IsLive(instances, live) {
      var live :| IsLive(instances, live);
      FindNextWrapsAround(instances, currentId, live);
    }
  }

  /** The search hands back `currentId` itself exactly when that is the only live id. */
  lemma FindNextReturnsSelfOnlyWhenSole(instances: InstanceMap, currentId: int)
    ensures FindNextInstance(instances, currentId) == Some(currentId)
        <==> IsLive(instances, currentId) && forall other :: IsLive(instances, other) ==> other == currentId
  {
    if FindNextInstance(instances, currentId) == Some(currentId) {
      if exists other :: IsLive(instances, other) && other > currentId {
        var other :| IsLive(instances, other) && other > currentId;
        FindNextAbove(instances, currentId, other);
        assert false;
      }
      FindNextWrapsAround(instances, currentId, currentId);
    }
    if IsLive(instances, currentId) && forall other :: IsLive(instances, other) ==> other == currentId {
      FindNextWrapsAround(instances, currentId, currentId);
    }
  }
}
