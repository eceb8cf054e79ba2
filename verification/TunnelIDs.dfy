/** Tunnel ID scan of the allocator. */
module TunnelIDs {

  const MIN_ID: int := 100
  const MAX_ID: int := 9999
  const POOL: int := 9900

  /** `validateTunnelID` returns no error. */
  predicate ValidID(id: int) {
    MIN_ID <= id <= MAX_ID
  }

  /** The valid IDs that occur in a list; zero, out-of-range and repeated IDs add nothing. */
  function UsedIDs(ids: seq<int>): set<int> {
    set id | id in ids && ValidID(id)
  }

  method GetCurrentTunnelIDs(ids: seq<int>) returns (used: set<int>)
    ensures used == UsedIDs(ids)
  {
    used := {};
    for i := 0 to |ids|
      invariant used == UsedIDs(ids[..i])
    {
      assert ids[..i + 1] == ids[..i] + [ids[i]];
      if ids[i] == 0 {
        continue;
      }
      if ids[i] < MIN_ID || ids[i] > MAX_ID {
        continue;
      }
      used := used + {ids[i]};
    }
    assert ids[..|ids|] == ids;
  }

  /** `id` is the first ID from MIN_ID on that is not in use, or one past the range. */
  ghost predicate FirstFree(used: set<int>, id: int) {
    && MIN_ID <= id <= MAX_ID + 1
    && (forall j :: MIN_ID <= j < id ==> j in used)
    && (id <= MAX_ID ==> id !in used)
  }

  /** The counting loop of `allocateTunnelID`. */
  method Scan(used: set<int>) returns (cand: int)
    ensures FirstFree(used, cand)
  {
    cand := MIN_ID;
    while cand <= MAX_ID
      invariant MIN_ID <= cand <= MAX_ID + 1
      invariant forall j :: MIN_ID <= j < cand ==> j in used
    {
      if cand !in used {
        break;
      }
      cand := cand + 1;
    }
  }

  function Interval(lo: int, hi: int): (r: set<int>)
    requires lo <= hi
    ensures forall i :: i in r <==> lo <= i < hi
    ensures |r| == hi - lo
    decreases hi - lo
  {
    if lo == hi then {} else Interval(lo, hi - 1) + {hi - 1}
  }

  lemma SubsetSize(a: set<int>, b: set<int>)
    requires a <= b
    ensures |a| <= |b|
    ensures |a| == |b| ==> a == b
  {
    assert b == a + (b - a);
    if |a| == |b| {
      assert |b - a| == 0;
    }
  }

  /** Least free ID by pigeonhole: for any list of IDs the scan stays in range exactly when fewer
      than 9900 distinct valid IDs occur; then its result is unused and least. It leaves the
      range, with 10000, exactly when all 9900 occur. */
  lemma LeastFreeByPigeonhole(ids: seq<int>, id: int)
    requires FirstFree(UsedIDs(ids), id)
    ensures |UsedIDs(ids)| <= POOL
    ensures ValidID(id) <==> 100 <= id <= 9999
    ensures ValidID(id) <==> |UsedIDs(ids)| < POOL == 9900
    ensures id == MAX_ID + 1 <==> |UsedIDs(ids)| == POOL
    ensures ValidID(id) ==> id !in ids && forall j :: MIN_ID <= j < id ==> j in ids
  {
    var used, all := UsedIDs(ids), Interval(MIN_ID, MAX_ID + 1);
    forall j | MIN_ID <= j < id
      ensures j in ids
    {
      assert j in used;
    }
    SubsetSize(used, all);
    if id == MAX_ID + 1 {
      assert all <= used;
      assert all == used;
    } else {
      assert id in all && id !in used;
    }
  }

  /** With the pool exhausted, the out-of-range ID is handed out again and again: it is never
      counted as used. */
  lemma ExhaustedPoolRepeats(ids: seq<int>, id: int, id': int)
    requires |UsedIDs(ids)| == POOL
    requires FirstFree(UsedIDs(ids), id) && FirstFree(UsedIDs(ids + [id]), id')
    ensures id == id' == MAX_ID + 1
  {
    LeastFreeByPigeonhole(ids, id);
    assert UsedIDs(ids + [id]) == UsedIDs(ids);
    LeastFreeByPigeonhole(ids + [id], id');
  }
}
