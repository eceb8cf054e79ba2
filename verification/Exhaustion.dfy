/** The allocator on a full pool: a concrete run that loses the uniqueness of tunnel IDs. */
module Exhaustion {
  import opened Addresses
  import opened TunnelIDs
  import opened VSwitchCfg
  import opened ControlPlane

  /** Configs are named by length. The first 9900 hold the whole pool, two more have no ID. */
  const CONFIGS: nat := 9902

  function Name(k: nat): (r: string)
    ensures |r| == k
  {
    seq(k, _ => 'n')
  }

  function ID(k: nat): int {
    if k < POOL then MIN_ID + k else 0
  }

  function Config(k: nat): Object {
    Object(k, k, Spec("", "", "", "", "", ID(k)))
  }

  function Full(): State {
    State(map m | m in (set k: nat | k < CONFIGS :: Name(k)) :: Config(|m|), CONFIGS,
          map k: nat | k < CONFIGS :: (Name(k), Config(k)), {}, Idle)
  }

  lemma Stored(k: nat)
    ensures Name(k) in Full().store <==> k < CONFIGS
    ensures k < CONFIGS ==> Full().store[Name(k)] == Config(k)
  {
    assert forall j: nat :: |Name(j)| == j;
  }

  lemma NamedByLength(m: string)
    requires m in Full().store
    ensures |m| < CONFIGS && m == Name(|m|)
  {
    var k: nat :| k < CONFIGS && m == Name(k);
  }

  lemma FullIsInitial()
    ensures Init(Full())
  {
    var s := Full();
    forall m | m in s.store
      ensures m == Name(|m|) && |m| < CONFIGS && s.store[m] == Config(|m|)
    {
      NamedByLength(m);
    }
  }

  /** What the configs hold once the two spare ones hold `first` and `second`. */
  function IDAt(first: int, second: int, k: nat): int {
    if k == POOL then first else if k == POOL + 1 then second else ID(k)
  }

  function IDs(first: int, second: int): (r: seq<int>)
    ensures |r| == CONFIGS && forall k :: 0 <= k < CONFIGS ==> r[k] == IDAt(first, second, k)
  {
    seq(CONFIGS, k requires 0 <= k => IDAt(first, second, k))
  }

  lemma PoolIsListed(first: int, second: int)
    ensures FirstFree(UsedIDs(IDs(first, second)), MAX_ID + 1)
  {
    var ids := IDs(first, second);
    forall j | MIN_ID <= j <= MAX_ID
      ensures j in ids
    {
      assert ids[j - MIN_ID] == j;
    }
  }

  function Allocated(s: State, name: string, id: int): State
    requires name in s.store
  {
    Write(s, name, s.store[name].uid, s.store[name].spec.(tunnelID := id))
  }

  /** An undisturbed Get, List and Update that gives `id` to `name`. */
  lemma Allocation(v: Settings, s: State, name: string, ids: seq<int>, id: int) returns (s1: State, s2: State)
    requires s.alloc.Idle? && name in s.store && s.store[name].spec.tunnelID == 0
    requires Lists(s.store, ids) && FirstFree(UsedIDs(ids), id)
    ensures Next(v, s, AllocGet(name), s1) && Next(v, s1, AllocList(ids), s2)
    ensures Next(v, s2, AllocUpdate(id), Allocated(s, name, id))
  {
    s1 := s.(alloc := Fetched(name, s.store[name]));
    s2 := s1.(alloc := Listed(name, s.store[name], ids));
  }

  lemma ListsFull(store: map<string, Object>, first: int, second: int)
    requires store.Keys == Full().store.Keys
    requires forall k: nat :: k < CONFIGS && Name(k) in store ==>
               store[Name(k)].spec.tunnelID == IDAt(first, second, k)
    ensures Lists(store, IDs(first, second))
  {
    var ids := IDs(first, second);
    forall m | m in store
      ensures store[m].spec.tunnelID in ids
    {
      NamedByLength(m);
      assert ids[|m|] in ids;
    }
    forall id | id in ids
      ensures exists m :: m in store && store[m].spec.tunnelID == id
    {
      var k: nat :| k < |ids| && ids[k] == id;
      Stored(k);
      assert store[Name(k)].spec.tunnelID == id;
    }
  }

  lemma FullIsListed()
    ensures Lists(Full().store, IDs(0, 0))
  {
    var store := Full().store;
    forall k: nat | k < CONFIGS && Name(k) in store
      ensures store[Name(k)].spec.tunnelID == IDAt(0, 0, k)
    {
      Stored(k);
    }
    ListsFull(store, 0, 0);
  }

  lemma SpareConfigs()
    ensures var s, a, b := Full(), Name(9900), Name(9901);
            && a != b && a in s.store && b in s.store
            && s.store[a].spec.tunnelID == s.store[b].spec.tunnelID == 0
  {
    Stored(9900);
    Stored(9901);
    assert |Name(9900)| != |Name(9901)|;
  }

  lemma ListedAfterFirst(store: map<string, Object>, id: int)
    requires Name(9900) in Full().store && store == Allocated(Full(), Name(9900), id).store
    ensures Lists(store, IDs(id, 0))
  {
    assert store.Keys == Full().store.Keys;
    forall k: nat | k < CONFIGS && Name(k) in store
      ensures store[Name(k)].spec.tunnelID == IDAt(id, 0, k)
    {
      Stored(k);
      assert k != 9900 ==> |Name(k)| != |Name(9900)|;
    }
    ListsFull(store, id, 0);
  }

  lemma ThreeSteps(v: Settings, run: seq<State>, steps: seq<Step>,
                   t1: Step, s1: State, t2: Step, s2: State, t3: Step, s3: State)
    returns (run': seq<State>, steps': seq<Step>)
    requires IsRun(v, run, steps)
    requires Next(v, run[|steps|], t1, s1) && Next(v, s1, t2, s2) && Next(v, s2, t3, s3)
    ensures IsRun(v, run', steps') && |steps'| == |steps| + 3
    ensures run <= run' && run'[|steps'|] == s3
  {
    Extended(v, run, steps, t1, s1);
    Extended(v, run + [s1], steps + [t1], t2, s2);
    Extended(v, run + [s1] + [s2], steps + [t1] + [t2], t3, s3);
    run', steps' := run + [s1] + [s2] + [s3], steps + [t1] + [t2] + [t3];
  }

  /** Two undisturbed allocations on a store in which all 9900 IDs are in use both hand out 10000:
      a run from a store of unique IDs ends with two live configs under one ID, out of range. */
  lemma FullPoolLosesUniqueness(v: Settings) returns (run: seq<State>, steps: seq<Step>)
    ensures IsRun(v, run, steps) && |steps| == 6
    ensures !UniqueIDs(run[3].store) && !UniqueIDs(run[6].store)
    ensures var store := run[6].store;
            exists m, m' :: m in store && m' in store && m != m'
                            && store[m].spec.tunnelID == store[m'].spec.tunnelID == MAX_ID + 1
  {
    var s, a, b, id := Full(), Name(9900), Name(9901), MAX_ID + 1;
    FullIsInitial();
    SpareConfigs();
    FullIsListed();
    PoolIsListed(0, 0);
    var s1, s2 := Allocation(v, s, a, IDs(0, 0), id);
    var s3 := Allocated(s, a, id);
    ListedAfterFirst(s3.store, id);
    PoolIsListed(id, 0);
    var s4, s5 := Allocation(v, s3, b, IDs(id, 0), id);
    var s6 := Allocated(s3, b, id);
    assert s6.store[a].spec.tunnelID == s6.store[b].spec.tunnelID == id;
    assert s3.store[a].spec.tunnelID == id;
    assert IsRun(v, [s], []);
    run, steps := ThreeSteps(v, [s], [], AllocGet(a), s1, AllocList(IDs(0, 0)), s2, AllocUpdate(id), s3);
    run, steps := ThreeSteps(v, run, steps, AllocGet(b), s4, AllocList(IDs(id, 0)), s5, AllocUpdate(id), s6);
  }
}
