/**
 * The topology and affinity helpers of include/common/Concurrency.h.
 *
 * The operating system is an input: `configured` is what sysconf(_SC_NPROCESSORS_CONF)
 * returns, and `sysfs[cpu]` is what reading
 * /sys/devices/system/cpu/cpu<cpu>/topology/{physical_package_id,core_id} yields (None when
 * the file cannot be opened or its integer cannot be parsed; a CPU past the end of `sysfs`
 * has neither file). The three topology queries are the source's loops over that input; the
 * std::map they build is modelled as what it is, an association list sorted by key.
 */
module Concurrency {
  import opened Wrappers

  /** The loops never look at a logical CPU numbered 1024 or above. */
  const MaxCpus: nat := 1024

  /** The two sysfs topology attributes of one logical CPU. */
  datatype CpuTopology = CpuTopology(packageId: Option<int>, coreId: Option<int>)

  /** A physical core: core ids are only unique within their socket. */
  datatype CoreKey = CoreKey(socket: int, core: int)

  /** operator< of std::pair<int, int>: lexicographic. */
  predicate KeyLess(a: CoreKey, b: CoreKey) {
    a.socket < b.socket || (a.socket == b.socket && a.core < b.core)
  }

  function ReadingOf(sysfs: seq<CpuTopology>, cpu: nat): CpuTopology {
    if cpu < |sysfs| then sysfs[cpu] else CpuTopology(None, None)
  }

  /** The (socket, core) key of a CPU when both of its attributes were read. */
  function KeyOf(sysfs: seq<CpuTopology>, cpu: nat): Option<CoreKey> {
    var r := ReadingOf(sysfs, cpu);
    if r.packageId.Some? && r.coreId.Some? then Some(CoreKey(r.packageId.value, r.coreId.value)) else None
  }

  /** The number of CPUs the loops examine: `cpu <= max_cpu && cpu < 1024` with
      max_cpu = configured - 1, and none at all when max_cpu is negative. */
  function Examined(configured: int): nat {
    if configured - 1 < 0 then 0 else if configured < MaxCpus then configured else MaxCpus
  }

  /** The socket ids read among CPUs 0 .. n-1. */
  function SocketsSeen(sysfs: seq<CpuTopology>, n: nat): set<int> {
    set cpu: nat | cpu < n && ReadingOf(sysfs, cpu).packageId.Some? :: ReadingOf(sysfs, cpu).packageId.value
  }

  /** The (socket, core) keys read among CPUs 0 .. n-1. */
  function CoreKeysSeen(sysfs: seq<CpuTopology>, n: nat): set<CoreKey> {
    set cpu: nat | cpu < n && KeyOf(sysfs, cpu).Some? :: KeyOf(sysfs, cpu).value
  }

  lemma SocketsSeenStep(sysfs: seq<CpuTopology>, n: nat)
    ensures SocketsSeen(sysfs, n + 1) ==
            SocketsSeen(sysfs, n) + (if ReadingOf(sysfs, n).packageId.Some? then {ReadingOf(sysfs, n).packageId.value} else {})
  {
    var next := SocketsSeen(sysfs, n + 1);
    var step := SocketsSeen(sysfs, n) + (if ReadingOf(sysfs, n).packageId.Some? then {ReadingOf(sysfs, n).packageId.value} else {});
    forall s | s in next ensures s in step {
      var cpu: nat :| cpu < n + 1 && ReadingOf(sysfs, cpu).packageId.Some? && ReadingOf(sysfs, cpu).packageId.value == s;
      if cpu < n {
        assert s in SocketsSeen(sysfs, n);
      }
    }
  }

  lemma CoreKeysSeenStep(sysfs: seq<CpuTopology>, n: nat)
    ensures CoreKeysSeen(sysfs, n + 1) ==
            CoreKeysSeen(sysfs, n) + (if KeyOf(sysfs, n).Some? then {KeyOf(sysfs, n).value} else {})
  {
    var next := CoreKeysSeen(sysfs, n + 1);
    var step := CoreKeysSeen(sysfs, n) + (if KeyOf(sysfs, n).Some? then {KeyOf(sysfs, n).value} else {});
    forall k | k in next ensures k in step {
      var cpu: nat :| cpu < n + 1 && KeyOf(sysfs, cpu).Some? && KeyOf(sysfs, cpu).value == k;
      if cpu < n {
        assert k in CoreKeysSeen(sysfs, n);
      }
    }
  }

  /** At most one socket id per examined CPU. */
  lemma {:induction false} SocketsSeenBound(sysfs: seq<CpuTopology>, n: nat)
    ensures |SocketsSeen(sysfs, n)| <= n
  {
    if n == 0 {
      assert SocketsSeen(sysfs, 0) == {};
    } else {
      SocketsSeenBound(sysfs, n - 1);
      SocketsSeenStep(sysfs, n - 1);
    }
  }

  /** At most one physical core per examined CPU. */
  lemma {:induction false} CoreKeysSeenBound(sysfs: seq<CpuTopology>, n: nat)
    ensures |CoreKeysSeen(sysfs, n)| <= n
  {
    if n == 0 {
      assert CoreKeysSeen(sysfs, 0) == {};
    } else {
      CoreKeysSeenBound(sysfs, n - 1);
      CoreKeysSeenStep(sysfs, n - 1);
    }
  }

  /**
   * get_num_physical_cpus(): the number of distinct socket ids among the examined CPUs
   * whose package id could be read, or -1 when there is none (or sysconf reports no CPU).
   */
  method GetNumPhysicalCpus(configured: int, sysfs: seq<CpuTopology>) returns (count: int)
    ensures var seen := SocketsSeen(sysfs, Examined(configured));
            count == if seen == {} then -1 else |seen|
    ensures count == -1 || 1 <= count <= Examined(configured)
    ensures configured <= 0 ==> count == -1
  {
    var socketIds: set<int> := {};
    var maxCpu := configured - 1;
    if maxCpu < 0 {
      assert SocketsSeen(sysfs, 0) == {};
      return -1;
    }
    var cpu := 0;
    while cpu <= maxCpu && cpu < MaxCpus
      invariant 0 <= cpu <= Examined(configured)
      invariant socketIds == SocketsSeen(sysfs, cpu)
    {
      var reading := ReadingOf(sysfs, cpu);
      if reading.packageId.Some? {
        socketIds := socketIds + {reading.packageId.value};
      }
      SocketsSeenStep(sysfs, cpu);
      cpu := cpu + 1;
    }
    if socketIds == {} {
      return -1;
    }
    SocketsSeenBound(sysfs, cpu);
    count := |socketIds|;
  }

  /**
   * get_num_physical_cores(): the number of distinct (socket, core) pairs among the examined
   * CPUs whose two attributes could both be read, or -1 when there is none.
   */
  method GetNumPhysicalCores(configured: int, sysfs: seq<CpuTopology>) returns (count: int)
    ensures var seen := CoreKeysSeen(sysfs, Examined(configured));
            count == if seen == {} then -1 else |seen|
    ensures count == -1 || 1 <= count <= Examined(configured)
    ensures configured <= 0 ==> count == -1
  {
    var corePairs: set<CoreKey> := {};
    var maxCpu := configured - 1;
    if maxCpu < 0 {
      assert CoreKeysSeen(sysfs, 0) == {};
      return -1;
    }
    var cpu := 0;
    while cpu <= maxCpu && cpu < MaxCpus
      invariant 0 <= cpu <= Examined(configured)
      invariant corePairs == CoreKeysSeen(sysfs, cpu)
    {
      var key := KeyOf(sysfs, cpu);
      if key.Some? {
        corePairs := corePairs + {key.value};
      }
      CoreKeysSeenStep(sysfs, cpu);
      cpu := cpu + 1;
    }
    if corePairs == {} {
      return -1;
    }
    CoreKeysSeenBound(sysfs, cpu);
    count := |corePairs|;
  }

  /** One entry of the topology map: a physical core and the logical CPUs that share it. */
  datatype CoreEntry = CoreEntry(key: CoreKey, cpus: seq<int>)

  /** A std::map<std::pair<int, int>, std::vector<int>>, entries in ascending key order. */
  type CoreMap = seq<CoreEntry>

  ghost predicate Sorted(m: CoreMap) {
    forall i, j :: 0 <= i < j < |m| ==> KeyLess(m[i].key, m[j].key)
  }

  function Keys(m: CoreMap): set<CoreKey> {
    set i | 0 <= i < |m| :: m[i].key
  }

  /** What `core_map[key]` holds: the vector stored under key, or the empty vector
      operator[] would insert. */
  function Lookup(m: CoreMap, key: CoreKey): seq<int> {
    if m == [] then [] else if m[0].key == key then m[0].cpus else Lookup(m[1..], key)
  }

  lemma KeysCons(e: CoreEntry, m: CoreMap)
    ensures Keys([e] + m) == {e.key} + Keys(m)
  {
    var l := [e] + m;
    forall k | k in Keys(l) ensures k in {e.key} + Keys(m) {
      var i :| 0 <= i < |l| && l[i].key == k;
      if i > 0 {
        assert m[i - 1].key == k;
      }
    }
    forall k | k in Keys(m) ensures k in Keys(l) {
      var i :| 0 <= i < |m| && m[i].key == k;
      assert l[i + 1].key == k;
    }
    assert l[0].key == e.key;
  }

  lemma {:induction false} LookupAbsent(m: CoreMap, key: CoreKey)
    requires key !in Keys(m)
    ensures Lookup(m, key) == []
  {
    if m != [] {
      KeysCons(m[0], m[1..]);
      assert [m[0]] + m[1..] == m;
      LookupAbsent(m[1..], key);
    }
  }

  /** In a sorted map, looking up an entry's key finds that entry. */
  lemma {:induction false} LookupEntry(m: CoreMap, i: nat)
    requires Sorted(m) && i < |m|
    ensures Lookup(m, m[i].key) == m[i].cpus
  {
    if i > 0 {
      assert KeyLess(m[0].key, m[i].key);
      LookupEntry(m[1..], i - 1);
    }
  }

  /** The keys of a sorted map are distinct, so there are as many keys as entries. */
  lemma {:induction false} SortedKeysCount(m: CoreMap)
    requires Sorted(m)
    ensures |Keys(m)| == |m|
  {
    if m == [] {
      assert Keys(m) == {};
    } else {
      KeysCons(m[0], m[1..]);
      assert [m[0]] + m[1..] == m;
      SortedKeysCount(m[1..]);
      assert forall j :: 0 <= j < |m[1..]| ==> KeyLess(m[0].key, m[1..][j].key);
    }
  }

  /** A key below every key of a sorted map, put in front, is found there and hides nothing. */
  lemma PrependLookup(m: CoreMap, key: CoreKey, cpu: int)
    requires Sorted(m) && m != [] && KeyLess(key, m[0].key)
    ensures forall k :: Lookup([CoreEntry(key, [cpu])] + m, k) == if k == key then Lookup(m, key) + [cpu] else Lookup(m, k)
  {
    var r := [CoreEntry(key, [cpu])] + m;
    assert forall j :: 0 <= j < |m| ==> m[j].key == m[0].key || KeyLess(m[0].key, m[j].key);
    assert key !in Keys(m);
    LookupAbsent(m, key);
    assert r[1..] == m;
  }

  /**
   * `core_map[key].push_back(cpu)`: appends to the vector under key, inserting an empty one
   * at its place in key order first when key is new.
   */
  function PushBack(m: CoreMap, key: CoreKey, cpu: int): CoreMap {
    if m == [] then [CoreEntry(key, [cpu])]
    else if m[0].key == key then [CoreEntry(key, m[0].cpus + [cpu])] + m[1..]
    else if KeyLess(key, m[0].key) then [CoreEntry(key, [cpu])] + m
    else [m[0]] + PushBack(m[1..], key, cpu)
  }

  /** An entry whose key is below every key of a sorted map can be put in front of it. */
  lemma SortedCons(e: CoreEntry, m: CoreMap)
    requires Sorted(m) && forall k :: k in Keys(m) ==> KeyLess(e.key, k)
    ensures Sorted([e] + m)
  {
    var r := [e] + m;
    forall i, j | 0 <= i < j < |r|
      ensures KeyLess(r[i].key, r[j].key)
    {
      assert r[j] == m[j - 1];
      if i == 0 {
        assert m[j - 1].key in Keys(m);
      } else {
        assert r[i] == m[i - 1];
      }
    }
  }

  /** The push keeps the map in key order and adds key to its keys. */
  lemma {:induction false} PushBackSorted(m: CoreMap, key: CoreKey, cpu: int)
    requires Sorted(m)
    ensures Sorted(PushBack(m, key, cpu))
    ensures Keys(PushBack(m, key, cpu)) == Keys(m) + {key}
  {
    if m == [] {
      KeysCons(CoreEntry(key, [cpu]), []);
    } else {
      var head, tail := m[0], m[1..];
      assert m == [head] + tail;
      KeysCons(head, tail);
      assert Sorted(tail);
      assert forall k :: k in Keys(tail) ==> KeyLess(head.key, k);
      if head.key == key {
        var e := CoreEntry(key, head.cpus + [cpu]);
        KeysCons(e, tail);
        SortedCons(e, tail);
      } else if KeyLess(key, head.key) {
        var e := CoreEntry(key, [cpu]);
        KeysCons(e, m);
        assert forall k :: k in Keys(m) ==> k == head.key || KeyLess(head.key, k);
        SortedCons(e, m);
      } else {
        var rest := PushBack(tail, key, cpu);
        PushBackSorted(tail, key, cpu);
        KeysCons(head, rest);
        SortedCons(head, rest);
      }
    }
  }

  /** After the push, key's vector has cpu appended and every other key's vector is as before. */
  lemma {:induction false} PushBackLookup(m: CoreMap, key: CoreKey, cpu: int)
    requires Sorted(m)
    ensures forall k :: Lookup(PushBack(m, key, cpu), k) == if k == key then Lookup(m, key) + [cpu] else Lookup(m, k)
  {
    var r := PushBack(m, key, cpu);
    if m == [] {
    } else if m[0].key == key {
      assert r[1..] == m[1..];
    } else if KeyLess(key, m[0].key) {
      PrependLookup(m, key, cpu);
    } else {
      PushBackLookup(m[1..], key, cpu);
      assert r[1..] == PushBack(m[1..], key, cpu);
    }
  }

  /** The examined CPUs under `key`, in ascending order: what `core_map[key]` ends up holding. */
  function CpusWithKey(sysfs: seq<CpuTopology>, n: nat, key: CoreKey): seq<int> {
    if n == 0 then []
    else CpusWithKey(sysfs, n - 1, key) + (if KeyOf(sysfs, n - 1) == Some(key) then [n - 1] else [])
  }

  predicate StrictlyAscending(s: seq<int>) {
    forall i, j :: 0 <= i < j < |s| ==> s[i] < s[j]
  }

  /** Exactly the examined CPUs with that key are listed. */
  lemma {:induction false} CpusWithKeyMembers(sysfs: seq<CpuTopology>, n: nat, key: CoreKey)
    ensures forall c :: c in CpusWithKey(sysfs, n, key) <==> 0 <= c < n && KeyOf(sysfs, c) == Some(key)
  {
    if n > 0 {
      CpusWithKeyMembers(sysfs, n - 1, key);
    }
  }

  /** They are listed in ascending order, each once. */
  lemma {:induction false} CpusWithKeyAscending(sysfs: seq<CpuTopology>, n: nat, key: CoreKey)
    ensures StrictlyAscending(CpusWithKey(sysfs, n, key))
  {
    if n > 0 {
      CpusWithKeyAscending(sysfs, n - 1, key);
      CpusWithKeyMembers(sysfs, n - 1, key);
      var prev := CpusWithKey(sysfs, n - 1, key);
      assert forall i :: 0 <= i < |prev| ==> prev[i] in prev;
    }
  }

  /** The list is empty exactly when no examined CPU has that key. */
  lemma CpusWithKeyEmpty(sysfs: seq<CpuTopology>, n: nat, key: CoreKey)
    ensures CpusWithKey(sysfs, n, key) == [] <==> key !in CoreKeysSeen(sysfs, n)
  {
    CpusWithKeyMembers(sysfs, n, key);
    var cs := CpusWithKey(sysfs, n, key);
    if cs != [] {
      assert cs[0] in cs;
      assert KeyOf(sysfs, cs[0]).value == key;
    }
    if key in CoreKeysSeen(sysfs, n) {
      var c: nat :| c < n && KeyOf(sysfs, c).Some? && KeyOf(sysfs, c).value == key;
      assert c in cs;
    }
  }

  /** After examining CPUs 0 .. n-1, `m` is the topology map of those CPUs. */
  ghost predicate MapsPrefix(m: CoreMap, sysfs: seq<CpuTopology>, n: nat) {
    Sorted(m) && Keys(m) == CoreKeysSeen(sysfs, n) &&
    forall k :: Lookup(m, k) == CpusWithKey(sysfs, n, k)
  }

  /** One iteration of the mapping loop extends the map from n CPUs to n + 1. */
  lemma MapsPrefixStep(m: CoreMap, sysfs: seq<CpuTopology>, n: nat)
    requires MapsPrefix(m, sysfs, n)
    ensures KeyOf(sysfs, n).Some? ==> MapsPrefix(PushBack(m, KeyOf(sysfs, n).value, n), sysfs, n + 1)
    ensures KeyOf(sysfs, n).None? ==> MapsPrefix(m, sysfs, n + 1)
  {
    CoreKeysSeenStep(sysfs, n);
    if KeyOf(sysfs, n).Some? {
      PushBackSorted(m, KeyOf(sysfs, n).value, n);
      PushBackLookup(m, KeyOf(sysfs, n).value, n);
    }
  }

  /** What a map of the first n CPUs says about each of its entries. */
  lemma MapsPrefixEntries(m: CoreMap, sysfs: seq<CpuTopology>, n: nat)
    requires MapsPrefix(m, sysfs, n)
    ensures |m| == |CoreKeysSeen(sysfs, n)|
    ensures forall i :: 0 <= i < |m| ==> |m[i].cpus| > 0 && StrictlyAscending(m[i].cpus)
    ensures forall i, j :: 0 <= i < |m| && 0 <= j < |m[i].cpus| ==>
              0 <= m[i].cpus[j] < n && KeyOf(sysfs, m[i].cpus[j]) == Some(m[i].key)
    ensures forall i, c: nat :: 0 <= i < |m| && c < n && KeyOf(sysfs, c) == Some(m[i].key) ==> c in m[i].cpus
  {
    SortedKeysCount(m);
    forall i | 0 <= i < |m|
      ensures m[i].cpus == CpusWithKey(sysfs, n, m[i].key)
      ensures |m[i].cpus| > 0 && StrictlyAscending(m[i].cpus)
    {
      LookupEntry(m, i);
      CpusWithKeyAscending(sysfs, n, m[i].key);
      CpusWithKeyEmpty(sysfs, n, m[i].key);
      assert m[i].key in Keys(m);
    }
    forall i, j | 0 <= i < |m| && 0 <= j < |m[i].cpus|
      ensures 0 <= m[i].cpus[j] < n && KeyOf(sysfs, m[i].cpus[j]) == Some(m[i].key)
    {
      CpusWithKeyMembers(sysfs, n, m[i].key);
      assert m[i].cpus[j] in m[i].cpus;
    }
    forall i, c: nat | 0 <= i < |m| && c < n && KeyOf(sysfs, c) == Some(m[i].key)
      ensures c in m[i].cpus
    {
      CpusWithKeyMembers(sysfs, n, m[i].key);
    }
  }

  /**
   * get_physical_core_mapping(): every examined CPU whose two attributes were read is listed
   * exactly once, under its own (socket, core) key, each list non-empty and ascending;
   * unreadable CPUs are skipped, and there are as many entries as distinct physical cores.
   */
  method GetPhysicalCoreMapping(configured: int, sysfs: seq<CpuTopology>) returns (coreMap: CoreMap)
    ensures Sorted(coreMap)
    ensures Keys(coreMap) == CoreKeysSeen(sysfs, Examined(configured))
    ensures |coreMap| == |CoreKeysSeen(sysfs, Examined(configured))|
    ensures forall i :: 0 <= i < |coreMap| ==> |coreMap[i].cpus| > 0 && StrictlyAscending(coreMap[i].cpus)
    ensures forall i, j :: 0 <= i < |coreMap| && 0 <= j < |coreMap[i].cpus| ==>
              0 <= coreMap[i].cpus[j] < Examined(configured) && KeyOf(sysfs, coreMap[i].cpus[j]) == Some(coreMap[i].key)
    ensures forall i, c: nat :: 0 <= i < |coreMap| && c < Examined(configured) && KeyOf(sysfs, c) == Some(coreMap[i].key) ==>
              c in coreMap[i].cpus
    ensures configured <= 0 ==> coreMap == []
  {
    coreMap := [];
    assert Keys([]) == {} && CoreKeysSeen(sysfs, 0) == {};
    assert MapsPrefix([], sysfs, 0);
    var maxCpu := configured - 1;
    if maxCpu < 0 {
      return;
    }
    var cpu := 0;
    while cpu <= maxCpu && cpu < MaxCpus
      invariant 0 <= cpu <= Examined(configured)
      invariant MapsPrefix(coreMap, sysfs, cpu)
    {
      MapsPrefixStep(coreMap, sysfs, cpu);
      var key := KeyOf(sysfs, cpu);
      if key.Some? {
        coreMap := PushBack(coreMap, key.value, cpu);
      }
      cpu := cpu + 1;
    }
    MapsPrefixEntries(coreMap, sysfs, cpu);
  }

  /**
   * Pigeonhole over the examined CPUs: when every one of them was read, there are fewer
   * physical cores than CPUs exactly when two CPUs share a physical core.
   */
  lemma {:induction false} FewerCoresIffSharedCore(sysfs: seq<CpuTopology>, n: nat)
    requires forall c: nat :: c < n ==> KeyOf(sysfs, c).Some?
    ensures |CoreKeysSeen(sysfs, n)| < n <==>
            exists c1: nat, c2: nat :: c1 < c2 < n && KeyOf(sysfs, c1) == KeyOf(sysfs, c2)
  {
    if n == 0 {
      assert CoreKeysSeen(sysfs, 0) == {};
    } else {
      var m := n - 1;
      FewerCoresIffSharedCore(sysfs, m);
      CoreKeysSeenStep(sysfs, m);
      CoreKeysSeenBound(sysfs, m);
      var k := KeyOf(sysfs, m).value;
      if k in CoreKeysSeen(sysfs, m) {
        var c: nat :| c < m && KeyOf(sysfs, c).Some? && KeyOf(sysfs, c).value == k;
        assert c < m < n && KeyOf(sysfs, c) == KeyOf(sysfs, m);
      } else {
        if exists c1: nat, c2: nat :: c1 < c2 < n && KeyOf(sysfs, c1) == KeyOf(sysfs, c2) {
          var c1: nat, c2: nat :| c1 < c2 < n && KeyOf(sysfs, c1) == KeyOf(sysfs, c2);
          assert c2 < m;
        }
      }
    }
  }

  /**
   * is_hyperthreading_enabled(): sysconf(_SC_NPROCESSORS_CONF) > get_num_physical_cores().
   * With unreadable topology (-1) it holds for any non-negative CPU count; with fewer than
   * 1025 configured CPUs that are all readable it holds exactly when two logical CPUs share
   * a physical core; with more than 1024 it always holds, since only 1024 are examined.
   */
  method IsHyperthreadingEnabled(configured: int, sysfs: seq<CpuTopology>) returns (enabled: bool)
    ensures var seen := CoreKeysSeen(sysfs, Examined(configured));
            enabled <==> configured > (if seen == {} then -1 else |seen|)
    ensures CoreKeysSeen(sysfs, Examined(configured)) == {} && configured >= 0 ==> enabled
    ensures 0 < configured <= MaxCpus && (forall c: nat :: c < configured ==> KeyOf(sysfs, c).Some?) ==>
              (enabled <==> exists c1: nat, c2: nat :: c1 < c2 < configured && KeyOf(sysfs, c1) == KeyOf(sysfs, c2))
    ensures configured > MaxCpus ==> enabled
  {
    var physicalCores := GetNumPhysicalCores(configured, sysfs);
    enabled := configured > physicalCores;
    if 0 < configured <= MaxCpus && (forall c: nat :: c < configured ==> KeyOf(sysfs, c).Some?) {
      FewerCoresIffSharedCore(sysfs, configured);
      assert KeyOf(sysfs, 0).Some?;
      assert KeyOf(sysfs, 0).value in CoreKeysSeen(sysfs, configured);
    }
  }

  /** The calling thread's affinity after pin_to_core: `pinned` is its return value. */
  datatype PinResult = PinResult(pinned: bool, mask: set<int>)

  /**
   * pin_to_core(core): one pthread_setaffinity_np call restricting the thread to {core},
   * whose result `setAffinityResult` is the only thing that decides success; there is no
   * retry, and a failed call leaves the affinity mask as it was.
   */
  function PinToCore(mask: set<int>, core: int, setAffinityResult: int): (r: PinResult)
    ensures r.pinned <==> setAffinityResult == 0
    ensures r.mask == if setAffinityResult == 0 then {core} else mask
  {
    if setAffinityResult != 0 then PinResult(false, mask) else PinResult(true, {core})
  }

  /**
   * is_thread_pinned(): false when pthread_getaffinity_np fails (`getAffinityResult != 0`)
   * or sysconf fails (`totalProcs < 0`); otherwise whether the mask has fewer CPUs than
   * are configured.
   */
  function IsThreadPinned(getAffinityResult: int, mask: set<int>, totalProcs: int): (pinned: bool)
    ensures pinned ==> getAffinityResult == 0 && totalProcs > 0
    ensures getAffinityResult == 0 && totalProcs >= 0 ==> (pinned <==> |mask| < totalProcs)
  {
    if getAffinityResult != 0 then false
    else if totalProcs < 0 then false
    else |mask| < totalProcs
  }

  /** A successful pin is reported as pinned on any machine with two or more CPUs ... */
  lemma PinIsReported(mask: set<int>, core: int, totalProcs: int)
    requires totalProcs >= 2
    ensures IsThreadPinned(0, PinToCore(mask, core, 0).mask, totalProcs)
  {
    assert |{core}| == 1;
  }

  /** ... but on a one-CPU machine a pinned thread runs on every CPU and is reported unpinned. */
  lemma PinOnOneCpuIsNotReported(mask: set<int>, core: int)
    ensures !IsThreadPinned(0, PinToCore(mask, core, 0).mask, 1)
  {
    assert |{core}| == 1;
  }
}
