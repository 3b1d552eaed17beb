/**
 * platform_mem.c: the pool allocator as the source runs it, on mutable
 * state. The control block platform_mem_info becomes the class Pool: the
 * per-class control records cat[], the link word of every block, the use
 * map and the arena. Each operation is proved to perform the transition of
 * the value model in pool_spec.dfy.
 */
module PlatformMem {
  import opened Wrappers
  import opened PoolConfig
  import opened UseMap
  import opened PoolSpec

  /** platform_mem_ctrl_t: number of free blocks and the first free block. */
  datatype Cat = Cat(freeNum: nat, first: int)

  /** The header address of the first block that list l links, or NULL. */
  function HeadPtr(cfg: seq<ClassCfg>, i: nat, l: seq<nat>): int
    requires i < |cfg|
  {
    if l == [] then NULL else BlockBase(cfg, i, l[0])
  }

  /**
   * The control records and link words thread exactly the lists in free:
   * cat[i] holds the length and the head of free[i], and the link word of
   * every listed block points at the block after it, the last one at NULL.
   */
  ghost predicate Threaded(cfg: seq<ClassCfg>, free: seq<seq<nat>>, cat: seq<Cat>, next: map<int, int>)
  {
    |free| == |cfg| && |cat| == |cfg| &&
    (forall i :: 0 <= i < |cfg| ==> cat[i].freeNum == |free[i]| && cat[i].first == HeadPtr(cfg, i, free[i])) &&
    (forall i, j :: 0 <= i < |cfg| && 0 <= j < |free[i]| ==>
      BlockBase(cfg, i, free[i][j]) in next &&
      next[BlockBase(cfg, i, free[i][j])] == HeadPtr(cfg, i, free[i][j + 1..]))
  }

  /** Popping the head of list i: its link word names the new head. */
  lemma ThreadedPop(cfg: seq<ClassCfg>, free: seq<seq<nat>>, cat: seq<Cat>, next: map<int, int>, i: nat)
    requires Threaded(cfg, free, cat, next) && i < |cfg| && |free[i]| > 0
    ensures cat[i].first in next
    ensures Threaded(cfg, free[i := free[i][1..]], cat[i := Cat(cat[i].freeNum - 1, next[cat[i].first])], next)
  {
    var free' := free[i := free[i][1..]];
    assert next[cat[i].first] == HeadPtr(cfg, i, free[i][1..]);
    forall c, j | 0 <= c < |cfg| && 0 <= j < |free'[c]|
      ensures BlockBase(cfg, c, free'[c][j]) in next
      ensures next[BlockBase(cfg, c, free'[c][j])] == HeadPtr(cfg, c, free'[c][j + 1..])
    {
      if c == i {
        assert free'[c][j] == free[c][j + 1];
        assert free'[c][j + 1..] == free[c][j + 2..];
      }
    }
  }

  /** Pushing block k on list i, when its header is no listed block's. */
  lemma ThreadedPush(cfg: seq<ClassCfg>, free: seq<seq<nat>>, cat: seq<Cat>, next: map<int, int>, i: nat, k: nat)
    requires Threaded(cfg, free, cat, next) && i < |cfg|
    requires forall c, j :: 0 <= c < |cfg| && 0 <= j < |free[c]| ==> BlockBase(cfg, c, free[c][j]) != BlockBase(cfg, i, k)
    ensures Threaded(cfg, free[i := [k] + free[i]],
                     cat[i := Cat(cat[i].freeNum + 1, BlockBase(cfg, i, k))],
                     next[BlockBase(cfg, i, k) := cat[i].first])
  {
    var free' := free[i := [k] + free[i]];
    var next' := next[BlockBase(cfg, i, k) := cat[i].first];
    forall c, j | 0 <= c < |cfg| && 0 <= j < |free'[c]|
      ensures BlockBase(cfg, c, free'[c][j]) in next'
      ensures next'[BlockBase(cfg, c, free'[c][j])] == HeadPtr(cfg, c, free'[c][j + 1..])
    {
      if c == i && j > 0 {
        assert free'[c][j] == free[c][j - 1];
        assert free'[c][j + 1..] == free[c][j..];
      } else if c == i {
        assert free'[c][1..] == free[c];
      }
    }
  }

  lemma BlockBaseStep(cfg: seq<ClassCfg>, i: nat, k: nat)
    requires i < |cfg|
    ensures BlockBase(cfg, i, k) + Stride(cfg[i]) == BlockBase(cfg, i, k + 1)
    ensures BlockBase(cfg, i, cfg[i].num) == CatBase(cfg, i + 1)
  {
  }

  /** The link word of block k of class c names block k + 1. */
  ghost predicate LinkedToNext(cfg: seq<ClassCfg>, c: nat, k: nat, next: map<int, int>)
    requires c < |cfg|
  {
    BlockBase(cfg, c, k) in next && next[BlockBase(cfg, c, k)] == BlockBase(cfg, c, k + 1)
  }

  /** The link word of block k of class c names block k + 1, the last one NULL. */
  ghost predicate LinkedInOrder(cfg: seq<ClassCfg>, c: nat, k: nat, next: map<int, int>)
    requires c < |cfg|
  {
    BlockBase(cfg, c, k) in next &&
    next[BlockBase(cfg, c, k)] == if k + 1 < cfg[c].num then BlockBase(cfg, c, k + 1) else NULL
  }

  /** Linking block j to block j + 1 keeps the links of the blocks before it. */
  lemma LinkStep(cfg: seq<ClassCfg>, i: nat, j: nat, prev: map<int, int>, ctrl: int, next: map<int, int>)
    requires i < |cfg| && ctrl == BlockBase(cfg, i, j) && next == prev[ctrl := BlockBase(cfg, i, j + 1)]
    requires forall k :: 0 <= k < j ==> LinkedToNext(cfg, i, k, prev)
    requires forall b :: b in prev ==> b < ctrl
    ensures forall k :: 0 <= k <= j ==> LinkedToNext(cfg, i, k, next)
  {
    forall k | 0 <= k <= j ensures LinkedToNext(cfg, i, k, next) {
      if k < j {
        assert LinkedToNext(cfg, i, k, prev);
      }
    }
  }

  /** Resetting the last block's link word to NULL keeps the others and ends the list. */
  lemma LinkFinish(cfg: seq<ClassCfg>, i: nat, linked: map<int, int>, next: map<int, int>)
    requires i < |cfg| && 0 < cfg[i].num
    requires forall k :: 0 <= k < cfg[i].num ==> LinkedToNext(cfg, i, k, linked)
    requires next == linked[BlockBase(cfg, i, cfg[i].num - 1) := NULL]
    ensures forall k :: 0 <= k < cfg[i].num ==> LinkedInOrder(cfg, i, k, next)
  {
    forall k | 0 <= k < cfg[i].num ensures LinkedInOrder(cfg, i, k, next) {
      if k + 1 < cfg[i].num {
        MulStep(k, cfg[i].num - 1, Stride(cfg[i]));
        assert LinkedToNext(cfg, i, k, linked);
      }
    }
  }

  /** Every block of the classes before n is linked in address order. */
  ghost predicate ClassesLinked(cfg: seq<ClassCfg>, next: map<int, int>, n: nat)
    requires n <= |cfg|
  {
    forall c, k :: 0 <= c < n && 0 <= k < cfg[c].num ==> LinkedInOrder(cfg, c, k, next)
  }

  /** The control entries of the classes before n hold a full list starting at the class's first block. */
  ghost predicate CatsSet(cfg: seq<ClassCfg>, cat: seq<Cat>, n: nat)
    requires n <= |cfg| && |cat| == |cfg|
  {
    forall c :: 0 <= c < n ==> cat[c] == Cat(cfg[c].num, CatBase(cfg, c))
  }

  /** Links of the classes before i survive when the map only grows, and class i's are added. */
  lemma KeepLinks(cfg: seq<ClassCfg>, before: map<int, int>, next: map<int, int>, i: nat)
    requires i < |cfg|
    requires ClassesLinked(cfg, before, i)
    requires forall b :: b in before ==> b in next && next[b] == before[b]
    requires forall k :: 0 <= k < cfg[i].num ==> LinkedInOrder(cfg, i, k, next)
    ensures ClassesLinked(cfg, next, i + 1)
  {
    forall c, k | 0 <= c < i && 0 <= k < cfg[c].num ensures LinkedInOrder(cfg, c, k, next) {
      assert LinkedInOrder(cfg, c, k, before);
    }
  }

  /** One link word of the fresh pool, seen through the list InitView holds. */
  lemma InitLinkAt(cfg: seq<ClassCfg>, next: map<int, int>, c: nat, j: nat)
    requires c < |cfg| && j < cfg[c].num && LinkedInOrder(cfg, c, j, next)
    ensures Iota(cfg[c].num)[j] == j
    ensures BlockBase(cfg, c, j) in next
    ensures next[BlockBase(cfg, c, j)] == HeadPtr(cfg, c, Iota(cfg[c].num)[j + 1..])
  {
    var l := Iota(cfg[c].num);
    if j + 1 < |l| {
      assert l[j + 1..][0] == j + 1;
    } else {
      assert l[j + 1..] == [];
    }
  }

  /** Blocks linked in address order, with each class record at its first block, thread the fresh pool. */
  lemma ThreadedInit(cfg: seq<ClassCfg>, cat: seq<Cat>, next: map<int, int>)
    requires WellFormed(cfg) && |cat| == |cfg|
    requires CatsSet(cfg, cat, |cfg|)
    requires ClassesLinked(cfg, next, |cfg|)
    ensures Threaded(cfg, InitFree(cfg), cat, next)
  {
    var free := InitFree(cfg);
    forall c | 0 <= c < |cfg| ensures cat[c].freeNum == |free[c]| && cat[c].first == HeadPtr(cfg, c, free[c]) {
      assert free[c] == Iota(cfg[c].num);
    }
    forall c, j | 0 <= c < |cfg| && 0 <= j < |free[c]|
      ensures BlockBase(cfg, c, free[c][j]) in next
      ensures next[BlockBase(cfg, c, free[c][j])] == HeadPtr(cfg, c, free[c][j + 1..])
    {
      assert free[c] == Iota(cfg[c].num);
      InitLinkAt(cfg, next, c, j);
    }
  }

  /**
   * The headers platform_mem_allocate takes on n calls in a row from one
   * class whose head is b: each call takes the head and moves to its link word.
   */
  ghost function Pops(next: map<int, int>, b: int, n: nat): seq<int>
    decreases n
  {
    if n == 0 || b == NULL || b !in next then [] else [b] + Pops(next, next[b], n - 1)
  }

  /** A block whose link word names itself is handed out on every call. */
  lemma {:induction false} SelfLinkPops(next: map<int, int>, b: int, n: nat)
    requires b != NULL && b in next && next[b] == b
    ensures Pops(next, b, n) == seq(n, _ => b)
  {
    if n > 0 {
      SelfLinkPops(next, b, n - 1);
      assert seq(n, _ => b) == [b] + seq(n - 1, _ => b);
    }
  }

  /**
   * On the shipped table, right after init, platform_mem_free as written on
   * the first 32-byte block (Pool.FreeAsWritten): class 0 counts three free
   * blocks out of two, its head is block 0, block 0's link word names block
   * 0 itself, so the next three allocations from class 0 all take block 0,
   * and block 1 can no longer be reached.
   */
  lemma FreeAsWrittenAfterInit(cat: seq<Cat>, next: map<int, int>)
    requires Threaded(PlatformMemCfg, InitFree(PlatformMemCfg), cat, next)
    ensures var w := PoolSpec.FreeAsWritten(PlatformMemCfg, InitView(PlatformMemCfg), Payload(PlatformMemCfg, 0, 0));
      |w.free[0]| == 3 && |w.free[0]| > PlatformMemCfg[0].num && HeadPtr(PlatformMemCfg, 0, w.free[0]) == 0
    ensures var next' := next[BlockBase(PlatformMemCfg, 0, 0) := cat[0].first];
      next'[0] == 0 && Pops(next', 0, 3) == [0, 0, 0] &&
      forall n: nat :: BlockBase(PlatformMemCfg, 0, 1) !in Pops(next', 0, n)
  {
    var cfg := PlatformMemCfg;
    PlatformMemCfgFacts();
    LocatePayload(cfg, Slot(0, 0));
    var v := InitView(cfg);
    assert Iota(2) == [0, 1];
    assert v.free[0] == [0, 1];
    assert v.useMap == [0];
    assert !Used(v.useMap, 0);
    assert cat[0].first == HeadPtr(cfg, 0, v.free[0]) == 0;
    var next' := next[BlockBase(cfg, 0, 0) := cat[0].first];
    SelfLinkPops(next', 0, 3);
    forall n: nat ensures BlockBase(cfg, 0, 1) !in Pops(next', 0, n) {
      SelfLinkPops(next', 0, n);
    }
  }

  /** memset(a + start, 0, len) */
  method Memset(a: array<bv8>, start: nat, len: nat)
    requires start + len <= a.Length
    modifies a
    ensures forall x :: 0 <= x < a.Length ==> a[x] == if start <= x < start + len then 0 else old(a[x])
  {
    var b := 0;
    while b < len
      invariant 0 <= b <= len
      invariant forall x :: 0 <= x < a.Length ==> a[x] == if start <= x < start + b then 0 else old(a[x])
    {
      a[start + b] := 0;
      b := b + 1;
    }
  }

  class Pool {
    /** The size-class table (platform_mem_cfg). */
    const cfg: seq<ClassCfg>
    /** platform_mem_info.cat[] */
    var cat: seq<Cat>
    /** The p_next link word of every block, by the offset of its header. */
    var next: map<int, int>
    /** platform_mem_info.p_use_map */
    var useMap: array<bv8>
    /** platform_mem_info.p_memory_min, the arena */
    var arena: array<bv8>
    /** The free lists that cat[] and the link words thread, in list order. */
    ghost var free: seq<seq<nat>>

    ghost function View(): PoolView
      reads this, useMap
    {
      PoolView(free, useMap[..])
    }

    ghost predicate Valid()
      reads this, useMap
    {
      Consistent(cfg, View()) && Threaded(cfg, free, cat, next) &&
      useMap != arena && arena.Length == TotalBytes(cfg)
    }

    /** The zero-initialised static control block, before platform_mem_init. */
    constructor (cfg: seq<ClassCfg>)
      requires WellFormed(cfg)
      ensures this.cfg == cfg && cat == seq(|cfg|, _ => Cat(0, NULL))
      ensures useMap.Length == 0 && arena.Length == 0
    {
      this.cfg := cfg;
      cat := seq(|cfg|, _ => Cat(0, NULL));
      next := map[];
      useMap := new bv8[0];
      arena := new bv8[0];
      free := [];
    }

    /**
     * platform_mem_init. heapOk, useMapOk and arenaOk are the outcomes of
     * wiced_bt_create_heap and of the two wiced_bt_get_buffer_from_heap calls.
     */
    method Init(heapOk: bool, useMapOk: bool, arenaOk: bool) returns (ok: bool)
      requires WellFormed(cfg) && |cat| == |cfg|
      modifies this
      ensures |cat| == |cfg|
      ensures ok == (heapOk && StrictlyAscending(cfg) && useMapOk && arenaOk)
      ensures ok ==> Valid() && View() == InitView(cfg) && fresh(useMap) && fresh(arena)
      ensures ok ==> useMap.Length == UseMapBytes(cfg) && arena.Length == TotalBytes(cfg)
      ensures ok ==> forall b :: 0 <= b < arena.Length ==> arena[b] == 0
      ensures ok ==> forall i :: 0 <= i < |cfg| ==> cat[i] == Cat(cfg[i].num, CatBase(cfg, i))
      ensures !(heapOk && StrictlyAscending(cfg)) ==>
        cat == old(cat) && next == old(next) && useMap == old(useMap) && arena == old(arena)
      ensures heapOk && StrictlyAscending(cfg) && !ok ==>
        forall i :: 0 <= i < |cfg| ==> cat[i] == Cat(cfg[i].num, old(cat[i].first))
    {
      if !heapOk {
        return false;
      }
      // Sizes must strictly ascend.
      var ascending := CheckAscending();
      if !ascending {
        return false;
      }
      var total, numOfBuf := CountClasses();
      var numOfUseMap := (numOfBuf + BITS_PER_BYTE - 1) / BITS_PER_BYTE;
      if useMapOk {
        useMap := new bv8[numOfUseMap];
      } else {
        useMap := new bv8[0];
      }
      if arenaOk {
        arena := new bv8[total];
      } else {
        arena := new bv8[0];
      }
      if !useMapOk || !arenaOk {
        return false;
      }
      Build();
      ok := true;
    }

    /**
     * The counting loop of platform_mem_init: set each class's free count
     * to its number of blocks and add up the arena size and block count.
     */
    method CountClasses() returns (total: nat, numOfBuf: nat)
      requires |cat| == |cfg|
      modifies this`cat
      ensures total == TotalBytes(cfg) && numOfBuf == TotalBlocks(cfg)
      ensures |cat| == |cfg|
      ensures forall j :: 0 <= j < |cfg| ==> cat[j] == Cat(cfg[j].num, old(cat[j].first))
    {
      total := 0;
      numOfBuf := 0;
      var i := 0;
      while i < |cfg|
        invariant 0 <= i <= |cfg| && |cat| == |cfg|
        invariant total == CatBase(cfg, i) && numOfBuf == BlocksBefore(cfg, i)
        invariant forall j :: 0 <= j < |cfg| ==>
          cat[j] == if j < i then Cat(cfg[j].num, old(cat[j].first)) else old(cat[j])
      {
        cat := cat[i := Cat(cfg[i].num, cat[i].first)];
        total := total + cfg[i].num * (HEADER + cfg[i].size);
        numOfBuf := numOfBuf + cfg[i].num;
        i := i + 1;
      }
    }

    /**
     * The end of a successful platform_mem_init: zero the use map and the
     * arena, then thread every block onto its class's free list.
     */
    method Build()
      requires WellFormed(cfg) && |cat| == |cfg| && useMap != arena
      requires useMap.Length == UseMapBytes(cfg) && arena.Length == TotalBytes(cfg)
      modifies this, useMap, arena
      ensures useMap == old(useMap) && arena == old(arena)
      ensures Valid() && View() == InitView(cfg)
      ensures forall b :: 0 <= b < arena.Length ==> arena[b] == 0
      ensures forall i :: 0 <= i < |cfg| ==> cat[i] == Cat(cfg[i].num, CatBase(cfg, i))
    {
      Memset(useMap, 0, useMap.Length);
      Memset(arena, 0, arena.Length);
      ghost var init := InitView(cfg);
      assert useMap[..] == init.useMap;
      ThreadFreeLists();
      ThreadedInit(cfg, cat, next);
      free := init.free;
      assert View() == init;
      InitConsistent(cfg);
    }

    /** The ordering check of platform_mem_init. */
    method CheckAscending() returns (ok: bool)
      requires |cfg| > 0
      ensures ok == StrictlyAscending(cfg)
    {
      var i := 0;
      while i < |cfg| - 1
        invariant 0 <= i <= |cfg| - 1
        invariant forall j :: 0 <= j < i ==> cfg[j].size < cfg[j + 1].size
      {
        if cfg[i + 1].size <= cfg[i].size {
          return false;
        }
        i := i + 1;
      }
      return true;
    }

    /**
     * The last loop of platform_mem_init: class by class, point cat[i] at
     * the first block and the link word of every block at the next one, the
     * last block of the class at NULL.
     */
    method ThreadFreeLists()
      requires WellFormed(cfg) && |cat| == |cfg|
      modifies this`cat, this`next
      ensures |cat| == |cfg|
      ensures CatsSet(cfg, cat, |cfg|)
      ensures ClassesLinked(cfg, next, |cfg|)
    {
      next := map[];
      var index := 0;
      var i := 0;
      while i < |cfg|
        invariant 0 <= i <= |cfg| && |cat| == |cfg|
        invariant index == CatBase(cfg, i)
        invariant CatsSet(cfg, cat, i)
        invariant forall b :: b in next ==> b < index
        invariant ClassesLinked(cfg, next, i)
      {
        index := ThreadStep(i, index);
        i := i + 1;
      }
    }

    /** One pass of the outer threading loop: record class i's control entry, then thread its blocks. */
    method ThreadStep(i: nat, index: int) returns (index': int)
      requires WellFormed(cfg) && i < |cfg| && |cat| == |cfg| && index == CatBase(cfg, i)
      requires CatsSet(cfg, cat, i)
      requires forall b :: b in next ==> b < index
      requires ClassesLinked(cfg, next, i)
      modifies this`cat, this`next
      ensures |cat| == |cfg| && index' == CatBase(cfg, i + 1)
      ensures CatsSet(cfg, cat, i + 1)
      ensures forall b :: b in next ==> b < index'
      ensures ClassesLinked(cfg, next, i + 1)
    {
      cat := cat[i := Cat(cfg[i].num, index)];
      ghost var before := next;
      index' := ThreadClass(i, index);
      KeepLinks(cfg, before, next, i);
    }

    /**
     * The inner loop of the threading in platform_mem_init, for class i:
     * each block's link word names the block after it, and the last block's
     * is reset to NULL. index is p_index, the header of the next block.
     */
    method ThreadClass(i: nat, index: int) returns (index': int)
      requires i < |cfg| && 0 < cfg[i].num && index == CatBase(cfg, i)
      requires forall b :: b in next ==> b < index
      modifies this`next
      ensures index' == CatBase(cfg, i + 1)
      ensures forall b :: b in old(next) ==> b in next && next[b] == old(next)[b]
      ensures forall b :: b in next ==> b < index'
      ensures forall k :: 0 <= k < cfg[i].num ==> LinkedInOrder(cfg, i, k, next)
    {
      index' := index;
      var ctrl := index;
      var j := 0;
      while j < cfg[i].num
        invariant 0 <= j <= cfg[i].num
        invariant index' == BlockBase(cfg, i, j) && index <= ctrl <= index'
        invariant j > 0 ==> ctrl == BlockBase(cfg, i, j - 1)
        invariant forall b :: b in next ==> b < index'
        invariant forall b :: b in old(next) ==> b in next && next[b] == old(next)[b]
        invariant forall k :: 0 <= k < j ==> LinkedToNext(cfg, i, k, next)
      {
        ctrl := index';
        index' := index' + (HEADER + cfg[i].size);
        BlockBaseStep(cfg, i, j);
        ghost var prev := next;
        next := next[ctrl := index'];
        LinkStep(cfg, i, j, prev, ctrl, next);
        j := j + 1;
      }
      BlockBaseStep(cfg, i, j);
      ghost var linked := next;
      next := next[ctrl := NULL];
      LinkFinish(cfg, i, linked, next);
    }

    /**
     * platform_mem_allocate: scan the classes in order for the first large
     * enough, non-empty one, pop its head, mark its bit and zero its payload.
     */
    method Allocate(size: int) returns (p: int)
      requires Valid()
      modifies this, useMap, arena
      ensures Valid() && useMap == old(useMap) && arena == old(arena)
      ensures AllocResult(View(), p) == PoolSpec.Allocate(cfg, old(View()), size)
      ensures p == NULL ==> arena[..] == old(arena[..])
      ensures p != NULL ==>
        FirstFit(cfg, old(View()), size) < |cfg| &&
        p + cfg[FirstFit(cfg, old(View()), size)].size <= arena.Length &&
        forall b :: 0 <= b < arena.Length ==>
          arena[b] == if p <= b < p + cfg[FirstFit(cfg, old(View()), size)].size then 0 else old(arena[b])
    {
      ghost var v := View();
      var i := 0;
      var useMapShift := 0;
      var catBase := 0;
      while i < |cfg|
        invariant 0 <= i <= |cfg|
        invariant useMapShift == BlocksBefore(cfg, i) && catBase == CatBase(cfg, i)
        invariant forall j :: 0 <= j < i ==> !Fits(cfg, v, size, j)
      {
        if cfg[i].size >= size && cat[i].freeNum > 0 {
          break;
        }
        useMapShift := useMapShift + cfg[i].num;
        catBase := catBase + cfg[i].num * (HEADER + cfg[i].size);
        i := i + 1;
      }
      if i == |cfg| {
        return NULL;
      }
      FirstFitIs(cfg, v, size, i);
      p := TakeBlock(size, i, useMapShift, catBase);
    }

    /** The found branch of platform_mem_allocate: pop the head of list i, mark it used, zero its payload. */
    method TakeBlock(ghost size: int, i: nat, useMapShift: nat, catBase: int) returns (p: int)
      requires Valid() && i < |cfg| && Fits(cfg, View(), size, i) && FirstFit(cfg, View(), size) == i
      requires useMapShift == BlocksBefore(cfg, i) && catBase == CatBase(cfg, i)
      modifies this, useMap, arena
      ensures Valid() && useMap == old(useMap) && arena == old(arena)
      ensures AllocResult(View(), p) == PoolSpec.Allocate(cfg, old(View()), size)
      ensures p != NULL && p + cfg[i].size <= arena.Length
      ensures forall b :: 0 <= b < arena.Length ==>
        arena[b] == if p <= b < p + cfg[i].size then 0 else old(arena[b])
    {
      ghost var v := View();
      ghost var k := free[i][0];
      assert k in free[i];
      ghost var r := AllocResult(PoolView(v.free[i := v.free[i][1..]], SetUsed(v.useMap, GlobalIndex(cfg, Slot(i, k)))),
                                 Payload(cfg, i, k));
      assert PoolSpec.Allocate(cfg, v, size) == r;
      // The "Unexpected" branch of the source (p_first NULL while free_num > 0)
      // cannot be taken: cat[i].first is the header of free[i][0].
      var targetBase := cat[i].first;
      assert targetBase == BlockBase(cfg, i, k);
      ThreadedPop(cfg, free, cat, next, i);
      cat := cat[i := Cat(cat[i].freeNum - 1, next[targetBase])];
      free := free[i := free[i][1..]];
      DivModUnique(k, HEADER + cfg[i].size, 0);
      var shift := useMapShift + (targetBase - catBase) / (HEADER + cfg[i].size);
      assert shift == GlobalIndex(cfg, Slot(i, k));
      GlobalIndexBound(cfg, Slot(i, k));
      AllocateConsistent(cfg, v, size);
      p := targetBase + HEADER;
      BlockInArena(cfg, i, k);
      // The bit and the payload are disjoint state; the payload is zeroed first here.
      Memset(arena, p, cfg[i].size);
      useMap[shift / BITS_PER_BYTE] := useMap[shift / BITS_PER_BYTE] | Mask(shift % BITS_PER_BYTE);
      assert useMap[..] == SetUsed(v.useMap, shift);
      assert View() == r.view && p == r.ptr;
    }

    /**
     * The search shared by both versions of platform_mem_free: walk the
     * class byte ranges, then check that p sits exactly at a payload offset.
     * found is false where the source jumps to PLATFORM_MEM_FREE_END.
     */
    method LocateBlock(p: int) returns (found: bool, i: nat, slot: nat, useMapShift: nat, targetBlock: int)
      requires WellFormed(cfg)
      ensures found <==> Locate(cfg, p).Some?
      ensures found ==>
        Locate(cfg, p) == Some(Slot(i, slot)) && i < |cfg| &&
        useMapShift == GlobalIndex(cfg, Slot(i, slot)) &&
        targetBlock == BlockBase(cfg, i, slot) && p == targetBlock + HEADER
    {
      var catBase := 0;
      useMapShift := 0;
      i := 0;
      slot := 0;
      targetBlock := NULL;
      while i < |cfg|
        invariant 0 <= i <= |cfg|
        invariant catBase == CatBase(cfg, i) && useMapShift == BlocksBefore(cfg, i)
        invariant Locate(cfg, p) == LocateFrom(cfg, p, i)
      {
        var catMax := catBase + ClassBytes(cfg[i]);
        if p >= catBase && p < catMax {
          break;
        }
        useMapShift := useMapShift + cfg[i].num;
        catBase := catMax;
        i := i + 1;
      }
      if i >= |cfg| {
        assert Locate(cfg, p) == None;
        return false, i, slot, useMapShift, targetBlock;
      }
      var stride := Stride(cfg[i]);
      var tmp1 := (p - catBase) / stride;
      var tmp2 := (p - catBase) % stride;
      LocateHit(cfg, p, i);
      if tmp2 != HEADER {
        return false, i, slot, useMapShift, targetBlock;
      }
      useMapShift := useMapShift + tmp1;
      targetBlock := catBase + tmp1 * stride;
      // The address-consistency check of the source always passes here.
      slot := tmp1;
      found := true;
    }

    /**
     * platform_mem_free with the guard its comment at platform_mem.c:302
     * describes: a pointer outside every class, off a payload offset, or to a
     * block not marked allocated is ignored; otherwise the bit is cleared and
     * the block pushed on its list.
     */
    method Free(p: int)
      requires Valid()
      modifies this, useMap
      ensures Valid() && useMap == old(useMap) && arena == old(arena)
      ensures View() == PoolSpec.Free(cfg, old(View()), p)
    {
      var found, i, slot, useMapShift, targetBlock := LocateBlock(p);
      if !found {
        return;
      }
      LocateSound(cfg, p);
      GlobalIndexBound(cfg, Slot(i, slot));
      // Only a block marked allocated goes back on its list.
      if useMap[useMapShift / BITS_PER_BYTE] & Mask(useMapShift % BITS_PER_BYTE) == 0 {
        assert !Used(useMap[..], useMapShift);
        return;
      }
      PushBlock(p, Slot(i, slot), useMapShift, targetBlock);
    }

    /** The found branch of platform_mem_free: clear the block's bit and push it on its class list. */
    method PushBlock(ghost p: int, s: Slot, useMapShift: nat, targetBlock: int)
      requires Valid() && IsSlot(cfg, s) && Locate(cfg, p) == Some(s)
      requires useMapShift == GlobalIndex(cfg, s) && targetBlock == BlockBase(cfg, s.cls, s.idx)
      requires Used(useMap[..], useMapShift)
      modifies this, useMap
      ensures Valid() && useMap == old(useMap) && arena == old(arena)
      ensures View() == PoolSpec.Free(cfg, old(View()), p)
    {
      ghost var v := View();
      ghost var w := PoolView(v.free[s.cls := [s.idx] + v.free[s.cls]], ClearUsed(v.useMap, useMapShift));
      assert PoolSpec.Free(cfg, v, p) == w;
      GlobalIndexBound(cfg, s);
      HeaderFresh(v, s);
      FreeConsistent(cfg, v, p);
      // The bit and the list are disjoint state; the list is updated first here.
      LinkBlock(s, targetBlock);
      useMap[useMapShift / BITS_PER_BYTE] := useMap[useMapShift / BITS_PER_BYTE] & !Mask(useMapShift % BITS_PER_BYTE);
      assert useMap[..] == w.useMap;
      assert View() == w;
    }

    /** Push block s on the head of its class list: its link word takes the old head. */
    method LinkBlock(s: Slot, targetBlock: int)
      requires Threaded(cfg, free, cat, next) && s.cls < |cfg| && targetBlock == BlockBase(cfg, s.cls, s.idx)
      requires forall c, j :: 0 <= c < |cfg| && 0 <= j < |free[c]| ==> BlockBase(cfg, c, free[c][j]) != targetBlock
      modifies this`next, this`cat, this`free
      ensures free == old(free)[s.cls := [s.idx] + old(free)[s.cls]]
      ensures next == old(next)[targetBlock := old(cat)[s.cls].first]
      ensures cat == old(cat)[s.cls := Cat(old(cat)[s.cls].freeNum + 1, targetBlock)]
      ensures Threaded(cfg, free, cat, next)
    {
      ThreadedPush(cfg, free, cat, next, s.cls, s.idx);
      next := next[targetBlock := cat[s.cls].first];
      cat := cat[s.cls := Cat(cat[s.cls].freeNum + 1, targetBlock)];
      free := free[s.cls := [s.idx] + free[s.cls]];
    }

    /** The header of an allocated block is not on any free list. */
    lemma HeaderFresh(v: PoolView, s: Slot)
      requires Consistent(cfg, v) && IsSlot(cfg, s) && Used(v.useMap, GlobalIndex(cfg, s))
      ensures forall c, j :: 0 <= c < |cfg| && 0 <= j < |v.free[c]| ==>
        BlockBase(cfg, c, v.free[c][j]) != BlockBase(cfg, s.cls, s.idx)
    {
      forall c, j | 0 <= c < |cfg| && 0 <= j < |v.free[c]|
        ensures BlockBase(cfg, c, v.free[c][j]) != BlockBase(cfg, s.cls, s.idx)
      {
        if BlockBase(cfg, c, v.free[c][j]) == BlockBase(cfg, s.cls, s.idx) {
          PayloadInjective(cfg, Slot(c, v.free[c][j]), s);
        }
      }
    }

    /**
     * platform_mem_free exactly as written: the guard returns early when the
     * block's bit is SET, so an allocated block is never given back, and a
     * free block is pushed on its list a second time. The counts and heads
     * then follow PoolSpec.FreeAsWritten, which breaks the pool invariant
     * (PoolSpec.FreeAsWrittenDuplicates), and the pushed block's link word
     * names the old head, itself when it was the head
     * (FreeAsWrittenAfterInit).
     */
    method FreeAsWritten(p: int)
      requires Valid()
      modifies this, useMap
      ensures useMap == old(useMap) && arena == old(arena) && free == old(free) && |cat| == |cfg|
      ensures useMap[..] == PoolSpec.FreeAsWritten(cfg, old(View()), p).useMap
      ensures forall c :: 0 <= c < |cfg| ==>
        cat[c].freeNum == |PoolSpec.FreeAsWritten(cfg, old(View()), p).free[c]| &&
        cat[c].first == HeadPtr(cfg, c, PoolSpec.FreeAsWritten(cfg, old(View()), p).free[c])
      ensures PoolSpec.FreeAsWritten(cfg, old(View()), p) == old(View()) ==>
        next == old(next) && cat == old(cat) && Valid() && View() == old(View())
      ensures PoolSpec.FreeAsWritten(cfg, old(View()), p) != old(View()) ==>
        var s := Locate(cfg, p).value;
        s.cls < |cfg| && next == old(next)[BlockBase(cfg, s.cls, s.idx) := old(cat)[s.cls].first]
    {
      ghost var v := View();
      var found, i, slot, useMapShift, targetBlock := LocateBlock(p);
      if !found {
        return;
      }
      LocateSound(cfg, p);
      GlobalIndexBound(cfg, Slot(i, slot));
      // "Check if the target block has already been allocated": inverted.
      if useMap[useMapShift / BITS_PER_BYTE] & Mask(useMapShift % BITS_PER_BYTE) != 0 {
        return;
      }
      assert |PoolSpec.FreeAsWritten(cfg, v, p).free[i]| == |v.free[i]| + 1;
      useMap[useMapShift / BITS_PER_BYTE] := useMap[useMapShift / BITS_PER_BYTE] & !Mask(useMapShift % BITS_PER_BYTE);
      assert useMap[..] == ClearUsed(v.useMap, useMapShift);
      next := next[targetBlock := cat[i].first];
      cat := cat[i := Cat(cat[i].freeNum + 1, targetBlock)];
    }
  }
}
