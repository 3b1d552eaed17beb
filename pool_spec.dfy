/**
 * The pool's state as a value, and what platform_mem_allocate and
 * platform_mem_free do to it. The imperative Pool class in pool.dfy is
 * proved to perform exactly these transitions.
 */
module PoolSpec {
  import opened Wrappers
  import opened PoolConfig
  import opened UseMap

  /**
   * The free list of every class, as the block indices it links in order,
   * and the bytes of the use map.
   */
  datatype PoolView = PoolView(free: seq<seq<nat>>, useMap: seq<bv8>)

  /** What platform_mem_allocate returns and leaves behind. */
  datatype AllocResult = AllocResult(view: PoolView, ptr: int)

  ghost predicate NoDup(s: seq<nat>)
  {
    forall a, b :: 0 <= a < b < |s| ==> s[a] != s[b]
  }

  /**
   * The pool invariant: every free list holds distinct blocks of its own
   * class, and a block is on its class's free list exactly when its bit is
   * clear.
   */
  ghost predicate Consistent(cfg: seq<ClassCfg>, v: PoolView)
  {
    WellFormed(cfg) && |v.free| == |cfg| && |v.useMap| == UseMapBytes(cfg) &&
    (forall i, j :: 0 <= i < |cfg| && 0 <= j < |v.free[i]| ==> v.free[i][j] < cfg[i].num) &&
    (forall i :: 0 <= i < |cfg| ==> NoDup(v.free[i])) &&
    (forall i, k :: 0 <= i < |cfg| && 0 <= k < cfg[i].num ==>
      (k in v.free[i] <==> !Used(v.useMap, GlobalIndex(cfg, Slot(i, k)))))
  }

  /** Block g of the pool is currently handed out. */
  ghost predicate Allocated(cfg: seq<ClassCfg>, v: PoolView, s: Slot)
    requires s.cls < |cfg|
  {
    Used(v.useMap, GlobalIndex(cfg, s))
  }

  function Iota(n: nat): (r: seq<nat>)
    ensures |r| == n && forall j :: 0 <= j < n ==> r[j] == j
  {
    if n == 0 then [] else Iota(n - 1) + [n - 1]
  }

  /** The state platform_mem_init leaves: every block free, in address order. */
  function InitView(cfg: seq<ClassCfg>): (r: PoolView)
    ensures |r.free| == |cfg| && |r.useMap| == UseMapBytes(cfg)
    ensures forall i :: 0 <= i < |cfg| ==> |r.free[i]| == cfg[i].num
    ensures forall k :: 0 <= k < |r.useMap| ==> r.useMap[k] == 0
  {
    PoolView(InitFree(cfg), seq(UseMapBytes(cfg), _ => 0))
  }

  /** The free lists of the fresh pool: class i lists its blocks 0, 1, ... in order. */
  function InitFree(cfg: seq<ClassCfg>): (r: seq<seq<nat>>)
    ensures |r| == |cfg| && forall i :: 0 <= i < |cfg| ==> r[i] == Iota(cfg[i].num)
  {
    seq(|cfg|, i requires 0 <= i < |cfg| => Iota(cfg[i].num))
  }

  /** Class i can serve a request of the given size. */
  predicate Fits(cfg: seq<ClassCfg>, v: PoolView, size: int, i: nat)
    requires |v.free| == |cfg| && i < |cfg|
  {
    cfg[i].size >= size && |v.free[i]| > 0
  }

  /** The class the scan of platform_mem_allocate stops at (|cfg| if none). */
  function FirstFit(cfg: seq<ClassCfg>, v: PoolView, size: int): (r: nat)
    requires |v.free| == |cfg|
    ensures r <= |cfg|
    ensures forall j :: 0 <= j < r ==> !Fits(cfg, v, size, j)
    ensures r < |cfg| ==> Fits(cfg, v, size, r)
  {
    FirstFitFrom(cfg, v, size, 0)
  }

  function FirstFitFrom(cfg: seq<ClassCfg>, v: PoolView, size: int, i: nat): (r: nat)
    requires |v.free| == |cfg| && i <= |cfg|
    requires forall j :: 0 <= j < i ==> !Fits(cfg, v, size, j)
    ensures i <= r <= |cfg|
    ensures forall j :: 0 <= j < r ==> !Fits(cfg, v, size, j)
    ensures r < |cfg| ==> Fits(cfg, v, size, r)
    decreases |cfg| - i
  {
    if i == |cfg| || Fits(cfg, v, size, i) then i else FirstFitFrom(cfg, v, size, i + 1)
  }

  /**
   * platform_mem_allocate: pop the head of the first class that is large
   * enough and not empty, mark its bit, hand out its payload pointer.
   */
  function Allocate(cfg: seq<ClassCfg>, v: PoolView, size: int): (r: AllocResult)
    requires |v.free| == |cfg|
    ensures |r.view.free| == |cfg|
    ensures r.ptr == NULL <==> FirstFit(cfg, v, size) == |cfg|
    ensures r.ptr == NULL ==> r.view == v
    ensures r.ptr != NULL ==> var i := FirstFit(cfg, v, size);
      i < |cfg| && r.ptr == Payload(cfg, i, v.free[i][0]) && r.view.free[i] == v.free[i][1..] &&
      forall c :: 0 <= c < |cfg| && c != i ==> r.view.free[c] == v.free[c]
  {
    var i := FirstFit(cfg, v, size);
    if i == |cfg| then AllocResult(v, NULL)
    else
      var k := v.free[i][0];
      AllocResult(PoolView(v.free[i := v.free[i][1..]],
                           SetUsed(v.useMap, GlobalIndex(cfg, Slot(i, k)))),
                  Payload(cfg, i, k))
  }

  /**
   * platform_mem_free with the guard its comment at platform_mem.c:302
   * describes ("Check if the target block has already been allocated"): a
   * pointer that is not a payload pointer, or whose block is not marked
   * allocated, is ignored; otherwise the bit is cleared and the block pushed
   * on its list.
   */
  function Free(cfg: seq<ClassCfg>, v: PoolView, p: int): (r: PoolView)
    requires |v.free| == |cfg|
    ensures |r.free| == |cfg|
    ensures r == v || (Locate(cfg, p).Some? && var s := Locate(cfg, p).value;
      s.cls < |cfg| && Used(v.useMap, GlobalIndex(cfg, s)) && r.free[s.cls] == [s.idx] + v.free[s.cls])
  {
    match Locate(cfg, p)
    case None => v
    case Some(s) =>
      if s.cls >= |cfg| || !Used(v.useMap, GlobalIndex(cfg, s)) then v
      else PoolView(v.free[s.cls := [s.idx] + v.free[s.cls]],
                    ClearUsed(v.useMap, GlobalIndex(cfg, s)))
  }

  /**
   * platform_mem_free as written: the guard at platform_mem.c:303 returns
   * early when the bit is SET, so only a block whose bit is clear is pushed.
   * The resulting list gives the count and the head the control record is
   * left with; it is not the chain of link words, which PlatformMem states
   * (PlatformMem.FreeAsWrittenAfterInit).
   */
  function FreeAsWritten(cfg: seq<ClassCfg>, v: PoolView, p: int): (r: PoolView)
    requires |v.free| == |cfg|
    ensures |r.free| == |cfg|
    ensures r == v || (Locate(cfg, p).Some? && var s := Locate(cfg, p).value;
      s.cls < |cfg| && !Used(v.useMap, GlobalIndex(cfg, s)) && r.free[s.cls] == [s.idx] + v.free[s.cls])
  {
    match Locate(cfg, p)
    case None => v
    case Some(s) =>
      if s.cls >= |cfg| || Used(v.useMap, GlobalIndex(cfg, s)) then v
      else PoolView(v.free[s.cls := [s.idx] + v.free[s.cls]],
                    ClearUsed(v.useMap, GlobalIndex(cfg, s)))
  }

  // ---------------------------------------------------------------------------
  // Initialisation
  // ---------------------------------------------------------------------------

  /** After init every block is free and the invariant holds. */
  lemma InitConsistent(cfg: seq<ClassCfg>)
    requires WellFormed(cfg)
    ensures Consistent(cfg, InitView(cfg))
    ensures forall i :: 0 <= i < |cfg| ==> |InitView(cfg).free[i]| == cfg[i].num
  {
    var v := InitView(cfg);
    forall i, k | 0 <= i < |cfg| && 0 <= k < cfg[i].num
      ensures k in v.free[i] <==> !Used(v.useMap, GlobalIndex(cfg, Slot(i, k)))
    {
      assert v.free[i][k] == k;
      ZeroUnused(v.useMap, GlobalIndex(cfg, Slot(i, k)));
    }
  }

  // ---------------------------------------------------------------------------
  // Allocation
  // ---------------------------------------------------------------------------

  /**
   * Allocate fails exactly when no class is both large enough and
   * non-empty, and then changes nothing; otherwise it hands out the head of
   * the first such class, a block that was free and is now marked.
   */
  lemma AllocateOutcome(cfg: seq<ClassCfg>, v: PoolView, size: int)
    requires Consistent(cfg, v)
    ensures var r := Allocate(cfg, v, size);
      (r.ptr == NULL <==> forall j :: 0 <= j < |cfg| ==> !Fits(cfg, v, size, j)) &&
      (r.ptr == NULL ==> r.view == v)
    ensures var r := Allocate(cfg, v, size); var i := FirstFit(cfg, v, size);
      r.ptr != NULL ==>
        i < |cfg| && cfg[i].size >= size &&
        Locate(cfg, r.ptr) == Some(Slot(i, v.free[i][0])) &&
        !Allocated(cfg, v, Slot(i, v.free[i][0])) &&
        Allocated(cfg, r.view, Slot(i, v.free[i][0])) &&
        r.view.free[i] == v.free[i][1..]
  {
    var i := FirstFit(cfg, v, size);
    if i < |cfg| {
      var k := v.free[i][0];
      assert k in v.free[i];
      LocatePayload(cfg, Slot(i, k));
      GlobalIndexBound(cfg, Slot(i, k));
      SetUsedSpec(v.useMap, GlobalIndex(cfg, Slot(i, k)), GlobalIndex(cfg, Slot(i, k)));
    }
  }

  /** Allocate marks exactly its own block: every other block keeps its bit. */
  lemma AllocateMarksOnlyItsBlock(cfg: seq<ClassCfg>, v: PoolView, size: int, t: Slot)
    requires Consistent(cfg, v) && IsSlot(cfg, t)
    requires Allocate(cfg, v, size).ptr != NULL
    requires Locate(cfg, Allocate(cfg, v, size).ptr) != Some(t)
    ensures Allocated(cfg, Allocate(cfg, v, size).view, t) == Allocated(cfg, v, t)
  {
    AllocateOutcome(cfg, v, size);
    var i := FirstFit(cfg, v, size);
    var k := v.free[i][0];
    GlobalIndexBound(cfg, Slot(i, k));
    SetUsedSpec(v.useMap, GlobalIndex(cfg, Slot(i, k)), GlobalIndex(cfg, t));
    if GlobalIndex(cfg, t) == GlobalIndex(cfg, Slot(i, k)) {
      GlobalIndexInjective(cfg, t, Slot(i, k));
    }
  }

  /** Allocate keeps the pool invariant. */
  lemma AllocateConsistent(cfg: seq<ClassCfg>, v: PoolView, size: int)
    requires Consistent(cfg, v)
    ensures Consistent(cfg, Allocate(cfg, v, size).view)
  {
    var i := FirstFit(cfg, v, size);
    if i < |cfg| {
      var k := v.free[i][0];
      var g := GlobalIndex(cfg, Slot(i, k));
      var w := Allocate(cfg, v, size).view;
      assert k in v.free[i];
      GlobalIndexBound(cfg, Slot(i, k));
      forall c, m | 0 <= c < |cfg| && 0 <= m < cfg[c].num
        ensures m in w.free[c] <==> !Used(w.useMap, GlobalIndex(cfg, Slot(c, m)))
      {
        SetUsedSpec(v.useMap, g, GlobalIndex(cfg, Slot(c, m)));
        if GlobalIndex(cfg, Slot(c, m)) == g {
          GlobalIndexInjective(cfg, Slot(c, m), Slot(i, k));
        }
        if c == i {
          assert v.free[i] == [k] + w.free[i];
        }
      }
    }
  }

  /**
   * No splitting or borrowing beyond the table: with ascending sizes, a
   * request larger than the largest class always fails.
   */
  lemma AllocateTooLarge(cfg: seq<ClassCfg>, v: PoolView, size: int)
    requires Consistent(cfg, v) && StrictlyAscending(cfg)
    requires size > cfg[|cfg| - 1].size
    ensures Allocate(cfg, v, size) == AllocResult(v, NULL)
  {
    forall j | 0 <= j < |cfg| ensures cfg[j].size <= cfg[|cfg| - 1].size {
      AscendingUpTo(cfg, j, |cfg| - 1);
    }
  }

  lemma {:induction false} AscendingUpTo(cfg: seq<ClassCfg>, i: nat, j: nat)
    requires StrictlyAscending(cfg) && i <= j < |cfg|
    ensures cfg[i].size <= cfg[j].size
    decreases j - i
  {
    if i < j { AscendingUpTo(cfg, i + 1, j); }
  }

  // ---------------------------------------------------------------------------
  // Free, guarded as the comment at platform_mem.c:302 describes
  // ---------------------------------------------------------------------------

  /** Freeing an allocated block pushes it at the head of its list (LIFO). */
  lemma FreePushes(cfg: seq<ClassCfg>, v: PoolView, s: Slot)
    requires Consistent(cfg, v) && IsSlot(cfg, s) && Allocated(cfg, v, s)
    ensures Free(cfg, v, Payload(cfg, s.cls, s.idx)).free == v.free[s.cls := [s.idx] + v.free[s.cls]]
  {
    LocatePayload(cfg, s);
  }

  /** Freeing an allocated block clears its bit and no other. */
  lemma FreeClearsOnlyItsBit(cfg: seq<ClassCfg>, v: PoolView, s: Slot, t: Slot)
    requires Consistent(cfg, v) && IsSlot(cfg, s) && Allocated(cfg, v, s) && IsSlot(cfg, t)
    ensures Allocated(cfg, Free(cfg, v, Payload(cfg, s.cls, s.idx)), t) <==> t != s && Allocated(cfg, v, t)
  {
    LocatePayload(cfg, s);
    ClearUsedSpec(v.useMap, GlobalIndex(cfg, s), GlobalIndex(cfg, t));
    if GlobalIndex(cfg, t) == GlobalIndex(cfg, s) {
      GlobalIndexInjective(cfg, t, s);
    }
  }

  /** A pointer that is no block's payload pointer is ignored. */
  lemma FreeForeign(cfg: seq<ClassCfg>, v: PoolView, p: int)
    requires Consistent(cfg, v)
    requires forall s :: IsSlot(cfg, s) ==> p != Payload(cfg, s.cls, s.idx)
    ensures Free(cfg, v, p) == v
  {
    if Locate(cfg, p).Some? {
      LocateSound(cfg, p);
    }
  }

  /** Free keeps the pool invariant. */
  lemma FreeConsistent(cfg: seq<ClassCfg>, v: PoolView, p: int)
    requires Consistent(cfg, v)
    ensures Consistent(cfg, Free(cfg, v, p))
  {
    var w := Free(cfg, v, p);
    if w != v {
      LocateSound(cfg, p);
      var s := Locate(cfg, p).value;
      var g := GlobalIndex(cfg, s);
      GlobalIndexBound(cfg, s);
      assert s.idx !in v.free[s.cls];
      forall c, m | 0 <= c < |cfg| && 0 <= m < cfg[c].num
        ensures m in w.free[c] <==> !Used(w.useMap, GlobalIndex(cfg, Slot(c, m)))
      {
        ClearUsedSpec(v.useMap, g, GlobalIndex(cfg, Slot(c, m)));
        if GlobalIndex(cfg, Slot(c, m)) == g {
          GlobalIndexInjective(cfg, Slot(c, m), s);
        }
      }
      var l := w.free[s.cls];
      forall a, b | 0 <= a < b < |l| ensures l[a] != l[b] {
        if a == 0 { assert l[b] in v.free[s.cls]; }
        else { assert l[a] == v.free[s.cls][a - 1] && l[b] == v.free[s.cls][b - 1]; }
      }
    }
  }

  /** Allocating and then freeing the pointer handed out restores the pool. */
  lemma AllocateFreeRoundTrip(cfg: seq<ClassCfg>, v: PoolView, size: int)
    requires Consistent(cfg, v)
    requires Allocate(cfg, v, size).ptr != NULL
    ensures Free(cfg, Allocate(cfg, v, size).view, Allocate(cfg, v, size).ptr) == v
  {
    AllocateOutcome(cfg, v, size);
    var i := FirstFit(cfg, v, size);
    var k := v.free[i][0];
    var r := Allocate(cfg, v, size);
    GlobalIndexBound(cfg, Slot(i, k));
    SetUsedSpec(v.useMap, GlobalIndex(cfg, Slot(i, k)), GlobalIndex(cfg, Slot(i, k)));
    ClearSetUsed(v.useMap, GlobalIndex(cfg, Slot(i, k)));
    assert [k] + v.free[i][1..] == v.free[i];
  }

  /** Freeing twice is the same as freeing once. */
  lemma DoubleFreeIsNoOp(cfg: seq<ClassCfg>, v: PoolView, p: int)
    requires Consistent(cfg, v)
    ensures Free(cfg, Free(cfg, v, p), p) == Free(cfg, v, p)
  {
    var w := Free(cfg, v, p);
    if w != v {
      var s := Locate(cfg, p).value;
      LocateSound(cfg, p);
      ClearUsedSpec(v.useMap, GlobalIndex(cfg, s), GlobalIndex(cfg, s));
    }
  }

  /**
   * LIFO reuse: after a block is freed, the next request that the scan
   * resolves to its class gets that very block back.
   */
  lemma FreeThenAllocate(cfg: seq<ClassCfg>, v: PoolView, s: Slot, size: int)
    requires Consistent(cfg, v) && IsSlot(cfg, s) && Allocated(cfg, v, s)
    requires cfg[s.cls].size >= size
    requires forall j :: 0 <= j < s.cls ==> !Fits(cfg, v, size, j)
    ensures Allocate(cfg, Free(cfg, v, Payload(cfg, s.cls, s.idx)), size).ptr
            == Payload(cfg, s.cls, s.idx)
  {
    FreePushes(cfg, v, s);
    PushedFirst(cfg, v, Free(cfg, v, Payload(cfg, s.cls, s.idx)), s, size);
  }

  lemma PushedFirst(cfg: seq<ClassCfg>, v: PoolView, w: PoolView, s: Slot, size: int)
    requires |v.free| == |cfg| && s.cls < |cfg| && cfg[s.cls].size >= size
    requires w.free == v.free[s.cls := [s.idx] + v.free[s.cls]]
    requires forall j :: 0 <= j < s.cls ==> !Fits(cfg, v, size, j)
    ensures Allocate(cfg, w, size).ptr == Payload(cfg, s.cls, s.idx)
  {
    assert Fits(cfg, w, size, s.cls);
    forall j: nat | j < s.cls ensures !Fits(cfg, w, size, j) {
      assert !Fits(cfg, v, size, j);
      assert w.free[j] == v.free[j];
    }
    FirstFitIs(cfg, w, size, s.cls);
    AllocateFrom(cfg, w, size, s.cls);
  }

  lemma AllocateFrom(cfg: seq<ClassCfg>, v: PoolView, size: int, i: nat)
    requires |v.free| == |cfg| && i < |cfg| && FirstFit(cfg, v, size) == i
    ensures Allocate(cfg, v, size).ptr == Payload(cfg, i, v.free[i][0])
  {
  }

  /** The scan stops at the first class that fits. */
  lemma FirstFitIs(cfg: seq<ClassCfg>, v: PoolView, size: int, i: nat)
    requires |v.free| == |cfg| && i < |cfg| && Fits(cfg, v, size, i)
    requires forall j :: 0 <= j < i ==> !Fits(cfg, v, size, j)
    ensures FirstFit(cfg, v, size) == i
  {
  }

  // ---------------------------------------------------------------------------
  // Free, as written
  // ---------------------------------------------------------------------------

  /** As written, freeing the block just handed out is ignored: it leaks. */
  lemma FreeAsWrittenLeaks(cfg: seq<ClassCfg>, v: PoolView, size: int)
    requires Consistent(cfg, v)
    requires Allocate(cfg, v, size).ptr != NULL
    ensures var r := Allocate(cfg, v, size);
      FreeAsWritten(cfg, r.view, r.ptr) == r.view && r.view != v
  {
    AllocateOutcome(cfg, v, size);
    var i := FirstFit(cfg, v, size);
    var r := Allocate(cfg, v, size);
    assert |r.view.free[i]| < |v.free[i]|;
  }

  /**
   * As written, "freeing" a block that is already free pushes it a second
   * time: its list holds it twice, the count grows past the class's size and
   * the invariant is lost.
   */
  lemma FreeAsWrittenDuplicates(cfg: seq<ClassCfg>, v: PoolView, s: Slot)
    requires Consistent(cfg, v) && IsSlot(cfg, s) && s.idx in v.free[s.cls]
    ensures var w := FreeAsWritten(cfg, v, Payload(cfg, s.cls, s.idx));
      |w.free[s.cls]| == |v.free[s.cls]| + 1 && !Consistent(cfg, w)
  {
    LocatePayload(cfg, s);
    var w := FreeAsWritten(cfg, v, Payload(cfg, s.cls, s.idx));
    var j :| 0 <= j < |v.free[s.cls]| && v.free[s.cls][j] == s.idx;
    assert w.free[s.cls][0] == w.free[s.cls][j + 1];
  }
}
