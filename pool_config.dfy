/**
 * The size-class table of the platform pool allocator and the address
 * arithmetic that platform_mem.c derives from it.
 *
 * Addresses are byte offsets from the start of the arena (p_memory_min).
 * The arena holds the classes one after another in table order; every block
 * is a HEADER-byte link word followed by the class's payload size.
 */
module PoolConfig {
  import opened Wrappers

  /** One row of platform_mem_cfg: payload size and number of blocks. */
  datatype ClassCfg = ClassCfg(size: nat, num: nat)

  /** A block named by its class and its index within the class. */
  datatype Slot = Slot(cls: nat, idx: nat)

  /** sizeof(platform_mem_buf_ctrl_t): one pointer on the 32-bit target. */
  const HEADER: nat := 4

  /** The NULL pointer. Every real address is a non-negative offset. */
  const NULL: int := -1

  /** Bits per byte of the use map (BIT_NUM_OF_BYTE). */
  const BITS_PER_BYTE: nat := 8

  /** The static table platform_mem_cfg. */
  const PlatformMemCfg: seq<ClassCfg> :=
    [ClassCfg(32, 2), ClassCfg(80, 2), ClassCfg(284, 2), ClassCfg(572, 1)]

  /** Bytes one block of class c occupies: its header plus its payload. */
  function Stride(c: ClassCfg): nat { HEADER + c.size }

  /** Bytes all blocks of class c occupy. */
  function ClassBytes(c: ClassCfg): nat { c.num * Stride(c) }

  /** Offset of the first block of class i. */
  function CatBase(cfg: seq<ClassCfg>, i: nat): nat
    requires i <= |cfg|
  {
    if i == 0 then 0 else CatBase(cfg, i - 1) + ClassBytes(cfg[i - 1])
  }

  /** Number of blocks in the classes before class i. */
  function BlocksBefore(cfg: seq<ClassCfg>, i: nat): nat
    requires i <= |cfg|
  {
    if i == 0 then 0 else BlocksBefore(cfg, i - 1) + cfg[i - 1].num
  }

  /** total_memory_size as platform_mem_init computes it. */
  function TotalBytes(cfg: seq<ClassCfg>): nat { CatBase(cfg, |cfg|) }

  /** num_of_buf as platform_mem_init computes it. */
  function TotalBlocks(cfg: seq<ClassCfg>): nat { BlocksBefore(cfg, |cfg|) }

  /** num_of_use_map: one bit per block, rounded up to whole bytes. */
  function UseMapBytes(cfg: seq<ClassCfg>): nat
  {
    (TotalBlocks(cfg) + BITS_PER_BYTE - 1) / BITS_PER_BYTE
  }

  /** Offset of the header of block k of class i. */
  function BlockBase(cfg: seq<ClassCfg>, i: nat, k: nat): nat
    requires i < |cfg|
  {
    CatBase(cfg, i) + k * Stride(cfg[i])
  }

  /** The pointer platform_mem_allocate hands out for block k of class i. */
  function Payload(cfg: seq<ClassCfg>, i: nat, k: nat): nat
    requires i < |cfg|
  {
    BlockBase(cfg, i, k) + HEADER
  }

  /** Position of the block's bit in the use map (use_map_shift). */
  function GlobalIndex(cfg: seq<ClassCfg>, s: Slot): nat
    requires s.cls < |cfg|
  {
    BlocksBefore(cfg, s.cls) + s.idx
  }

  predicate IsSlot(cfg: seq<ClassCfg>, s: Slot)
  {
    s.cls < |cfg| && s.idx < cfg[s.cls].num
  }

  /**
   * What the fixed table may look like: at least one class, every class with
   * at least one block of non-zero size (an empty first class makes
   * platform_mem_init write through a NULL header pointer, a class of size 0
   * makes every free miss its payload offset), and counters that fit the
   * source's uint16_t/uint32_t variables.
   */
  predicate WellFormed(cfg: seq<ClassCfg>)
  {
    |cfg| > 0 &&
    (forall i :: 0 <= i < |cfg| ==> 0 < cfg[i].num && 0 < cfg[i].size && Stride(cfg[i]) < 0x1_0000) &&
    TotalBlocks(cfg) < 0x1_0000 && TotalBytes(cfg) < 0x1_0000_0000
  }

  /** The condition platform_mem_init checks: sizes strictly ascend. */
  predicate StrictlyAscending(cfg: seq<ClassCfg>)
  {
    forall i :: 0 <= i < |cfg| - 1 ==> cfg[i].size < cfg[i + 1].size
  }

  /**
   * The class-and-slot search of platform_mem_free: the first class whose
   * byte range holds p, then the slot whose payload starts exactly at p.
   */
  function Locate(cfg: seq<ClassCfg>, p: int): (r: Option<Slot>)
    ensures r.Some? ==>
      r.value.cls < |cfg| && CatBase(cfg, r.value.cls) <= p < CatBase(cfg, r.value.cls) + ClassBytes(cfg[r.value.cls])
  {
    LocateFrom(cfg, p, 0)
  }

  function LocateFrom(cfg: seq<ClassCfg>, p: int, i: nat): (r: Option<Slot>)
    requires i <= |cfg|
    ensures r.Some? ==>
      i <= r.value.cls < |cfg| && CatBase(cfg, r.value.cls) <= p < CatBase(cfg, r.value.cls) + ClassBytes(cfg[r.value.cls])
    decreases |cfg| - i
  {
    if i == |cfg| then None
    else if CatBase(cfg, i) <= p < CatBase(cfg, i) + ClassBytes(cfg[i]) then
      var off := p - CatBase(cfg, i);
      if off % Stride(cfg[i]) == HEADER then Some(Slot(i, off / Stride(cfg[i]))) else None
    else LocateFrom(cfg, p, i + 1)
  }

  // ---------------------------------------------------------------------------
  // Lemmas about the layout
  // ---------------------------------------------------------------------------

  /**
   * Inside the byte range of class i the search answers by the offset's
   * remainder, and a hit names the block whose payload starts at p.
   */
  lemma LocateHit(cfg: seq<ClassCfg>, p: int, i: nat)
    requires i < |cfg| && CatBase(cfg, i) <= p < CatBase(cfg, i) + ClassBytes(cfg[i])
    ensures var off := p - CatBase(cfg, i);
      LocateFrom(cfg, p, i) == (if off % Stride(cfg[i]) == HEADER then Some(Slot(i, off / Stride(cfg[i]))) else None) &&
      (off % Stride(cfg[i]) == HEADER ==> p == CatBase(cfg, i) + (off / Stride(cfg[i])) * Stride(cfg[i]) + HEADER)
  {
  }

  /** A product grows with its first factor: a < b implies a * d + d <= b * d. */
  lemma MulStep(a: nat, b: nat, d: nat)
    requires a < b
    ensures a * d + d <= b * d
  {
    var e := b - a - 1;
    assert b * d == (a + 1 + e) * d;
    assert (a + 1 + e) * d == a * d + d + e * d;
  }

  /** The divisor-remainder pair of q * d + r is (q, r) when 0 <= r < d. */
  lemma DivModUnique(q: nat, d: nat, r: nat)
    requires 0 <= r < d
    ensures (q * d + r) / d == q && (q * d + r) % d == r
  {
    var x := q * d + r;
    var q', r' := x / d, x % d;
    assert x == q' * d + r' && 0 <= r' < d;
    if q' < q {
      MulStep(q', q, d);
    } else if q < q' {
      MulStep(q, q', d);
    }
  }

  lemma {:induction false} CatBaseMono(cfg: seq<ClassCfg>, i: nat, j: nat)
    requires i <= j <= |cfg|
    ensures CatBase(cfg, i) <= CatBase(cfg, j)
    decreases j
  {
    if i < j { CatBaseMono(cfg, i, j - 1); }
  }

  lemma {:induction false} BlocksBeforeMono(cfg: seq<ClassCfg>, i: nat, j: nat)
    requires i <= j <= |cfg|
    ensures BlocksBefore(cfg, i) <= BlocksBefore(cfg, j)
    decreases j
  {
    if i < j { BlocksBeforeMono(cfg, i, j - 1); }
  }

  /** A block lies entirely inside its class's byte range. */
  lemma BlockInClass(cfg: seq<ClassCfg>, i: nat, k: nat)
    requires i < |cfg| && k < cfg[i].num
    ensures CatBase(cfg, i) <= BlockBase(cfg, i, k)
    ensures BlockBase(cfg, i, k) + Stride(cfg[i]) <= CatBase(cfg, i + 1)
  {
    assert (k + 1) * Stride(cfg[i]) <= cfg[i].num * Stride(cfg[i]);
  }

  /** Every block, and the arena as a whole, lies inside TotalBytes. */
  lemma BlockInArena(cfg: seq<ClassCfg>, i: nat, k: nat)
    requires i < |cfg| && k < cfg[i].num
    ensures BlockBase(cfg, i, k) + Stride(cfg[i]) <= TotalBytes(cfg)
  {
    BlockInClass(cfg, i, k);
    CatBaseMono(cfg, i + 1, |cfg|);
  }

  /** A block's bit lies inside the use map's TotalBlocks bits. */
  lemma GlobalIndexBound(cfg: seq<ClassCfg>, s: Slot)
    requires IsSlot(cfg, s)
    ensures GlobalIndex(cfg, s) < TotalBlocks(cfg)
  {
    BlocksBeforeMono(cfg, s.cls + 1, |cfg|);
  }

  /** Distinct blocks have distinct bits in the use map. */
  lemma GlobalIndexInjective(cfg: seq<ClassCfg>, s: Slot, t: Slot)
    requires IsSlot(cfg, s) && IsSlot(cfg, t)
    requires GlobalIndex(cfg, s) == GlobalIndex(cfg, t)
    ensures s == t
  {
    if s.cls < t.cls {
      BlocksBeforeMono(cfg, s.cls + 1, t.cls);
    } else if t.cls < s.cls {
      BlocksBeforeMono(cfg, t.cls + 1, s.cls);
    }
  }

  lemma {:induction false} LocateFromSkips(cfg: seq<ClassCfg>, p: int, i: nat, c: nat)
    requires i <= c < |cfg|
    requires CatBase(cfg, c) <= p < CatBase(cfg, c + 1)
    ensures LocateFrom(cfg, p, i) == LocateFrom(cfg, p, c)
    decreases c - i
  {
    if i < c {
      CatBaseMono(cfg, i + 1, c);
      LocateFromSkips(cfg, p, i + 1, c);
    }
  }

  /**
   * Free finds the block that allocate handed out: the payload pointer of
   * block k of class i is located as exactly that slot.
   */
  lemma LocatePayload(cfg: seq<ClassCfg>, s: Slot)
    requires IsSlot(cfg, s) && WellFormed(cfg)
    ensures Locate(cfg, Payload(cfg, s.cls, s.idx)) == Some(s)
  {
    var p := Payload(cfg, s.cls, s.idx);
    BlockInClass(cfg, s.cls, s.idx);
    LocateFromSkips(cfg, p, 0, s.cls);
    DivModUnique(s.idx, Stride(cfg[s.cls]), HEADER);
  }

  /** Conversely, a located pointer is exactly that slot's payload pointer. */
  lemma {:induction false} LocateFromSound(cfg: seq<ClassCfg>, p: int, i: nat)
    requires i <= |cfg|
    requires LocateFrom(cfg, p, i).Some?
    ensures var s := LocateFrom(cfg, p, i).value;
      i <= s.cls && IsSlot(cfg, s) && p == Payload(cfg, s.cls, s.idx)
    decreases |cfg| - i
  {
    if CatBase(cfg, i) <= p < CatBase(cfg, i) + ClassBytes(cfg[i]) {
      var d := Stride(cfg[i]);
      var off := p - CatBase(cfg, i);
      assert off == (off / d) * d + off % d;
      if cfg[i].num <= off / d {
        MulStep(cfg[i].num, off / d + 1, d);
      }
    } else {
      LocateFromSound(cfg, p, i + 1);
    }
  }

  lemma LocateSound(cfg: seq<ClassCfg>, p: int)
    requires Locate(cfg, p).Some?
    ensures IsSlot(cfg, Locate(cfg, p).value)
    ensures p == Payload(cfg, Locate(cfg, p).value.cls, Locate(cfg, p).value.idx)
  {
    LocateFromSound(cfg, p, 0);
  }

  /** Payload pointers of distinct blocks differ. */
  lemma PayloadInjective(cfg: seq<ClassCfg>, s: Slot, t: Slot)
    requires WellFormed(cfg) && IsSlot(cfg, s) && IsSlot(cfg, t)
    requires Payload(cfg, s.cls, s.idx) == Payload(cfg, t.cls, t.idx)
    ensures s == t
  {
    LocatePayload(cfg, s);
    LocatePayload(cfg, t);
  }

  /** The shipped table is well formed, ascends, and spans 1392 bytes, 7 blocks, 1 map byte. */
  lemma PlatformMemCfgFacts()
    ensures WellFormed(PlatformMemCfg) && StrictlyAscending(PlatformMemCfg)
    ensures TotalBytes(PlatformMemCfg) == 1392
    ensures TotalBlocks(PlatformMemCfg) == 7
    ensures UseMapBytes(PlatformMemCfg) == 1
  {
    assert CatBase(PlatformMemCfg, 1) == 72;
    assert CatBase(PlatformMemCfg, 2) == 240;
    assert CatBase(PlatformMemCfg, 3) == 816;
    assert CatBase(PlatformMemCfg, 4) == 1392;
    assert BlocksBefore(PlatformMemCfg, 4) == 7;
  }
}
