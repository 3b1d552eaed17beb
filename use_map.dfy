/**
 * The allocation bitmap of the pool (p_use_map): bit g % 8 of byte g / 8
 * marks block g as allocated. Reads beyond the map see a clear bit, and
 * writes beyond it change nothing.
 */
module UseMap {
  /** 1 << b for a bit position within a byte. */
  function Mask(b: nat): bv8
    requires b < 8
  {
    (1 as bv8) << b
  }

  /** The bit test `p_use_map[g / 8] & (1 << (g % 8))`. */
  predicate Used(m: seq<bv8>, g: nat)
  {
    g / 8 < |m| && m[g / 8] & Mask(g % 8) != 0
  }

  /** `p_use_map[g / 8] |= (1 << (g % 8))` */
  function SetUsed(m: seq<bv8>, g: nat): seq<bv8>
  {
    if g / 8 < |m| then m[g / 8 := m[g / 8] | Mask(g % 8)] else m
  }

  /** `p_use_map[g / 8] &= ~(1 << (g % 8))` */
  function ClearUsed(m: seq<bv8>, g: nat): seq<bv8>
  {
    if g / 8 < |m| then m[g / 8 := m[g / 8] & !Mask(g % 8)] else m
  }

  lemma MaskOr(x: bv8, b: nat, c: nat)
    requires b < 8 && c < 8
    ensures (x | Mask(b)) & Mask(c) != 0 <==> b == c || x & Mask(c) != 0
  {
    match b
    case 0 => {} case 1 => {} case 2 => {} case 3 => {}
    case 4 => {} case 5 => {} case 6 => {} case 7 => {}
  }

  lemma MaskAndNot(x: bv8, b: nat, c: nat)
    requires b < 8 && c < 8
    ensures (x & !Mask(b)) & Mask(c) != 0 <==> b != c && x & Mask(c) != 0
  {
    match b
    case 0 => {} case 1 => {} case 2 => {} case 3 => {}
    case 4 => {} case 5 => {} case 6 => {} case 7 => {}
  }

  /** Setting bit g marks g and leaves every other bit as it was. */
  lemma SetUsedSpec(m: seq<bv8>, g: nat, h: nat)
    requires g / 8 < |m|
    ensures |SetUsed(m, g)| == |m|
    ensures Used(SetUsed(m, g), h) <==> h == g || Used(m, h)
  {
    if h / 8 == g / 8 {
      MaskOr(m[g / 8], g % 8, h % 8);
    }
  }

  /** Clearing bit g unmarks g and leaves every other bit as it was. */
  lemma ClearUsedSpec(m: seq<bv8>, g: nat, h: nat)
    ensures |ClearUsed(m, g)| == |m|
    ensures Used(ClearUsed(m, g), h) <==> h != g && Used(m, h)
  {
    if g / 8 < |m| && h / 8 == g / 8 {
      MaskAndNot(m[g / 8], g % 8, h % 8);
    }
  }

  /** Clearing a bit just set restores a map in which it was clear. */
  lemma ClearSetUsed(m: seq<bv8>, g: nat)
    requires !Used(m, g)
    ensures ClearUsed(SetUsed(m, g), g) == m
  {
    if g / 8 < |m| {
      ClearBit(m[g / 8], Mask(g % 8));
    }
  }

  /** Clearing a bit that is already clear changes nothing. */
  lemma ClearUnused(m: seq<bv8>, g: nat)
    requires !Used(m, g)
    ensures ClearUsed(m, g) == m
  {
    if g / 8 < |m| {
      ClearBit(m[g / 8], Mask(g % 8));
    }
  }

  /** For a mask x does not meet, or-ing it in and masking it out again, or masking it out alone, yields x. */
  lemma ClearBit(x: bv8, mask: bv8)
    requires x & mask == 0
    ensures (x | mask) & !mask == x && x & !mask == x
  {
  }

  /** An all-zero map marks nothing. */
  lemma ZeroUnused(m: seq<bv8>, g: nat)
    requires forall b :: 0 <= b < |m| ==> m[b] == 0
    ensures !Used(m, g)
  {
    if g / 8 < |m| {
      assert m[g / 8] & Mask(g % 8) == 0;
    }
  }
}
