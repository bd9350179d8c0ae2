/**
 * The magic-bitboard lookup of sliding-piece attacks (`src/magic.cpp`).
 *
 * A lookup keeps only the occupancy bits in the square's relevance mask,
 * multiplies them by the square's magic number with 64-bit wrap-around
 * (`WrappingProduct`, shift-and-add on `bv64`), keeps the top `relevantBits` bits of the
 * product and reads the precomputed attack table at that index.  The
 * masks, magic numbers and tables are generated elsewhere; here they are
 * parameters, and the correctness of a lookup is proved relative to a
 * precondition that says what the generator must have produced: tables
 * that agree with ray tracing on every subset of the mask.
 *
 * Bit s of a bitboard is square s, counted from a8 = 0 to h1 = 63.
 */
module Magic {
  type Bitboard = bv64

  type Square = s: int | 0 <= s < 64

  /** Every square of `x` is a square of `mask` (`x & mask == x`). */
  predicate IsSubset(x: Bitboard, mask: Bitboard)
  {
    x | mask == mask
  }

  /**
   * One piece kind's arrays: `masks[sq]`, `magicNumbers[sq]`,
   * `relevantBits[sq]` and the table row `attacks[sq]`, which has one
   * slot for every index below 2^maxBits (512 slots for the bishop, 4096
   * for the rook).
   */
  datatype MagicTable = MagicTable(masks: seq<Bitboard>, magicNumbers: seq<Bitboard>,
                                   relevantBits: seq<bv64>, attacks: seq<map<bv64, Bitboard>>)
  {
    ghost predicate Valid(maxBits: bv64)
    {
      0 < maxBits < 64 &&
      |masks| == 64 && |magicNumbers| == 64 && |relevantBits| == 64 && |attacks| == 64 &&
      forall sq | 0 <= sq < 64 ::
        0 < relevantBits[sq] <= maxBits &&
        forall i: bv64 :: i in attacks[sq] <==> i < (1 as bv64) << maxBits
    }
  }

  /** The bishop and rook arrays the engine declares: `[64][512]` and `[64][4096]`. */
  datatype SliderTables = SliderTables(bishop: MagicTable, rook: MagicTable)
  {
    ghost predicate Valid()
    {
      bishop.Valid(9) && rook.Valid(12)
    }
  }

  /**
   * The low 64 bits of `a * b` (C++ `uint64_t` multiplication), by
   * shift-and-add over the lowest `k` bits of `b`.
   */
  function WrappingProduct(a: bv64, b: bv64, k: nat): (r: bv64)
    ensures r & 1 == if k > 0 && b & 1 == 1 then a & 1 else 0
    decreases k
  {
    if k == 0 then 0 else WrappingProduct(a << 1, b >> 1, k - 1) + (if b & 1 == 1 then a else 0)
  }

  /**
   * Lines 8-10 and 19-21: mask, wrapping multiply, shift.  The index has
   * at most `bits` significant bits, so it addresses a table of 2^bits
   * entries.
   */
  function MagicIndex(occupancy: Bitboard, mask: Bitboard, magic: Bitboard, bits: bv64): (r: bv64)
    requires 0 < bits < 64
    ensures r < (1 as bv64) << bits
  {
    WrappingProduct(occupancy & mask, magic, 64) >> (64 - bits)
  }

  lemma RelevantBitsInRange(table: MagicTable, maxBits: bv64, sq: Square)
    requires table.Valid(maxBits)
    ensures 0 < table.relevantBits[sq] < 64
  {
  }

  lemma IndexBelow(i: bv64, bits: bv64, maxBits: bv64)
    requires 0 < bits <= maxBits < 64 && i < (1 as bv64) << bits
    ensures i < (1 as bv64) << maxBits
  {
  }

  /** A table row with room for `maxBits` bits takes every index of at most `relevantBits[sq]` bits. */
  lemma IndexInTable(table: MagicTable, maxBits: bv64, sq: Square, i: bv64)
    requires table.Valid(maxBits) && i < (1 as bv64) << table.relevantBits[sq]
    ensures i in table.attacks[sq]
  {
    IndexBelow(i, table.relevantBits[sq], maxBits);
  }

  /** The index lines 8-10 (or 19-21) compute for `sq`; it always lies inside the table row. */
  function TableIndex(table: MagicTable, maxBits: bv64, sq: Square, occupancy: Bitboard): (r: bv64)
    requires table.Valid(maxBits)
    ensures r in table.attacks[sq]
  {
    RelevantBitsInRange(table, maxBits, sq);
    var i := MagicIndex(occupancy, table.masks[sq], table.magicNumbers[sq], table.relevantBits[sq]);
    IndexInTable(table, maxBits, sq, i);
    i
  }

  /** Lines 6-14 and 17-25, for either piece kind. */
  function Lookup(table: MagicTable, maxBits: bv64, sq: Square, occupancy: Bitboard): (r: Bitboard)
    requires table.Valid(maxBits)
    ensures exists i :: i in table.attacks[sq] && r == table.attacks[sq][i]
  {
    table.attacks[sq][TableIndex(table, maxBits, sq, occupancy)]
  }

  /** `GetBishopAttacks` (lines 6-14). */
  function GetBishopAttacks(t: SliderTables, sq: Square, occupancy: Bitboard): (r: Bitboard)
    requires t.Valid()
    ensures exists i :: i in t.bishop.attacks[sq] && r == t.bishop.attacks[sq][i]
  {
    Lookup(t.bishop, 9, sq, occupancy)
  }

  /** `GetRookAttacks` (lines 17-25). */
  function GetRookAttacks(t: SliderTables, sq: Square, occupancy: Bitboard): (r: Bitboard)
    requires t.Valid()
    ensures exists i :: i in t.rook.attacks[sq] && r == t.rook.attacks[sq][i]
  {
    Lookup(t.rook, 12, sq, occupancy)
  }

  /** `GetQueenAttacks` (lines 28-30): a queen attacks everything a bishop or a rook on its square does. */
  function GetQueenAttacks(t: SliderTables, sq: Square, occupancy: Bitboard): (r: Bitboard)
    requires t.Valid()
    ensures IsSubset(GetBishopAttacks(t, sq, occupancy), r) && IsSubset(GetRookAttacks(t, sq, occupancy), r)
  {
    var bishop, rook := GetBishopAttacks(t, sq, occupancy), GetRookAttacks(t, sq, occupancy);
    SubsetOfUnion(bishop, rook);
    bishop | rook
  }

  /** Masking twice is masking once. */
  lemma MaskIdempotent(occupancy: Bitboard, mask: Bitboard)
    ensures (occupancy & mask) & mask == occupancy & mask
  {
  }

  /** A lookup sees the occupancy only through the square's mask. */
  lemma LookupMasked(table: MagicTable, maxBits: bv64, sq: Square, occupancy: Bitboard)
    requires table.Valid(maxBits)
    ensures Lookup(table, maxBits, sq, occupancy & table.masks[sq]) == Lookup(table, maxBits, sq, occupancy)
  {
    MaskIdempotent(occupancy, table.masks[sq]);
  }

  lemma BishopAttacksMasked(t: SliderTables, sq: Square, occupancy: Bitboard)
    requires t.Valid()
    ensures GetBishopAttacks(t, sq, occupancy & t.bishop.masks[sq]) == GetBishopAttacks(t, sq, occupancy)
  {
    LookupMasked(t.bishop, 9, sq, occupancy);
  }

  lemma RookAttacksMasked(t: SliderTables, sq: Square, occupancy: Bitboard)
    requires t.Valid()
    ensures GetRookAttacks(t, sq, occupancy & t.rook.masks[sq]) == GetRookAttacks(t, sq, occupancy)
  {
    LookupMasked(t.rook, 12, sq, occupancy);
  }

  // ---------------------------------------------------------------------
  // The reference: attacks traced square by square along each ray.

  datatype Direction = North | South | East | West | NorthEast | NorthWest | SouthEast | SouthWest

  /** The bit of the next square in direction `d` (north is towards rank 8, i.e. 8 bits down). */
  function StepBit(d: Direction, b: Bitboard): Bitboard
  {
    match d
    case North => b >> 8
    case South => b << 8
    case East => b << 1
    case West => b >> 1
    case NorthEast => b >> 7
    case NorthWest => b >> 9
    case SouthEast => b << 9
    case SouthWest => b << 7
  }

  function Min(a: int, b: int): int { if a < b then a else b }

  /** How many squares lie between `sq` and the board's edge in direction `d`. */
  function Reach(d: Direction, sq: Square): nat
  {
    var row, file := sq / 8, sq % 8;
    match d
    case North => row
    case South => 7 - row
    case East => 7 - file
    case West => file
    case NorthEast => Min(row, 7 - file)
    case NorthWest => Min(row, file)
    case SouthEast => Min(7 - row, 7 - file)
    case SouthWest => Min(7 - row, file)
  }

  /** The bitboard holding only `sq`: 1 shifted left `sq` times. */
  function SquareBit(sq: Square): Bitboard
  {
    if sq == 0 then 1 else SquareBit(sq - 1) << 1
  }

  /** The next square joins the attacks; the ray goes on past it only if it is empty. */
  function Extend(next: Bitboard, occupancy: Bitboard, rest: Bitboard): Bitboard
  {
    if occupancy & next != 0 then next else next | rest
  }

  /** The `n` squares after `b` in direction `d`, up to and including the first occupied one. */
  function RayAttacks(d: Direction, n: nat, b: Bitboard, occupancy: Bitboard): Bitboard
  {
    if n == 0 then 0
    else
      var next := StepBit(d, b);
      Extend(next, occupancy, RayAttacks(d, n - 1, next, occupancy))
  }

  /** The squares of the same ray whose occupancy can matter: all but the last. */
  function RayMask(d: Direction, n: nat, b: Bitboard): Bitboard
  {
    if n <= 1 then 0
    else
      var next := StepBit(d, b);
      next | RayMask(d, n - 1, next)
  }

  function Ray(d: Direction, sq: Square, occupancy: Bitboard): Bitboard
  {
    RayAttacks(d, Reach(d, sq), SquareBit(sq), occupancy)
  }

  function RelevantRay(d: Direction, sq: Square): Bitboard
  {
    RayMask(d, Reach(d, sq), SquareBit(sq))
  }

  const BishopDirections: seq<Direction> := [NorthEast, NorthWest, SouthEast, SouthWest]
  const RookDirections: seq<Direction> := [North, South, East, West]

  function UnionOf(bs: seq<Bitboard>): Bitboard
  {
    if |bs| == 0 then 0 else bs[0] | UnionOf(bs[1..])
  }

  /** The rays from `sq` in the directions `ds`, one bitboard each. */
  function Rays(ds: seq<Direction>, sq: Square, occupancy: Bitboard): seq<Bitboard>
  {
    seq(|ds|, i requires 0 <= i < |ds| => Ray(ds[i], sq, occupancy))
  }

  function RelevantRays(ds: seq<Direction>, sq: Square): seq<Bitboard>
  {
    seq(|ds|, i requires 0 <= i < |ds| => RelevantRay(ds[i], sq))
  }

  /** The squares a bishop on `sq` attacks, by ray tracing. */
  function BishopReference(sq: Square, occupancy: Bitboard): Bitboard
  {
    UnionOf(Rays(BishopDirections, sq, occupancy))
  }

  /** The squares a rook on `sq` attacks, by ray tracing. */
  function RookReference(sq: Square, occupancy: Bitboard): Bitboard
  {
    UnionOf(Rays(RookDirections, sq, occupancy))
  }

  /** The bishop's relevance mask: its four rays without their edge squares. */
  function BishopMask(sq: Square): Bitboard
  {
    UnionOf(RelevantRays(BishopDirections, sq))
  }

  /** The rook's relevance mask: its four rays without their edge squares. */
  function RookMask(sq: Square): Bitboard
  {
    UnionOf(RelevantRays(RookDirections, sq))
  }

  lemma SubsetSplit(next: Bitboard, rest: Bitboard, mask: Bitboard)
    requires IsSubset(next | rest, mask)
    ensures IsSubset(next, mask) && IsSubset(rest, mask)
  {
  }

  lemma SubsetOfUnion(a: Bitboard, b: Bitboard)
    ensures IsSubset(a, a | b) && IsSubset(b, a | b)
  {
  }

  lemma SubsetGrow(x: Bitboard, a: Bitboard, b: Bitboard)
    requires IsSubset(x, b)
    ensures IsSubset(x, a | b)
  {
  }

  lemma RayMaskTail(d: Direction, n: nat, b: Bitboard, mask: Bitboard)
    requires n > 1 && IsSubset(RayMask(d, n, b), mask)
    ensures IsSubset(StepBit(d, b), mask) && IsSubset(RayMask(d, n - 1, StepBit(d, b)), mask)
  {
    SubsetSplit(StepBit(d, b), RayMask(d, n - 1, StepBit(d, b)), mask);
  }

  lemma ExtendMasked(next: Bitboard, occupancy: Bitboard, mask: Bitboard, rest: Bitboard)
    requires IsSubset(next, mask)
    ensures Extend(next, occupancy & mask, rest) == Extend(next, occupancy, rest)
  {
    assert (occupancy & mask) & next == occupancy & next;
  }

  /** The last square of a ray is attacked whether or not it is occupied. */
  lemma LastSquareMasked(d: Direction, b: Bitboard, occupancy: Bitboard, mask: Bitboard)
    ensures RayAttacks(d, 1, b, occupancy & mask) == RayAttacks(d, 1, b, occupancy)
  {
    var next := StepBit(d, b);
    assert RayAttacks(d, 0, next, occupancy & mask) == 0;
    assert RayAttacks(d, 0, next, occupancy) == 0;
    assert Extend(next, occupancy & mask, 0) == next;
    assert Extend(next, occupancy, 0) == next;
  }

  lemma InnerSquareMasked(d: Direction, n: nat, b: Bitboard, occupancy: Bitboard, mask: Bitboard)
    requires n > 1 && IsSubset(StepBit(d, b), mask)
    requires RayAttacks(d, n - 1, StepBit(d, b), occupancy & mask) == RayAttacks(d, n - 1, StepBit(d, b), occupancy)
    ensures RayAttacks(d, n, b, occupancy & mask) == RayAttacks(d, n, b, occupancy)
  {
    var next := StepBit(d, b);
    ExtendMasked(next, occupancy, mask, RayAttacks(d, n - 1, next, occupancy));
  }

  /** Masking the occupancy with anything that covers the ray's relevant squares leaves the ray unchanged. */
  lemma {:induction false} RayAttacksMasked(d: Direction, n: nat, b: Bitboard, occupancy: Bitboard, mask: Bitboard)
    requires IsSubset(RayMask(d, n, b), mask)
    ensures RayAttacks(d, n, b, occupancy & mask) == RayAttacks(d, n, b, occupancy)
  {
    if n == 1 {
      LastSquareMasked(d, b, occupancy, mask);
    } else if n > 1 {
      RayMaskTail(d, n, b, mask);
      RayAttacksMasked(d, n - 1, StepBit(d, b), occupancy, mask);
      InnerSquareMasked(d, n, b, occupancy, mask);
    }
  }

  lemma RayMasked(d: Direction, sq: Square, occupancy: Bitboard, mask: Bitboard)
    requires IsSubset(RelevantRay(d, sq), mask)
    ensures Ray(d, sq, occupancy & mask) == Ray(d, sq, occupancy)
  {
    RayAttacksMasked(d, Reach(d, sq), SquareBit(sq), occupancy, mask);
  }

  /** Each member of a union lies inside it. */
  lemma {:induction false} UnionCovers(bs: seq<Bitboard>, i: nat)
    requires i < |bs|
    ensures IsSubset(bs[i], UnionOf(bs))
  {
    SubsetOfUnion(bs[0], UnionOf(bs[1..]));
    if i > 0 {
      UnionCovers(bs[1..], i - 1);
      SubsetGrow(bs[i], bs[0], UnionOf(bs[1..]));
    }
  }

  /** Masking the occupancy with anything that covers every ray's relevant squares leaves every ray unchanged. */
  lemma RaysMasked(ds: seq<Direction>, sq: Square, occupancy: Bitboard, mask: Bitboard)
    requires forall i | 0 <= i < |ds| :: IsSubset(RelevantRays(ds, sq)[i], mask)
    ensures Rays(ds, sq, occupancy & mask) == Rays(ds, sq, occupancy)
  {
    forall i | 0 <= i < |ds|
      ensures Rays(ds, sq, occupancy & mask)[i] == Rays(ds, sq, occupancy)[i]
    {
      assert RelevantRays(ds, sq)[i] == RelevantRay(ds[i], sq);
      RayMasked(ds[i], sq, occupancy, mask);
    }
  }

  /** Ray tracing, too, sees the occupancy only through the bishop mask. */
  lemma BishopReferenceMasked(sq: Square, occupancy: Bitboard, mask: Bitboard)
    requires mask == BishopMask(sq)
    ensures BishopReference(sq, occupancy & mask) == BishopReference(sq, occupancy)
  {
    var relevant := RelevantRays(BishopDirections, sq);
    forall i | 0 <= i < |relevant|
      ensures IsSubset(relevant[i], BishopMask(sq))
    {
      UnionCovers(relevant, i);
    }
    RaysMasked(BishopDirections, sq, occupancy, BishopMask(sq));
  }

  /** Ray tracing sees the occupancy only through the rook mask. */
  lemma RookReferenceMasked(sq: Square, occupancy: Bitboard, mask: Bitboard)
    requires mask == RookMask(sq)
    ensures RookReference(sq, occupancy & mask) == RookReference(sq, occupancy)
  {
    var relevant := RelevantRays(RookDirections, sq);
    forall i | 0 <= i < |relevant|
      ensures IsSubset(relevant[i], RookMask(sq))
    {
      UnionCovers(relevant, i);
    }
    RaysMasked(RookDirections, sq, occupancy, RookMask(sq));
  }

  /**
   * What the generator must have produced for `sq`: the ray-traced mask,
   * and a table that holds the ray-traced attacks for every subset of it.
   */
  ghost predicate BishopTableCorrect(t: SliderTables, sq: Square)
    requires t.Valid()
  {
    t.bishop.masks[sq] == BishopMask(sq) &&
    forall sub :: IsSubset(sub, t.bishop.masks[sq]) ==> Lookup(t.bishop, 9, sq, sub) == BishopReference(sq, sub)
  }

  ghost predicate RookTableCorrect(t: SliderTables, sq: Square)
    requires t.Valid()
  {
    t.rook.masks[sq] == RookMask(sq) &&
    forall sub :: IsSubset(sub, t.rook.masks[sq]) ==> Lookup(t.rook, 12, sq, sub) == RookReference(sq, sub)
  }

  lemma MaskedIsSubset(occupancy: Bitboard, mask: Bitboard)
    ensures IsSubset(occupancy & mask, mask)
  {
  }

  /** A correct table answers every subset of the mask by ray tracing. */
  lemma BishopTableAt(t: SliderTables, sq: Square, sub: Bitboard)
    requires t.Valid() && BishopTableCorrect(t, sq) && IsSubset(sub, t.bishop.masks[sq])
    ensures GetBishopAttacks(t, sq, sub) == BishopReference(sq, sub)
  {
  }

  /** In particular it answers the masked occupancy by ray tracing. */
  lemma BishopTableAtMasked(t: SliderTables, sq: Square, occupancy: Bitboard)
    requires t.Valid() && BishopTableCorrect(t, sq)
    ensures GetBishopAttacks(t, sq, occupancy & t.bishop.masks[sq]) == BishopReference(sq, occupancy & t.bishop.masks[sq])
  {
    MaskedIsSubset(occupancy, t.bishop.masks[sq]);
    BishopTableAt(t, sq, occupancy & t.bishop.masks[sq]);
  }

  lemma RookTableAt(t: SliderTables, sq: Square, sub: Bitboard)
    requires t.Valid() && RookTableCorrect(t, sq) && IsSubset(sub, t.rook.masks[sq])
    ensures GetRookAttacks(t, sq, sub) == RookReference(sq, sub)
  {
  }

  /** In particular it answers the masked occupancy by ray tracing. */
  lemma RookTableAtMasked(t: SliderTables, sq: Square, occupancy: Bitboard)
    requires t.Valid() && RookTableCorrect(t, sq)
    ensures GetRookAttacks(t, sq, occupancy & t.rook.masks[sq]) == RookReference(sq, occupancy & t.rook.masks[sq])
  {
    MaskedIsSubset(occupancy, t.rook.masks[sq]);
    RookTableAt(t, sq, occupancy & t.rook.masks[sq]);
  }

  /** The table's mask is the ray-traced one, so ray tracing sees the occupancy only through it. */
  lemma BishopReferenceMaskedByTable(t: SliderTables, sq: Square, occupancy: Bitboard)
    requires t.Valid() && BishopTableCorrect(t, sq)
    ensures BishopReference(sq, occupancy & t.bishop.masks[sq]) == BishopReference(sq, occupancy)
  {
    BishopReferenceMasked(sq, occupancy, t.bishop.masks[sq]);
  }

  /** With correctly generated tables the bishop lookup is ray tracing, for every occupancy. */
  lemma GetBishopAttacksCorrect(t: SliderTables, sq: Square, occupancy: Bitboard)
    requires t.Valid() && BishopTableCorrect(t, sq)
    ensures GetBishopAttacks(t, sq, occupancy) == BishopReference(sq, occupancy)
  {
    BishopTableAtMasked(t, sq, occupancy);
    BishopAttacksMasked(t, sq, occupancy);
    BishopReferenceMaskedByTable(t, sq, occupancy);
  }

  /** The table's mask is the ray-traced one, so ray tracing sees the occupancy only through it. */
  lemma RookReferenceMaskedByTable(t: SliderTables, sq: Square, occupancy: Bitboard)
    requires t.Valid() && RookTableCorrect(t, sq)
    ensures RookReference(sq, occupancy & t.rook.masks[sq]) == RookReference(sq, occupancy)
  {
    RookReferenceMasked(sq, occupancy, t.rook.masks[sq]);
  }

  /** With correctly generated tables the rook lookup is ray tracing, for every occupancy. */
  lemma GetRookAttacksCorrect(t: SliderTables, sq: Square, occupancy: Bitboard)
    requires t.Valid() && RookTableCorrect(t, sq)
    ensures GetRookAttacks(t, sq, occupancy) == RookReference(sq, occupancy)
  {
    RookTableAtMasked(t, sq, occupancy);
    RookAttacksMasked(t, sq, occupancy);
    RookReferenceMaskedByTable(t, sq, occupancy);
  }

  /** With both tables correct the queen lookup is the union of the two ray-traced sets. */
  lemma GetQueenAttacksCorrect(t: SliderTables, sq: Square, occupancy: Bitboard)
    requires t.Valid() && BishopTableCorrect(t, sq) && RookTableCorrect(t, sq)
    ensures GetQueenAttacks(t, sq, occupancy) == BishopReference(sq, occupancy) | RookReference(sq, occupancy)
  {
    GetBishopAttacksCorrect(t, sq, occupancy);
    GetRookAttacksCorrect(t, sq, occupancy);
  }
}
