/**
 * The state a move changes (the engine's `S_Board`) as a value, the board
 * invariants the make/unmake code relies on, and the from-scratch Zobrist
 * hash that the incrementally maintained `posKey` must equal.
 */
module BoardState {
  import opened Keys
  import opened Types

  datatype Position = Position(
    bitboards: seq<Bitboard>,
    occupancies: seq<Bitboard>,
    pieces: seq<Content>,
    side: Color,
    castleperm: bv4,
    enPas: EpSquare,
    fiftyMove: int,
    checkers: bool,
    posKey: Key,
    hisPly: int,
    history: seq<Undo>,
    playedPositions: seq<Key>,
    accumulator: Accumulator,
    accumulatorStack: seq<Accumulator>)
  {
    /** Shapes and ranges every operation needs to index its arrays. */
    predicate WellFormed()
    {
      |bitboards| == 12 && |occupancies| == 3 && |pieces| == 64 && 0 <= hisPly <= |history|
    }
  }

  /** The squares on which `pieces[]` has `piece`. */
  function PieceSquares(pieces: seq<Content>, piece: int): Bitboard
    requires |pieces| == 64
  {
    set s: Square | pieces[s] == piece
  }

  /** The squares occupied by pieces of `color`: the union of its six bitboards. */
  function ColorUnion(bitboards: seq<Bitboard>, color: Color): Bitboard
    requires |bitboards| == 12
  {
    var b := 6 * color;
    bitboards[b] + bitboards[b + 1] + bitboards[b + 2] + bitboards[b + 3] + bitboards[b + 4] + bitboards[b + 5]
  }

  /** The three occupancy planes: White's pieces, Black's pieces, both. */
  function OccupanciesOf(bitboards: seq<Bitboard>): seq<Bitboard>
    requires |bitboards| == 12
  {
    [ColorUnion(bitboards, WHITE), ColorUnion(bitboards, BLACK), ColorUnion(bitboards, WHITE) + ColorUnion(bitboards, BLACK)]
  }

  /**
   * The board invariant: each piece bitboard holds exactly the squares
   * `pieces[]` gives that piece, each colour's occupancy is the union of
   * its bitboards and BOTH is the union of the two colours.
   */
  predicate Consistent(p: Position)
  {
    p.WellFormed() &&
    (forall k | 0 <= k < 12 :: p.bitboards[k] == PieceSquares(p.pieces, k)) &&
    p.occupancies == OccupanciesOf(p.bitboards)
  }

  /** In a consistent position `pieces[]` determines the bitboards and the occupancies. */
  lemma ConsistentDetermined(a: Position, b: Position)
    requires Consistent(a) && Consistent(b) && a.pieces == b.pieces
    ensures a.bitboards == b.bitboards && a.occupancies == b.occupancies
  {
    assert forall k | 0 <= k < 12 :: a.bitboards[k] == b.bitboards[k];
  }

  /** Changing one square of `pieces[]` moves that square between two piece bitboards. */
  lemma PieceSquaresUpdate(pieces: seq<Content>, sq: Square, v: Content, k: int)
    requires |pieces| == 64
    ensures PieceSquares(pieces[sq := v], k) == if k == v then PieceSquares(pieces, k) + {sq} else PieceSquares(pieces, k) - {sq}
  {
  }

  /** Setting one square in one bitboard sets it in that piece's colour union only. */
  lemma ColorUnionAdd(bitboards: seq<Bitboard>, piece: int, sq: Square, c: Color)
    requires |bitboards| == 12 && IsPiece(piece)
    ensures ColorUnion(bitboards[piece := bitboards[piece] + {sq}], c)
         == if c == PieceColor(piece) then ColorUnion(bitboards, c) + {sq} else ColorUnion(bitboards, c)
  {
  }

  /** Clearing one square in one bitboard clears it in that piece's colour union. */
  lemma ColorUnionRemove(bitboards: seq<Bitboard>, piece: int, sq: Square, c: Color)
    requires |bitboards| == 12 && IsPiece(piece)
    requires forall k | 0 <= k < 12 && k != piece :: sq !in bitboards[k]
    ensures ColorUnion(bitboards[piece := bitboards[piece] - {sq}], c) == ColorUnion(bitboards, c) - {sq}
  {
  }

  /** The key a square contributes: its piece's key there, nothing when empty. */
  function SquareKey(t: Tables, piece: Content, sq: Square): Key
    requires t.Valid()
  {
    if IsPiece(piece) then t.pieceKeys[piece][sq] else 0
  }

  /** The XOR of the square keys of squares lo .. hi-1. */
  function PiecesHash(t: Tables, pieces: seq<Content>, lo: nat, hi: nat): Key
    requires t.Valid() && lo <= hi <= |pieces| <= 64
    decreases hi - lo
  {
    if lo == hi then 0 else Xor(SquareKey(t, pieces[lo], lo), PiecesHash(t, pieces, lo + 1, hi))
  }

  function EnPassantKey(t: Tables, enPas: EpSquare): Key
    requires t.Valid()
  {
    if enPas == NO_SQ then 0 else t.enpassantKeys[enPas]
  }

  function SideHash(t: Tables, side: Color): Key
    requires t.Valid()
  {
    if side == BLACK then t.sideKey else 0
  }

  /**
   * The Zobrist hash computed from scratch, this model's reference for
   * `posKey`: every piece on its square, the castling rights, the
   * en-passant square if any, and the side key when Black is to move.
   */
  function ZobristHash(t: Tables, p: Position): Key
    requires t.Valid() && p.WellFormed()
  {
    Xor(Xor(Xor(PiecesHash(t, p.pieces, 0, 64), t.castleKeys[p.castleperm]), EnPassantKey(t, p.enPas)), SideHash(t, p.side))
  }

  predicate KeyValid(t: Tables, p: Position)
    requires t.Valid()
  {
    p.WellFormed() && p.posKey == ZobristHash(t, p)
  }

  /** Both invariants the make/unmake code maintains: consistent representations and a valid key. */
  predicate Invariant(t: Tables, p: Position)
    requires t.Valid()
  {
    Consistent(p) && KeyValid(t, p)
  }

  /** Every Zobrist key in the tables is an `n`-bit word; the engine's keys are `uint64_t`, so `n` is 64 there. */
  predicate KeysFit(t: Tables, n: nat)
    requires t.Valid()
  {
    (forall k, sq | 0 <= k < 12 && 0 <= sq < 64 :: t.pieceKeys[k][sq] < Pow2(n)) &&
    (forall c | 0 <= c < 16 :: t.castleKeys[c] < Pow2(n)) &&
    (forall sq | 0 <= sq < 64 :: t.enpassantKeys[sq] < Pow2(n)) &&
    t.sideKey < Pow2(n)
  }

  /** With `n`-bit keys, the hash of any range of squares is an `n`-bit word. */
  lemma {:induction false} PiecesHashFits(t: Tables, n: nat, pieces: seq<Content>, lo: nat, hi: nat)
    requires t.Valid() && KeysFit(t, n) && lo <= hi <= |pieces| <= 64
    ensures PiecesHash(t, pieces, lo, hi) < Pow2(n)
    decreases hi - lo
  {
    if lo < hi {
      PiecesHashFits(t, n, pieces, lo + 1, hi);
      XorBelow(SquareKey(t, pieces[lo], lo), PiecesHash(t, pieces, lo + 1, hi), n);
    }
  }

  /**
   * With `n`-bit keys the from-scratch hash is an `n`-bit word, and so is
   * a valid `posKey`: for the engine's 64-bit keys, the natural-number
   * keys never need the wrap-around of `uint64_t`.
   */
  lemma ZobristHashFits(t: Tables, n: nat, p: Position)
    requires t.Valid() && KeysFit(t, n) && p.WellFormed()
    ensures ZobristHash(t, p) < Pow2(n)
    ensures KeyValid(t, p) ==> p.posKey < Pow2(n)
  {
    var pieces := PiecesHash(t, p.pieces, 0, 64);
    PiecesHashFits(t, n, p.pieces, 0, 64);
    XorBelow(pieces, t.castleKeys[p.castleperm], n);
    var withCastle := Xor(pieces, t.castleKeys[p.castleperm]);
    XorBelow(withCastle, EnPassantKey(t, p.enPas), n);
    XorBelow(Xor(withCastle, EnPassantKey(t, p.enPas)), SideHash(t, p.side), n);
  }

  /** Squares outside lo .. hi-1 do not contribute to that range's hash. */
  lemma {:induction false} PiecesHashFrame(t: Tables, pieces: seq<Content>, sq: Square, v: Content, lo: nat, hi: nat)
    requires t.Valid() && lo <= hi <= |pieces| == 64 && (sq < lo || hi <= sq)
    ensures PiecesHash(t, pieces[sq := v], lo, hi) == PiecesHash(t, pieces, lo, hi)
    decreases hi - lo
  {
    if lo < hi {
      PiecesHashFrame(t, pieces, sq, v, lo + 1, hi);
    }
  }

  lemma {:induction false} PiecesHashUpdateFrom(t: Tables, pieces: seq<Content>, sq: Square, v: Content, lo: nat)
    requires t.Valid() && |pieces| == 64 && lo <= sq
    ensures PiecesHash(t, pieces[sq := v], lo, 64)
         == Xor(Xor(PiecesHash(t, pieces, lo, 64), SquareKey(t, pieces[sq], sq)), SquareKey(t, v, sq))
    decreases sq - lo
  {
    var ko, kv := SquareKey(t, pieces[sq], sq), SquareKey(t, v, sq);
    var rest := PiecesHash(t, pieces, lo + 1, 64);
    if lo == sq {
      PiecesHashFrame(t, pieces, sq, v, sq + 1, 64);
      calc {
        Xor(Xor(Xor(ko, rest), ko), kv);
        { XorComm(ko, rest); XorCancel(rest, ko); }
        Xor(rest, kv);
        { XorComm(rest, kv); }
        Xor(kv, rest);
      }
    } else {
      PiecesHashUpdateFrom(t, pieces, sq, v, lo + 1);
      var a := SquareKey(t, pieces[lo], lo);
      calc {
        Xor(a, Xor(Xor(rest, ko), kv));
        { XorAssoc(a, Xor(rest, ko), kv); }
        Xor(Xor(a, Xor(rest, ko)), kv);
        { XorAssoc(a, rest, ko); }
        Xor(Xor(Xor(a, rest), ko), kv);
      }
    }
  }

  /** Replacing one square's content changes the board hash by that square's old and new keys. */
  lemma PiecesHashUpdate(t: Tables, pieces: seq<Content>, sq: Square, v: Content)
    requires t.Valid() && |pieces| == 64
    ensures PiecesHash(t, pieces[sq := v], 0, 64)
         == Xor(Xor(PiecesHash(t, pieces, 0, 64), SquareKey(t, pieces[sq], sq)), SquareKey(t, v, sq))
  {
    PiecesHashUpdateFrom(t, pieces, sq, v, 0);
  }

  /** Toggling a key into any of the four parts of the hash toggles it into the whole. */
  lemma XorFourToggle(a: Key, b: Key, c: Key, d: Key, k: Key)
    ensures Xor(Xor(Xor(Xor(a, k), b), c), d) == Xor(Xor(Xor(Xor(a, b), c), d), k)
    ensures Xor(Xor(Xor(a, Xor(b, k)), c), d) == Xor(Xor(Xor(Xor(a, b), c), d), k)
    ensures Xor(Xor(Xor(a, b), Xor(c, k)), d) == Xor(Xor(Xor(Xor(a, b), c), d), k)
    ensures Xor(Xor(Xor(a, b), c), Xor(d, k)) == Xor(Xor(Xor(Xor(a, b), c), d), k)
  {
    XorSwap(a, k, b);
    XorSwap(Xor(a, b), k, c);
    XorSwap(Xor(Xor(a, b), c), k, d);
    XorAssoc(a, b, k);
    XorAssoc(Xor(a, b), c, k);
    XorAssoc(Xor(Xor(a, b), c), d, k);
  }
}
