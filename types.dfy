/**
 * Board vocabulary shared by the move-application model: squares, pieces,
 * colours, the decoded move record, the per-ply undo record and the
 * constant tables (Zobrist keys, castling masks and the NNUE network).
 *
 * Squares are numbered from the a8 corner: a8 = 0, h8 = 7, a1 = 56,
 * h1 = 63, so "north" for White is +8 in this model's sense that a white
 * double push from rank 2 leaves its en-passant square at target + 8.
 */
module Types {
  import opened Keys

  type Square = s: int | 0 <= s < 64

  /** What a square holds: a piece WP .. BK (0 .. 11) or EMPTY (12). */
  type Content = c: int | 0 <= c <= 12

  /** A colour that can be to move. */
  type Color = c: int | 0 <= c <= 1

  /** An en-passant square, or NO_SQ (64) when there is none. */
  type EpSquare = s: int | 0 <= s <= 64

  /** A set of squares: the squares whose bit is set in a 64-bit bitboard. */
  type Bitboard = set<Square>

  const NO_SQ := 64

  // colours
  const WHITE := 0
  const BLACK := 1
  const BOTH := 2

  // piece types
  const PAWN := 0
  const ROOK := 3

  // pieces, WP .. BK, and the empty marker
  const WP := 0
  const WR := 3
  const BR := 9
  const EMPTY := 12

  // the squares named by castling
  const A8: Square := 0
  const C8: Square := 2
  const D8: Square := 3
  const F8: Square := 5
  const G8: Square := 6
  const H8: Square := 7
  const A1: Square := 56
  const C1: Square := 58
  const D1: Square := 59
  const F1: Square := 61
  const G1: Square := 62
  const H1: Square := 63

  predicate IsPiece(p: int) { 0 <= p < 12 }

  /** The piece of type `pieceType` and colour `color`. */
  function GetPiece(pieceType: int, color: int): int
  {
    pieceType + 6 * color
  }

  /** The colour of a piece (the engine's `Color[]` table). */
  function PieceColor(piece: int): int
    requires IsPiece(piece)
  {
    piece / 6
  }

  function GetPieceType(piece: int): int
    requires IsPiece(piece)
  {
    piece % 6
  }

  /** One step towards the opponent's side for `side`'s pawns. */
  function North(side: Color): int
  {
    if side == WHITE then 8 else -8
  }

  /**
   * A decoded move: the fields the engine extracts from its packed integer
   * with `From`, `To`, `Piece`, `getPromotedPiecetype` and the flag tests.
   */
  datatype Move = Move(
    from: Square,
    to: Square,
    piece: int,
    promotedType: int,
    capture: bool,
    doublePush: bool,
    enPassant: bool,
    castle: bool,
    promotion: bool)

  /** One `history[]` entry: what a move cannot recompute when it is taken back. */
  datatype Undo = Undo(fiftyMove: int, enPas: EpSquare, castlePerm: bv4, checkers: bool, capture: Content)

  /** The NNUE accumulator; its contents are left to the network. */
  type Accumulator = int

  /**
   * The NNUE network's incremental updates `nnue.clear`, `nnue.add` and
   * `nnue.move`: how the accumulator changes when a piece leaves a square,
   * arrives on one, or moves between two.  The network itself is not part
   * of this model, so the updates are unknown functions.
   */
  datatype Network = Network(
    clear: (Accumulator, int, Square) -> Accumulator,
    add: (Accumulator, int, Square) -> Accumulator,
    move: (Accumulator, int, Square, Square) -> Accumulator)

  /** The global constant tables the make-move code reads. */
  datatype Tables = Tables(
    pieceKeys: seq<seq<Key>>,
    castleKeys: seq<Key>,
    enpassantKeys: seq<Key>,
    sideKey: Key,
    castlingRights: seq<bv4>,
    nnue: Network)
  {
    predicate Valid()
    {
      |pieceKeys| == 12 && (forall k | 0 <= k < 12 :: |pieceKeys[k]| == 64) &&
      |castleKeys| == 16 && |enpassantKeys| == 64 && |castlingRights| == 64
    }
  }
}
