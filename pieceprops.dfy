/**
 * What the make-move primitives promise: each touches one square, keeps
 * the board invariant when the square holds what it should, and keeps
 * `posKey` equal to the from-scratch Zobrist hash.
 */
module PieceProps {
  import opened Keys
  import opened Types
  import opened BoardState
  import opened MoveSpec

  /** `ClearPiece` changes square `sq` only, in every bitboard it touches. */
  lemma ClearPieceTouchesOnlySquare(t: Tables, p: Position, piece: int, sq: Square)
    requires t.Valid() && p.WellFormed() && IsPiece(piece)
    ensures var r := ClearPiece(t, p, piece, sq);
      (forall k, s | 0 <= k < 12 && 0 <= s < 64 ::
         s in r.bitboards[k] <==> s in p.bitboards[k] && !(k == piece && s == sq)) &&
      (forall c, s | 0 <= c < 3 && 0 <= s < 64 ::
         s in r.occupancies[c] <==> s in p.occupancies[c] && !(s == sq && (c == BOTH || c == PieceColor(piece)))) &&
      r.pieces[sq] == EMPTY && (forall s | 0 <= s < 64 && s != sq :: r.pieces[s] == p.pieces[s])
  {
  }

  /** `AddPiece` changes square `sq` only, in every bitboard it touches. */
  lemma AddPieceTouchesOnlySquare(t: Tables, p: Position, piece: int, sq: Square)
    requires t.Valid() && p.WellFormed() && IsPiece(piece)
    ensures var r := AddPiece(t, p, piece, sq);
      (forall k, s | 0 <= k < 12 && 0 <= s < 64 ::
         s in r.bitboards[k] <==> s in p.bitboards[k] || (k == piece && s == sq)) &&
      (forall c, s | 0 <= c < 3 && 0 <= s < 64 ::
         s in r.occupancies[c] <==> s in p.occupancies[c] || (s == sq && (c == BOTH || c == PieceColor(piece)))) &&
      r.pieces[sq] == piece && (forall s | 0 <= s < 64 && s != sq :: r.pieces[s] == p.pieces[s])
  {
  }

  /** Clearing a square that holds `piece`, or nothing, keeps the board consistent. */
  lemma ClearPieceKeepsConsistent(t: Tables, p: Position, piece: int, sq: Square)
    requires t.Valid() && Consistent(p) && IsPiece(piece) && (p.pieces[sq] == piece || p.pieces[sq] == EMPTY)
    ensures Consistent(ClearPiece(t, p, piece, sq))
  {
    var r := ClearPiece(t, p, piece, sq);
    forall k | 0 <= k < 12
      ensures r.bitboards[k] == PieceSquares(r.pieces, k)
    {
      PieceSquaresUpdate(p.pieces, sq, EMPTY, k);
    }
    ColorUnionRemove(p.bitboards, piece, sq, WHITE);
    ColorUnionRemove(p.bitboards, piece, sq, BLACK);
    assert r.occupancies[WHITE] == ColorUnion(r.bitboards, WHITE);
    assert r.occupancies[BLACK] == ColorUnion(r.bitboards, BLACK);
    assert r.occupancies[BOTH] == ColorUnion(r.bitboards, WHITE) + ColorUnion(r.bitboards, BLACK);
  }

  /** Adding a piece on an empty square keeps the board consistent. */
  lemma AddPieceKeepsConsistent(t: Tables, p: Position, piece: int, sq: Square)
    requires t.Valid() && Consistent(p) && IsPiece(piece) && p.pieces[sq] == EMPTY
    ensures Consistent(AddPiece(t, p, piece, sq))
  {
    var r := AddPiece(t, p, piece, sq);
    forall k | 0 <= k < 12
      ensures r.bitboards[k] == PieceSquares(r.pieces, k)
    {
      PieceSquaresUpdate(p.pieces, sq, piece, k);
    }
    ColorUnionAdd(p.bitboards, piece, sq, WHITE);
    ColorUnionAdd(p.bitboards, piece, sq, BLACK);
    assert r.occupancies[WHITE] == ColorUnion(r.bitboards, WHITE);
    assert r.occupancies[BLACK] == ColorUnion(r.bitboards, BLACK);
    assert r.occupancies[BOTH] == ColorUnion(r.bitboards, WHITE) + ColorUnion(r.bitboards, BLACK);
  }

  lemma MovePieceKeepsConsistent(t: Tables, p: Position, piece: int, from: Square, to: Square)
    requires t.Valid() && Consistent(p) && IsPiece(piece) && p.pieces[from] == piece && p.pieces[to] == EMPTY
    ensures Consistent(MovePiece(t, p, piece, from, to))
  {
    ClearPieceKeepsConsistent(t, p, piece, from);
    AddPieceKeepsConsistent(t, ClearPiece(t, p, piece, from), piece, to);
  }

  /** Clearing the piece that stands on `sq` keeps `posKey` equal to the hash. */
  lemma ClearPieceKeepsKey(t: Tables, p: Position, piece: int, sq: Square)
    requires t.Valid() && KeyValid(t, p) && IsPiece(piece) && p.pieces[sq] == piece
    ensures KeyValid(t, ClearPiece(t, p, piece, sq))
  {
    var r := ClearPiece(t, p, piece, sq);
    var k := t.pieceKeys[piece][sq];
    PiecesHashUpdate(t, p.pieces, sq, EMPTY);
    XorZero(Xor(PiecesHash(t, p.pieces, 0, 64), k));
    XorFourToggle(PiecesHash(t, p.pieces, 0, 64), t.castleKeys[p.castleperm], EnPassantKey(t, p.enPas), SideHash(t, p.side), k);
  }

  /** Adding a piece on an empty square keeps `posKey` equal to the hash. */
  lemma AddPieceKeepsKey(t: Tables, p: Position, piece: int, sq: Square)
    requires t.Valid() && KeyValid(t, p) && IsPiece(piece) && p.pieces[sq] == EMPTY
    ensures KeyValid(t, AddPiece(t, p, piece, sq))
  {
    var r := AddPiece(t, p, piece, sq);
    var k := t.pieceKeys[piece][sq];
    PiecesHashUpdate(t, p.pieces, sq, piece);
    XorZero(PiecesHash(t, p.pieces, 0, 64));
    XorFourToggle(PiecesHash(t, p.pieces, 0, 64), t.castleKeys[p.castleperm], EnPassantKey(t, p.enPas), SideHash(t, p.side), k);
  }

  lemma MovePieceKeepsKey(t: Tables, p: Position, piece: int, from: Square, to: Square)
    requires t.Valid() && KeyValid(t, p) && IsPiece(piece) && p.pieces[from] == piece && p.pieces[to] == EMPTY
    ensures KeyValid(t, MovePiece(t, p, piece, from, to))
  {
    ClearPieceKeepsKey(t, p, piece, from);
    AddPieceKeepsKey(t, ClearPiece(t, p, piece, from), piece, to);
  }

  /** Trading the castling key keeps `posKey` equal to the hash. */
  lemma UpdateCastlingPermsKeepsKey(t: Tables, p: Position, source: Square, target: Square)
    requires t.Valid() && KeyValid(t, p)
    ensures KeyValid(t, UpdateCastlingPerms(t, p, source, target))
  {
    var r := UpdateCastlingPerms(t, p, source, target);
    var a, c, d := PiecesHash(t, p.pieces, 0, 64), EnPassantKey(t, p.enPas), SideHash(t, p.side);
    var b0, b1 := t.castleKeys[p.castleperm], t.castleKeys[r.castleperm];
    XorSelf(b0);
    XorZero(b1);
    XorFourToggle(a, b0, c, d, b0);
    XorFourToggle(a, Xor(b0, b0), c, d, b1);
  }

  /** Dropping and setting the en-passant square keeps `posKey` equal to the hash. */
  lemma UpdateEnPassantKeepsKey(t: Tables, p: Position, m: Move, north: int)
    requires t.Valid() && KeyValid(t, p) && (m.doublePush ==> 0 <= m.to + north < 64)
    ensures KeyValid(t, UpdateEnPassant(t, p, m, north))
  {
    var r := UpdateEnPassant(t, p, m, north);
    var a, b, d := PiecesHash(t, p.pieces, 0, 64), t.castleKeys[p.castleperm], SideHash(t, p.side);
    var c0, c1 := EnPassantKey(t, p.enPas), EnPassantKey(t, r.enPas);
    XorSelf(c0);
    XorZero(c1);
    XorFourToggle(a, b, c0, d, c0);
    XorFourToggle(a, b, Xor(c0, c0), d, c1);
  }

  /** Passing the turn toggles the side key in and keeps `posKey` equal to the hash. */
  lemma PassTurnKeepsKey(t: Tables, p: Position)
    requires t.Valid() && KeyValid(t, p)
    ensures KeyValid(t, PassTurn(t, p))
  {
    var r := PassTurn(t, p);
    var a, b, c := PiecesHash(t, p.pieces, 0, 64), t.castleKeys[p.castleperm], EnPassantKey(t, p.enPas);
    var d0 := SideHash(t, p.side);
    XorZero(t.sideKey);
    XorSelf(t.sideKey);
    XorFourToggle(a, b, c, d0, t.sideKey);
  }
}
