/**
 * What the null-move pair promises: `MakeNullMove` passes the turn
 * without touching the board, keeps the key valid, and `TakeNullMove`
 * restores everything it changed.
 */
module NullProps {
  import opened Keys
  import opened Types
  import opened BoardState
  import opened MoveSpec

  /**
   * Lines 373-389: the pieces, bitboards, castling rights, fifty-move
   * counter and checkers stay; the undo record and the key are saved; the
   * en-passant square is dropped with its key, the turn passes with the
   * side key, and the ply advances.
   */
  lemma MakeNullMoveRecords(t: Tables, p: Position)
    requires t.Valid() && p.WellFormed() && p.hisPly < |p.history|
    ensures var r := MakeNullMove(t, p);
      r.bitboards == p.bitboards && r.occupancies == p.occupancies && r.pieces == p.pieces &&
      r.castleperm == p.castleperm && r.fiftyMove == p.fiftyMove && r.checkers == p.checkers &&
      r.accumulator == p.accumulator && r.accumulatorStack == p.accumulatorStack &&
      r.history == p.history[p.hisPly := p.history[p.hisPly].(fiftyMove := p.fiftyMove, enPas := p.enPas,
                                                               castlePerm := p.castleperm, checkers := p.checkers)] &&
      r.playedPositions == p.playedPositions + [p.posKey] &&
      r.enPas == NO_SQ && r.side == Opponent(p.side) && r.hisPly == p.hisPly + 1 &&
      r.posKey == Xor(Xor(p.posKey, EnPassantKey(t, p.enPas)), t.sideKey)
  {
    XorZero(p.posKey);
  }

  /** A null move keeps the board consistent and `posKey` equal to the from-scratch hash. */
  lemma MakeNullMoveKeepsInvariants(t: Tables, p: Position)
    requires t.Valid() && Invariant(t, p) && p.hisPly < |p.history|
    ensures Invariant(t, MakeNullMove(t, p))
  {
    MakeNullMoveRecords(t, p);
    var a, b := PiecesHash(t, p.pieces, 0, 64), t.castleKeys[p.castleperm];
    var c0, d0 := EnPassantKey(t, p.enPas), SideHash(t, p.side);
    XorSelf(c0);
    XorFourToggle(a, b, c0, d0, c0);
    XorFourToggle(a, b, 0, d0, t.sideKey);
    XorZero(t.sideKey);
    XorSelf(t.sideKey);
  }

  /**
   * Lines 392-403: `TakeNullMove` steps the ply back, restores the
   * castling rights, fifty-move counter, en-passant square and checkers
   * from `history[hisPly - 1]`, gives the turn back and pops the key.
   */
  lemma TakeNullMoveRecords(t: Tables, q: Position)
    requires t.Valid() && q.WellFormed() && 0 < q.hisPly && |q.playedPositions| > 0
    ensures var u := TakeNullMove(t, q);
      var saved := q.history[q.hisPly - 1];
      var n := |q.playedPositions|;
      u.hisPly == q.hisPly - 1 && u.side == Opponent(q.side) &&
      u.castleperm == saved.castlePerm && u.fiftyMove == saved.fiftyMove &&
      u.enPas == saved.enPas && u.checkers == saved.checkers &&
      u.posKey == q.playedPositions[n - 1] && u.playedPositions == q.playedPositions[..n - 1] &&
      u == q.(hisPly := u.hisPly, side := u.side, castleperm := u.castleperm, fiftyMove := u.fiftyMove,
              enPas := u.enPas, checkers := u.checkers, posKey := u.posKey, playedPositions := u.playedPositions)
  {
  }

  /**
   * `TakeNullMove` after `MakeNullMove` is the identity on everything but
   * the `history[]` slot the null move wrote.
   */
  lemma NullMoveRoundTrip(t: Tables, p: Position)
    requires t.Valid() && p.WellFormed() && p.hisPly < |p.history|
    ensures var q := MakeNullMove(t, p);
      0 < q.hisPly && |q.playedPositions| > 0 &&
      var u := TakeNullMove(t, q);
      u == p.(history := u.history) && u.history == p.history[p.hisPly := u.history[p.hisPly]]
  {
    MakeNullMoveRecords(t, p);
    TakeNullMoveRecords(t, MakeNullMove(t, p));
  }
}
