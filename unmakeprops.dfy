/**
 * What `UnmakeMove` promises: run right after `MakeMove` of the same
 * playable move, it restores every part of the position except the
 * `history[]` slot the move wrote, and the pieces go back through states
 * that keep the board consistent.
 */
module UnmakeProps {
  import opened Keys
  import opened Types
  import opened BoardState
  import opened MoveSpec
  import opened PieceProps
  import opened MoveProps

  /**
   * Where `UnmakeMove` puts the pieces, square by square: the mover goes
   * back from `to` to `from`, an en-passant pawn of the side to move
   * reappears south of the target, a castling rook returns to its corner
   * and a captured piece reappears on the target.
   */
  function UnmovedPieces(pieces: seq<Content>, side: Color, m: Move, captured: Content): seq<Content>
    requires |pieces| == 64 && IsPiece(m.piece) && (m.enPassant ==> 0 <= m.to + South(side) < 64)
  {
    var back := pieces[m.to := EMPTY][m.from := m.piece];
    var pawn := if m.enPassant then back[m.to + South(side) := GetPiece(PAWN, side)] else back;
    var rook :=
      if m.castle then
        match CastleRookShift(m.to)
        case Some(s) => pawn[s.to := EMPTY][s.from := s.rook]
        case None => pawn
      else pawn;
    if m.capture && !m.enPassant then rook[m.to := captured] else rook
  }

  /** Taking the pieces back undoes moving them: the board-level round trip. */
  lemma UnmovedMovedPieces(pieces: seq<Content>, side: Color, m: Move, captured: Content)
    requires |pieces| == 64 && (m.enPassant ==> 0 <= m.to + North(side) < 64)
    requires IsPiece(m.piece) && IsPiece(Landing(m, side)) && PiecesAdmit(pieces, side, m)
    requires m.capture && !m.enPassant ==> captured == pieces[m.to]
    ensures UnmovedPieces(MovedPieces(pieces, side, m), Opponent(side), m, captured) == pieces
  {
    var moved := MovedPieces(pieces, side, m);
    var back := UnmovedPieces(moved, Opponent(side), m, captured);
    forall i | 0 <= i < 64
      ensures back[i] == pieces[i]
    {
    }
  }

  /**
   * What the squares must hold when a move is taken back (`side` is the
   * side to move then, the mover's opponent): the landing piece on `to`,
   * `from` empty, the en-passant victim's square empty, and a castled rook
   * on its destination with its corner empty.
   */
  predicate UnplayAdmits(pieces: seq<Content>, side: Color, m: Move)
    requires |pieces| == 64 && (m.enPassant ==> 0 <= m.to + South(side) < 64)
  {
    pieces[m.to] == Landing(m, Opponent(side)) && pieces[m.from] == EMPTY && m.from != m.to &&
    (m.enPassant ==>
       var victim := m.to + South(side);
       victim != m.from && pieces[victim] == EMPTY) &&
    (m.castle ==>
       !m.capture && !m.enPassant &&
       match CastleRookShift(m.to)
       case Some(s) => pieces[s.to] == s.rook && pieces[s.from] == EMPTY &&
                       s.from != m.from && s.to != m.from && s.from != m.to && s.to != m.to
       case None => true)
  }

  /** After a playable move the squares are as taking it back expects them. */
  lemma MovedPiecesAdmitUnplay(pieces: seq<Content>, side: Color, m: Move)
    requires |pieces| == 64 && (m.enPassant ==> 0 <= m.to + North(side) < 64)
    requires IsPiece(Landing(m, side)) && PiecesAdmit(pieces, side, m)
    ensures UnplayAdmits(MovedPieces(pieces, side, m), Opponent(side), m)
  {
  }

  /** Lines 311-317 keep the board consistent. */
  lemma UnplaceMoverKeeps(t: Tables, p: Position, m: Move)
    requires t.Valid() && Consistent(p) && IsPiece(m.piece)
    requires m.promotion ==> IsPiece(GetPiece(m.promotedType, Opponent(p.side)))
    requires p.pieces[m.to] == Landing(m, Opponent(p.side)) && p.pieces[m.from] == EMPTY && m.from != m.to
    ensures Consistent(UnplaceMover(t, p, m))
  {
    var p1 := if m.promotion then ClearPiece(t, p, GetPiece(m.promotedType, Opponent(p.side)), m.to) else p;
    if m.promotion {
      ClearPieceKeepsConsistent(t, p, GetPiece(m.promotedType, Opponent(p.side)), m.to);
    }
    ClearPieceKeepsConsistent(t, p1, m.piece, m.to);
    AddPieceKeepsConsistent(t, ClearPiece(t, p1, m.piece, m.to), m.piece, m.from);
  }

  /** Lines 327-354 move a castled rook back to its corner, keeping the board consistent. */
  lemma UncastleRookKeeps(t: Tables, p: Position, kingTo: Square)
    requires t.Valid() && Consistent(p)
    requires match CastleRookShift(kingTo)
      case Some(s) => p.pieces[s.to] == s.rook && p.pieces[s.from] == EMPTY
      case None => true
    ensures var r := UncastleRook(t, p, kingTo);
      Consistent(r) &&
      r.pieces == match CastleRookShift(kingTo)
        case Some(s) => p.pieces[s.to := EMPTY][s.from := s.rook]
        case None => p.pieces
  {
    match CastleRookShift(kingTo)
    case Some(s) =>
      MovePieceKeepsConsistent(t, p, s.rook, s.to, s.from);
    case None =>
  }

  /** What every case of `UnplayPiecesKeeps` assumes. */
  predicate CanUnplay(t: Tables, p: Position, m: Move)
    requires t.Valid()
  {
    Consistent(p) && IsPiece(m.piece) && 0 <= p.hisPly < |p.history| &&
    (m.promotion ==> IsPiece(GetPiece(m.promotedType, Opponent(p.side)))) &&
    (m.enPassant ==> 0 <= m.to + South(p.side) < 64) &&
    (m.capture && !m.enPassant ==> IsPiece(p.history[p.hisPly].capture)) &&
    UnplayAdmits(p.pieces, p.side, m)
  }

  /** For en passant, lines 311-361 come down to moving the mover back and restoring the victim. */
  lemma UnplayEnPassantShape(t: Tables, p: Position, m: Move)
    requires t.Valid() && CanUnplay(t, p, m) && m.enPassant
    ensures UnplayPieces(t, p, m) == AddPiece(t, UnplaceMover(t, p, m), GetPiece(PAWN, p.side), m.to + South(p.side))
  {
  }

  /** Moving the mover back leaves the en-passant victim's square empty. */
  lemma UnplacedVictimEmpty(t: Tables, p: Position, m: Move)
    requires t.Valid() && CanUnplay(t, p, m) && m.enPassant
    ensures UnplaceMover(t, p, m).pieces[m.to + South(p.side)] == EMPTY
  {
  }

  /** Lines 311-324: the en-passant victim comes back south of the target, the board consistent. */
  lemma UnplayEnPassantConsistent(t: Tables, p: Position, m: Move)
    requires t.Valid() && CanUnplay(t, p, m) && m.enPassant
    ensures Consistent(UnplayPieces(t, p, m))
  {
    UnplayEnPassantShape(t, p, m);
    UnplaceMoverKeeps(t, p, m);
    UnplacedVictimEmpty(t, p, m);
    AddPieceKeepsConsistent(t, UnplaceMover(t, p, m), GetPiece(PAWN, p.side), m.to + South(p.side));
  }

  lemma UnplayEnPassantPieces(t: Tables, p: Position, m: Move)
    requires t.Valid() && CanUnplay(t, p, m) && m.enPassant
    ensures UnplayPieces(t, p, m).pieces == UnmovedPieces(p.pieces, p.side, m, p.history[p.hisPly].capture)
  {
    UnplayEnPassantShape(t, p, m);
  }

  /** For castling, lines 311-361 come down to moving the king back and then the rook. */
  lemma UnplayCastleShape(t: Tables, p: Position, m: Move)
    requires t.Valid() && CanUnplay(t, p, m) && m.castle
    ensures UnplayPieces(t, p, m) == UncastleRook(t, UnplaceMover(t, p, m), m.to)
  {
  }

  /** Moving the king back leaves the castled rook on its destination and its corner empty. */
  lemma UnplacedRookReady(t: Tables, p: Position, m: Move)
    requires t.Valid() && CanUnplay(t, p, m) && m.castle
    ensures var q := UnplaceMover(t, p, m);
      match CastleRookShift(m.to)
      case Some(s) => q.pieces[s.to] == s.rook && q.pieces[s.from] == EMPTY
      case None => true
  {
  }

  /** Lines 311-354: the castled rook goes back to its corner, the board consistent. */
  lemma UnplayCastleConsistent(t: Tables, p: Position, m: Move)
    requires t.Valid() && CanUnplay(t, p, m) && m.castle
    ensures Consistent(UnplayPieces(t, p, m))
  {
    UnplayCastleShape(t, p, m);
    UnplaceMoverKeeps(t, p, m);
    UnplacedRookReady(t, p, m);
    UncastleRookKeeps(t, UnplaceMover(t, p, m), m.to);
  }

  lemma UnplayCastlePieces(t: Tables, p: Position, m: Move)
    requires t.Valid() && CanUnplay(t, p, m) && m.castle
    ensures UnplayPieces(t, p, m).pieces == UnmovedPieces(p.pieces, p.side, m, p.history[p.hisPly].capture)
  {
    UnplayCastleShape(t, p, m);
    UnplaceMoverKeeps(t, p, m);
    UnplacedRookReady(t, p, m);
    UncastleRookKeeps(t, UnplaceMover(t, p, m), m.to);
  }

  /** Lines 311-317 and 357-361: the captured piece comes back on the target. */
  lemma UnplayCapture(t: Tables, p: Position, m: Move)
    requires t.Valid() && CanUnplay(t, p, m) && m.capture && !m.enPassant
    ensures var r := UnplayPieces(t, p, m);
      Consistent(r) && r.pieces == UnmovedPieces(p.pieces, p.side, m, p.history[p.hisPly].capture)
  {
    UnplaceMoverKeeps(t, p, m);
    AddPieceKeepsConsistent(t, UnplaceMover(t, p, m), p.history[p.hisPly].capture, m.to);
  }

  /** Lines 311-317 alone for a quiet move. */
  lemma UnplayQuiet(t: Tables, p: Position, m: Move)
    requires t.Valid() && CanUnplay(t, p, m) && !m.capture && !m.enPassant && !m.castle
    ensures var r := UnplayPieces(t, p, m);
      Consistent(r) && r.pieces == UnmovedPieces(p.pieces, p.side, m, p.history[p.hisPly].capture)
  {
    UnplaceMoverKeeps(t, p, m);
  }

  /** Lines 311-361 keep the board consistent and put the pieces where `UnmovedPieces` says. */
  lemma UnplayPiecesKeeps(t: Tables, p: Position, m: Move)
    requires t.Valid() && CanUnplay(t, p, m)
    ensures var r := UnplayPieces(t, p, m);
      Consistent(r) && r.pieces == UnmovedPieces(p.pieces, p.side, m, p.history[p.hisPly].capture)
  {
    if m.enPassant {
      UnplayEnPassantConsistent(t, p, m);
      UnplayEnPassantPieces(t, p, m);
    } else if m.castle {
      UnplayCastleConsistent(t, p, m);
      UnplayCastlePieces(t, p, m);
    } else if m.capture {
      UnplayCapture(t, p, m);
    } else {
      UnplayQuiet(t, p, m);
    }
  }

  /** Lines 290-308 touch neither the pieces nor the side nor `history[]`, and keep the board consistent. */
  lemma RestoreStateKeeps(p: Position)
    requires p.WellFormed() && 0 < p.hisPly && |p.accumulatorStack| > 0
    ensures var r := RestoreState(p);
      r.hisPly == p.hisPly - 1 && r.pieces == p.pieces && r.side == p.side && r.history == p.history &&
      (Consistent(p) ==> Consistent(r))
  {
  }

  /** After `MakeMove` of a playable move, `UnmakeMove` of it stays in bounds. */
  lemma MadeMoveInBounds(t: Tables, p: Position, m: Move, isInCheck: CheckTest)
    requires t.Valid() && p.WellFormed() && MoveInBounds(p, m)
    ensures UnmakeInBounds(MakeMove(t, p, m, isInCheck), m)
  {
    MakeMoveRecords(t, p, m, isInCheck);
    MakeMoveSavesUndo(t, p, m, isInCheck);
  }

  /** After `MakeMove` of a playable move, the squares are as taking it back expects them. */
  lemma MadeMoveUnplayable(t: Tables, p: Position, m: Move, isInCheck: CheckTest)
    requires t.Valid() && Invariant(t, p) && Playable(p, m)
    ensures var q := MakeMove(t, p, m, isInCheck);
      UnmakeInBounds(q, m) && CanUnplay(t, RestoreState(q), m)
  {
    var q := MakeMove(t, p, m, isInCheck);
    MadeMoveInBounds(t, p, m, isInCheck);
    MakeMoveKeepsInvariants(t, p, m, isInCheck);
    MakeMoveRecords(t, p, m, isInCheck);
    MakeMoveSavesUndo(t, p, m, isInCheck);
    RestoreStateKeeps(q);
    MovedPiecesAdmitUnplay(p.pieces, p.side, m);
  }

  /** Make then unmake puts every piece back and restores the bitboards and occupancies. */
  lemma UnmakeRestoresBoard(t: Tables, p: Position, m: Move, isInCheck: CheckTest)
    requires t.Valid() && Invariant(t, p) && Playable(p, m)
    ensures var q := MakeMove(t, p, m, isInCheck);
      UnmakeInBounds(q, m) &&
      var u := UnmakeMove(t, q, m);
      Consistent(u) && u.pieces == p.pieces && u.bitboards == p.bitboards && u.occupancies == p.occupancies
  {
    var q := MakeMove(t, p, m, isInCheck);
    MakeMoveKeepsInvariants(t, p, m, isInCheck);
    MakeMoveRecords(t, p, m, isInCheck);
    MakeMoveSavesUndo(t, p, m, isInCheck);
    MadeMoveUnplayable(t, p, m, isInCheck);
    var r := RestoreState(q);
    UnplayPiecesKeeps(t, r, m);
    UnmovedMovedPieces(p.pieces, p.side, m, r.history[r.hisPly].capture);
    ConsistentDetermined(UnmakeMove(t, q, m), p);
  }

  /**
   * Lines 290-308 and 364-369: `UnmakeMove` steps the ply back, restores
   * the fifty-move counter, en-passant square, castling rights and checkers
   * from `history[hisPly - 1]`, pops the accumulator and the key, and gives
   * the turn back; `history[]` itself is left as it is.
   */
  lemma UnmakeMoveRecords(t: Tables, q: Position, m: Move)
    requires t.Valid() && q.WellFormed() && UnmakeInBounds(q, m)
    ensures var u := UnmakeMove(t, q, m);
      var saved := q.history[q.hisPly - 1];
      var n, k := |q.playedPositions|, |q.accumulatorStack|;
      u.hisPly == q.hisPly - 1 && u.side == Opponent(q.side) &&
      u.fiftyMove == saved.fiftyMove && u.enPas == saved.enPas &&
      u.castleperm == saved.castlePerm && u.checkers == saved.checkers &&
      u.posKey == q.playedPositions[n - 1] && u.playedPositions == q.playedPositions[..n - 1] &&
      u.accumulator == q.accumulatorStack[k - 1] && u.accumulatorStack == q.accumulatorStack[..k - 1] &&
      u.history == q.history
  {
  }

  /**
   * Make then unmake restores every field outside the board: side,
   * castling rights, en-passant square, fifty-move counter, checkers,
   * `posKey`, `hisPly`, the key stack and the accumulator stack.
   */
  lemma UnmakeRestoresState(t: Tables, p: Position, m: Move, isInCheck: CheckTest)
    requires t.Valid() && p.WellFormed() && MoveInBounds(p, m)
    ensures var q := MakeMove(t, p, m, isInCheck);
      UnmakeInBounds(q, m) &&
      var u := UnmakeMove(t, q, m);
      u.side == p.side && u.castleperm == p.castleperm && u.enPas == p.enPas && u.fiftyMove == p.fiftyMove &&
      u.checkers == p.checkers && u.posKey == p.posKey && u.hisPly == p.hisPly &&
      u.playedPositions == p.playedPositions && u.accumulator == p.accumulator &&
      u.accumulatorStack == p.accumulatorStack && u.history == q.history
  {
    var q := MakeMove(t, p, m, isInCheck);
    MakeMoveRecords(t, p, m, isInCheck);
    MakeMoveSavesUndo(t, p, m, isInCheck);
    MadeMoveInBounds(t, p, m, isInCheck);
    UnmakeMoveRecords(t, q, m);
  }

  /**
   * `UnmakeMove` after `MakeMove` of the same playable move is the
   * identity on everything but the `history[]` slot the move wrote, and
   * the restored position again satisfies both invariants.
   */
  lemma MakeUnmakeRoundTrip(t: Tables, p: Position, m: Move, isInCheck: CheckTest)
    requires t.Valid() && Invariant(t, p) && Playable(p, m)
    ensures var q := MakeMove(t, p, m, isInCheck);
      UnmakeInBounds(q, m) &&
      var u := UnmakeMove(t, q, m);
      u == p.(history := u.history) && u.history == p.history[p.hisPly := u.history[p.hisPly]] &&
      Invariant(t, u)
  {
    UnmakeRestoresBoard(t, p, m, isInCheck);
    UnmakeRestoresState(t, p, m, isInCheck);
    MakeMoveRecords(t, p, m, isInCheck);
    MakeMoveSavesUndo(t, p, m, isInCheck);
  }
}
