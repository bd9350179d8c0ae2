/**
 * What `MakeMove` promises: the pieces end up where the move puts them,
 * the board stays consistent and `posKey` stays equal to the from-scratch
 * hash.  Each segment of `PlayMove` is proved on its own, one case at a
 * time, and `PlayMoveKeeps` chains the segments.
 */
module MoveProps {
  import opened Keys
  import opened Types
  import opened BoardState
  import opened MoveSpec
  import opened PieceProps

  /**
   * What the squares must hold for the make-move code to be applied: the
   * moving piece stands on `from`, the target is empty unless the move is
   * a normal capture, an en-passant victim is an enemy pawn behind the
   * target, and a castling rook stands on its corner with its destination
   * free.
   */
  predicate PiecesAdmit(pieces: seq<Content>, side: Color, m: Move)
    requires |pieces| == 64 && (m.enPassant ==> 0 <= m.to + North(side) < 64)
  {
    pieces[m.from] == m.piece && m.from != m.to &&
    (m.enPassant ==>
       var victim := m.to + North(side);
       victim != m.from && pieces[victim] == GetPiece(PAWN, Opponent(side)) && pieces[m.to] == EMPTY) &&
    (!m.enPassant && !m.capture ==> pieces[m.to] == EMPTY) &&
    (m.castle ==>
       !m.capture && !m.enPassant &&
       match CastleRookShift(m.to)
       case Some(s) => pieces[s.from] == s.rook && pieces[s.to] == EMPTY && s.from != m.from && s.to != m.from
       case None => true)
  }

  /** A move the position can play: indexes in bounds and the squares as the code expects them. */
  predicate Playable(p: Position, m: Move)
    requires p.WellFormed()
  {
    MoveInBounds(p, m) && PiecesAdmit(p.pieces, p.side, m)
  }

  /** The squares after the victim is taken off: behind the target for en passant, on it for a capture. */
  function CapturedPieces(pieces: seq<Content>, side: Color, m: Move): seq<Content>
    requires |pieces| == 64 && (m.enPassant ==> 0 <= m.to + North(side) < 64)
  {
    if m.enPassant then pieces[m.to + North(side) := EMPTY]
    else if m.capture then pieces[m.to := EMPTY]
    else pieces
  }

  /**
   * Where the pieces stand after `m`, square by square: the victim
   * disappears, the mover leaves `from` and the landing piece stands on
   * `to`, and a castling rook jumps to the king's other side.
   */
  function MovedPieces(pieces: seq<Content>, side: Color, m: Move): seq<Content>
    requires |pieces| == 64 && (m.enPassant ==> 0 <= m.to + North(side) < 64) && IsPiece(Landing(m, side))
  {
    var placed := CapturedPieces(pieces, side, m)[m.from := EMPTY][m.to := Landing(m, side)];
    if m.castle then
      match CastleRookShift(m.to)
      case Some(s) => placed[s.from := EMPTY][s.to := s.rook]
      case None => placed
    else placed
  }

  /**
   * The accumulator after the network updates `MakeMove` makes, in the
   * order it makes them: the victim is forgotten, the mover leaves `from`,
   * the landing piece arrives on `to`, and a castling rook moves.
   */
  function MovedAccumulator(n: Network, acc: Accumulator, pieces: seq<Content>, side: Color, m: Move): Accumulator
    requires |pieces| == 64 && (m.enPassant ==> 0 <= m.to + North(side) < 64)
  {
    var placed := PlacedAccumulator(n, CapturedAccumulator(n, acc, pieces, side, m), side, m);
    if m.castle then RookAccumulator(n, placed, m.to) else placed
  }

  /** The network forgets the en-passant victim or the captured piece. */
  function CapturedAccumulator(n: Network, acc: Accumulator, pieces: seq<Content>, side: Color, m: Move): Accumulator
    requires |pieces| == 64 && (m.enPassant ==> 0 <= m.to + North(side) < 64)
  {
    if m.enPassant then n.clear(acc, GetPiece(PAWN, Opponent(side)), m.to + North(side))
    else if m.capture then n.clear(acc, pieces[m.to], m.to)
    else acc
  }

  /** The network forgets the mover on `from` and learns the landing piece on `to`. */
  function PlacedAccumulator(n: Network, acc: Accumulator, side: Color, m: Move): Accumulator
  {
    n.add(n.clear(acc, m.piece, m.from), Landing(m, side), m.to)
  }

  /** The network moves the rook a castling king's destination calls for. */
  function RookAccumulator(n: Network, acc: Accumulator, kingTo: Square): Accumulator
  {
    match CastleRookShift(kingTo)
    case Some(s) => n.move(acc, s.rook, s.from, s.to)
    case None => acc
  }

  /** Lines 97-100: the en-passant victim leaves the board and the board stays consistent. */
  lemma RemoveCapturedEnPassantConsistent(t: Tables, p: Position, m: Move, full: bool)
    requires t.Valid() && Consistent(p) && Playable(p, m) && m.enPassant
    ensures var r := RemoveCaptured(t, p, m, full);
      Consistent(r) && r.pieces == CapturedPieces(p.pieces, p.side, m)
  {
    ClearPieceKeepsConsistent(t, p.(fiftyMove := p.fiftyMove + 1), GetPiece(PAWN, Opponent(p.side)), m.to + North(p.side));
  }

  /** Lines 97-100: taking the en-passant victim off keeps the key valid. */
  lemma RemoveCapturedEnPassantKey(t: Tables, p: Position, m: Move, full: bool)
    requires t.Valid() && KeyValid(t, p) && Playable(p, m) && m.enPassant
    ensures KeyValid(t, RemoveCaptured(t, p, m, full))
  {
    ClearPieceKeepsKey(t, p.(fiftyMove := p.fiftyMove + 1), GetPiece(PAWN, Opponent(p.side)), m.to + North(p.side));
  }

  /** Lines 102-110: the captured piece leaves the target and the board stays consistent. */
  lemma RemoveCapturedCaptureConsistent(t: Tables, p: Position, m: Move, full: bool)
    requires t.Valid() && Consistent(p) && Playable(p, m) && !m.enPassant && m.capture
    ensures var r := RemoveCaptured(t, p, m, full);
      Consistent(r) && r.pieces == CapturedPieces(p.pieces, p.side, m)
  {
    ClearPieceKeepsConsistent(t, p.(fiftyMove := p.fiftyMove + 1), p.pieces[m.to], m.to);
  }

  /** Lines 102-110: taking the captured piece off keeps the key valid. */
  lemma RemoveCapturedCaptureKey(t: Tables, p: Position, m: Move, full: bool)
    requires t.Valid() && KeyValid(t, p) && Playable(p, m) && !m.enPassant && m.capture
    ensures KeyValid(t, RemoveCaptured(t, p, m, full))
  {
    ClearPieceKeepsKey(t, p.(fiftyMove := p.fiftyMove + 1), p.pieces[m.to], m.to);
  }

  /** Lines 92-114 remove exactly the victim, keeping the invariants. */
  lemma RemoveCapturedKeeps(t: Tables, p: Position, m: Move, full: bool)
    requires t.Valid() && Invariant(t, p) && Playable(p, m)
    ensures var r := RemoveCaptured(t, p, m, full);
      Invariant(t, r) && r.pieces == CapturedPieces(p.pieces, p.side, m)
  {
    if m.enPassant {
      RemoveCapturedEnPassantConsistent(t, p, m, full);
      RemoveCapturedEnPassantKey(t, p, m, full);
    } else if m.capture {
      RemoveCapturedCaptureConsistent(t, p, m, full);
      RemoveCapturedCaptureKey(t, p, m, full);
    }
  }

  /** Lines 117-121 move the piece from an occupied `from` to an empty `to`, invariants intact. */
  lemma PlaceMoverKeeps(t: Tables, p: Position, m: Move, full: bool)
    requires t.Valid() && Invariant(t, p) && IsPiece(m.piece) && IsPiece(Landing(m, p.side))
    requires p.hisPly < |p.history| && p.pieces[m.from] == m.piece && p.pieces[m.to] == EMPTY && m.from != m.to
    ensures Invariant(t, PlaceMover(t, p, m, full))
  {
    var p1 := p.(hisPly := p.hisPly + 1);
    ClearPieceKeepsConsistent(t, p1, m.piece, m.from);
    ClearPieceKeepsKey(t, p1, m.piece, m.from);
    var p2 := ClearPiece(t, p1, m.piece, m.from);
    AddPieceKeepsConsistent(t, p2, Landing(m, p.side), m.to);
    AddPieceKeepsKey(t, p2, Landing(m, p.side), m.to);
  }

  /** Lines 124-136 touch no piece and keep the key valid. */
  lemma UpdateEnPassantKeeps(t: Tables, p: Position, m: Move, north: int)
    requires t.Valid() && Invariant(t, p) && (m.doublePush ==> 0 <= m.to + north < 64)
    ensures Invariant(t, UpdateEnPassant(t, p, m, north))
  {
    UpdateEnPassantKeepsKey(t, p, m, north);
  }

  /** Lines 139-166 move the rook the king's destination calls for, invariants intact. */
  lemma CastleRookKeeps(t: Tables, p: Position, kingTo: Square, full: bool)
    requires t.Valid() && Invariant(t, p)
    requires match CastleRookShift(kingTo)
      case Some(s) => p.pieces[s.from] == s.rook && p.pieces[s.to] == EMPTY
      case None => true
    ensures var r := CastleRook(t, p, kingTo, full);
      Invariant(t, r) &&
      r.pieces == match CastleRookShift(kingTo)
        case Some(s) => p.pieces[s.from := EMPTY][s.to := s.rook]
        case None => p.pieces
  {
    match CastleRookShift(kingTo)
    case Some(s) =>
      MovePieceKeepsConsistent(t, p, s.rook, s.from, s.to);
      MovePieceKeepsKey(t, p, s.rook, s.from, s.to);
    case None =>
  }

  /** Lines 168-173 touch no piece and keep the key valid. */
  lemma FinishTurnKeeps(t: Tables, p: Position, source: Square, target: Square)
    requires t.Valid() && Invariant(t, p)
    ensures var r := PassTurn(t, UpdateCastlingPerms(t, p, source, target));
      Invariant(t, r) && r.pieces == p.pieces
  {
    UpdateCastlingPermsKeepsKey(t, p, source, target);
    PassTurnKeepsKey(t, UpdateCastlingPerms(t, p, source, target));
  }

  /** After the victim is gone, the mover's squares are as `PlaceMover` needs them. */
  lemma CapturedPiecesReady(pieces: seq<Content>, side: Color, m: Move)
    requires |pieces| == 64 && (m.enPassant ==> 0 <= m.to + North(side) < 64) && PiecesAdmit(pieces, side, m)
    ensures var c := CapturedPieces(pieces, side, m);
      c[m.from] == m.piece && c[m.to] == EMPTY
  {
  }

  /** After the king has moved, its rook still stands on the corner and its destination is free. */
  lemma RookReady(pieces: seq<Content>, side: Color, m: Move)
    requires |pieces| == 64 && (m.enPassant ==> 0 <= m.to + North(side) < 64) && IsPiece(Landing(m, side))
    requires PiecesAdmit(pieces, side, m) && m.castle
    ensures var placed := CapturedPieces(pieces, side, m)[m.from := EMPTY][m.to := Landing(m, side)];
      match CastleRookShift(m.to)
      case Some(s) => placed[s.from] == s.rook && placed[s.to] == EMPTY
      case None => true
  {
  }

  /**
   * Lines 92-173: playing a playable move keeps the board consistent and
   * the key valid, and leaves the pieces where the move puts them.
   */
  lemma PlayMoveKeeps(t: Tables, p: Position, m: Move, full: bool)
    requires t.Valid() && Invariant(t, p) && Playable(p, m)
    ensures var r := PlayMove(t, p, m, full);
      Invariant(t, r) && r.pieces == MovedPieces(p.pieces, p.side, m)
  {
    RemoveCapturedKeeps(t, p, m, full);
    var p1 := RemoveCaptured(t, p, m, full);
    CapturedPiecesReady(p.pieces, p.side, m);
    PlaceMoverKeeps(t, p1, m, full);
    var p2 := PlaceMover(t, p1, m, full);
    UpdateEnPassantKeeps(t, p2, m, North(p.side));
    var p3 := UpdateEnPassant(t, p2, m, North(p.side));
    if m.castle {
      RookReady(p.pieces, p.side, m);
      CastleRookKeeps(t, p3, m.to, full);
    }
    var p4 := if m.castle then CastleRook(t, p3, m.to, full) else p3;
    FinishTurnKeeps(t, p4, m.from, m.to);
  }

  /**
   * Lines 92-173 on everything but the pieces: the fifty-move counter
   * restarts on a capture or a pawn move, the en-passant square is set
   * exactly by a double push, castling rights only shrink by the masks of
   * the two squares, the ply advances and the turn passes.
   */
  lemma PlayMoveCounters(t: Tables, p: Position, m: Move, full: bool)
    requires t.Valid() && p.WellFormed() && MoveInBounds(p, m)
    ensures var r := PlayMove(t, p, m, full);
      r.fiftyMove == (if m.enPassant || m.capture || GetPieceType(m.piece) == PAWN then 0 else p.fiftyMove + 1) &&
      r.enPas == (if m.doublePush then m.to + North(p.side) else NO_SQ) &&
      r.castleperm == p.castleperm & t.castlingRights[m.from] & t.castlingRights[m.to] &&
      r.side == Opponent(p.side) && r.hisPly == p.hisPly + 1
  {
  }

  /** Lines 94-114 update the accumulator for the victim only in `MakeMove`'s variant. */
  lemma RemoveCapturedAccumulator(t: Tables, p: Position, m: Move, full: bool)
    requires t.Valid() && p.WellFormed() && MoveInBounds(p, m)
    ensures RemoveCaptured(t, p, m, full).accumulator ==
            if full then CapturedAccumulator(t.nnue, p.accumulator, p.pieces, p.side, m) else p.accumulator
  {
  }

  /** Lines 119-121 update the accumulator for the mover only in `MakeMove`'s variant. */
  lemma PlaceMoverAccumulator(t: Tables, p: Position, m: Move, full: bool)
    requires t.Valid() && p.WellFormed() && p.hisPly < |p.history| && IsPiece(m.piece) && IsPiece(Landing(m, p.side))
    ensures PlaceMover(t, p, m, full).accumulator ==
            if full then PlacedAccumulator(t.nnue, p.accumulator, p.side, m) else p.accumulator
  {
  }

  /** Lines 139-166 update the accumulator for the rook only in `MakeMove`'s variant. */
  lemma CastleRookAccumulator(t: Tables, p: Position, kingTo: Square, full: bool)
    requires t.Valid() && p.WellFormed()
    ensures CastleRook(t, p, kingTo, full).accumulator ==
            if full then RookAccumulator(t.nnue, p.accumulator, kingTo) else p.accumulator
  {
  }

  /**
   * Lines 92-173 update the accumulator through the network for every
   * piece `MakeMove`'s variant lifts or places, and leave it alone in
   * `MakeMoveLight`'s.
   */
  lemma PlayMoveAccumulator(t: Tables, p: Position, m: Move, full: bool)
    requires t.Valid() && p.WellFormed() && MoveInBounds(p, m)
    ensures PlayMove(t, p, m, full).accumulator ==
            if full then MovedAccumulator(t.nnue, p.accumulator, p.pieces, p.side, m) else p.accumulator
  {
    RemoveCapturedAccumulator(t, p, m, full);
    var p1 := RemoveCaptured(t, p, m, full);
    PlaceMoverAccumulator(t, p1, m, full);
    var p2 := PlaceMover(t, p1, m, full);
    var p3 := UpdateEnPassant(t, p2, m, North(p.side));
    if m.castle {
      CastleRookAccumulator(t, p3, m.to, full);
    }
  }

  /**
   * Lines 92-173 leave the checkers flag, the key stack and the saved
   * accumulators alone, and touch `history[]` only for `MakeMove`'s
   * variant to record the captured piece of a normal capture.
   */
  lemma PlayMoveRecords(t: Tables, p: Position, m: Move, full: bool)
    requires t.Valid() && p.WellFormed() && MoveInBounds(p, m)
    ensures var r := PlayMove(t, p, m, full);
      r.checkers == p.checkers && r.playedPositions == p.playedPositions &&
      r.accumulatorStack == p.accumulatorStack &&
      r.history == (if full && m.capture && !m.enPassant
                    then p.history[p.hisPly := p.history[p.hisPly].(capture := p.pieces[m.to])]
                    else p.history)
  {
  }

  /**
   * `MakeMove` is `PlayMove` on the position with the undo record saved
   * and the accumulator pushed, followed by storing the new check status.
   */
  lemma MakeMoveIsPlayMove(t: Tables, p: Position, m: Move, isInCheck: CheckTest)
    requires t.Valid() && p.WellFormed() && MoveInBounds(p, m)
    ensures MoveInBounds(PushAccumulator(SaveState(p)), m)
    ensures var r := PlayMove(t, PushAccumulator(SaveState(p)), m, true);
      MakeMove(t, p, m, isInCheck) == r.(checkers := isInCheck(r.bitboards, r.occupancies, r.side))
  {
  }

  /**
   * `MakeMove` keeps the board consistent and `posKey` equal to the
   * from-scratch hash, and leaves the pieces where the move puts them.
   */
  lemma MakeMoveKeepsInvariants(t: Tables, p: Position, m: Move, isInCheck: CheckTest)
    requires t.Valid() && Invariant(t, p) && Playable(p, m)
    ensures var r := MakeMove(t, p, m, isInCheck);
      Invariant(t, r) && r.pieces == MovedPieces(p.pieces, p.side, m)
  {
    MakeMoveIsPlayMove(t, p, m, isInCheck);
    PlayMoveKeeps(t, PushAccumulator(SaveState(p)), m, true);
  }

  /**
   * Lines 71-74 and 102-107: `history[hisPly]` keeps the fifty-move
   * counter, en-passant square, castling rights, checkers and captured
   * piece the move cannot recompute, and no other slot changes.
   */
  lemma MakeMoveSavesUndo(t: Tables, p: Position, m: Move, isInCheck: CheckTest)
    requires t.Valid() && p.WellFormed() && MoveInBounds(p, m)
    ensures MakeMove(t, p, m, isInCheck).history ==
            p.history[p.hisPly := Undo(p.fiftyMove, p.enPas, p.castleperm, p.checkers,
                                       if m.capture && !m.enPassant then p.pieces[m.to]
                                       else p.history[p.hisPly].capture)]
  {
    MakeMoveIsPlayMove(t, p, m, isInCheck);
    PlayMoveRecords(t, PushAccumulator(SaveState(p)), m, true);
  }

  /**
   * Lines 76-79 and 168-177: the key and the accumulator are pushed, the
   * ply advances and the new side's check status is stored.
   */
  lemma MakeMoveRecords(t: Tables, p: Position, m: Move, isInCheck: CheckTest)
    requires t.Valid() && p.WellFormed() && MoveInBounds(p, m)
    ensures var r := MakeMove(t, p, m, isInCheck);
      r.playedPositions == p.playedPositions + [p.posKey] &&
      r.accumulatorStack == p.accumulatorStack + [p.accumulator] &&
      r.hisPly == p.hisPly + 1 && r.side == Opponent(p.side) &&
      r.checkers == isInCheck(r.bitboards, r.occupancies, r.side)
  {
    MakeMoveIsPlayMove(t, p, m, isInCheck);
    PlayMoveRecords(t, PushAccumulator(SaveState(p)), m, true);
    PlayMoveCounters(t, PushAccumulator(SaveState(p)), m, true);
  }

  /**
   * Lines 98-163: `MakeMove` updates the accumulator through the network
   * for each piece it lifts or places, starting from the accumulator it
   * has just saved.
   */
  lemma MakeMoveAccumulator(t: Tables, p: Position, m: Move, isInCheck: CheckTest)
    requires t.Valid() && p.WellFormed() && MoveInBounds(p, m)
    ensures MakeMove(t, p, m, isInCheck).accumulator == MovedAccumulator(t.nnue, p.accumulator, p.pieces, p.side, m)
  {
    MakeMoveIsPlayMove(t, p, m, isInCheck);
    PlayMoveAccumulator(t, PushAccumulator(SaveState(p)), m, true);
  }

  /**
   * Lines 92-168 as seen after `MakeMove`: the fifty-move counter, the
   * en-passant square and the castling rights.
   */
  lemma MakeMoveCounters(t: Tables, p: Position, m: Move, isInCheck: CheckTest)
    requires t.Valid() && p.WellFormed() && MoveInBounds(p, m)
    ensures var r := MakeMove(t, p, m, isInCheck);
      r.fiftyMove == (if m.enPassant || m.capture || GetPieceType(m.piece) == PAWN then 0 else p.fiftyMove + 1) &&
      r.enPas == (if m.doublePush then m.to + North(p.side) else NO_SQ) &&
      r.castleperm == p.castleperm & t.castlingRights[m.from] & t.castlingRights[m.to]
  {
    MakeMoveIsPlayMove(t, p, m, isInCheck);
    PlayMoveCounters(t, PushAccumulator(SaveState(p)), m, true);
  }

  /** `MakeMoveLight` (lines 181-285) moves the pieces as `MakeMove` does and keeps both invariants. */
  lemma MakeMoveLightKeepsInvariants(t: Tables, p: Position, m: Move)
    requires t.Valid() && Invariant(t, p) && Playable(p, m)
    ensures var r := MakeMoveLight(t, p, m);
      Invariant(t, r) && r.pieces == MovedPieces(p.pieces, p.side, m)
  {
    PlayMoveKeeps(t, SaveState(p), m, false);
  }

  /**
   * `MakeMoveLight` saves the same undo record as `MakeMove` but without
   * the captured piece, pushes the key but neither saves nor updates the
   * accumulator; the checkers flag keeps its pre-move value.
   */
  lemma MakeMoveLightRecords(t: Tables, p: Position, m: Move)
    requires t.Valid() && p.WellFormed() && MoveInBounds(p, m)
    ensures var r := MakeMoveLight(t, p, m);
      r.history == p.history[p.hisPly := p.history[p.hisPly].(fiftyMove := p.fiftyMove, enPas := p.enPas,
                                                               castlePerm := p.castleperm, checkers := p.checkers)] &&
      r.playedPositions == p.playedPositions + [p.posKey] &&
      r.accumulator == p.accumulator && r.accumulatorStack == p.accumulatorStack &&
      r.checkers == p.checkers && r.hisPly == p.hisPly + 1 && r.side == Opponent(p.side)
  {
    PlayMoveRecords(t, SaveState(p), m, false);
    PlayMoveAccumulator(t, SaveState(p), m, false);
    PlayMoveCounters(t, SaveState(p), m, false);
  }
}
