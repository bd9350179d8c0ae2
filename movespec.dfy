/**
 * The operations of `src/makemove.cpp` as functions on `Position` values,
 * step by step in the order the engine performs them.  The `Board` class
 * in module `MakeMove` executes the same steps in place and is proved to
 * produce exactly these values; the properties of the steps are proved in
 * module `MoveProps`.
 */
module MoveSpec {
  import opened Keys
  import opened Types
  import opened BoardState

  /** The engine's `IsInCheck(pos, side)`, an unknown function of the board. */
  type CheckTest = (seq<Bitboard>, seq<Bitboard>, int) -> bool

  /** `side ^ 1` for a colour. */
  function Opponent(side: Color): Color
  {
    1 - side
  }

  /** The rook a castling king's destination square calls for: which rook, from where, to where. */
  datatype RookShift = RookShift(rook: int, from: Square, to: Square)

  datatype Option<T> = None | Some(value: T)

  /**
   * Lines 139-166: a rook moves exactly when the king lands on g1, c1, g8
   * or c8; it is the king's colour and stays on the king's rank, going
   * from the h-file to the f-file on the king side and from the a-file to
   * the d-file on the queen side.
   */
  function CastleRookShift(kingTo: Square): (r: Option<RookShift>)
    ensures r.Some? <==> kingTo in {G1, C1, G8, C8}
    ensures r.Some? ==>
      var s := r.value;
      s.from / 8 == kingTo / 8 && s.to / 8 == kingTo / 8 &&
      s.rook == GetPiece(ROOK, if kingTo / 8 == 7 then WHITE else BLACK) &&
      (kingTo % 8 == 6 ==> s.from % 8 == 7 && s.to % 8 == 5) &&
      (kingTo % 8 == 2 ==> s.from % 8 == 0 && s.to % 8 == 3)
  {
    if kingTo == G1 then Some(RookShift(WR, H1, F1))
    else if kingTo == C1 then Some(RookShift(WR, A1, D1))
    else if kingTo == G8 then Some(RookShift(BR, H8, F8))
    else if kingTo == C8 then Some(RookShift(BR, A8, D8))
    else None
  }

  /** `ClearPiece`: take `piece` off `sq` in every representation and toggle its key. */
  function ClearPiece(t: Tables, p: Position, piece: int, sq: Square): (r: Position)
    requires t.Valid() && p.WellFormed() && IsPiece(piece)
    ensures r.WellFormed()
    ensures r.pieces == p.pieces[sq := EMPTY]
    ensures r.posKey == Xor(p.posKey, t.pieceKeys[piece][sq])
    ensures r == p.(bitboards := r.bitboards, occupancies := r.occupancies, pieces := r.pieces, posKey := r.posKey)
  {
    var color := PieceColor(piece);
    var p1 := p.(posKey := HashKey(p.posKey, t.pieceKeys[piece][sq]));
    var p2 := p1.(bitboards := p1.bitboards[piece := p1.bitboards[piece] - {sq}]);
    var p3 := p2.(pieces := p2.pieces[sq := EMPTY]);
    var p4 := p3.(occupancies := p3.occupancies[BOTH := p3.occupancies[BOTH] - {sq}]);
    p4.(occupancies := p4.occupancies[color := p4.occupancies[color] - {sq}])
  }

  /** `AddPiece`: put `piece` on `sq` in every representation and toggle its key. */
  function AddPiece(t: Tables, p: Position, piece: int, sq: Square): (r: Position)
    requires t.Valid() && p.WellFormed() && IsPiece(piece)
    ensures r.WellFormed()
    ensures r.pieces == p.pieces[sq := piece]
    ensures r.posKey == Xor(p.posKey, t.pieceKeys[piece][sq])
    ensures r == p.(bitboards := r.bitboards, occupancies := r.occupancies, pieces := r.pieces, posKey := r.posKey)
  {
    var color := PieceColor(piece);
    var p1 := p.(bitboards := p.bitboards[piece := p.bitboards[piece] + {sq}]);
    var p2 := p1.(occupancies := p1.occupancies[color := p1.occupancies[color] + {sq}]);
    var p3 := p2.(occupancies := p2.occupancies[BOTH := p2.occupancies[BOTH] + {sq}]);
    var p4 := p3.(pieces := p3.pieces[sq := piece]);
    p4.(posKey := HashKey(p4.posKey, t.pieceKeys[piece][sq]))
  }

  /** `MovePiece`: clear `piece` from `from`, then add it on `to`. */
  function MovePiece(t: Tables, p: Position, piece: int, from: Square, to: Square): (r: Position)
    requires t.Valid() && p.WellFormed() && IsPiece(piece)
    ensures r.WellFormed()
    ensures r.pieces == p.pieces[from := EMPTY][to := piece]
    ensures r == p.(bitboards := r.bitboards, occupancies := r.occupancies, pieces := r.pieces, posKey := r.posKey)
  {
    AddPiece(t, ClearPiece(t, p, piece, from), piece, to)
  }

  /**
   * `ClearPieceNNUE`: the network forgets `piece` on `sq` and `ClearPiece`
   * takes it off the board.  The two touch disjoint fields; the engine
   * updates the accumulator first, and `Board.ClearPieceNNUE` does the
   * same and is proved to produce this value.
   */
  function ClearPieceNNUE(t: Tables, p: Position, piece: int, sq: Square): (r: Position)
    requires t.Valid() && p.WellFormed() && IsPiece(piece)
  {
    ClearPiece(t, p, piece, sq).(accumulator := t.nnue.clear(p.accumulator, piece, sq))
  }

  /** `AddPieceNNUE`: the network learns `piece` on `sq` and `AddPiece` puts it on the board. */
  function AddPieceNNUE(t: Tables, p: Position, piece: int, sq: Square): (r: Position)
    requires t.Valid() && p.WellFormed() && IsPiece(piece)
  {
    AddPiece(t, p, piece, sq).(accumulator := t.nnue.add(p.accumulator, piece, sq))
  }

  /** `MovePieceNNUE`: the network moves `piece` from `from` to `to` and `MovePiece` moves it on the board. */
  function MovePieceNNUE(t: Tables, p: Position, piece: int, from: Square, to: Square): (r: Position)
    requires t.Valid() && p.WellFormed() && IsPiece(piece)
  {
    MovePiece(t, p, piece, from, to).(accumulator := t.nnue.move(p.accumulator, piece, from, to))
  }

  /**
   * The primitive each variant of the make-move code calls: `MakeMove`
   * (`full`) goes through the NNUE wrapper, `MakeMoveLight` through the
   * plain primitive.  Either way the board changes as the plain primitive
   * changes it, and only the NNUE wrapper touches the accumulator.
   */
  function ClearPieceFor(t: Tables, p: Position, piece: int, sq: Square, full: bool): (r: Position)
    requires t.Valid() && p.WellFormed() && IsPiece(piece)
    ensures r.accumulator == if full then t.nnue.clear(p.accumulator, piece, sq) else p.accumulator
    ensures r == ClearPiece(t, p, piece, sq).(accumulator := r.accumulator)
  {
    if full then ClearPieceNNUE(t, p, piece, sq) else ClearPiece(t, p, piece, sq)
  }

  function AddPieceFor(t: Tables, p: Position, piece: int, sq: Square, full: bool): (r: Position)
    requires t.Valid() && p.WellFormed() && IsPiece(piece)
    ensures r.accumulator == if full then t.nnue.add(p.accumulator, piece, sq) else p.accumulator
    ensures r == AddPiece(t, p, piece, sq).(accumulator := r.accumulator)
  {
    if full then AddPieceNNUE(t, p, piece, sq) else AddPiece(t, p, piece, sq)
  }

  function MovePieceFor(t: Tables, p: Position, piece: int, from: Square, to: Square, full: bool): (r: Position)
    requires t.Valid() && p.WellFormed() && IsPiece(piece)
    ensures r.accumulator == if full then t.nnue.move(p.accumulator, piece, from, to) else p.accumulator
    ensures r == MovePiece(t, p, piece, from, to).(accumulator := r.accumulator)
  {
    if full then MovePieceNNUE(t, p, piece, from, to) else MovePiece(t, p, piece, from, to)
  }

  /**
   * `UpdateCastlingPerms`: keep only the rights that neither the source nor
   * the target square revokes; the key trades the old rights' key for the new one's.
   */
  function UpdateCastlingPerms(t: Tables, p: Position, source: Square, target: Square): (r: Position)
    requires t.Valid() && p.WellFormed()
    ensures r.WellFormed()
    ensures r.castleperm & p.castleperm == r.castleperm
    ensures r.castleperm == p.castleperm & t.castlingRights[source] & t.castlingRights[target]
    ensures r.posKey == Xor(Xor(p.posKey, t.castleKeys[p.castleperm]), t.castleKeys[r.castleperm])
    ensures r == p.(castleperm := r.castleperm, posKey := r.posKey)
  {
    var p1 := p.(posKey := HashKey(p.posKey, t.castleKeys[p.castleperm]));
    var p2 := p1.(castleperm := p1.castleperm & t.castlingRights[source]);
    var p3 := p2.(castleperm := p2.castleperm & t.castlingRights[target]);
    p3.(posKey := HashKey(p3.posKey, t.castleKeys[p3.castleperm]))
  }

  /**
   * What the caller of `MakeMove` must guarantee so that every array read
   * stays in bounds: a real moving piece, squares on the board for the
   * en-passant victim and the double-push square, a piece on the target of
   * a normal capture (the engine's debug assertion), a real promotion piece
   * and a free `history[]` slot.
   */
  predicate MoveInBounds(p: Position, m: Move)
    requires p.WellFormed()
  {
    IsPiece(m.piece) && p.hisPly < |p.history| &&
    (m.enPassant ==> 0 <= m.to + North(p.side) < 64) &&
    (m.doublePush ==> 0 <= m.to + North(p.side) < 64) &&
    (m.capture && !m.enPassant ==> IsPiece(p.pieces[m.to])) &&
    IsPiece(Landing(m, p.side))
  }

  /** Lines 71-77: record what cannot be recomputed and push the key. */
  function SaveState(p: Position): (r: Position)
    requires p.WellFormed() && p.hisPly < |p.history|
    ensures r.WellFormed() && |r.history| == |p.history|
    ensures r == p.(history := r.history, playedPositions := r.playedPositions)
  {
    var u := p.history[p.hisPly].(fiftyMove := p.fiftyMove, enPas := p.enPas, castlePerm := p.castleperm, checkers := p.checkers);
    p.(history := p.history[p.hisPly := u], playedPositions := p.playedPositions + [p.posKey])
  }

  /** Line 79: save the accumulator so that `UnmakeMove` can pop it back. */
  function PushAccumulator(p: Position): Position
  {
    p.(accumulatorStack := p.accumulatorStack + [p.accumulator])
  }

  /**
   * Lines 92-114: count the move for the fifty-move rule, remove an
   * en-passant victim or a captured piece, and reset the counter on
   * captures and pawn moves.  `full` is `MakeMove`'s variant, which goes
   * through the NNUE wrappers and records the captured piece;
   * `MakeMoveLight` (lines 207-220) does neither.
   */
  function RemoveCaptured(t: Tables, p: Position, m: Move, full: bool): (r: Position)
    requires t.Valid() && p.WellFormed() && MoveInBounds(p, m)
    ensures r.WellFormed() && |r.history| == |p.history|
    ensures r == p.(bitboards := r.bitboards, occupancies := r.occupancies, pieces := r.pieces,
                    posKey := r.posKey, fiftyMove := r.fiftyMove, history := r.history, accumulator := r.accumulator)
  {
    var p1 := TakeVictim(t, p.(fiftyMove := p.fiftyMove + 1), m, full);
    if GetPieceType(m.piece) == PAWN then p1.(fiftyMove := 0) else p1
  }

  /** Lines 94-110: take the en-passant victim or the captured piece off the board. */
  function TakeVictim(t: Tables, p: Position, m: Move, full: bool): (r: Position)
    requires t.Valid() && p.WellFormed() && MoveInBounds(p, m)
    ensures r.WellFormed() && |r.history| == |p.history|
    ensures r == p.(bitboards := r.bitboards, occupancies := r.occupancies, pieces := r.pieces,
                    posKey := r.posKey, fiftyMove := r.fiftyMove, history := r.history, accumulator := r.accumulator)
  {
    if m.enPassant then
      var victim, sq := GetPiece(PAWN, Opponent(p.side)), m.to + North(p.side);
      ClearPieceFor(t, p, victim, sq, full).(fiftyMove := 0)
    else if m.capture then
      var captured := p.pieces[m.to];
      var q := ClearPieceFor(t, p, captured, m.to, full);
      var q' := if full then q.(history := q.history[q.hisPly := q.history[q.hisPly].(capture := captured)]) else q;
      q'.(fiftyMove := 0)
    else p
  }

  /** Lines 124-136: drop the old en-passant square and set the new one on a double push. */
  function UpdateEnPassant(t: Tables, p: Position, m: Move, north: int): (r: Position)
    requires t.Valid() && p.WellFormed() && (m.doublePush ==> 0 <= m.to + north < 64)
    ensures r.WellFormed()
    ensures r.enPas == if m.doublePush then m.to + north else NO_SQ
    ensures r.posKey == Xor(Xor(p.posKey, EnPassantKey(t, p.enPas)), EnPassantKey(t, r.enPas))
    ensures r == p.(enPas := r.enPas, posKey := r.posKey)
  {
    var p1 := if p.enPas != NO_SQ then p.(posKey := HashKey(p.posKey, t.enpassantKeys[p.enPas])) else p;
    var p2 := p1.(enPas := NO_SQ);
    XorZero(p.posKey);
    XorZero(p1.posKey);
    if m.doublePush then
      var p3 := p2.(enPas := m.to + north);
      p3.(posKey := HashKey(p3.posKey, t.enpassantKeys[p3.enPas]))
    else p2
  }

  /** Lines 139-166: a castling king's destination decides which rook jumps over it. */
  function CastleRook(t: Tables, p: Position, kingTo: Square, full: bool): (r: Position)
    requires t.Valid() && p.WellFormed()
    ensures r.WellFormed()
    ensures r == p.(bitboards := r.bitboards, occupancies := r.occupancies, pieces := r.pieces,
                    posKey := r.posKey, accumulator := r.accumulator)
  {
    match CastleRookShift(kingTo)
    case Some(s) =>
      MovePieceFor(t, p, s.rook, s.from, s.to, full)
    case None => p
  }

  /** Lines 327-354: the rook goes back along the same pair of squares. */
  function UncastleRook(t: Tables, p: Position, kingTo: Square): (r: Position)
    requires t.Valid() && p.WellFormed()
    ensures r.WellFormed()
    ensures r == p.(bitboards := r.bitboards, occupancies := r.occupancies, pieces := r.pieces, posKey := r.posKey)
  {
    match CastleRookShift(kingTo)
    case Some(s) => MovePiece(t, p, s.rook, s.to, s.from)
    case None => p
  }

  /** `ChangeSide` followed by toggling the side key. */
  function PassTurn(t: Tables, p: Position): (r: Position)
    requires t.Valid() && p.WellFormed()
    ensures r.WellFormed()
    ensures r.side == Opponent(p.side) && r.posKey == Xor(p.posKey, t.sideKey)
    ensures r == p.(side := r.side, posKey := r.posKey)
  {
    var p1 := p.(side := Opponent(p.side));
    p1.(posKey := HashKey(p1.posKey, t.sideKey))
  }

  /** The piece that lands on the target: the promotion piece of the mover's colour, or the mover itself. */
  function Landing(m: Move, side: Color): int
  {
    if m.promotion then GetPiece(m.promotedType, side) else m.piece
  }

  /** Lines 117-121: count the ply, lift the mover off `from` and set the landing piece on `to`. */
  function PlaceMover(t: Tables, p: Position, m: Move, full: bool): (r: Position)
    requires t.Valid() && p.WellFormed() && p.hisPly < |p.history| && IsPiece(m.piece) && IsPiece(Landing(m, p.side))
    ensures r.WellFormed()
    ensures r.pieces == p.pieces[m.from := EMPTY][m.to := Landing(m, p.side)]
    ensures r.hisPly == p.hisPly + 1
    ensures r == p.(bitboards := r.bitboards, occupancies := r.occupancies, pieces := r.pieces,
                    posKey := r.posKey, hisPly := r.hisPly, accumulator := r.accumulator)
  {
    var p1 := p.(hisPly := p.hisPly + 1);
    var p2 := ClearPieceFor(t, p1, m.piece, m.from, full);
    AddPieceFor(t, p2, Landing(m, p.side), m.to, full)
  }

  /** Lines 92-173, shared by `MakeMove` and `MakeMoveLight`. */
  function PlayMove(t: Tables, p: Position, m: Move, full: bool): (r: Position)
    requires t.Valid() && p.WellFormed() && MoveInBounds(p, m)
    ensures r.WellFormed()
  {
    var p1 := RemoveCaptured(t, p, m, full);
    var p2 := PlaceMover(t, p1, m, full);
    var p3 := UpdateEnPassant(t, p2, m, North(p.side));
    var p4 := if m.castle then CastleRook(t, p3, m.to, full) else p3;
    var p5 := UpdateCastlingPerms(t, p4, m.from, m.to);
    PassTurn(t, p5)
  }

  /** `MakeMove` (lines 69-178); `isInCheck` stands for `IsInCheck`, and the prefetch has no effect on the state. */
  function MakeMove(t: Tables, p: Position, m: Move, isInCheck: CheckTest): (r: Position)
    requires t.Valid() && p.WellFormed() && MoveInBounds(p, m)
    ensures r.WellFormed()
  {
    var p3 := PlayMove(t, PushAccumulator(SaveState(p)), m, true);
    p3.(checkers := isInCheck(p3.bitboards, p3.occupancies, p3.side))
  }

  /** `MakeMoveLight` (lines 181-285): no accumulator update or save, no capture record, no check detection. */
  function MakeMoveLight(t: Tables, p: Position, m: Move): (r: Position)
    requires t.Valid() && p.WellFormed() && MoveInBounds(p, m)
    ensures r.WellFormed()
  {
    PlayMove(t, SaveState(p), m, false)
  }

  /** `UnmakeMove` reads `side` before flipping it back: the mover is its opponent. */
  function South(side: Color): int
  {
    if side == WHITE then -8 else 8
  }

  /** What `UnmakeMove` needs to stay in bounds: a previous ply, a saved key and accumulator, real pieces. */
  predicate UnmakeInBounds(p: Position, m: Move)
    requires p.WellFormed()
  {
    IsPiece(m.piece) && 0 < p.hisPly && |p.playedPositions| > 0 && |p.accumulatorStack| > 0 &&
    (m.promotion ==> IsPiece(GetPiece(m.promotedType, Opponent(p.side)))) &&
    (m.enPassant ==> 0 <= m.to + South(p.side) < 64) &&
    (m.capture && !m.enPassant ==> IsPiece(p.history[p.hisPly - 1].capture))
  }

  /** Lines 290-308: step back one ply and restore what the undo record and the stack hold. */
  function RestoreState(p: Position): (r: Position)
    requires p.WellFormed() && 0 < p.hisPly && |p.accumulatorStack| > 0
    ensures r.WellFormed()
  {
    var ply := p.hisPly - 1;
    var u := p.history[ply];
    var p1 := p.(hisPly := ply, enPas := u.enPas, fiftyMove := u.fiftyMove, castleperm := u.castlePerm, checkers := u.checkers);
    p1.(accumulator := p1.accumulatorStack[|p1.accumulatorStack| - 1],
        accumulatorStack := p1.accumulatorStack[..|p1.accumulatorStack| - 1])
  }

  /**
   * Lines 311-317: a promotion piece is taken off the target first; then
   * the mover goes back from `to` to `from`.  `side` is still the
   * opponent of the mover here, hence `side ^ 1` for the promotion colour.
   */
  function UnplaceMover(t: Tables, p: Position, m: Move): (r: Position)
    requires t.Valid() && p.WellFormed() && IsPiece(m.piece)
    requires m.promotion ==> IsPiece(GetPiece(m.promotedType, Opponent(p.side)))
    ensures r.WellFormed()
    ensures r.pieces == p.pieces[m.to := EMPTY][m.from := m.piece]
    ensures r == p.(bitboards := r.bitboards, occupancies := r.occupancies, pieces := r.pieces, posKey := r.posKey)
  {
    var p1 := if m.promotion then ClearPiece(t, p, GetPiece(m.promotedType, Opponent(p.side)), m.to) else p;
    MovePiece(t, p1, m.piece, m.to, m.from)
  }

  /** Lines 311-361: put the pieces back where they were. */
  function UnplayPieces(t: Tables, p: Position, m: Move): (r: Position)
    requires t.Valid() && p.WellFormed() && IsPiece(m.piece) && 0 <= p.hisPly < |p.history|
    requires m.promotion ==> IsPiece(GetPiece(m.promotedType, Opponent(p.side)))
    requires m.enPassant ==> 0 <= m.to + South(p.side) < 64
    requires m.capture && !m.enPassant ==> IsPiece(p.history[p.hisPly].capture)
    ensures r.WellFormed()
    ensures r == p.(bitboards := r.bitboards, occupancies := r.occupancies, pieces := r.pieces, posKey := r.posKey)
  {
    var p2 := UnplaceMover(t, p, m);
    // the piece moves leave `side` and `history` as they were in `p`
    var p3 := if m.enPassant then AddPiece(t, p2, GetPiece(PAWN, p.side), m.to + South(p.side)) else p2;
    var p4 := if m.castle then UncastleRook(t, p3, m.to) else p3;
    if m.capture && !m.enPassant then AddPiece(t, p4, p.history[p.hisPly].capture, m.to) else p4
  }

  /** `UnmakeMove` (lines 287-370); the key is restored from the stack at the very end. */
  function UnmakeMove(t: Tables, p: Position, m: Move): (r: Position)
    requires t.Valid() && p.WellFormed() && UnmakeInBounds(p, m)
    ensures r.WellFormed()
  {
    var p1 := RestoreState(p);
    var p2 := UnplayPieces(t, p1, m);
    var p3 := p2.(side := Opponent(p2.side));
    var n := |p3.playedPositions|;
    p3.(posKey := p3.playedPositions[n - 1], playedPositions := p3.playedPositions[..n - 1])
  }

  /** Lines 376-377: a null move takes the en-passant square's key out of `posKey`. */
  function DropNullEnPassantKey(t: Tables, p: Position): (r: Position)
    requires t.Valid() && p.WellFormed()
    ensures r.WellFormed()
  {
    if p.enPas != NO_SQ then p.(posKey := HashKey(p.posKey, t.enpassantKeys[p.enPas])) else p
  }

  /** `MakeNullMove` (lines 373-389): pass the turn without moving a piece. */
  function MakeNullMove(t: Tables, p: Position): (r: Position)
    requires t.Valid() && p.WellFormed() && p.hisPly < |p.history|
    ensures r.WellFormed()
  {
    var p1 := p.(playedPositions := p.playedPositions + [p.posKey]);
    var p2 := DropNullEnPassantKey(t, p1);
    var u := p2.history[p2.hisPly].(fiftyMove := p2.fiftyMove, enPas := p2.enPas, castlePerm := p2.castleperm, checkers := p2.checkers);
    var p3 := p2.(history := p2.history[p2.hisPly := u]);
    var p4 := p3.(enPas := NO_SQ);
    var p5 := p4.(side := Opponent(p4.side));
    var p6 := p5.(hisPly := p5.hisPly + 1);
    p6.(posKey := HashKey(p6.posKey, t.sideKey))
  }

  /** `TakeNullMove` (lines 392-403). */
  function TakeNullMove(t: Tables, p: Position): (r: Position)
    requires t.Valid() && p.WellFormed() && 0 < p.hisPly && |p.playedPositions| > 0
    ensures r.WellFormed()
  {
    var ply := p.hisPly - 1;
    var u := p.history[ply];
    var p1 := p.(hisPly := ply, castleperm := u.castlePerm, fiftyMove := u.fiftyMove, enPas := u.enPas, checkers := u.checkers);
    var p2 := p1.(side := Opponent(p1.side));
    var n := |p2.playedPositions|;
    p2.(posKey := p2.playedPositions[n - 1], playedPositions := p2.playedPositions[..n - 1])
  }
}
