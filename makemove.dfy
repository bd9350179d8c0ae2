/**
 * The engine's `S_Board` as a mutable object and the functions of
 * `src/makemove.cpp` as methods that update it in place, in the engine's
 * order.  Every method is proved to leave the board in exactly the state
 * the matching function of `MoveSpec` computes from the old state, so the
 * properties proved about those functions (modules `MoveProps`,
 * `UnmakeProps`, `NullProps`) hold of the methods.
 */
module MakeMove {
  import opened Keys
  import opened Types
  import opened BoardState
  import MoveSpec
  import MoveProps

  class Board {
    /** The Zobrist keys and castling masks the code reads. */
    const tables: Tables

    const bitboards: array<Bitboard>
    const occupancies: array<Bitboard>
    const pieces: array<Content>
    var side: Color
    var castleperm: bv4
    var enPas: EpSquare
    var fiftyMove: int
    var checkers: bool
    var posKey: Key
    var hisPly: int
    const history: array<Undo>
    var playedPositions: seq<Key>
    var accumulator: Accumulator
    var accumulatorStack: seq<Accumulator>

    /** The array shapes every method relies on. */
    predicate Valid()
      reads this
    {
      tables.Valid() &&
      bitboards.Length == 12 && occupancies.Length == 3 && pieces.Length == 64 &&
      bitboards != occupancies && 0 <= hisPly <= history.Length
    }

    /** The board's contents as a `Position` value. */
    ghost function Model(): (r: Position)
      reads this, bitboards, occupancies, pieces, history
      ensures Valid() ==> r.WellFormed()
    {
      Position(bitboards[..], occupancies[..], pieces[..], side, castleperm, enPas, fiftyMove, checkers,
               posKey, hisPly, history[..], playedPositions, accumulator, accumulatorStack)
    }

    /** Sets up a board holding `p` (the engine reads positions from FEN elsewhere). */
    constructor (t: Tables, p: Position)
      requires t.Valid() && p.WellFormed()
      ensures Valid() && Model() == p
      ensures fresh(bitboards) && fresh(occupancies) && fresh(pieces) && fresh(history)
    {
      tables := t;
      bitboards := new Bitboard[12](i => if 0 <= i < 12 then p.bitboards[i] else {});
      occupancies := new Bitboard[3](i => if 0 <= i < 3 then p.occupancies[i] else {});
      pieces := new Content[64](i => if 0 <= i < 64 then p.pieces[i] else EMPTY);
      history := new Undo[|p.history|](i => if 0 <= i < |p.history| then p.history[i] else Undo(0, NO_SQ, 0, false, EMPTY));
      side, castleperm, enPas, fiftyMove, checkers := p.side, p.castleperm, p.enPas, p.fiftyMove, p.checkers;
      posKey, hisPly := p.posKey, p.hisPly;
      playedPositions, accumulator, accumulatorStack := p.playedPositions, p.accumulator, p.accumulatorStack;
    }

    /** `HashKey` (lines 64-66): toggle `key` in `posKey`. */
    method HashKey(key: Key)
      modifies this`posKey
      ensures posKey == Keys.HashKey(old(posKey), key)
    {
      posKey := Keys.HashKey(posKey, key);
    }

    /** `ClearPiece` (lines 11-18). */
    method ClearPiece(piece: int, sq: Square)
      requires Valid() && IsPiece(piece)
      modifies this`posKey, bitboards, occupancies, pieces
      ensures Valid()
      ensures Model() == MoveSpec.ClearPiece(tables, old(Model()), piece, sq)
    {
      var color := PieceColor(piece);
      HashKey(tables.pieceKeys[piece][sq]);
      bitboards[piece] := bitboards[piece] - {sq};
      pieces[sq] := EMPTY;
      occupancies[BOTH] := occupancies[BOTH] - {sq};
      occupancies[color] := occupancies[color] - {sq};
    }

    /** `AddPiece` (lines 21-28). */
    method AddPiece(piece: int, sq: Square)
      requires Valid() && IsPiece(piece)
      modifies this`posKey, bitboards, occupancies, pieces
      ensures Valid()
      ensures Model() == MoveSpec.AddPiece(tables, old(Model()), piece, sq)
    {
      var color := PieceColor(piece);
      bitboards[piece] := bitboards[piece] + {sq};
      occupancies[color] := occupancies[color] + {sq};
      occupancies[BOTH] := occupancies[BOTH] + {sq};
      pieces[sq] := piece;
      HashKey(tables.pieceKeys[piece][sq]);
    }

    /** `MovePiece` (lines 43-46). */
    method MovePiece(piece: int, from: Square, to: Square)
      requires Valid() && IsPiece(piece)
      modifies this`posKey, bitboards, occupancies, pieces
      ensures Valid()
      ensures Model() == MoveSpec.MovePiece(tables, old(Model()), piece, from, to)
    {
      ClearPiece(piece, from);
      AddPiece(piece, to);
    }

    /** `ClearPieceNNUE` (lines 31-34). */
    method ClearPieceNNUE(piece: int, sq: Square)
      requires Valid() && IsPiece(piece)
      modifies this`accumulator, this`posKey, bitboards, occupancies, pieces
      ensures Valid()
      ensures Model() == MoveSpec.ClearPieceNNUE(tables, old(Model()), piece, sq)
    {
      accumulator := tables.nnue.clear(accumulator, piece, sq);
      ClearPiece(piece, sq);
    }

    /** `AddPieceNNUE` (lines 37-40). */
    method AddPieceNNUE(piece: int, sq: Square)
      requires Valid() && IsPiece(piece)
      modifies this`accumulator, this`posKey, bitboards, occupancies, pieces
      ensures Valid()
      ensures Model() == MoveSpec.AddPieceNNUE(tables, old(Model()), piece, sq)
    {
      accumulator := tables.nnue.add(accumulator, piece, sq);
      AddPiece(piece, sq);
    }

    /** `MovePieceNNUE` (lines 49-52). */
    method MovePieceNNUE(piece: int, from: Square, to: Square)
      requires Valid() && IsPiece(piece)
      modifies this`accumulator, this`posKey, bitboards, occupancies, pieces
      ensures Valid()
      ensures Model() == MoveSpec.MovePieceNNUE(tables, old(Model()), piece, from, to)
    {
      accumulator := tables.nnue.move(accumulator, piece, from, to);
      MovePiece(piece, from, to);
    }

    /** `ClearPieceNNUE` for `MakeMove` (`full`), `ClearPiece` for `MakeMoveLight`. */
    method ClearPieceFor(piece: int, sq: Square, full: bool)
      requires Valid() && IsPiece(piece)
      modifies this`accumulator, this`posKey, bitboards, occupancies, pieces
      ensures Valid()
      ensures Model() == MoveSpec.ClearPieceFor(tables, old(Model()), piece, sq, full)
    {
      if full {
        ClearPieceNNUE(piece, sq);
      } else {
        ClearPiece(piece, sq);
      }
    }

    /** `AddPieceNNUE` for `MakeMove` (`full`), `AddPiece` for `MakeMoveLight`. */
    method AddPieceFor(piece: int, sq: Square, full: bool)
      requires Valid() && IsPiece(piece)
      modifies this`accumulator, this`posKey, bitboards, occupancies, pieces
      ensures Valid()
      ensures Model() == MoveSpec.AddPieceFor(tables, old(Model()), piece, sq, full)
    {
      if full {
        AddPieceNNUE(piece, sq);
      } else {
        AddPiece(piece, sq);
      }
    }

    /** `MovePieceNNUE` for `MakeMove` (`full`), `MovePiece` for `MakeMoveLight`. */
    method MovePieceFor(piece: int, from: Square, to: Square, full: bool)
      requires Valid() && IsPiece(piece)
      modifies this`accumulator, this`posKey, bitboards, occupancies, pieces
      ensures Valid()
      ensures Model() == MoveSpec.MovePieceFor(tables, old(Model()), piece, from, to, full)
    {
      if full {
        MovePieceNNUE(piece, from, to);
      } else {
        MovePiece(piece, from, to);
      }
    }

    /** `UpdateCastlingPerms` (lines 54-62). */
    method UpdateCastlingPerms(source: Square, target: Square)
      requires Valid()
      modifies this`posKey, this`castleperm
      ensures Valid()
      ensures Model() == MoveSpec.UpdateCastlingPerms(tables, old(Model()), source, target)
    {
      HashKey(tables.castleKeys[castleperm]);
      castleperm := castleperm & tables.castlingRights[source];
      castleperm := castleperm & tables.castlingRights[target];
      HashKey(tables.castleKeys[castleperm]);
    }
  
    /** Lines 71-77: save what the move cannot recompute and push the key. */
    method SaveState()
      requires Valid() && hisPly < history.Length
      modifies this`playedPositions, history
      ensures Valid()
      ensures Model() == MoveSpec.SaveState(old(Model()))
    {
      history[hisPly] := history[hisPly].(fiftyMove := fiftyMove, enPas := enPas, castlePerm := castleperm, checkers := checkers);
      playedPositions := playedPositions + [posKey];
    }

    /** Lines 72-75 and 380-383: save what the move cannot recompute in this ply's undo record. */
    method SaveUndo()
      requires Valid() && hisPly < history.Length
      modifies history
      ensures Valid()
      ensures Model() == old(Model()).(history := old(history[..])[hisPly := Undo(fiftyMove, enPas, castleperm, checkers, old(history[hisPly]).capture)])
    {
      history[hisPly] := history[hisPly].(fiftyMove := fiftyMove, enPas := enPas, castlePerm := castleperm, checkers := checkers);
    }

    /** Lines 77 and 374: push the key for repetition detection and for the unmake. */
    method PushKey()
      requires Valid()
      modifies this`playedPositions
      ensures Valid()
      ensures Model() == old(Model()).(playedPositions := old(playedPositions) + [posKey])
    {
      playedPositions := playedPositions + [posKey];
    }

    /** Line 79: save the accumulator for `UnmakeMove`. */
    method PushAccumulator()
      requires Valid()
      modifies this`accumulatorStack
      ensures Valid()
      ensures Model() == MoveSpec.PushAccumulator(old(Model()))
    {
      accumulatorStack := accumulatorStack + [accumulator];
    }

    /** Lines 92-114: the fifty-move counter and the victim of a capture. */
    method RemoveCaptured(m: Move, full: bool)
      requires Valid() && MoveSpec.MoveInBounds(Model(), m)
      modifies this`accumulator, this`posKey, this`fiftyMove, bitboards, occupancies, pieces, history
      ensures Valid()
      ensures Model() == MoveSpec.RemoveCaptured(tables, old(Model()), m, full)
    {
      SetFiftyMove(fiftyMove + 1);
      TakeVictim(m, full);
      if GetPieceType(m.piece) == PAWN {
        SetFiftyMove(0);
      }
    }

    /** Writes the fifty-move counter. */
    method SetFiftyMove(n: int)
      requires Valid()
      modifies this`fiftyMove
      ensures Valid()
      ensures Model() == old(Model()).(fiftyMove := n)
    {
      fiftyMove := n;
    }

    /** Lines 94-110: take the en-passant victim or the captured piece off the board. */
    method TakeVictim(m: Move, full: bool)
      requires Valid() && MoveSpec.MoveInBounds(Model(), m)
      modifies this`accumulator, this`posKey, this`fiftyMove, bitboards, occupancies, pieces, history
      ensures Valid()
      ensures Model() == MoveSpec.TakeVictim(tables, old(Model()), m, full)
    {
      var north := North(side);
      if m.enPassant {
        ClearPieceFor(GetPiece(PAWN, MoveSpec.Opponent(side)), m.to + north, full);
        fiftyMove := 0;
      } else if m.capture {
        var captured := pieces[m.to];
        ClearPieceFor(captured, m.to, full);
        if full {
          history[hisPly] := history[hisPly].(capture := captured);
        }
        fiftyMove := 0;
      }
    }

    /** Lines 117-121: count the ply and move the piece, promoting it if need be. */
    method PlaceMover(m: Move, full: bool)
      requires Valid() && hisPly < history.Length && IsPiece(m.piece) && IsPiece(MoveSpec.Landing(m, side))
      modifies this`accumulator, this`posKey, this`hisPly, bitboards, occupancies, pieces
      ensures Valid()
      ensures Model() == MoveSpec.PlaceMover(tables, old(Model()), m, full)
    {
      hisPly := hisPly + 1;
      ClearPieceFor(m.piece, m.from, full);
      AddPieceFor(MoveSpec.Landing(m, side), m.to, full);
    }

    /** Lines 124-136: drop the old en-passant square and set the new one on a double push. */
    method UpdateEnPassant(m: Move, north: int)
      requires Valid() && (m.doublePush ==> 0 <= m.to + north < 64)
      modifies this`posKey, this`enPas
      ensures Valid()
      ensures Model() == MoveSpec.UpdateEnPassant(tables, old(Model()), m, north)
    {
      if enPas != NO_SQ {
        HashKey(tables.enpassantKeys[enPas]);
      }
      enPas := NO_SQ;
      if m.doublePush {
        enPas := m.to + north;
        HashKey(tables.enpassantKeys[enPas]);
      }
    }

    /** Lines 139-166: the rook a castling king's destination calls for. */
    method CastleRook(kingTo: Square, full: bool)
      requires Valid()
      modifies this`accumulator, this`posKey, bitboards, occupancies, pieces
      ensures Valid()
      ensures Model() == MoveSpec.CastleRook(tables, old(Model()), kingTo, full)
    {
      match MoveSpec.CastleRookShift(kingTo)
      case Some(s) => MovePieceFor(s.rook, s.from, s.to, full);
      case None =>
    }

    /** Lines 171-173: `ChangeSide` and the side key. */
    method PassTurn()
      requires Valid()
      modifies this`side, this`posKey
      ensures Valid()
      ensures Model() == MoveSpec.PassTurn(tables, old(Model()))
    {
      side := MoveSpec.Opponent(side);
      HashKey(tables.sideKey);
    }

    /** Lines 92-173, the part `MakeMove` and `MakeMoveLight` share. */
    method PlayMove(m: Move, full: bool)
      requires Valid() && MoveSpec.MoveInBounds(Model(), m)
      modifies this, bitboards, occupancies, pieces, history
      ensures Valid()
      ensures Model() == MoveSpec.PlayMove(tables, old(Model()), m, full)
    {
      var north := North(side);
      RemoveCaptured(m, full);
      PlaceMover(m, full);
      UpdateEnPassant(m, north);
      if m.castle {
        CastleRook(m.to, full);
      }
      UpdateCastlingPerms(m.from, m.to);
      PassTurn();
    }

    /** Line 177: whether the side to move is now in check. */
    method UpdateCheckers(isInCheck: MoveSpec.CheckTest)
      requires Valid()
      modifies this`checkers
      ensures Valid()
      ensures Model() == old(Model()).(checkers := isInCheck(old(Model()).bitboards, old(Model()).occupancies, old(Model()).side))
    {
      checkers := isInCheck(bitboards[..], occupancies[..], side);
    }

    /** `MakeMove` (lines 69-178); `isInCheck` stands for `IsInCheck`. */
    method MakeMove(m: Move, isInCheck: MoveSpec.CheckTest)
      requires Valid() && MoveSpec.MoveInBounds(Model(), m)
      modifies this, bitboards, occupancies, pieces, history
      ensures Valid()
      ensures Model() == MoveSpec.MakeMove(tables, old(Model()), m, isInCheck)
    {
      ghost var p := Model();
      MoveProps.MakeMoveIsPlayMove(tables, p, m, isInCheck);
      SaveState();
      PushAccumulator();
      PlayMove(m, true);
      UpdateCheckers(isInCheck);
    }

    /** `MakeMoveLight` (lines 181-285). */
    method MakeMoveLight(m: Move)
      requires Valid() && MoveSpec.MoveInBounds(Model(), m)
      modifies this, bitboards, occupancies, pieces, history
      ensures Valid()
      ensures Model() == MoveSpec.MakeMoveLight(tables, old(Model()), m)
    {
      SaveState();
      PlayMove(m, false);
    }

    /** Lines 290-308: step back one ply and restore the saved state and accumulator. */
    method RestoreState()
      requires Valid() && 0 < hisPly && |accumulatorStack| > 0
      modifies this`hisPly, this`enPas, this`fiftyMove, this`castleperm, this`checkers,
               this`accumulator, this`accumulatorStack
      ensures Valid()
      ensures Model() == MoveSpec.RestoreState(old(Model()))
    {
      RestoreUndo();
      accumulator := accumulatorStack[|accumulatorStack| - 1];
      accumulatorStack := accumulatorStack[..|accumulatorStack| - 1];
    }

    /** Lines 290-295 and 393-398: step back one ply and reload the saved fields. */
    method RestoreUndo()
      requires Valid() && 0 < hisPly
      modifies this`hisPly, this`enPas, this`fiftyMove, this`castleperm, this`checkers
      ensures Valid()
      ensures var u := old(history[hisPly - 1]);
        Model() == old(Model()).(hisPly := old(hisPly) - 1, enPas := u.enPas, fiftyMove := u.fiftyMove,
                                 castleperm := u.castlePerm, checkers := u.checkers)
    {
      hisPly := hisPly - 1;
      var u := history[hisPly];
      enPas, fiftyMove, castleperm, checkers := u.enPas, u.fiftyMove, u.castlePerm, u.checkers;
    }

    /** Lines 311-317: take off a promotion piece, then move the mover back. */
    method UnplaceMover(m: Move)
      requires Valid() && IsPiece(m.piece)
      requires m.promotion ==> IsPiece(GetPiece(m.promotedType, MoveSpec.Opponent(side)))
      modifies this`posKey, bitboards, occupancies, pieces
      ensures Valid()
      ensures Model() == MoveSpec.UnplaceMover(tables, old(Model()), m)
    {
      if m.promotion {
        ClearPiece(GetPiece(m.promotedType, MoveSpec.Opponent(side)), m.to);
      }
      MovePiece(m.piece, m.to, m.from);
    }

    /** Lines 327-354: the castling rook goes back to its corner. */
    method UncastleRook(kingTo: Square)
      requires Valid()
      modifies this`posKey, bitboards, occupancies, pieces
      ensures Valid()
      ensures Model() == MoveSpec.UncastleRook(tables, old(Model()), kingTo)
    {
      if kingTo == G1 {
        MovePiece(WR, F1, H1);
      } else if kingTo == C1 {
        MovePiece(WR, D1, A1);
      } else if kingTo == G8 {
        MovePiece(BR, F8, H8);
      } else if kingTo == C8 {
        MovePiece(BR, D8, A8);
      }
    }

    /** Lines 311-361: put the pieces back where they were. */
    method UnplayPieces(m: Move)
      requires Valid() && IsPiece(m.piece) && hisPly < history.Length
      requires m.promotion ==> IsPiece(GetPiece(m.promotedType, MoveSpec.Opponent(side)))
      requires m.enPassant ==> 0 <= m.to + MoveSpec.South(side) < 64
      requires m.capture && !m.enPassant ==> IsPiece(history[hisPly].capture)
      modifies this`posKey, bitboards, occupancies, pieces
      ensures Valid()
      ensures Model() == MoveSpec.UnplayPieces(tables, old(Model()), m)
    {
      UnplaceMover(m);
      var south := MoveSpec.South(side);
      if m.enPassant {
        AddPiece(GetPiece(PAWN, side), m.to + south);
      }
      if m.castle {
        UncastleRook(m.to);
      }
      if m.capture && !m.enPassant {
        AddPiece(history[hisPly].capture, m.to);
      }
    }

    /** `ChangeSide` and the key popped from `played_positions` (lines 364-369, 400-402). */
    method RestoreTurn()
      requires Valid() && |playedPositions| > 0
      modifies this`side, this`posKey, this`playedPositions
      ensures Valid()
      ensures Model() == old(Model()).(side := MoveSpec.Opponent(old(side)),
                                        posKey := old(playedPositions)[|old(playedPositions)| - 1],
                                        playedPositions := old(playedPositions)[..|old(playedPositions)| - 1])
    {
      side := MoveSpec.Opponent(side);
      posKey := playedPositions[|playedPositions| - 1];
      playedPositions := playedPositions[..|playedPositions| - 1];
    }

    /** `UnmakeMove` (lines 287-370). */
    method UnmakeMove(m: Move)
      requires Valid() && MoveSpec.UnmakeInBounds(Model(), m)
      modifies this, bitboards, occupancies, pieces
      ensures Valid()
      ensures Model() == MoveSpec.UnmakeMove(tables, old(Model()), m)
    {
      RestoreState();
      UnplayPieces(m);
      RestoreTurn();
    }

    /** `MakeNullMove` (lines 373-389). */
    method MakeNullMove()
      requires Valid() && hisPly < history.Length
      modifies this`playedPositions, this`posKey, this`enPas, this`side, this`hisPly, history
      ensures Valid()
      ensures Model() == MoveSpec.MakeNullMove(tables, old(Model()))
    {
      ghost var p := Model();
      PushKey();
      DropEnPassantKey();
      ghost var p2 := Model();
      assert p2 == MoveSpec.DropNullEnPassantKey(tables, p.(playedPositions := p.playedPositions + [p.posKey]));
      SaveUndo();
      PassNullTurn();
    }

    /** Lines 376-377: take the en-passant square's key out of `posKey` when one is set. */
    method DropEnPassantKey()
      requires Valid()
      modifies this`posKey
      ensures Valid()
      ensures Model() == MoveSpec.DropNullEnPassantKey(tables, old(Model()))
    {
      if enPas != NO_SQ {
        HashKey(tables.enpassantKeys[enPas]);
      }
    }

    /** Lines 385-388: drop the en-passant square, pass the turn with its key and advance the ply. */
    method PassNullTurn()
      requires Valid() && hisPly < history.Length
      modifies this`posKey, this`enPas, this`side, this`hisPly
      ensures Valid()
      ensures Model() == old(Model()).(enPas := NO_SQ, side := MoveSpec.Opponent(old(side)), hisPly := old(hisPly) + 1,
                                        posKey := Keys.HashKey(old(posKey), tables.sideKey))
    {
      enPas := NO_SQ;
      side := MoveSpec.Opponent(side);
      hisPly := hisPly + 1;
      HashKey(tables.sideKey);
    }

    /** `TakeNullMove` (lines 392-403). */
    method TakeNullMove()
      requires Valid() && 0 < hisPly && |playedPositions| > 0
      modifies this`hisPly, this`castleperm, this`fiftyMove, this`enPas, this`checkers,
               this`side, this`posKey, this`playedPositions
      ensures Valid()
      ensures Model() == MoveSpec.TakeNullMove(tables, old(Model()))
    {
      RestoreUndo();
      RestoreTurn();
    }
  }
}
