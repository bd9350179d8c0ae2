# Alexandria move application and magic-bitboard lookup, in Dafny

This project models two parts of the Alexandria chess engine:

- **Move application** (`src/makemove.cpp`). This is the reversible update of the engine's `S_Board`:
  - the four primitives `ClearPiece`, `AddPiece`, `MovePiece` and `UpdateCastlingPerms`, plus `HashKey`;
  - `MakeMove`, `MakeMoveLight` and `UnmakeMove`;
  - `MakeNullMove` and `TakeNullMove`.
- **Sliding-piece attack lookup** (`src/magic.cpp`). `GetBishopAttacks`, `GetRookAttacks` and `GetQueenAttacks` mask the occupancy, multiply it by a magic number, shift, and read a precomputed table.

The model is built in three layers:

1. **Values.**
   - `Types`, `Keys` and `BoardState` define squares (a8 = 0 … h1 = 63), pieces (WP … BK = 0 … 11, EMPTY = 12) and the decoded move record.
   - They define the per-ply undo record, the Zobrist key tables and the NNUE network's three incremental updates.
   - The board becomes a `Position` value. Two predicates describe it:
     - `Consistent`: the piece bitboards, the occupancy planes and `pieces[]` describe the same board;
     - `KeyValid`: `posKey` is the from-scratch Zobrist hash.
2. **Specification functions.** `MoveSpec` has one function per step of the C++ code, in the engine's order. The four property modules prove what those functions do:
   - `PieceProps`: each primitive touches one square and keeps both invariants;
   - `MoveProps`: `MakeMove` keeps both invariants and moves the pieces; it also states the fifty-move, en-passant, castling and history bookkeeping;
   - `UnmakeProps`: make followed by unmake is the identity on everything but the history slot the move wrote;
   - `NullProps`: the same for the null-move pair.
3. **The mutable board.** `MakeMove.Board` is a class with the engine's fields:
   - arrays for the bitboards, occupancies, `pieces[]` and `history[]`;
   - sequences for the `played_positions` and accumulator stacks.

   Each method updates the board in place, in the same order as the C++. Each is proved to leave `Model()` equal to the matching `MoveSpec` function of the old state. So every lemma about the functions holds for the methods.

`Magic` is pure. The index is computed on `bv64`, and the 64-bit wrapping multiply is spelled out as shift-and-add (`WrappingProduct`). Three results are proved:

- the index always lies inside the table row;
- a lookup depends only on the masked occupancy;
- under a precondition saying the generated table agrees with ray tracing on every subset of the mask, each lookup equals the ray-traced attack set for every occupancy. The queen result is the union of the bishop and rook sets.

## Model

| member | source | states |
|---|---|---|
| Keys.XorCancel | src/makemove.cpp:64-66 | XOR-ing the same key into `posKey` twice (`HashKey` twice) restores the original key |
| Keys.XorSwap | src/makemove.cpp:64-66 | the order in which two keys are XOR-ed in does not matter |
| Keys.XorBelow | src/makemove.cpp:64-66 | XOR of two 64-bit keys is a 64-bit key |
| BoardState.PiecesHashFits | src/makemove.cpp:64-66 | with `n`-bit table keys, the XOR of the square keys of any range of squares is an `n`-bit word |
| BoardState.ZobristHashFits | src/makemove.cpp:64-66 | with `n`-bit table keys, the from-scratch hash, and so a valid `posKey`, is an `n`-bit word: with the engine's 64-bit keys, the natural-number keys never need wrap-around |
| BoardState.PiecesHashUpdate | src/makemove.cpp:13 | changing one square's content changes the board hash by that square's old key and new key |
| BoardState.ConsistentDetermined | src/makemove.cpp:11-28 | in consistent positions, `pieces[]` determines the bitboards and occupancy planes |
| MoveSpec.ClearPiece | src/makemove.cpp:11-18 | `pieces[sq]` becomes EMPTY, `PieceKeys[piece][sq]` is XOR-ed into `posKey`, and no other field changes |
| MoveSpec.AddPiece | src/makemove.cpp:21-28 | `pieces[sq]` becomes `piece`, `PieceKeys[piece][sq]` is XOR-ed into `posKey`, and no other field changes |
| MoveSpec.MovePiece | src/makemove.cpp:43-46 | `from` is emptied and `piece` stands on `to`; only the board and the key change |
| MoveSpec.ClearPieceFor | src/makemove.cpp:31-34 | in `MakeMove`'s variant the accumulator becomes `nnue.clear(accumulator, piece, sq)`, in `MakeMoveLight`'s it stays; either way the rest of the position changes exactly as `ClearPiece` changes it |
| MoveSpec.AddPieceFor | src/makemove.cpp:37-40 | in `MakeMove`'s variant the accumulator becomes `nnue.add(accumulator, piece, sq)`, in `MakeMoveLight`'s it stays; either way the rest of the position changes exactly as `AddPiece` changes it |
| MoveSpec.MovePieceFor | src/makemove.cpp:49-52 | in `MakeMove`'s variant the accumulator becomes `nnue.move(accumulator, piece, from, to)`, in `MakeMoveLight`'s it stays; either way the rest of the position changes exactly as `MovePiece` changes it |
| MoveSpec.UpdateCastlingPerms | src/makemove.cpp:54-62 | new rights = old & mask[source] & mask[target], a subset of the old; the key trades the old rights' key for the new one; nothing else changes |
| MoveSpec.SaveState | src/makemove.cpp:71-77 | only `history[]` and the key stack change |
| MoveSpec.RemoveCaptured | src/makemove.cpp:92-114 | only the board, key, fifty-move counter, `history[]` and accumulator change (contents in MoveProps.RemoveCapturedKeeps, MoveProps.RemoveCapturedAccumulator and MoveProps.PlayMoveCounters) |
| MoveSpec.TakeVictim | src/makemove.cpp:97-110 | only the board, key, fifty-move counter, `history[]` and accumulator change |
| MoveSpec.UpdateEnPassant | src/makemove.cpp:124-136 | `enPas` is target+NORTH after a double push and no_sq otherwise; the old square's key is XOR-ed out and the new one's in; nothing else changes |
| MoveSpec.CastleRookShift | src/makemove.cpp:139-166 | a rook moves exactly for g1, c1, g8 and c8; it stays on the king's rank; it is the king's colour; it goes h→f on the king side and a→d on the queen side |
| MoveSpec.CastleRook | src/makemove.cpp:139-166 | only the board, the key and the accumulator change (the rook's squares are in MoveProps.CastleRookKeeps) |
| MoveSpec.UncastleRook | src/makemove.cpp:327-354 | only the board and the key change (the rook's squares are in UnmakeProps.UncastleRookKeeps) |
| MoveSpec.PassTurn | src/makemove.cpp:171-173 | the side flips and `SideKey` is XOR-ed in exactly once; nothing else changes |
| MoveSpec.PlaceMover | src/makemove.cpp:117-121 | `from` is emptied, the landing piece (promotion piece or mover) stands on `to`, the ply advances, and nothing but the board, key and accumulator changes |
| MoveSpec.PlayMove | src/makemove.cpp:92-173 | the result is well formed (its effects are in MoveProps) |
| MoveSpec.MakeMove | src/makemove.cpp:69-178 | the result is well formed (its effects are in MoveProps and UnmakeProps) |
| MoveSpec.MakeMoveLight | src/makemove.cpp:181-285 | the result is well formed (its effects are in MoveProps) |
| MoveSpec.RestoreState | src/makemove.cpp:290-308 | the result is well formed (its effects are in UnmakeProps.RestoreStateKeeps) |
| MoveSpec.UnplaceMover | src/makemove.cpp:311-317 | `to` is emptied and the mover stands on `from`; the promotion colour is `side ^ 1`; only the board and key change |
| MoveSpec.UnplayPieces | src/makemove.cpp:311-361 | only the board and the key change |
| MoveSpec.UnmakeMove | src/makemove.cpp:287-370 | the result is well formed (its effects are in UnmakeProps) |
| MoveSpec.MakeNullMove | src/makemove.cpp:373-389 | the result is well formed (its effects are in NullProps) |
| MoveSpec.TakeNullMove | src/makemove.cpp:392-403 | the result is well formed (its effects are in NullProps) |
| PieceProps.ClearPieceTouchesOnlySquare | src/makemove.cpp:11-18 | only `sq` leaves `bitboards[piece]`, `occupancies[Color[piece]]` and `occupancies[BOTH]`; `pieces[sq]` becomes EMPTY; no other square changes |
| PieceProps.AddPieceTouchesOnlySquare | src/makemove.cpp:21-28 | only `sq` joins `bitboards[piece]`, `occupancies[Color[piece]]` and `occupancies[BOTH]`; `pieces[sq]` becomes `piece`; no other square changes |
| PieceProps.ClearPieceKeepsConsistent | src/makemove.cpp:11-18 | clearing a square that holds the piece, or nothing, keeps the board consistent |
| PieceProps.AddPieceKeepsConsistent | src/makemove.cpp:21-28 | adding on an empty square keeps the board consistent |
| PieceProps.MovePieceKeepsConsistent | src/makemove.cpp:43-46 | moving a piece from its square onto an empty one keeps the board consistent |
| PieceProps.ClearPieceKeepsKey | src/makemove.cpp:11-18 | clearing the piece on `sq` keeps `posKey` equal to the Zobrist hash |
| PieceProps.AddPieceKeepsKey | src/makemove.cpp:21-28 | adding a piece on an empty square keeps `posKey` equal to the Zobrist hash |
| PieceProps.MovePieceKeepsKey | src/makemove.cpp:43-46 | moving a piece keeps `posKey` equal to the Zobrist hash |
| PieceProps.UpdateCastlingPermsKeepsKey | src/makemove.cpp:54-62 | updating the rights keeps `posKey` equal to the Zobrist hash |
| PieceProps.UpdateEnPassantKeepsKey | src/makemove.cpp:124-136 | updating the en-passant square keeps `posKey` equal to the Zobrist hash |
| PieceProps.PassTurnKeepsKey | src/makemove.cpp:171-173 | passing the turn keeps `posKey` equal to the Zobrist hash |
| MoveProps.RemoveCapturedEnPassantConsistent | src/makemove.cpp:97-100 | the enemy pawn behind the target leaves the board, and the board stays consistent |
| MoveProps.RemoveCapturedEnPassantKey | src/makemove.cpp:97-100 | removing the en-passant victim keeps the key valid |
| MoveProps.RemoveCapturedCaptureConsistent | src/makemove.cpp:102-110 | the captured piece leaves the target, and the board stays consistent |
| MoveProps.RemoveCapturedCaptureKey | src/makemove.cpp:102-110 | removing the captured piece keeps the key valid |
| MoveProps.RemoveCapturedKeeps | src/makemove.cpp:92-114 | exactly the victim is removed and both invariants hold |
| MoveProps.PlaceMoverKeeps | src/makemove.cpp:117-121 | moving the mover onto the empty target keeps both invariants |
| MoveProps.UpdateEnPassantKeeps | src/makemove.cpp:124-136 | the en-passant update keeps both invariants |
| MoveProps.CastleRookKeeps | src/makemove.cpp:139-166 | the rook goes from its corner to the square past the king, and both invariants hold |
| MoveProps.FinishTurnKeeps | src/makemove.cpp:168-173 | the castling update and turn change leave the pieces alone and keep both invariants |
| MoveProps.CapturedPiecesReady | src/makemove.cpp:117-121 | after the victim is removed, the mover is on `from` and `to` is empty |
| MoveProps.RookReady | src/makemove.cpp:139-166 | after the king moves, the castling rook is on its corner and its destination is free |
| MoveProps.PlayMoveKeeps | src/makemove.cpp:92-173 | both invariants hold and the pieces stand where the move puts them |
| MoveProps.PlayMoveCounters | src/makemove.cpp:92-173 | see the rule list below |
| MoveProps.RemoveCapturedAccumulator | src/makemove.cpp:97-110 | in `MakeMove`'s variant the network forgets the en-passant victim or the captured piece; in `MakeMoveLight`'s the accumulator stays |
| MoveProps.PlaceMoverAccumulator | src/makemove.cpp:119-121 | in `MakeMove`'s variant the network forgets the mover on `from` and learns the landing piece on `to`; in `MakeMoveLight`'s the accumulator stays |
| MoveProps.CastleRookAccumulator | src/makemove.cpp:139-166 | in `MakeMove`'s variant the network moves the castling rook; in `MakeMoveLight`'s the accumulator stays |
| MoveProps.PlayMoveAccumulator | src/makemove.cpp:92-173 | in `MakeMove`'s variant the accumulator is `MovedAccumulator`: victim out, mover out of `from`, landing piece onto `to`, castling rook moved, in that order; in `MakeMoveLight`'s it stays |
| MoveProps.PlayMoveRecords | src/makemove.cpp:92-173 | checkers, the key stack and the saved accumulators are untouched; `history[hisPly].capture` is written only by `MakeMove`'s variant, for a normal capture |
| MoveProps.MakeMoveIsPlayMove | src/makemove.cpp:69-178 | MakeMove = save state, push accumulator, play, store `IsInCheck` of the new side |
| MoveProps.MakeMoveKeepsInvariants | src/makemove.cpp:69-178 | MakeMove keeps the board consistent and `posKey` equal to the Zobrist hash; the pieces stand where the move puts them |
| MoveProps.MakeMoveSavesUndo | src/makemove.cpp:71-107 | `history[hisPly]` gets the pre-move fifty-move counter, en-passant square, castling rights, checkers and, for a normal capture, the captured piece; no other slot changes |
| MoveProps.MakeMoveRecords | src/makemove.cpp:69-178 | see the bookkeeping list below |
| MoveProps.MakeMoveAccumulator | src/makemove.cpp:98-163 | the accumulator after MakeMove is `MovedAccumulator` of the one it saved: the network's updates for every piece the move lifts or places |
| MoveProps.MakeMoveCounters | src/makemove.cpp:92-168 | after MakeMove, the fifty-move counter, en-passant square and castling rights follow the rules in the list below |
| MoveProps.MakeMoveLightKeepsInvariants | src/makemove.cpp:181-285 | MakeMoveLight moves the pieces like MakeMove and keeps both invariants |
| MoveProps.MakeMoveLightRecords | src/makemove.cpp:181-285 | see the bookkeeping list below |
| UnmakeProps.UnmovedMovedPieces | src/makemove.cpp:311-361 | taking the pieces back undoes moving them, square by square |
| UnmakeProps.MovedPiecesAdmitUnplay | src/makemove.cpp:311-361 | after a playable move, the squares are as taking it back expects |
| UnmakeProps.UnplaceMoverKeeps | src/makemove.cpp:311-317 | removing the promotion piece and moving the mover back keep the board consistent |
| UnmakeProps.UncastleRookKeeps | src/makemove.cpp:327-354 | the castled rook returns to its corner along the same pair of squares, and the board stays consistent |
| UnmakeProps.UnplayEnPassantShape | src/makemove.cpp:311-324 | for en passant, the unmake moves the mover back and then re-adds a `side` pawn at target+SOUTH |
| UnmakeProps.UnplacedVictimEmpty | src/makemove.cpp:319-323 | the en-passant victim's square is empty when the pawn is re-added |
| UnmakeProps.UnplayEnPassantConsistent | src/makemove.cpp:311-324 | the en-passant unmake keeps the board consistent |
| UnmakeProps.UnplayEnPassantPieces | src/makemove.cpp:311-324 | the en-passant unmake puts the pieces where UnmovedPieces says |
| UnmakeProps.UnplayCastleShape | src/makemove.cpp:311-354 | for castling, the unmake moves the king back and then the rook |
| UnmakeProps.UnplacedRookReady | src/makemove.cpp:327-354 | once the king is back, the rook is on its destination and its corner is free |
| UnmakeProps.UnplayCastleConsistent | src/makemove.cpp:327-354 | the castling unmake keeps the board consistent |
| UnmakeProps.UnplayCastlePieces | src/makemove.cpp:327-354 | the castling unmake puts the pieces where UnmovedPieces says |
| UnmakeProps.UnplayCapture | src/makemove.cpp:357-361 | the piece saved in `history[hisPly].capture` reappears on the target, and the board stays consistent |
| UnmakeProps.UnplayQuiet | src/makemove.cpp:311-317 | a quiet move is taken back by moving the mover back |
| UnmakeProps.UnplayPiecesKeeps | src/makemove.cpp:311-361 | putting the pieces back keeps the board consistent and matches UnmovedPieces |
| UnmakeProps.RestoreStateKeeps | src/makemove.cpp:290-308 | the restore steps back one ply and leaves the pieces, side and `history[]` alone |
| UnmakeProps.MadeMoveInBounds | src/makemove.cpp:287-370 | after MakeMove, UnmakeMove of the same move reads only valid indexes |
| UnmakeProps.MadeMoveUnplayable | src/makemove.cpp:287-370 | after MakeMove, the squares are as UnmakeMove expects |
| UnmakeProps.UnmakeRestoresBoard | src/makemove.cpp:287-370 | make then unmake restores `pieces[]`, the bitboards and the occupancies |
| UnmakeProps.UnmakeMoveRecords | src/makemove.cpp:290-308 | see the bookkeeping list below |
| UnmakeProps.UnmakeRestoresState | src/makemove.cpp:287-370 | make then unmake restores every non-board field (listed below) |
| UnmakeProps.MakeUnmakeRoundTrip | src/makemove.cpp:287-370 | unmake after make is the identity except for the history slot the move wrote; both invariants hold again |
| NullProps.MakeNullMoveRecords | src/makemove.cpp:373-389 | see the null-move list below |
| NullProps.MakeNullMoveKeepsInvariants | src/makemove.cpp:373-389 | a null move keeps the board consistent and `posKey` equal to the Zobrist hash |
| NullProps.TakeNullMoveRecords | src/makemove.cpp:392-403 | see the null-move list below |
| NullProps.NullMoveRoundTrip | src/makemove.cpp:373-403 | TakeNullMove after MakeNullMove is the identity except for the history slot |
| MakeMove.Board.HashKey | src/makemove.cpp:64-66 | `posKey` becomes old `posKey` XOR `key` |
| MakeMove.Board.ClearPiece | src/makemove.cpp:11-18 | the board in place equals MoveSpec.ClearPiece of the old board |
| MakeMove.Board.AddPiece | src/makemove.cpp:21-28 | the board in place equals MoveSpec.AddPiece of the old board |
| MakeMove.Board.MovePiece | src/makemove.cpp:43-46 | the board in place equals MoveSpec.MovePiece of the old board |
| MakeMove.Board.ClearPieceNNUE | src/makemove.cpp:31-34 | updating the accumulator and then clearing the piece in place equals MoveSpec.ClearPieceNNUE of the old board |
| MakeMove.Board.AddPieceNNUE | src/makemove.cpp:37-40 | updating the accumulator and then adding the piece in place equals MoveSpec.AddPieceNNUE of the old board |
| MakeMove.Board.MovePieceNNUE | src/makemove.cpp:49-52 | updating the accumulator and then moving the piece in place equals MoveSpec.MovePieceNNUE of the old board |
| MakeMove.Board.ClearPieceFor | src/makemove.cpp:98-119 | the board equals MoveSpec.ClearPieceFor of the old board |
| MakeMove.Board.AddPieceFor | src/makemove.cpp:121 | the board equals MoveSpec.AddPieceFor of the old board |
| MakeMove.Board.MovePieceFor | src/makemove.cpp:145-163 | the board equals MoveSpec.MovePieceFor of the old board |
| MakeMove.Board.UpdateCastlingPerms | src/makemove.cpp:54-62 | the board in place equals MoveSpec.UpdateCastlingPerms of the old board |
| MakeMove.Board.SaveState | src/makemove.cpp:71-77 | the board equals MoveSpec.SaveState of the old board |
| MakeMove.Board.SaveUndo | src/makemove.cpp:71-74 | `history[hisPly]` gets fifty-move, en-passant, castling rights and checkers; its capture field is kept |
| MakeMove.Board.PushKey | src/makemove.cpp:77 | `posKey` is pushed on `played_positions` and nothing else changes |
| MakeMove.Board.PushAccumulator | src/makemove.cpp:79 | the board equals MoveSpec.PushAccumulator of the old board |
| MakeMove.Board.RemoveCaptured | src/makemove.cpp:92-114 | the board equals MoveSpec.RemoveCaptured of the old board |
| MakeMove.Board.SetFiftyMove | src/makemove.cpp:92 | only the fifty-move counter changes |
| MakeMove.Board.TakeVictim | src/makemove.cpp:97-110 | the board equals MoveSpec.TakeVictim of the old board |
| MakeMove.Board.PlaceMover | src/makemove.cpp:117-121 | the board equals MoveSpec.PlaceMover of the old board |
| MakeMove.Board.UpdateEnPassant | src/makemove.cpp:124-136 | the board equals MoveSpec.UpdateEnPassant of the old board |
| MakeMove.Board.CastleRook | src/makemove.cpp:139-166 | the board equals MoveSpec.CastleRook of the old board |
| MakeMove.Board.PassTurn | src/makemove.cpp:171-173 | the board equals MoveSpec.PassTurn of the old board |
| MakeMove.Board.PlayMove | src/makemove.cpp:92-173 | the board equals MoveSpec.PlayMove of the old board |
| MakeMove.Board.UpdateCheckers | src/makemove.cpp:177 | `checkers` becomes `IsInCheck` of the board for the side now to move; nothing else changes |
| MakeMove.Board.MakeMove | src/makemove.cpp:69-178 | the board equals MoveSpec.MakeMove of the old board, so MoveProps and UnmakeProps apply |
| MakeMove.Board.MakeMoveLight | src/makemove.cpp:181-285 | the board equals MoveSpec.MakeMoveLight of the old board |
| MakeMove.Board.RestoreState | src/makemove.cpp:290-308 | the board equals MoveSpec.RestoreState of the old board |
| MakeMove.Board.RestoreUndo | src/makemove.cpp:290-295 | the ply steps back; en-passant, fifty-move, castling rights and checkers are reloaded from `history[hisPly-1]` |
| MakeMove.Board.UnplaceMover | src/makemove.cpp:311-317 | the board equals MoveSpec.UnplaceMover of the old board |
| MakeMove.Board.UncastleRook | src/makemove.cpp:327-354 | the board equals MoveSpec.UncastleRook of the old board |
| MakeMove.Board.UnplayPieces | src/makemove.cpp:311-361 | the board equals MoveSpec.UnplayPieces of the old board |
| MakeMove.Board.RestoreTurn | src/makemove.cpp:364-369 | the side flips back and the top of `played_positions` is popped into `posKey` |
| MakeMove.Board.UnmakeMove | src/makemove.cpp:287-370 | the board equals MoveSpec.UnmakeMove of the old board, so the round trip of UnmakeProps applies |
| MakeMove.Board.MakeNullMove | src/makemove.cpp:373-389 | the board equals MoveSpec.MakeNullMove of the old board |
| MakeMove.Board.DropEnPassantKey | src/makemove.cpp:376-377 | when an en-passant square is set its key is toggled out of `posKey`; nothing else changes |
| MakeMove.Board.PassNullTurn | src/makemove.cpp:385-388 | the en-passant square is cleared, the side flips, the ply advances and the side key is toggled; nothing else changes |
| MakeMove.Board.TakeNullMove | src/makemove.cpp:392-403 | the board equals MoveSpec.TakeNullMove of the old board |
| Magic.WrappingProduct | src/magic.cpp:9 | the product is odd exactly when both factors are odd |
| Magic.MagicIndex | src/magic.cpp:8-10 | for 0 < bits < 64, the index after the shift is below 2^bits |
| Magic.IndexInTable | src/magic.cpp:13 | an index below 2^relevantBits[sq] addresses a slot of the row |
| Magic.TableIndex | src/magic.cpp:8-13 | the bishop or rook index always lands in the table row, so the read is in bounds |
| Magic.Lookup | src/magic.cpp:8-13 | the answer is one of the precomputed slots of the square's table row |
| Magic.GetBishopAttacks | src/magic.cpp:6-14 | the answer is one of the precomputed slots of the square's bishop row (its value is in Magic.GetBishopAttacksCorrect) |
| Magic.GetRookAttacks | src/magic.cpp:17-25 | the answer is one of the precomputed slots of the square's rook row (its value is in Magic.GetRookAttacksCorrect) |
| Magic.GetQueenAttacks | src/magic.cpp:28-30 | the queen set contains the bishop set and the rook set |
| Magic.MaskIdempotent | src/magic.cpp:8 | masking twice is masking once |
| Magic.LookupMasked | src/magic.cpp:8-13 | a lookup depends only on `occupancy & mask[sq]` |
| Magic.BishopAttacksMasked | src/magic.cpp:6-14 | GetBishopAttacks(sq, occ & bishop_masks[sq]) = GetBishopAttacks(sq, occ) |
| Magic.RookAttacksMasked | src/magic.cpp:17-25 | GetRookAttacks(sq, occ & rook_masks[sq]) = GetRookAttacks(sq, occ) |
| Magic.RayAttacksMasked | src/magic.cpp:6-25 | a ray traced with blockers sees the occupancy only through the ray's relevant squares |
| Magic.RayMasked | src/magic.cpp:6-25 | a ray from a square depends only on the occupancy inside any mask that covers its relevant squares |
| Magic.UnionCovers | src/magic.cpp:28-30 | every member of a union is a subset of it |
| Magic.RaysMasked | src/magic.cpp:6-25 | all rays of a piece depend only on the masked occupancy |
| Magic.BishopReferenceMasked | src/magic.cpp:6-14 | ray-traced bishop attacks depend only on the occupancy inside the bishop mask |
| Magic.RookReferenceMasked | src/magic.cpp:17-25 | ray-traced rook attacks depend only on the occupancy inside the rook mask |
| Magic.BishopTableAt | src/magic.cpp:6-14 | a correct bishop table answers every subset of the mask by ray tracing |
| Magic.BishopTableAtMasked | src/magic.cpp:6-14 | in particular, it answers the masked occupancy by ray tracing |
| Magic.RookTableAt | src/magic.cpp:17-25 | a correct rook table answers every subset of the mask by ray tracing |
| Magic.RookTableAtMasked | src/magic.cpp:17-25 | in particular, it answers the masked occupancy by ray tracing |
| Magic.BishopReferenceMaskedByTable | src/magic.cpp:8 | with the table's mask equal to the ray-traced one, ray tracing sees the occupancy only through it |
| Magic.RookReferenceMaskedByTable | src/magic.cpp:19 | with the table's mask equal to the ray-traced one, ray tracing sees the occupancy only through it |
| Magic.GetBishopAttacksCorrect | src/magic.cpp:6-14 | with a correctly generated table, GetBishopAttacks equals diagonal ray tracing (first blocker included) for every occupancy |
| Magic.GetRookAttacksCorrect | src/magic.cpp:17-25 | with a correctly generated table, GetRookAttacks equals orthogonal ray tracing (first blocker included) for every occupancy |
| Magic.GetQueenAttacksCorrect | src/magic.cpp:28-30 | with both tables correct, GetQueenAttacks is the union of the bishop and rook ray-traced sets |

Rules stated by `MoveProps.PlayMoveCounters` and `MoveProps.MakeMoveCounters`:

- `fiftyMove` becomes 0 for an en-passant capture, any other capture or a pawn move, and old + 1 otherwise.
- `enPas` becomes target + NORTH for a double push, and `no_sq` otherwise.
- `castleperm` becomes old & `castling_rights[from]` & `castling_rights[to]`.
- `PlayMoveCounters` also states that the side flips and the ply advances.

Bookkeeping stated by `MoveProps.MakeMoveRecords`:

- The pre-move `posKey` is pushed.
- The pre-move accumulator is pushed; the accumulator itself then changes as `MoveProps.MakeMoveAccumulator` states.
- `hisPly` increases by 1.
- The side flips.
- `checkers` is `IsInCheck` for the new side.

Bookkeeping stated by `MoveProps.MakeMoveLightRecords`:

- It saves the same undo record as `MakeMove`, but not the captured piece.
- It pushes the key.
- It neither pushes nor changes the accumulator.
- It leaves `checkers` as it was.

Bookkeeping stated by `UnmakeProps.UnmakeMoveRecords`:

- The ply steps back.
- Fifty-move, en-passant, castling rights and checkers are restored from `history[hisPly-1]`.
- The accumulator and the key are popped.
- The side flips back.
- `history[]` itself is unchanged.

Fields restored by `UnmakeProps.UnmakeRestoresState`: side, castling rights, en-passant, fifty-move, checkers, `posKey`, `hisPly`, the key stack, the accumulator that `MakeMove` updated through the network (popped from the stack at lines 307-308) and the accumulator stack.

Null-move facts stated by `NullProps.MakeNullMoveRecords`:

- The board, castling rights, fifty-move counter and checkers are untouched.
- The undo record and the key are saved.
- The en-passant key is XOR-ed out and `enPas` becomes `no_sq`.
- The side flips with `SideKey`.
- The ply advances.

Null-move facts stated by `NullProps.TakeNullMoveRecords`:

- The ply steps back.
- Castling rights, fifty-move, en-passant and checkers are reloaded.
- The side flips back.
- The key is popped.
- No other field changes.

## Left out

- NNUE: the network behind `nnue.clear`, `nnue.add` and `nnue.move` (src/makemove.cpp:32, 38, 50) is defined elsewhere. Its three updates are unknown functions (`Types.Network`, part of the tables), and the accumulator is an opaque value. The model applies them where the `...NNUE` wrappers do, so it captures which updates `MakeMove` makes, in which order and on which pieces and squares, but nothing about what they compute.
- `TTPrefetch` (line 176) is a cache hint with no effect on the state, so it is omitted.
- `IsInCheck` (line 177) is defined elsewhere. It is a function parameter, `isInCheck`, of the board's bitboards, occupancies and side. `checkers` is therefore a `bool`.
- Move decoding is not modelled: `From`, `To`, `Piece`, the flag tests and `getPromotedPiecetype` live in other files. A move is the decoded `Move` record. `GetPiece`, `Color` and `GetPieceType` are the engine's `type + 6 * colour`, `piece / 6` and `piece % 6`.
- The values of `PieceKeys`, `CastleKeys`, `enpassant_keys`, `SideKey` and `castling_rights` are arbitrary tables (a `Tables` parameter).
- Zobrist keys are natural numbers with a bitwise `Xor`. `BoardState.ZobristHashFits` shows that when every table key is below 2^64 (`BoardState.KeysFit` with n = 64), so is the hash and a valid `posKey`; the key width therefore needs no wrap-around.
- `BoardState.ZobristHash` is this model's own reference hash for `posKey`: pieces, then the castling key, then the en-passant key if any, then `SideKey` when Black is to move. The engine's own from-scratch key routine is not part of this model.
- In the board model, the piece bitboards and occupancy planes are sets of squares (one member per set bit), not `uint64_t` words. The magic lookup does work on `bv64`.
- Undoing a `MakeMoveLight` is out of the source's contract, so it is not modelled: the light version records no captured piece, pushes no accumulator and does not set `checkers`. The model states these differences in `MoveProps.MakeMoveLightRecords`.
- The debug assertion at line 104 becomes a precondition: a normal capture has a piece on its target (`MoveSpec.MoveInBounds`).
- Moves are assumed playable (`MoveProps.Playable`): the mover stands on `from`, the target is empty unless captured, and a castling rook stands on its corner. The engine's move generator guarantees this elsewhere.
- `MakeMove.Board.constructor` builds a board from a `Position`. Parsing FEN into a board happens elsewhere.
- Generating the magic numbers, masks and attack tables happens in other files. They are a `SliderTables` parameter. Correctness of a lookup is proved under `BishopTableCorrect` / `RookTableCorrect`: the table's mask is the ray-traced relevance mask, and every subset of it is answered by ray tracing.
- A table row is a `map` from a `bv64` index to a bitboard. It has a slot for every index below 2^9 (bishop) or 2^12 (rook), the engine's `[64][512]` and `[64][4096]` arrays. `relevant_bits` is a `bv64`.
- Magic.WrappingProduct defines the `uint64_t` multiply at src/magic.cpp:9 and 20 as shift-and-add over the multiplier's 64 bits, modulo 2^64. Only the parity of the product is proved; that it equals the machine multiply on every input is not, because that identity on 64-bit words is beyond what the solver proves within its budget.
- Magic.Lookup, Magic.GetBishopAttacks and Magic.GetRookAttacks: their own contracts state only that the answer is a slot of the table row. Their values are stated against ray tracing in `Magic.GetBishopAttacksCorrect` and `Magic.GetRookAttacksCorrect`, and their masking invariance in `Magic.LookupMasked`, `Magic.BishopAttacksMasked` and `Magic.RookAttacksMasked`.
- Magic.GetQueenAttacks states containment of both component sets. Its equality with their union is stated against ray tracing in `Magic.GetQueenAttacksCorrect`.
- MoveSpec.PlayMove: its own contract states only well-formedness; its effects are proved in `MoveProps.PlayMoveKeeps`, `MoveProps.PlayMoveCounters`, `MoveProps.PlayMoveAccumulator` and `MoveProps.PlayMoveRecords`.
- MoveSpec.MakeMove: its own contract states only well-formedness; its effects are proved in `MoveProps.MakeMoveKeepsInvariants`, `MoveProps.MakeMoveSavesUndo`, `MoveProps.MakeMoveRecords`, `MoveProps.MakeMoveAccumulator`, `MoveProps.MakeMoveCounters` and `UnmakeProps.MakeUnmakeRoundTrip`.
- MoveSpec.MakeMoveLight: its own contract states only well-formedness; its effects are proved in `MoveProps.MakeMoveLightKeepsInvariants` and `MoveProps.MakeMoveLightRecords`.
- MoveSpec.RestoreState: its own contract states only well-formedness; its effects are proved in `UnmakeProps.RestoreStateKeeps` and `UnmakeProps.UnmakeMoveRecords`.
- MoveSpec.UnmakeMove: its own contract states only well-formedness; its effects are proved in `UnmakeProps.UnmakeMoveRecords`, `UnmakeProps.UnmakeRestoresBoard` and `UnmakeProps.MakeUnmakeRoundTrip`.
- MoveSpec.MakeNullMove: its own contract states only well-formedness; its effects are proved in `NullProps.MakeNullMoveRecords` and `NullProps.MakeNullMoveKeepsInvariants`.
- MoveSpec.TakeNullMove: its own contract states only well-formedness; its effects are proved in `NullProps.TakeNullMoveRecords` and `NullProps.NullMoveRoundTrip`.
