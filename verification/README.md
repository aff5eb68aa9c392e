# Aristocrat2 core, modelled in Dafny

Aristocrat2 is a small chess engine written in Go. This project models the bit-level core of the engine and proves properties of it:

- bitboards: 64-bit words in which square `i` is bit `63 - i`;
- square names such as "e4";
- the packed 64-bit move word and its accessors, and a move's notation;
- the attack tables built at start-up;
- the Forsyth–Edwards Notation (FEN) parser `NewPosition`;
- the move generator `movegen`, with its legality filter `addToMovelist` and the promotion expansion;
- the direct-mapped transposition table;
- the material evaluation;
- the node-local decisions of `search`, and the calculation controller.

## Layout

Every module is in its own file.

- `Notation` (util.dfy): square names, ranks and files. It also models Go's truncating `/` and `%`, byte arithmetic, UTF-8 byte length and `fmt.Sprint`.
- `Pieces` (definitions.dfy): colours, piece kinds, the name tables and the display lookup, and the eight direction offsets.
- `Words` (word.dfy): a 64-bit word as `seq<bool>`, with bit `k` worth `2^k`. It provides `|`, `&`, `&^` and shifts, and conversion to and from numbers.
- `Bitboards` (bitboard.dfy):
  - A bitboard is a `set<int>` of board squares. `SquaresOf` reads a word as that set and is proved one-to-one and onto.
  - It maps `|`, `&` and `&^` to union, intersection and difference, and is related to the source's word-level `checkBit`, `setBit` and `clearBit`.
  - It also has `countBits`, `leftBit`, `rightBit` and `forEachBit`.
- `Tables` (tables.dfy): `pawnMoves`, `pawnAttacks`, `knightMoves`, `kingMoves` and `slidingMoves`, each characterised by rank and file geometry.
- `Positions` (position.dfy): the position record and `NewPosition`. Run-time panics become `Result` failures.
- `Moves` (move.dfy): `packMove`, the accessors and `string()`.
- `Oracles` (oracle.dfy): the board queries whose bodies are not part of this model (`isSquareAttacked`, `getPieceOnSquare`, `getKingSquare`). They are fields of a datatype passed to the operations that call them.
- `MoveLists` (movelist.dfy): `addToMovelist` and `addPromosToMovelist`.
- `Castling` (castling.dfy): the castling block of the generator.
- `Blockers` (blockers.dfy): cutting a ray at its nearest blocker.
- `Sliders` (sliders.dfy): the bishop, rook and queen direction loops.
- `Offers` (offers.dfy): the generator as a sequence of steps. Each step offers moves to the legality filter. Running the steps threads the position and the list through them.
- `MoveGeneration` (movegen.dfy): `movegen`. It states which steps the generator takes, that it leaves the position unchanged, and that every listed move fits its target.
- `Variations` (variation.dfy): `moveList.variation`.
- `HashTables` (hashtable.dfy): `NewHashTable`, `Store` and `Load`, with the `usingHashtable` flag as part of the table state.
- `Evaluation` (eval.dfy): `eval` and `PIECEVALUES`.
- `Search` (search.dfy): the calculation controller as a state machine. Elapsed time and the clock are integer arguments. It also has the node-local steps of `search`: the table probe, the terminal classification, the quiescence entry, the candidate reordering and the bound tag chosen when storing.

## Notes on the code

- `movegen` returns a single list, in this order: pawns, knights, king, castles, bishops, rooks, queens. Captures are not grouped first, and no capture count is returned. `search.go:96` nevertheless takes two values from it.
  - The reordering model therefore takes the capture count as a parameter.
  - `Search.ReorderKeepsCapturesAhead` states what the reordering achieves on a list whose captures come first.
  - `Search.CandidateCanStayBehind` shows a list on which the candidate does not reach the front.
- The castles are appended without the legality test of `addToMovelist` (movegen.go:92-114). Instead, the castle conditions test the king's start, transit and destination squares for attack.
- The position record declares `white` and `black`, while the generator and the evaluator index `colours[c]`. The model keeps the two fields and reads them through `Colours(c)`.
- `Store` takes five arguments and a table entry has no bound field, but `search` passes a bound tag and reads `entry.node`. The tag is modelled as the output of `search` (`Search.StoreDecision`) and as an input of the probe (`Search.ProbeTable`).
- The parser keeps the two side boards disjoint only when no character of the placement field steps the square backwards (`Positions.BackwardSkipOverlaps`). For example, in "1P.pp" the '.' steps back two squares.

## Model

| member | source | states |
|---|---|---|
| Bitboards.CheckBit | bitboard.go:23-25 | a set bit is a board square; a negative square reads zero |
| Bitboards.SetBit | bitboard.go:27-29 | square i is set afterwards, every other square keeps its bit, and a negative square changes nothing |
| Bitboards.ClearBit | bitboard.go:31-33 | square i is clear afterwards, every other square keeps its bit, and a negative square changes nothing |
| Bitboards.SetThenCheck | bitboard.go:23-33 | for a board square, testing after setting reads one and testing after clearing reads zero |
| Bitboards.NoSquare | bitboard.go:23-33 | the "no square" value -1 is a no-op for set and clear and always tests false |
| Bitboards.SetClearInverse | bitboard.go:27-33 | clearing undoes setting a clear square, and setting undoes clearing a set one |
| Bitboards.CountBits | bitboard.go:19-21 | the count is the number of squares in the set, at most 64 |
| Bitboards.OnesFromCounts | bitboard.go:19-21 | counting one bits square by square from k gives the number of squares of the set at or above k |
| Bitboards.ZerosUpFrom | bitboard.go:43-46 | scanning up from k stops on the smallest square of the set at or above k, or runs off the board |
| Bitboards.ZerosDownFrom | bitboard.go:48-51 | scanning down from k stops on the largest square of the set at or below k, or runs off the board |
| Bitboards.LeftBit | bitboard.go:43-46 | the smallest square of a non-empty board, and 64 exactly for the empty board |
| Bitboards.RightBit | bitboard.go:48-51 | the largest square of a non-empty board, and -1 exactly for the empty board |
| Bitboards.ForEachBit | bitboard.go:35-41 | f is called once per square of the set, in strictly increasing order, and the loop ends |
| Bitboards.SquaresOfInjective | bitboard.go:23-25 | two words with the same squares are the same word |
| Bitboards.SquaresOfOnto | bitboard.go:23-25 | every set of board squares is the reading of some word |
| Bitboards.SquaresOfOperators | bitboard.go:23-33 | word `\|`, `&` and `&^` are union, intersection and difference of the squares |
| Bitboards.SquareMask | bitboard.go:23-33 | `1 << (63 - i)` holds exactly square i, and nothing when i is negative |
| Bitboards.SquareMaskIsSquare | bitboard.go:23-33 | the shifted one word reads as the single square i, or the empty set for negative i |
| Bitboards.WordBitOperations | bitboard.go:23-33 | the word-level checkBit, setBit and clearBit agree with membership, insertion and removal on the squares |
| Notation.Square | util.go:32 | the square on a given rank and file is on the board and has that rank and file |
| Notation.SquareOfCoordinates | util.go:32 | every board square is determined by its rank and file |
| Notation.Utf8Length | util.go:6 | `len` counts UTF-8 bytes: never fewer than the characters, and equal exactly when all are ASCII |
| Notation.ByteMinusZero | util.go:32 | `s[1] - '0'` on a byte wraps modulo 256 below '0' |
| Notation.GoQuotTruncates | util.go:57 | Go's `/` truncates toward zero: the quotient has the dividend's sign, and the dividend less quotient times divisor lies within one divisor of zero on the dividend's side |
| Notation.GoRem | util.go:38 | Go's `%` takes the dividend's sign and satisfies a = q*d + r |
| Notation.SprintRoundTrip | util.go:57 | `fmt.Sprint` of an int is a decimal numeral, signed exactly when the int is negative, that reads back as the int |
| Notation.DigitsRoundTrip | util.go:57 | reading back the printed digits gives the number |
| Notation.AlgebraicToSquare | util.go:5-33 | a byte length other than 2, or a first byte outside 'a'..'h', gives 0; a well-formed name gives the square with that file and rank |
| Notation.TwoByteCharacterIsNoSquare | util.go:5-8 | a single two-byte character passes the length test and then reads as no file, giving 0 |
| Notation.RankDigitUnchecked | util.go:32 | the rank digit is not validated: "a9" is -8 and "a0" is 64, while "a8" is 0 and "h1" is 63 |
| Notation.SquareToAlgebraic | util.go:35-58 | a board square's name is a letter a-h and a digit 1-8 matching its file and rank |
| Notation.OffBoardNames | util.go:35-58 | off-board inputs give "a9" for -8, "a0" for 64 and a bare "8" for -1 |
| Notation.SquareNameRoundTrip | util.go:5-58 | the name of a board square is two characters and reads back as the square |
| Notation.NameSquareRoundTrip | util.go:5-58 | every well-formed name survives reading and renaming |
| Pieces.DisplayLetter | definitions.go:60 | each coloured piece's display name is a single letter |
| Pieces.DisplayLookupInvertsNames | definitions.go:60-74 | the lookup sends each of the twelve display letters to its own colour and kind, and has no other keys |
| Pieces.LookupIsPiece | definitions.go:62-74 | every lookup value is a valid colour and piece kind |
| Pieces.OffsetsMatchSteps | definitions.go:170 | each direction offset is one rank step (8) and one file step (1), never both zero |
| Pieces.OffsetSigns | definitions.go:170 | LEFT..UPRIGHT have negative offsets and RIGHT..DOWNLEFT positive ones |
| Tables.PawnMoves | definitions.go:76-102 | one square forward on the same file, plus two from the home rank; nothing from the last rank |
| Tables.PawnAttacks | definitions.go:76-102 | exactly the squares one rank forward and one file aside that exist, so no capture wraps around the edge |
| Tables.KnightTargets | definitions.go:104-138 | the eight guarded setBit calls add exactly the on-board (1,2)/(2,1) jumps |
| Tables.KnightMoves | definitions.go:104-138 | a target is exactly an on-board square one rank and two files, or two ranks and one file, away |
| Tables.KingTargets | definitions.go:140-166 | the eight guarded setBit calls add exactly the on-board neighbours |
| Tables.KingMoves | definitions.go:140-166 | a target is exactly an on-board square at most one rank and one file away, other than the square itself |
| Tables.Room | definitions.go:173-185 | the number of steps left before the edge, at most 7 |
| Tables.StepInward | definitions.go:173-186 | the loop breaks exactly when there is no room; otherwise one step stays on the board, moves one rank and file step and uses one step of room |
| Tables.StepCoordinates | definitions.go:169-190 | the k-th square of a ray is on the board, k rank steps and k file steps away |
| Tables.Ray | definitions.go:172-188 | the inner loop adds to what it was given exactly the squares 1..room steps away |
| Tables.SlidingMoves | definitions.go:168-190 | the ray holds exactly the squares 1..room steps from i in its direction |
| Tables.RaySide | definitions.go:170 | along a LEFT..UPRIGHT ray squares decrease, along the others they increase |
| Tables.RayExcludesOrigin | definitions.go:168-190 | no ray contains its origin; LEFT..UPRIGHT rays lie below it and the others above it |
| Tables.ReachedIsStep | definitions.go:168-190 | an on-board square k whole steps away is the k-th square of the ray |
| Tables.RayGeometry | definitions.go:168-190 | a square is on the ray exactly when it is on the board a positive whole number of steps away |
| Tables.RayNesting | definitions.go:168-190 | the ray from a square on a ray is the rest of that ray beyond it, so it is contained in it |
| Moves.MaskBits | move.go:8-13 | the space mask is six low ones and the piece mask three |
| Moves.ReadField | move.go:33-55 | masking the word shifted down by the offset reads the field of that width |
| Moves.AccessorsMask | move.go:33-55 | `from`, `to`, `piece`, `promotedPiece` and `capturePiece` are the six- or three-bit mask and-ed with the word shifted down to the field (by 0 for `from`), so each reads one field |
| Moves.TestsBit | move.go:57-83 | testing against a one-bit flag reads that bit |
| Moves.Turn | move.go:77-83 | BLACK exactly when the turn flag (bit 63) is set, otherwise WHITE |
| Moves.PackFieldsLayout | move.go:118-126 | the five values land side by side in bits 0..20, and bits 21..63 are clear |
| Moves.FieldHolds | move.go:33-55 | a field whose bits are those of x reads back as x |
| Moves.PackFieldsRoundTrip | move.go:118-126 | unpacking the value half returns each packed value, with no flag set |
| Moves.WithFlag | move.go:128-148 | or-ing a flag under a condition sets exactly the flag's bits when the condition holds |
| Moves.PackFlags | move.go:128-148 | each flag bit is set exactly when its condition holds, and the fields are untouched |
| Moves.PackMove | move.go:118-151 | when every value fits its field, each accessor returns the packed value and each flag holds exactly under its condition |
| Moves.PackedFlagsReadBack | move.go:128-148 | flags read back: promote iff promotePiece != 0, capture, turn, castle iff a king moves two files, jump iff a pawn moves two ranks forward |
| Moves.PackedFieldsReadBack | move.go:118-126 | setting flags never alters a field accessor, and bits 21..57 stay clear |
| Moves.SameFields | move.go:33-55 | words agreeing on bits 0..20 have the same fields |
| Moves.MoveString | move.go:85-100 | castle flags give "0-0" or "0-0-0", king side first |
| Moves.MoveNotationReadsBack | move.go:91-99 | an ordinary move's string parses back into piece letter, from square, 'x' exactly for a capture, to square, and "=" plus letter exactly for a promotion |
| Moves.NotationParts | move.go:91-99 | the concatenated parts are found again at their places, and the string does not start with '0' |
| Moves.CastleNotationStandsApart | move.go:85-100 | a move string starts with '0' exactly when the move is a castle |
| Positions.Split | position.go:96 | one more field than separators, no separator inside a field, and joining gives the string back |
| Positions.Put | position.go:101-109 | a piece letter sets the square in its kind's board and its colour's board, and nothing else changes |
| Positions.Place | position.go:98-115 | placement changes only the boards, and fails only by a negative shift (a square above 63) |
| Positions.PlacePiece | position.go:101-109 | a piece letter puts the piece and advances the square by one |
| Positions.PlaceSkip | position.go:110-114 | any other character but '/' advances the square by its value less '0' |
| Positions.PutKeepsCover | position.go:101-109 | putting a piece keeps the union of the colour boards equal to the union of the piece boards |
| Positions.PlaceKeepsCover | position.go:100-115 | the placement loop keeps the colour boards covering exactly the piece boards |
| Positions.PutKeepsDisjoint | position.go:101-109 | putting on a square above every used one keeps the boards disjoint and moves the bound up |
| Positions.PutStaysDisjoint | position.go:101-109 | setting a square that no board holds keeps colours and kinds disjoint |
| Positions.PutStaysBelow | position.go:101-109 | after setting a square, every board lies below the next square |
| Positions.PlaceKeepsDisjoint | position.go:100-115 | with no backward skip, no square is set twice, so colours and kinds stay disjoint |
| Positions.BackwardSkipOverlaps | position.go:112-114 | "1P.pp" places a black pawn on the white pawn's square |
| Positions.ScanCastling | position.go:123-135 | each of K, Q, k, q grants exactly its right; other characters and other fields are ignored |
| Positions.Counter | position.go:143-149 | an empty field is an index-out-of-range failure; otherwise only the first character counts, less '0' in byte arithmetic, so an ASCII character below '0' wraps round ("-1" reads as 253) |
| Positions.NewPosition | position.go:89-152 | fails exactly on a placement panic, fewer than four fields or an empty counter field; otherwise every field is read as the source reads it |
| Positions.ParsedOccupancy | position.go:89-152 | every parsed position's colour boards cover the piece boards, and without backward skips they are disjoint |
| Evaluation.Eval | eval.go:10-19 | the score is the material balance, negated when black is to move |
| Evaluation.AddKinds | eval.go:13-15 | the inner loop adds one colour's weighted popcounts of PAWN..QUEEN |
| Evaluation.WeightedIsBalance | eval.go:12-16 | the two colour loops together give the balance |
| Evaluation.BalanceReadsKinds | eval.go:12-16 | the balance over the first n kinds reads only those kinds' boards |
| Evaluation.KingsDoNotCount | eval.go:13 | the king board never affects the score |
| Evaluation.BalanceReadsOnlyBoards | eval.go:10-16 | side to move, castling rights and counters do not affect the balance |
| Evaluation.SideToMoveNegates | eval.go:18 | changing only the side to move negates the evaluation |
| Evaluation.ColourSwapNegates | eval.go:4-7 | swapping the white and black boards negates the balance |
| Evaluation.EqualMaterialIsLevel | eval.go:4-7 | equal numbers of each kind on both sides evaluate to 0 |
| Evaluation.BalanceBound | eval.go:4-16 | the balance lies within 64 times the sum of the piece values |
| Evaluation.EvalBound | eval.go:4-19 | every evaluation lies within ±134400 |
| HashTables.Slot | hashtable.go:37 | `hash % size` is a valid slot |
| HashTables.NewHashTable | hashtable.go:20-30 | enabled, as many zeroed 40-byte entries as fit into the megabytes, and no more |
| HashTables.Store | hashtable.go:32-59 | disabled: nothing changes; enabled: only slot `hash % size` can change, and the size and flag stay |
| HashTables.Load | hashtable.go:61-72 | disabled: the zero entry and a miss; enabled: the slot's entry, a hit exactly when the query is non-zero and equals the stored hash |
| HashTables.FreshTableMisses | hashtable.go:23-72 | a freshly made table misses every hash |
| HashTables.StoreThenLoad | hashtable.go:32-72 | a stored non-zero hash loads back as a hit; the entry is overwritten unless the slot held that hash at least as deep |
| HashTables.StoreKeepsDeepest | hashtable.go:49-58 | on the same hash the stored depth becomes the larger of the old and new depths |
| HashTables.StoreIsLocal | hashtable.go:32-72 | a store leaves the answer for every hash in another slot unchanged |
| Search.Calculating | search.go:33-40 | true exactly when the counter is positive |
| Search.NeedToStop | search.go:43-51 | true when stop is set, or when a budget is set and fewer than 10 ms of it remain |
| Search.StopCalculators | search.go:53-57 | sets stop and nothing else |
| Search.BeginCalculating | search.go:59-66 | one more search; the timer restarts only on the 0-to-1 transition with a budget |
| Search.DoneCalculating | search.go:68-76 | one search fewer; reaching 0 clears stop and the budget |
| Search.LastDoneClearsStop | search.go:43-76 | after the last search ends, a new one is never told to stop, however long it runs |
| Search.StopIsSeen | search.go:43-57 | a stop request is seen whatever the clock says |
| Search.RunCounts | search.go:59-76 | over any sequence of calls the counter is the number begun less the number done |
| Search.BalancedRunEndsIdle | search.go:59-76 | starting with no search running, whatever budget was assigned along the way: once every begun search has finished, the controller is idle, with no stop request and no budget |
| Search.BudgetIsSeen | search.go:43-66 | a budget assigned before the first search starts restarts the timer, and the search is told to stop exactly once fewer than 10 ms of it remain |
| Search.Terminal | search.go:97-103 | no moves: checkmate at -MATE exactly when in check, otherwise stalemate at 0, one node either way |
| Search.MateBeyondMaterial | search.go:97-103 | a mate score lies beyond every material evaluation, in both directions |
| Search.ProbeTable | search.go:79-94 | a hit at enough depth cuts off exactly for an exact tag or a lower bound reaching beta; otherwise a deep enough lower bound sets alpha to the stored score, which can lower it; a hit's move is the candidate |
| Search.HorizonStep | search.go:105-119 | above the horizon the node expands; at or below it, the node returns the stand score without captures or above beta, and otherwise quiesces with alpha raised to the stand score |
| Search.FindMove | search.go:123-124 | the first index of the candidate, or -1 exactly when it is absent |
| Search.Swap | search.go:126-132 | exchanges two places and keeps the multiset |
| Search.Reorder | search.go:121-138 | a permutation of the list; unchanged when the candidate is null, absent or first; otherwise the candidate leads unless a front capture with no captures counted undoes it |
| Search.ReorderKeepsCapturesAhead | search.go:121-138 | on a captures-first list the candidate leads and the captures still precede every quiet move behind it |
| Search.CandidateCanStayBehind | search.go:121-138 | with no captures counted and a capture in front, the two exchanges cancel out |
| Search.StoreDecision | search.go:170-179 | with a continuation: its first move, LOWER exactly on a beta cutoff and EXACT otherwise; with none: the null move as UPPER |
| Search.StoredResultAnswersProbe | search.go:170-179 | what a later probe at no greater depth finds: an exact score at once, a lower bound against the new beta, an upper bound only the null move |
| MoveLists.Edited | movegen.go:209-228 | the mover leaves from for to, and a captured piece (behind the en-passant square for en passant) leaves the opponent's board |
| MoveLists.AddToMovelist | movegen.go:208-241 | appends m or nothing, exactly when the king-safety test on the edited boards passes; only the colour boards change |
| MoveLists.AddToMovelistBoards | movegen.go:208-241 | afterwards the mover's board has to cleared and from set, and the captured square is set again on the opponent's board |
| MoveLists.AddToMovelistRestores | movegen.go:208-241 | the boards are left as they were exactly when the move's from, to and captured squares allow it |
| MoveLists.Legal | movegen.go:230-236 | the moves that pass the test are a subsequence of those offered |
| MoveLists.OfferMoves | movegen.go:208-241 | offering moves in turn keeps the list prefix and appends a subsequence of them |
| MoveLists.OfferMovesFilters | movegen.go:208-241 | when every offered move restores the boards, the position is unchanged and exactly the moves passing the test are appended |
| MoveLists.AddFilters | movegen.go:208-241 | one restoring move is appended exactly when it passes the test |
| MoveLists.SameEdit | movegen.go:209-228 | moves agreeing on from, to and the capture flag edit the boards alike |
| MoveLists.PromotionsRead | movegen.go:247-256 | the four promotions share from, to and capture data, and promote to knight, bishop, rook and queen in turn |
| MoveLists.PromotionRead | movegen.go:252-255 | each promotion reads back its packed values and has the promote flag |
| MoveLists.PromotionKinds | movegen.go:252-255 | the promotions go N, B, R, Q, all to the same square with the same capture flag |
| MoveLists.AddPromos | movegen.go:247-256 | appends up to four of the promotions, in order of increasing promoted piece |
| MoveLists.PromotionsAllOrNone | movegen.go:247-256 | when the boards are restored, all four promotions are appended or none |
| MoveLists.PromotionsAlike | movegen.go:247-256 | the four promotions restore the boards alike and pass or fail the test alike |
| MoveLists.LegalAllOrNone | movegen.go:230-236 | when every move passes or fails alike, the filter keeps all or none |
| Castling.CastleRule | movegen.go:87-119 | the masks are the squares between king and rook, the attack tests are the two squares the king crosses and lands on, and it lands two squares towards the rook |
| Castling.MaskSquares | movegen.go:90-112 | each occupancy mask stands for exactly its side's between squares |
| Castling.WhiteKingSideMask | movegen.go:90 | 0b110 stands for squares 61 and 62 |
| Castling.WhiteQueenSideMask | movegen.go:97 | 0b1110000 stands for squares 57, 58 and 59 |
| Castling.BlackKingSideMask | movegen.go:105 | 0b11 << 57 stands for squares 5 and 6 |
| Castling.BlackQueenSideMask | movegen.go:112 | 0b111 << 60 stands for squares 1, 2 and 3 |
| Castling.CastleMoves | movegen.go:87-119 | at most two castles |
| Castling.CastleAppends | movegen.go:87-119 | a castle is appended exactly when not in check, with the right, the between squares empty, and neither crossed nor landing square attacked |
| Castling.CastleMovesDiffer | movegen.go:92-114 | the two castles from one square differ |
| Castling.CastleFlags | movegen.go:92-114 | from the home square a castle is a quiet king move of the side to move, flagged by its side |
| Blockers.EndSquare | movegen.go:127-132 | rightBit of the blocked ray for LEFT..UPRIGHT and leftBit otherwise: the occupied ray square nearest the origin |
| Blockers.NearestEnd | movegen.go:125-132 | the end square is the first occupied square along the ray |
| Blockers.NearerIsOutside | movegen.go:125-135 | every ray square nearer than the end square is empty |
| Blockers.ReachableUpTo | movegen.go:125-135 | the squares reachable are exactly those up to the first blocker |
| Blockers.ClearRayIsOpen | movegen.go:140-142 | an unblocked ray is open to its end |
| Blockers.CutRayIsOpen | movegen.go:134-135 | the ray less the end square's ray, less the end square, is exactly the open part |
| Blockers.DirectionStep | movegen.go:125-142 | one pass of the direction loop adds exactly the open part of the ray to the quiet moves |
| Sliders.Directions | movegen.go:124-180 | bishops scan the odd directions, rooks the even ones, queens all eight |
| Sliders.ScanMoves | movegen.go:121-203 | the quiet-move board is exactly the empty squares some scanned direction reaches; no blocker is in it |
| Sliders.BlockerIsEnd | movegen.go:125-139 | an occupied square is reachable along a ray exactly when it is the ray's end square |
| Sliders.ScanCaptures | movegen.go:121-203 | the captures are exactly the opponent squares some scanned direction reaches, each offered as a capture by the sliding piece from its square |
| Sliders.CaptureStep | movegen.go:137-139 | a pass adds the capture of its blocker exactly when that is an opponent piece |
| Offers.PackedReads | movegen.go:44-119 | each move a step packs reads back the step's from square, the side to move and its capture flag, and, castles apart, the step's target square |
| Offers.Perform | movegen.go:27-206 | a step changes only the colour boards and appends a subsequence of its moves |
| Offers.Run | movegen.go:27-206 | running the steps changes only the colour boards and only appends |
| Offers.RunMovesFrom | movegen.go:27-206 | every move a run appends is of the side to move, from one of the steps' squares |
| Offers.PerformFilters | movegen.go:208-256 | a step whose moves restore the boards leaves the position and appends its moves that pass the test |
| Offers.RunFilters | movegen.go:27-256 | when every step restores the boards, the run leaves the position and appends exactly the kept moves of each step, in order |
| MoveGeneration.SidesOccupy | movegen.go:32-34 | the occupied board is the union of own and opponent pieces |
| MoveGeneration.PawnPushesAre | movegen.go:37-43 | pushes are the empty single square ahead, and the double square only when that and the single square are empty |
| MoveGeneration.PawnCapturesAre | movegen.go:51 | pawn captures are the attack squares holding an opponent piece or equal to the en-passant square |
| MoveGeneration.PushOffersAre | movegen.go:44-50 | a push to the last rank is offered as promotions, any other as a quiet pawn move |
| MoveGeneration.CaptureOffersAre | movegen.go:52-62 | a capture to the last rank is offered as capturing promotions, onto the en-passant square as en passant, otherwise as a capture |
| MoveGeneration.PawnOffersAre | movegen.go:37-63 | a pawn offers exactly its pushes and its captures |
| MoveGeneration.StepOffersAre | movegen.go:68-74 | a target holding an opponent piece is a capture, any other a quiet move |
| MoveGeneration.JumpOffersAre | movegen.go:66-86 | knights and kings offer exactly their table squares not holding own pieces, capturing exactly onto opponent pieces |
| MoveGeneration.QuietOffersAre | movegen.go:144-146 | the quiet board is offered square by square as quiet moves |
| MoveGeneration.SlideOffersAre | movegen.go:121-203 | a slider offers quiet moves to exactly the empty squares it sees, and captures of exactly the opponent pieces it sees |
| MoveGeneration.PieceOffersAre | movegen.go:37-203 | each piece kind offers what its loop describes |
| MoveGeneration.GatherAre | movegen.go:37 | looping over several squares offers exactly the offers of each square |
| MoveGeneration.PiecesOf | movegen.go:37 | the squares looped over hold the side to move's pieces of that kind |
| MoveGeneration.PiecesOffer | movegen.go:37-203 | the loop over a kind offers exactly the moves of the side to move's pieces of that kind |
| MoveGeneration.KingSquare | movegen.go:78 | the king loop's square holds a king of the side to move |
| MoveGeneration.PlanIs | movegen.go:27-206 | the generator's steps are exactly the pawn, knight, king, castling, bishop, rook and queen offers |
| MoveGeneration.PlanOnBoard | movegen.go:27-206 | every step names board squares and starts on an own piece |
| MoveGeneration.Movegen | movegen.go:27-206 | only the colour boards can change, and every listed move is the side to move's, from one of its pieces |
| MoveGeneration.PlannedTarget | movegen.go:37-203 | on a consistent position every planned target holds no own piece, is empty for a quiet step, and holds an opponent piece or is the en-passant square for a capture |
| MoveGeneration.MovegenFilters | movegen.go:27-256 | on a consistent position the generator leaves the position as it found it and lists exactly the planned moves that pass the test (castles untested), in order |
| MoveGeneration.MovegenTargets | movegen.go:27-256 | on a consistent position every listed move is the side to move's, from one of its pieces and never onto one; a capture lands on an opponent piece or the en-passant square, any other move on an empty square |
| MoveGeneration.FirstRankEnPassantPanics | movegen.go:213-222 | with white to move and the en-passant square on e1, a white knight's capture onto it is offered and treated as en passant, and the square it would clear is 68, off the board |
| MoveGeneration.CastleLands | movegen.go:87-119 | each castle is a quiet king move of the side to move onto an empty square |
| Variations.Variation | movegen.go:17-25 | "No Moves." for an empty list; otherwise each move's string followed by a space, so splitting at spaces gives the strings back with an empty last field |
| Variations.NoSpace | move.go:85-100 | no move string contains a space |
| Variations.SpacedAppend | movegen.go:21-23 | appending a move appends its string and a space |
| Variations.SplitSpaced | movegen.go:21-23 | splitting spaced strings that contain no space gives them back, plus the empty field after the last space |

## Left out

- Locks (`sync.Mutex`, `sync.RWMutex`) and the unlocked read-then-write window in `Store`: the table and the controller are modelled sequentially.
- `time.Now` and `time.Since`: the clock reading and the elapsed milliseconds are integer arguments.
- `iterativeSearch`, the nodes-per-second arithmetic and all printing (`Print`, `output`, `outputBitboard`, `bitboardToString`) are left out. They are I/O and floating-point formatting.
- The recursive negamax and quiescence loop of `search` is left out: only its node-local steps are modelled. The loop relies on `doMove`, whose body is not part of this model, and its termination below depth 0 depends on capture sequences.
- Zobrist key generation (`generateKey` is random), incremental hashing and `doMove` are left out. `p.hash` is a parameter of the probe.
- The front end, the protocol command loops and the perft test harness are I/O and are not part of this model.
- `isSquareAttacked`, `getPieceOnSquare` and `getKingSquare` are fields of `Oracles.Oracle`, given as parameters, with no properties except as follows.
  - `MoveLists.PieceFits` assumes `getPieceOnSquare` answers 0..7, which fits the three-bit capture field.
- Pieces.Opponent: its body is not part of this model; it is taken to swap the two colours.
- Words: 64-bit words are `seq<bool>` of length 64 rather than a machine type, and `uint64(x)` is written out as two's complement modulo 2^64.
- Moves.MoveString: requires a piece field below 6, and below 6 for the promoted piece when promoting. Otherwise `pieceNamesShort` is indexed out of range, a panic.
- Moves.PackMove: the read-back properties hold only when every value fits its field (`FieldsFit`). Wider values spill into the neighbouring fields, as in the source.
- HashTables.NewHashTable: requires `mb * 1024 * 1024` not to overflow `int`. It also requires `mb >= 0`: the front end passes the parsed size on unchecked, and a negative size gives a negative slot count that wraps to a huge `uint64` length, so `make` panics (hashtable.go:25). That panic is not modelled.
- HashTables.Store and HashTables.Load require an enabled table to have at least one slot: `hash % 0` panics.
- Search.Reorder: takes the capture count as a parameter, because `movegen` returns none.
- Search.ProbeTable: takes the stored bound tag as a parameter, because table entries have no tag field.
- Search.HorizonStep: models the decision to return the stand score or to quiesce, but not the capture-only loop that follows.
- MoveGeneration.Movegen: requires the side to move to have a king. Without one `kingMoves[64]` is indexed, a panic.
- MoveGeneration.Movegen: requires `Offers.EpInRange`. `addToMovelist` treats any capture onto the en-passant square as en passant. With white to move and the en-passant square on rank 1, a knight, king or slider capturing onto it makes the source clear a square above 63, a negative shift and a panic (`MoveGeneration.FirstRankEnPassantPanics`). The clause that a white en-passant square is at most 55 excludes that panic. It over-requires only on positions where no such capture exists.
- Strings: FEN fields and square names are sequences of Unicode scalar values, while the source reads them as Go byte strings. A byte string that is not valid UTF-8 has no counterpart in the model. In the source, `ReadRune` would yield U+FFFD for each bad byte, and a counter field's first byte would be read raw.
- MoveGeneration.MovegenFilters and MoveGeneration.MovegenTargets require `Consistent`: disjoint side boards, and an en-passant square without an own piece and with an opponent piece behind it. On other boards `addToMovelist` may not put the boards back, and the statement is then only what `Movegen` itself ensures.
