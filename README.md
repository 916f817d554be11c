# Chess board: coordinate transform, starting layout and click selection

A Dafny model of the logic in `src/chess/mod.rs` of a small Bevy chess board.
There are three parts:

- The **coordinate transform** (`mod coordinate`). It maps a square index 0..63 to a position centred on the board and maps a position back to an index. Indices run row-major from a1 with stride 8, and a cell is 50 units wide. It also has the bounds test applied to clicks.
- The **starting-layout scanner** of `setup` and the piece attributes:
  - parsing a layout letter into a piece type and a side;
  - the tile colour of a square;
  - the texture asset name of a piece.
- The **selection state machine** of `input`. A table maps entity ids to pieces, and a selection is `None` or `Select(entity)`. A click on a piece selects it. The next click removes whatever stands on the clicked square and moves the selected piece there.

Files:

| file | contents |
|---|---|
| `wrappers.dfy` | `Option`, `Result` |
| `coordinate.dfy` | module `Coordinate`: `Pos`, `PosFromIndex`, `IndexFromPos`, `IsOutsideBoard` and their lemmas |
| `pieces.dfy` | module `Pieces`: `PieceType`, `Side`, `Piece`, `PieceTypeFromFen`, `SideFromFen`, `SideFromIndex`, `AssetName` |
| `layout.dfy` | module `Layout`: the `setup` loop as the method `Setup`, proved against the prefix-wise specification `Scan`, and the facts about `StartingFen` |
| `selection.dfy` | module `Selection`: the class `Board` (the piece table and selection resource) with the method `Input`, proved against the pure transition `Respond`, and the lemmas about `Respond` |

Positions are exact `real`s. `trunc().abs()` equals the floor of the absolute value for every real, and the model computes it that way.

Three behaviours of the code are easy to miss; the model keeps each of them:

- The code does not check that the piece on the clicked square differs from the selected piece (mod.rs:107-109). A click on the selected piece's own square therefore moves it and then despawns it.
- When the selected piece no longer exists, the code returns at mod.rs:111 before it resets the selection at mod.rs:119. The piece on the square has already been despawned at that point. The selection stays `Select(p)`; it does not return to `None`.
- The bounds test accepts [-200, 200] on both axes, but square centres lie at -200..150. So a click at x in [175, 200] maps to file 8, which is file 0 of the next rank. The corner (200, 200) maps to index 72, and a selected piece clicked there is moved off the 64 squares. The model keeps this behaviour and proves it (`Coordinate.IndexOfAcceptedClick`, `Coordinate.CornerPastLastSquare`, `Selection.CornerClickLeavesBoard`).

Bevy's deferred `commands.entity(..).despawn()` is modelled as applied after the system's own updates. `pieces.iter().find` may return any piece on the square. `Board.Input` returns the piece it found, and its contract holds for every possible choice.

## Model

| member | source | states |
|---|---|---|
| `Coordinate.PosFromIndex` | src/chess/mod.rs:133-136 | the position of square i is (file * 50 - 200, rank * 50 - 200), where file = i % 8 and rank = i / 8 |
| `Coordinate.TruncAbs` | src/chess/mod.rs:140 | `trunc().abs()` yields the natural n with n <= abs(x) < n + 1 |
| `Coordinate.Cell` | src/chess/mod.rs:138-141 | the per-axis cell coordinate of `index_from_vec2`; for a coordinate at or beyond the outer edge of the first drawn cell (-225), that cell, centre +/- 25, contains the coordinate; `CellOnBoard` and `CellOfCentre` state more |
| `Coordinate.IndexFromPos` | src/chess/mod.rs:138-142 | while the x cell is below 8, the index's file is the x cell and its rank is the y cell; `RoundTrip`, `IndexOfClick` and `IndexOfAcceptedClick` state more |
| `Coordinate.IsOutsideBoard` | src/chess/mod.rs:144-149 | with the constants of mod.rs:127-131, the test accepts exactly the rectangle from the centre of square 0 to one cell past the centre of square 63 on both axes, which is [-200, 200] x [-200, 200] |
| `Coordinate.RoundTrip` | src/chess/mod.rs:133-142 | the index of the position of each square 0..63 is that square again |
| `Coordinate.CellOfCentre` | src/chess/mod.rs:138-141 | along one axis, the cell coordinate of the centre of cell k is k |
| `Coordinate.SquaresOnBoard` | src/chess/mod.rs:133-149 | no square position of 0..63 fails the bounds test |
| `Coordinate.CellOnBoard` | src/chess/mod.rs:138-149 | on [-200, 200] the cell coordinate is 0..8, and it is 8 exactly on [175, 200] |
| `Coordinate.IndexOfClick` | src/chess/mod.rs:138-149 | an accepted click below 175 on both axes maps to a square 0..63 whose cell contains the click |
| `Coordinate.IndexOfAcceptedClick` | src/chess/mod.rs:138-149 | every accepted click maps to an index of at most 72; a click at x >= 175 maps to file 0 of the next rank |
| `Coordinate.CornerPastLastSquare` | src/chess/mod.rs:138-149 | the accepted corner (200, 200) maps to index 72 |
| `Coordinate.TruncationMirrors` | src/chess/mod.rs:139-141 | truncating toward zero and then taking the absolute value maps x = -300, left of the board, to column 1, the same column as x = -150 |
| `Pieces.PieceTypeFromFen` | src/chess/mod.rs:215-227 | a character yields a type exactly when it is that type's letter in lower or upper case; every other character yields none |
| `Pieces.SideFromFen` | src/chess/mod.rs:236-238 | a piece letter gives Dark exactly when it is the upper-case form of its type letter, and Light exactly when it is the lower-case form |
| `Pieces.SideFromIndex` | src/chess/mod.rs:231-235 | a square is Light exactly when file + rank is even; `ColoursAlternate` and `CornerColours` state more |
| `Pieces.ColoursAlternate` | src/chess/mod.rs:231-235 | horizontally or vertically adjacent squares have opposite tile colours |
| `Pieces.CornerColours` | src/chess/mod.rs:231-235 | squares 0 and 9 are Light and square 1 is Dark |
| `Pieces.AssetName` | src/chess/mod.rs:187-199 | the name is 7 characters: the type letter, the side letter (l or d), then "t.png" |
| `Pieces.AssetNameInjective` | src/chess/mod.rs:187-199 | two asset names are equal exactly when type and side are equal |
| `Layout.Step` | src/chess/mod.rs:56-79 | one character is rejected exactly when it is neither '/' nor a piece letter; an accepted character advances the running index; `StepMeaning` states the rest |
| `Layout.StepMeaning` | src/chess/mod.rs:56-79 | '/' moves the index to the next multiple of 8, strictly past it and at most 8 further on, and places nothing; a piece letter appends one piece on the current index, of that letter's type, Dark exactly when the letter is upper case, and advances the index by one |
| `Layout.Scan` | src/chess/mod.rs:53-80 | the specification of the `setup` loop, one prefix at a time; a rejected character is neither '/' nor a piece letter; `ScanRejects`, `ScanAccepts`, `ScanOrdered` and `StartingLayout` state more |
| `Layout.ScanStep` | src/chess/mod.rs:56-79 | appending a character to an accepted prefix applies one step to the prefix's state |
| `Layout.ScanRejects` | src/chess/mod.rs:62 | every layout that contains a character other than '/' and the piece letters is rejected |
| `Layout.ScanAccepts` | src/chess/mod.rs:56-79 | every layout made only of '/' and piece letters is accepted |
| `Layout.ScanErrorPersists` | src/chess/mod.rs:62 | once a prefix of the layout is rejected, the whole layout is rejected with the same error |
| `Layout.Setup` | src/chess/mod.rs:53-80 | the loop returns exactly the pieces the layout specifies, or the same rejection |
| `Layout.ScanOrdered` | src/chess/mod.rs:54-80 | placed pieces lie on strictly increasing squares, all below the running index |
| `Layout.ScanLetters` | src/chess/mod.rs:62-79 | a run of piece letters places one piece per letter on consecutive squares |
| `Layout.ScanSlash` | src/chess/mod.rs:57-60 | after a '/' the running index restarts at the next rank and no piece is placed |
| `Layout.ScanFourSkips` | src/chess/mod.rs:57-60 | four '/' after square 16 move the running index to 48 and place nothing |
| `Layout.StartingScan` | src/chess/mod.rs:185 | the starting layout is sixteen light letters from square 0 and sixteen dark letters from square 48, and it ends at index 64 |
| `Layout.RunLetters` | src/chess/mod.rs:185 | the letters of the starting layout are the back rank and the pawns, light below and dark above |
| `Layout.StartingPieces` | src/chess/mod.rs:53-80 | the k-th piece placed from the starting layout is `StartingPiece(k)` |
| `Layout.StartingLayout` | src/chess/mod.rs:53-80 | the starting layout places 32 pieces on squares 0..15 and 48..63, none on 16..47; pieces are Light exactly below 16; pawns stand exactly on 8..15 and 48..55; the back ranks follow rook, knight, bishop, queen, king, bishop, knight, rook; kings stand exactly on 4 and 60 |
| `Selection.ClickedSquare` | src/chess/mod.rs:92-96 | a click acts on a square exactly when the left button was just pressed and a cursor exists inside the bounds; the square is the cursor's index, at most 72 |
| `Selection.Respond` | src/chess/mod.rs:101-120 | an accepted click never adds an entity; the selection changes only from `None` to `Select(found piece)`, or from `Select(p)` with p present to `None`; `IdleClick`, `SelectedClick` and `SelectedMissingClick` state the rest |
| `Selection.IdleClick` | src/chess/mod.rs:101-105 | with no selection, no piece moves; the selection becomes `Select(e)` exactly when a piece stands on the square, and e is such a piece |
| `Selection.SelectedClick` | src/chess/mod.rs:106-120 | with a selected piece that exists: the found occupant is removed even when it is the selected piece or of the same side; the selected piece, if it remains, moves to the square; nothing else changes; the selection becomes `None` |
| `Selection.SelectedMissingClick` | src/chess/mod.rs:106-111 | with a selected piece that is gone: the occupant is still removed, nothing moves, and the selection stays |
| `Selection.ClickRemovesAtMostOne` | src/chess/mod.rs:101-120 | a click removes at most one piece and changes no piece's type or side |
| `Selection.FindIsUnique` | src/chess/mod.rs:99 | if no two pieces share a square, the search for a piece on a square has exactly one possible result |
| `Selection.ClickKeepsOneOccupant` | src/chess/mod.rs:99-120 | if no two pieces shared a square before a click, none do after it |
| `Selection.CornerClickLeavesBoard` | src/chess/mod.rs:95-113 | with all pieces on 0..63, a click at (200, 200) finds no occupant and moves the selected piece to index 72 |
| `Selection.SpawnedOneOccupant` | src/chess/mod.rs:66-77 | spawning a layout whose squares strictly increase puts at most one piece on each square |
| `Selection.StartingBoardOneOccupant` | src/chess/mod.rs:46-80 | the board spawned from the starting layout has at most one piece per square |
| `Selection.Board.constructor` | src/chess/mod.rs:51-80 | setup spawns the placed pieces as entities 0..n-1 with selection `None` |
| `Selection.Board.Input` | src/chess/mod.rs:83-122 | a rejected click changes nothing; an accepted click finds a piece on the clicked square, or finds none when the square is empty, and the new selection and table are the ones `Respond` gives |

## Left out

- Bevy app and plugin wiring, and system scheduling (mod.rs:13-18): framework configuration.
- The order in which Bevy flushes `commands` across systems: a despawn is taken to apply right after the `input` system.
- Camera and window projection in `get_mouse_pos` (mod.rs:205-212): an engine call. Its result is the `cursor` input of `Click`.
- Sprites, textures, meshes, materials and `Transform`s in `setup`, `input` and `draw_tiles` (mod.rs:50, 64-76, 114-117, 157-180): rendering. The tile colour chosen in `draw_tiles` is `Pieces.SideFromIndex`. Asset loading is the pure name `Pieces.AssetName`.
- The debug overlay (mod.rs:242-276) and `exit_on_q` (mod.rs:201-203): presentation and app-exit I/O.
- Coordinate.IndexFromPos: positions are exact reals, so f32 rounding is not modelled. In f32 an accepted click within about one ulp of a cell boundary can land in the next cell; for example x = 174.99998 rounds to file 8, while the exact value gives file 7.
- Coordinate.IndexFromPos: the saturating `as u8` cast and the u8 overflow of `x + y * 8` are not modelled. Both need input far off the board, which `input` rejects first.
- Layout.Setup: the running index is unbounded and does not model u8 overflow. The overflow would need a layout describing more than 255 squares, and the starting layout describes 64.
- Pieces.SideFromFen: `char::is_uppercase` is modelled for ASCII letters only. Only piece letters reach it.
- The entity ids Bevy assigns are modelled as 0..n-1 in the order of spawning.
