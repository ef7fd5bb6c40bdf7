# Rubik's cube engine: a verified model

This project models the cube engine behind the Rubik's-cube solver web page, and the parts of the
page that change the cube.

- **State.** A cube of size `n` is six flat, row-major arrays of `n * n` facelet colours: front,
  back, left, right, top and bottom (`Cube.CubeState`). A solved cube has each face filled with
  its home colour: white front, yellow back, orange left, red right, green top, blue bottom.
- **Moves.** A move is a string token. The twelve quarter turns `F B R L U D` and
  `F' B' R' L' U' D'` rotate one face's grid, clockwise or counter-clockwise, and carry four
  border strips of the neighbouring faces around it. The six half turns `F2 … D2` are a clockwise
  quarter turn played twice. Any other token leaves the cube as it was.
- **Engine (imperative).** `CubeEngine` keeps the source's form:
  - the face rotations are nested loops that rewrite an `array` from a saved copy;
  - the six neighbour-strip rotations are methods of a working-copy class `MutableCube`, whose
    face fields are arrays, and they copy strips one cell at a time;
  - `ApplyMove` deep-copies the state into that class, turns it and reads the result back.
- **Specification.** Each engine method is proved equal to a pure function:
  - `Facelets.RotateCw` and `Facelets.RotateCcw` for the face rotations;
  - `Cube.Cycled` over the per-face strip tables `Cube.Adjacent` for the strip rotations;
  - `Cube.Apply` and `Cube.ApplyAll` for moves and move lists.
  The group-like laws are then proved about those functions.
- **Solver page.** `CubeSolver.Session` holds the page's cube, move history and "scrambled" flag.
  Its three handlers are manual entry of a whitespace-separated move list, a quick-move button,
  and undo. A ghost start state ties them together. The cube is the start state with the history
  replayed after the page starts, after every manual entry and quick move, and after undoing an
  entry that is a valid token. Undoing an invalid entry can break this relation (see "Left out").
- **Scramble patterns.** `ScramblePatterns` holds the named pattern table and the fold that plays
  a pattern on a solved cube.

Unknown move tokens follow the code. `applyMove` (lib/cube-state.ts:44-112) silently returns an
unchanged copy for an unknown token, and the model does the same (`Cube.Apply`,
`CubeLaws.UnknownKeeps`). The code also accepts any size, including 0 and 1, and so does the model.
A stricter engine would reject unknown tokens and sizes below 2; this model follows the code.

The `checkerboard` pattern is made of slice turns (`M2 E2 S2`) that `applyMove` does not handle.
Playing it therefore leaves the solved cube unchanged (`ScramblePatterns.CheckerboardIsSolved`).

## Model

| member | source | states |
|---|---|---|
| Cube.GenerateSolvedCube | lib/cube-state.ts:13-26 | the state has the requested size, six faces of size*size facelets, and every facelet of each face is that face's home colour (front white, back yellow, left orange, right red, top green, bottom blue) |
| CubeLaws.SolvedColors | lib/cube-state.ts:13-26 | a solved cube of size n holds each of the six colours exactly n*n times |
| CubeLaws.GeneratedIsSolved | lib/cube-state.ts:355-361 | the generated cube is the cube painted with the home colours, and isSolved holds for it |
| Cube.IsSolved | lib/cube-state.ts:355-361 | no contract of its own: every face is uniform, each facelet having the colour of the face's first one; what that means is stated by CubeLaws.SolvedIffUniform and CubeLaws.SolvedIffPainted |
| CubeLaws.SolvedIffUniform | lib/cube-state.ts:355-361 | isSolved holds exactly when, on every face, any two facelets have the same colour (both directions) |
| CubeLaws.SolvedIffPainted | lib/cube-state.ts:355-361 | for size > 0, isSolved holds exactly when every face is filled with the colour of its first facelet (both directions) |
| CubeLaws.RightTurnUnsolves | lib/cube-state.ts:211-245 | for size >= 2, R on a solved cube moves white front facelets into the top's last column while the top's first facelet stays green, so the result is not solved |
| CubeEngine.ScrambleCount | lib/cube-state.ts:34 | the number of scramble moves is always one of the three counts 10, 25 or 35 |
| CubeEngine.DrawsAreQuarterTurns | lib/cube-state.ts:33-38 | every move drawn from the scramble move list is a quarter turn that applyMove handles |
| CubeEngine.GenerateScrambledCube | lib/cube-state.ts:28-42 | the loop's result is the solved cube with the drawn moves applied in order; it is well formed, keeps the size, and holds each colour exactly size*size times |
| CubeEngine.RotateFaceClockwise | lib/cube-state.ts:114-121 | after the in-place loops the array equals the clockwise rotation of its old contents (cell i*n+j takes old cell (n-1-j)*n+i) |
| CubeEngine.RotateFaceCounterClockwise | lib/cube-state.ts:123-130 | after the in-place loops the array equals the counter-clockwise rotation of its old contents (cell i*n+j takes old cell j*n+(n-1-i)) |
| Facelets.SourcesInverse | lib/cube-state.ts:114-130 | the clockwise and counter-clockwise index maps are inverse to each other, in both orders |
| Facelets.CwSourceThrice | lib/cube-state.ts:114-130 | following the clockwise index map three times gives the counter-clockwise index map |
| Facelets.RotateInverse | lib/cube-state.ts:114-130 | a clockwise face rotation followed by a counter-clockwise one restores the face, and the reverse order does too |
| Facelets.RotateCwThrice | lib/cube-state.ts:114-130 | three clockwise face rotations equal one counter-clockwise rotation |
| Facelets.RotateCwFour | lib/cube-state.ts:114-121 | four clockwise face rotations restore the face |
| Facelets.RotateCwMultiset | lib/cube-state.ts:114-121 | a clockwise face rotation is a permutation: it keeps the multiset of colours |
| Facelets.RotateCcwMultiset | lib/cube-state.ts:123-130 | a counter-clockwise face rotation keeps the multiset of colours |
| Facelets.LineIndexInv | lib/cube-state.ts:133-173 | the i-th cell of a border row or column lies on that line and is found again at position i |
| Facelets.ReadAfterSet | lib/cube-state.ts:133-173 | after a strip is written into a face, reading that strip gives the written cells back |
| Facelets.SetAfterSet | lib/cube-state.ts:133-173 | writing the same strip twice keeps only the second write |
| Facelets.SetOwnLine | lib/cube-state.ts:133-173 | writing a face's own strip back into it changes nothing |
| Facelets.SetLineMultiset | lib/cube-state.ts:133-173 | writing a strip trades the old strip's colours for the new strip's colours, and nothing else in the face's colour multiset changes |
| Facelets.OrientTwice | lib/cube-state.ts:133-173 | reading a strip reversed twice is reading it forwards; reversals compose by exclusive or |
| Facelets.OrientMultiset | lib/cube-state.ts:133-173 | reading a strip reversed keeps its colours |
| CubeEngine.SaveLine | lib/cube-state.ts:134-139 | the temp copy holds exactly the cells of the saved border strip, in order |
| CubeEngine.CopyStrip | lib/cube-state.ts:133-173 | one copy loop leaves the target face equal to the old face with the target strip replaced by the source strip, read forwards or backwards, and every other cell unchanged |
| CubeEngine.WriteStrip | lib/cube-state.ts:133-173 | the final loop leaves the target face equal to the old face with the target strip replaced by the saved temp strip, forwards or backwards |
| Cube.Adjacent | lib/cube-state.ts:133-353 | each face's table names four strips on four distinct faces |
| Cube.Cycled | lib/cube-state.ts:133-353 | the result has six size*size faces, and each face is its refill: a face carrying slot k has slot k's strip overwritten by the strip that arrives there, and every other face is kept |
| CubeLaws.OutsideStep | lib/cube-state.ts:133-353 | a strip cycle leaves every face that carries none of its four strips exactly as it was |
| CubeLaws.StepRead | lib/cube-state.ts:133-353 | after a forward step, slot k holds the old strip of slot k+1 (mod 4), reversed exactly when the table's flip for slot k is set |
| CubeLaws.AdjacentShape | lib/cube-state.ts:133-353 | each face's strip cycle leaves the face itself and its opposite face untouched, covers the other four faces, and reverses an even number of strips around the cycle |
| CubeEngine.MutableCube.Copy | lib/cube-state.ts:44-46 | the working copy is six fresh arrays holding exactly the given state, so turning it never touches the caller's cube |
| CubeEngine.MutableCube.RotateFrontAdjacent | lib/cube-state.ts:133-173 | both branches leave the cube equal to the front strip cycle applied to the old cube (forward for a clockwise turn, backward when reverse is set), changing only top, left, bottom and right |
| CubeEngine.MutableCube.RotateBackAdjacent | lib/cube-state.ts:175-209 | both branches equal the back strip cycle, forward or backward, changing only top, right, bottom and left |
| CubeEngine.MutableCube.RotateRightAdjacent | lib/cube-state.ts:211-245 | both branches equal the right strip cycle, forward or backward, changing only top, front, bottom and back |
| CubeEngine.MutableCube.RotateLeftAdjacent | lib/cube-state.ts:247-281 | both branches equal the left strip cycle, forward or backward, changing only top, back, bottom and front |
| CubeEngine.MutableCube.RotateTopAdjacent | lib/cube-state.ts:283-317 | both branches equal the top strip cycle, forward or backward, changing only front, right, back and left |
| CubeEngine.MutableCube.RotateBottomAdjacent | lib/cube-state.ts:319-353 | both branches equal the bottom strip cycle, forward or backward, changing only front, left, back and right |
| CubeLaws.CycleInverse | lib/cube-state.ts:133-353 | for any well-shaped strip table, the reverse branch exactly undoes the forward branch and the forward branch undoes the reverse one |
| CubeLaws.CycleFour | lib/cube-state.ts:133-353 | for a table with an even number of reversed strips, four forward strip cycles restore every face |
| CubeLaws.AdjacentColors | lib/cube-state.ts:133-353 | each face's strip cycle, in either direction, keeps the colour multiset of the whole cube |
| CubeEngine.QuarterTurn | lib/cube-state.ts:49-96 | a quarter-turn case (face rotation plus strip cycle on the working copy) leaves the copy equal to the specified quarter turn of the old state |
| CubeEngine.ApplyMove | lib/cube-state.ts:44-112 | the result equals the specified move for every token: a quarter turn, a half turn as the clockwise turn played twice, and the unchanged state for any other token |
| Cube.Turn | lib/cube-state.ts:49-96 | a quarter turn of any face in either direction gives a state of the same size with six size*size faces |
| CubeLaws.TurnRotatesFace | lib/cube-state.ts:49-96 | the turned face ends as its own grid rotated clockwise, or counter-clockwise for a prime turn; the strip cycle does not touch it |
| Cube.Apply | lib/cube-state.ts:44-112 | every token gives a state of the same size with six faces of size*size facelets |
| CubeLaws.TurnInverse | lib/cube-state.ts:49-96 | a quarter turn followed by the same face's turn in the other direction restores the cube |
| CubeLaws.TurnFour | lib/cube-state.ts:49-96 | four clockwise quarter turns of one face restore the cube |
| CubeLaws.TurnColors | lib/cube-state.ts:49-96 | a quarter turn keeps the colour multiset of the whole cube |
| CubeLaws.TurnFrame | lib/cube-state.ts:49-96 | a quarter turn leaves the opposite face untouched, and every neighbour cell off the moving strip unchanged |
| CubeLaws.FrontTurnFrame | lib/cube-state.ts:133-173 | F or F' leaves the back face and, on top, left, bottom and right, every cell outside the strip next to the front unchanged |
| CubeLaws.TopTurnFrame | lib/cube-state.ts:283-317 | U or U' leaves the bottom face and every row below the first on front, right, back and left unchanged |
| Cube.ParseMove | lib/cube-state.ts:48-111 | no contract of its own: the switch's 18 case labels and the fall-through to no move; what it maps is stated by CubeLaws.ParseTable, TokenParses, ParsedToken and ParseMoveGrammar |
| CubeLaws.TokenParses | lib/cube-state.ts:48-109 | the token written for any handled move is read back as that move |
| CubeLaws.ParsedToken | lib/cube-state.ts:48-109 | a handled token is exactly the token written for the move it is read as |
| CubeLaws.ParseMoveGrammar | lib/cube-state.ts:48-109 | the switch on the 18 tokens agrees with the grammar "face letter, then nothing, a prime or a 2" |
| CubeLaws.ParseTable | lib/cube-state.ts:48-108 | each of the 18 case labels selects its face and direction: X is clockwise, X' counter-clockwise and X2 a half turn |
| CubeLaws.UnknownKeeps | lib/cube-state.ts:109-111 | a token outside the 18 cases leaves the cube unchanged |
| CubeLaws.QuarterThenInverse | lib/cube-state.ts:49-96 | X then X' restores the cube, and so does X' then X |
| CubeLaws.QuarterFour | lib/cube-state.ts:49-96 | playing X four times restores the cube |
| CubeLaws.HalfIsTwoQuarters | lib/cube-state.ts:97-108 | X2 equals X played twice and also X' played twice |
| CubeLaws.HalfTwice | lib/cube-state.ts:97-108 | X2 played twice restores the cube |
| CubeLaws.ApplyColors | lib/cube-state.ts:44-112 | every move token keeps the colour multiset of the cube |
| CubeLaws.ApplyAllColors | lib/cube-state.ts:36-39 | a whole move list keeps the colour multiset of the cube |
| Cube.ApplyAll | lib/scramble-patterns.ts:202-204 | every token list, handled tokens or not, gives a state of the same size with six size*size faces |
| CubeLaws.ApplyAllAppend | lib/scramble-patterns.ts:202-204 | playing a + b is playing a and then b on the result |
| CubeLaws.ApplyAllSkipsUnknown | lib/scramble-patterns.ts:202-204 | a move list made only of unhandled tokens leaves the cube unchanged |
| CubeSolver.Trim | components/cube-solver.tsx:239 | the trimmed input is empty exactly when the input is all whitespace, and a non-empty result starts and ends with a non-whitespace character; the exact cut points are stated by CubeSolver.TrimExact |
| CubeSolver.TrimKeepsText | components/cube-solver.tsx:239 | trimming removes only whitespace: the non-whitespace characters are the same, in order |
| CubeSolver.Split | components/cube-solver.tsx:241 | splitting on runs of whitespace gives at least one part, no part contains whitespace, and a trimmed non-empty input gives only non-empty parts; where it cuts is stated by CubeSolver.SplitAtRun and SplitWord |
| CubeSolver.SplitKeepsText | components/cube-solver.tsx:241 | the parts, concatenated, are exactly the input's non-whitespace characters in order |
| CubeSolver.TrimExact | components/cube-solver.tsx:239 | trim removes exactly the leading and the trailing whitespace run: whitespace + t + whitespace trims to t whenever t starts and ends with a non-whitespace character |
| CubeSolver.SplitWord | components/cube-solver.tsx:241 | text without whitespace splits into itself alone |
| CubeSolver.SplitAtRun | components/cube-solver.tsx:241 | the split cuts at each whitespace run: w + run + rest splits into w followed by the split of rest, when w has no whitespace, the run is non-empty whitespace and rest does not start with whitespace |
| CubeSolver.TrimExample | components/cube-solver.tsx:239 | " R  U2 " trims to "R  U2" |
| CubeSolver.SplitExample | components/cube-solver.tsx:241 | "R  U2" splits into exactly "R" and "U2" |
| CubeSolver.WordsExample | components/cube-solver.tsx:239-241 | the field " R  U2 " gives exactly the two words "R" and "U2" |
| CubeSolver.Words | components/cube-solver.tsx:239-241 | a non-blank input gives at least one word, and every word is non-empty and free of whitespace; which words come out follows from CubeSolver.TrimExact, SplitAtRun and SplitWord |
| CubeSolver.WordsKeepText | components/cube-solver.tsx:239-241 | the words, concatenated, are exactly the input's non-whitespace characters |
| CubeSolver.IsValidMove | components/cube-solver.tsx:283-305 | no contract of its own: membership in the 18-token list, in the source's order; what it accepts is stated by CubeSolver.ValidIffHandled, TokenListed and RejectsSliceAndEmpty |
| CubeSolver.TokenListed | components/cube-solver.tsx:283-305 | the token of every handled move is in the valid list |
| CubeSolver.ValidIffHandled | components/cube-solver.tsx:283-305 | a token is valid exactly when applyMove handles it (both directions) |
| CubeSolver.RejectsSliceAndEmpty | components/cube-solver.tsx:283-305 | the slice turn "M2" and the empty token are rejected |
| CubeSolver.GetUndoMove | components/cube-solver.tsx:307-311 | no contract of its own: drop a trailing prime, keep a token ending in 2, otherwise add a prime; its meaning is stated by CubeSolver.UndoOfToken, UndoValid and UndoRestores |
| CubeSolver.UndoOfToken | components/cube-solver.tsx:307-311 | the undo of X' is X, of X2 is X2 and of X is X', for every face |
| CubeSolver.UndoValid | components/cube-solver.tsx:307-311 | on a valid token, the undo token is valid, is read as the inverse move, and undoing it again gives the original token |
| CubeSolver.UndoRestores | components/cube-solver.tsx:270-281 | for a valid token m, playing m and then its undo token restores the cube |
| CubeSolver.Accepted | components/cube-solver.tsx:245-254 | the kept tokens are no more than the words, and every kept token is valid |
| CubeSolver.AcceptedMembers | components/cube-solver.tsx:245-254 | a token is kept exactly when it is among the words and is valid (both directions) |
| CubeSolver.AcceptedSameOutcome | components/cube-solver.tsx:245-254 | playing only the kept tokens gives the same cube as playing every word, since invalid words are unhandled |
| CubeSolver.ApplyValidMoves | components/cube-solver.tsx:245-254 | the loop records exactly the valid words, in order, and its state is the start state with those words played in order |
| CubeSolver.Session.constructor | components/cube-solver.tsx:22-37 | the page starts with a scrambled 3x3 cube, an empty history and the scrambled flag set, and the replay invariant holds |
| CubeSolver.Session.ManualMove | components/cube-solver.tsx:238-258 | a blank entry changes nothing; otherwise the history grows by exactly the valid words in order, the cube is the old cube with those words played, the flag is "not solved", and the replay invariant is kept |
| CubeSolver.Session.QuickMove | components/cube-solver.tsx:260-268 | the cube is the old cube with the move applied, the history grows by exactly that move, the flag is "not solved", and the replay invariant is kept |
| CubeSolver.Session.UndoMove | components/cube-solver.tsx:270-281 | an empty history changes nothing; otherwise exactly the last entry is dropped, the cube has that entry's undo token applied, and the flag is updated; when that entry was valid, the cube is again the start state with the shortened history replayed |
| ScramblePatterns.Patterns | lib/scramble-patterns.ts:9-196 | the table as data: the 16 keys of the source, each with its pattern's name, description, moves, difficulty and category as written there; what its move lists hold is stated by ScramblePatterns.OthersHandled and CheckerboardIsSolved |
| ScramblePatterns.ApplyScramblePattern | lib/scramble-patterns.ts:198-207 | the result is the solved cube of the given size with the pattern's moves applied in order; it keeps the size, holds each colour size*size times, and an empty pattern gives the solved cube |
| ScramblePatterns.CheckerboardUnhandled | lib/scramble-patterns.ts:40-46 | none of the checkerboard's three slice tokens is handled by applyMove |
| ScramblePatterns.CheckerboardIsSolved | lib/scramble-patterns.ts:40-46 | playing the checkerboard pattern on a solved cube gives the solved cube back, so the result is solved |
| ScramblePatterns.ClassicHandled | lib/scramble-patterns.ts:11-53 | the superflip and cross patterns use only handled tokens |
| ScramblePatterns.FunHandled | lib/scramble-patterns.ts:56-69 | the cube-in-cube and flower patterns use only handled tokens |
| ScramblePatterns.MoreFunHandled | lib/scramble-patterns.ts:70-83 | the spiral and six-dots patterns use only handled tokens |
| ScramblePatterns.LastFunHandled | lib/scramble-patterns.ts:84-97 | the stripes and tetris patterns use only handled tokens |
| ScramblePatterns.GiftBoxHandled | lib/scramble-patterns.ts:98-104 | the gift-box pattern uses only handled tokens |
| ScramblePatterns.PracticeHandled | lib/scramble-patterns.ts:107-120 | the easy and medium scrambles use only handled tokens |
| ScramblePatterns.HardScrambleHandled | lib/scramble-patterns.ts:121-151 | the hard scramble uses only handled tokens |
| ScramblePatterns.CompetitionScrambleHandled | lib/scramble-patterns.ts:152-179 | the competition scramble uses only handled tokens |
| ScramblePatterns.ComplexHandled | lib/scramble-patterns.ts:182-195 | the anaconda and python patterns use only handled tokens |
| ScramblePatterns.OthersHandled | lib/scramble-patterns.ts:9-196 | every pattern of the table except the checkerboard uses only tokens applyMove handles |

## Left out

- Rendering, animation, timers, status messages and the `isAnimating` guard of the handlers (components/cube-solver.tsx:239, 261, 271) are left out. They are presentation concerns, and the page runs one handler at a time.
- Clearing the manual-entry text box after manual entry is left out, because it does not affect the cube or the history.
- React's deferred state updates are left out: each handler's writes are modelled as taking effect when it returns.
- `Math.random` in generateScrambledCube becomes an injected list of indices into the twelve scramble moves, one per drawn move.
- `CubeSolver.Session.constructor` takes those indices as its parameter instead of drawing them.
- Characters are Unicode scalar values, not UTF-16 code units. A surrogate pair is one character here, so `trim` and `split` are not modelled on lone surrogates.
- The strip-copy loops are modelled once, generically: `CubeEngine.CopyStrip` and `CubeEngine.WriteStrip` take a row/column descriptor (`Facelets.Line`) and a reversal flag. Each rotate*Adjacent method calls them with the literal rows, columns and index directions of its source loops.
- `CubeEngine.QuarterTurn` gathers the switch's two calls per quarter-turn case (face rotation, then strip cycle) into one method over the face.
- `CubeSolver.ApplyValidMoves` holds the loop of handleManualMove as a module-level method. `CubeSolver.Session.ManualMove` calls it on the session's cube.
- The solve and skip-to-end handlers are not modelled (components/cube-solver.tsx:125-199 and 205-219). Both install a fresh solved cube but keep the move history (lines 185-186 and 212-213), so in the source the cube stops being the start state with the history replayed after either one.
- CubeSolver.Session.UndoMove: the replay invariant is re-established only when the last history entry is a valid token. handleQuickMove does not validate its argument, and an entry such as "F''" would be undone as "F'". The page's quick-move buttons only pass the twelve quarter-turn tokens.
- The reset, scramble-button, pattern-selection and size-change handlers are left out, as is the solving-algorithm code. lib/algorithms.ts, components/rubiks-cube.tsx and the other components are not part of this model.
- The colour names are a datatype, and the object-property order of `faces` is not modelled. isSolved checks all six faces whatever their order.
- The pattern table's `name`, `description`, `difficulty` and `category` fields are kept as data; no property is stated about them.
