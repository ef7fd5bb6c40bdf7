/**
 * Named move sequences (lib/scramble-patterns.ts): the pattern table and the
 * fold that plays a pattern's moves on a solved cube.
 */
module ScramblePatterns {
  import opened Cube
  import opened CubeLaws
  import opened CubeEngine

  datatype Difficulty = Easy | Medium | Hard | Expert

  datatype Category = Classic | Fun | Practice | Complex

  /** A named pattern: its move tokens, in the order they are played. */
  datatype ScramblePattern = ScramblePattern(
    name: string,
    description: string,
    moves: seq<string>,
    difficulty: Difficulty,
    category: Category)

  // ---------------------------------------------------------------------------
  // The table

  const Superflip := ScramblePattern(
    "Superflip", "The most famous cube pattern - all edges are flipped",
    ["R", "U", "R'", "F", "R", "F'", "U2", "R'", "U'", "R", "U", "R'", "F", "R2", "U'", "R'", "U'", "R", "U", "R'", "F'"],
    Expert, Classic)

  const Checkerboard := ScramblePattern(
    "Checkerboard", "Creates a checkerboard pattern on all faces",
    ["M2", "E2", "S2"],
    Easy, Classic)

  const Cross := ScramblePattern(
    "Cross Pattern", "Creates a cross pattern on each face",
    ["F", "B", "R", "L", "U", "D"],
    Easy, Classic)

  const CubeInCube := ScramblePattern(
    "Cube in Cube", "Creates smaller cubes within the larger cube faces",
    ["F", "L", "F", "U'", "R", "U", "F2", "L2", "U'", "L'", "B", "D'", "B'", "L2", "U"],
    Hard, Fun)

  const Flower := ScramblePattern(
    "Flower Pattern", "Creates flower-like patterns on the faces",
    ["R", "U", "R'", "F", "R", "F'", "U", "R", "U2", "R'", "U2", "R"],
    Medium, Fun)

  const Spiral := ScramblePattern(
    "Spiral", "Creates spiral patterns across the cube",
    ["R", "U", "R'", "U", "R", "U2", "R'", "L'", "U'", "L", "U'", "L'", "U2", "L"],
    Medium, Fun)

  const SixDots := ScramblePattern(
    "Six Dots", "Creates dot patterns on each face center",
    ["U", "D'", "R", "L'", "F", "B'", "U", "D'"],
    Easy, Fun)

  const Stripes := ScramblePattern(
    "Stripes", "Creates striped patterns across faces",
    ["F", "U", "F", "R", "L'", "F", "D'", "F", "U", "F", "L", "R'", "F"],
    Medium, Fun)

  const Tetris := ScramblePattern(
    "Tetris", "Creates Tetris-like block patterns",
    ["L", "R", "F", "B", "U", "D", "L", "R"],
    Easy, Fun)

  const GiftBox := ScramblePattern(
    "Gift Box", "Makes the cube look like a wrapped gift",
    ["F", "R", "U", "R'", "U'", "R", "U", "R'", "U'", "F'"],
    Medium, Fun)

  const EasyScramble := ScramblePattern(
    "Easy Scramble", "Simple scramble for beginners",
    ["R", "U", "R'", "U'", "F", "U", "F'"],
    Easy, Practice)

  const MediumScramble := ScramblePattern(
    "Medium Scramble", "Moderate scramble for intermediate solvers",
    ["R", "U2", "R'", "D", "R", "U'", "R'", "D'", "R2", "U", "R'", "U'", "R", "U'", "R'"],
    Medium, Practice)

  const HardScramble := ScramblePattern(
    "Hard Scramble", "Challenging scramble for advanced solvers",
    ["R", "U", "R'", "F", "R", "F'", "U2", "R'", "U'", "R", "U", "R'", "F", "R", "F'", "U", "R", "U2", "R'", "U2", "R", "U'", "R'"],
    Hard, Practice)

  const CompetitionScramble := ScramblePattern(
    "Competition Scramble", "Official WCA-style scramble sequence",
    ["D2", "F", "U2", "R2", "D2", "F", "D2", "L2", "F'", "R2", "U2", "R'", "B", "L", "D'", "U", "L", "D2", "R'", "U'"],
    Expert, Practice)

  const Anaconda := ScramblePattern(
    "Anaconda", "Creates snake-like patterns across the cube",
    ["L", "U", "B'", "U'", "R", "L'", "B", "R'", "F", "B'", "D", "R", "D'", "F'"],
    Expert, Complex)

  const Python := ScramblePattern(
    "Python", "Another snake-like pattern with different characteristics",
    ["R", "U'", "R'", "U'", "F", "R", "F'", "U", "R", "U2", "R'", "U2", "R"],
    Hard, Complex)

  /** scramblePatterns: the patterns by key. */
  const Patterns: map<string, ScramblePattern> := map[
    "superflip" := Superflip,
    "checkerboard" := Checkerboard,
    "cross" := Cross,
    "cube_in_cube" := CubeInCube,
    "flower" := Flower,
    "spiral" := Spiral,
    "six_dots" := SixDots,
    "stripes" := Stripes,
    "tetris" := Tetris,
    "gift_box" := GiftBox,
    "easy_scramble" := EasyScramble,
    "medium_scramble" := MediumScramble,
    "hard_scramble" := HardScramble,
    "competition_scramble" := CompetitionScramble,
    "anaconda" := Anaconda,
    "python" := Python]

  // ---------------------------------------------------------------------------
  // applyScramblePattern

  /** applyScramblePattern: the pattern's moves played in order on the solved cube of the given size. */
  method ApplyScramblePattern(pattern: ScramblePattern, cubeSize: nat) returns (cube: CubeState)
    ensures cube == ApplyAll(GenerateSolvedCube(cubeSize), pattern.moves)
    ensures WellFormed(cube) && cube.size == cubeSize
    ensures forall x :: cube.faces.Colors()[x] == cubeSize * cubeSize
    ensures pattern.moves == [] ==> cube == GenerateSolvedCube(cubeSize)
  {
    var solved := GenerateSolvedCube(cubeSize);
    cube := solved;
    for i := 0 to |pattern.moves|
      invariant cube == ApplyAll(solved, pattern.moves[..i])
    {
      var next := ApplyMove(cube, pattern.moves[i]);
      ApplyAllPrefix(solved, pattern.moves, i);
      cube := next;
    }
    assert pattern.moves[..|pattern.moves|] == pattern.moves;
    assert forall x :: cube.faces.Colors()[x] == cubeSize * cubeSize by {
      ApplyAllColors(solved, pattern.moves);
      SolvedColors(cubeSize);
    }
  }

  // ---------------------------------------------------------------------------
  // What the table holds

  /** Every token of the list is one applyMove handles. */
  predicate Handled(moves: seq<string>)
  {
    forall i :: 0 <= i < |moves| ==> ParseMove(moves[i]) != Unknown
  }

  /** A list whose tokens all follow the move grammar is handled token by token. */
  lemma HandledByGrammar(moves: seq<string>)
    requires forall i :: 0 <= i < |moves| ==> ReadToken(moves[i]) != Unknown
    ensures Handled(moves)
  {
    forall i | 0 <= i < |moves|
      ensures ParseMove(moves[i]) != Unknown
    {
      ParseMoveGrammar(moves[i]);
    }
  }

  /** The slice turns of the checkerboard pattern are not among applyMove's tokens. */
  lemma CheckerboardUnhandled()
    ensures forall i :: 0 <= i < |Checkerboard.moves| ==> ParseMove(Checkerboard.moves[i]) == Unknown
  {
    forall i | 0 <= i < |Checkerboard.moves|
      ensures ParseMove(Checkerboard.moves[i]) == Unknown
    {
      ParseMoveGrammar(Checkerboard.moves[i]);
    }
  }

  /** Playing the checkerboard pattern leaves the solved cube as it is. */
  lemma CheckerboardIsSolved(n: nat)
    ensures ApplyAll(GenerateSolvedCube(n), Patterns["checkerboard"].moves) == GenerateSolvedCube(n)
    ensures IsSolved(ApplyAll(GenerateSolvedCube(n), Patterns["checkerboard"].moves))
  {
    CheckerboardUnhandled();
    ApplyAllSkipsUnknown(GenerateSolvedCube(n), Checkerboard.moves);
    GeneratedIsSolved(n);
  }

  lemma ClassicHandled()
    ensures Handled(Superflip.moves) && Handled(Cross.moves)
  {
    HandledByGrammar(Superflip.moves);
    HandledByGrammar(Cross.moves);
  }

  lemma FunHandled()
    ensures Handled(CubeInCube.moves) && Handled(Flower.moves)
  {
    HandledByGrammar(CubeInCube.moves);
    HandledByGrammar(Flower.moves);
  }

  lemma MoreFunHandled()
    ensures Handled(Spiral.moves) && Handled(SixDots.moves)
  {
    HandledByGrammar(Spiral.moves);
    HandledByGrammar(SixDots.moves);
  }

  lemma LastFunHandled()
    ensures Handled(Stripes.moves) && Handled(Tetris.moves)
  {
    HandledByGrammar(Stripes.moves);
    HandledByGrammar(Tetris.moves);
  }

  lemma GiftBoxHandled()
    ensures Handled(GiftBox.moves)
  {
    HandledByGrammar(GiftBox.moves);
  }

  lemma PracticeHandled()
    ensures Handled(EasyScramble.moves) && Handled(MediumScramble.moves)
  {
    HandledByGrammar(EasyScramble.moves);
    HandledByGrammar(MediumScramble.moves);
  }

  lemma HardScrambleHandled()
    ensures Handled(HardScramble.moves)
  {
    HandledByGrammar(HardScramble.moves);
  }

  lemma CompetitionScrambleHandled()
    ensures Handled(CompetitionScramble.moves)
  {
    HandledByGrammar(CompetitionScramble.moves);
  }

  lemma ComplexHandled()
    ensures Handled(Anaconda.moves) && Handled(Python.moves)
  {
    HandledByGrammar(Anaconda.moves);
    HandledByGrammar(Python.moves);
  }

  /** Every pattern of the table except the checkerboard uses only tokens applyMove handles. */
  lemma OthersHandled()
    ensures forall key :: key in Patterns && key != "checkerboard" ==> Handled(Patterns[key].moves)
  {
    ClassicHandled();
    FunHandled();
    MoreFunHandled();
    LastFunHandled();
    GiftBoxHandled();
    PracticeHandled();
    HardScrambleHandled();
    CompetitionScrambleHandled();
    ComplexHandled();
  }
}
