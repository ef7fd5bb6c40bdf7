/**
 * The cube state of lib/cube-state.ts and what each move token does to it.
 *
 * A cube of side n is six flat colour sequences of length n * n. A quarter
 * turn of a face rotates that face's own grid and cycles one border strip of
 * each of its four neighbours. The per-face neighbour wiring is kept here as
 * data (Adjacent); the six hand-written copy routines of the source are
 * modelled in CubeEngine and proved to do exactly what these tables say.
 */
module Cube {
  import opened Facelets

  datatype FaceName = Front | Back | Left | Right | Top | Bottom

  /** The six face arrays of a cube. */
  datatype Faces = Faces(front: Face, back: Face, left: Face, right: Face, top: Face, bottom: Face)
  {
    function Get(g: FaceName): Face
    {
      match g
      case Front => front
      case Back => back
      case Left => left
      case Right => right
      case Top => top
      case Bottom => bottom
    }

    /** These faces with face g replaced by s. */
    function With(g: FaceName, s: Face): (r: Faces)
      ensures r.Get(g) == s
      ensures forall h :: h != g ==> r.Get(h) == Get(h)
    {
      match g
      case Front => this.(front := s)
      case Back => this.(back := s)
      case Left => this.(left := s)
      case Right => this.(right := s)
      case Top => this.(top := s)
      case Bottom => this.(bottom := s)
    }

    /** Every face holds n * n facelets. */
    predicate Sized(n: nat)
    {
      |front| == n * n && |back| == n * n && |left| == n * n &&
      |right| == n * n && |top| == n * n && |bottom| == n * n
    }

    /** All facelets of the cube, as one multiset of colours. */
    function Colors(): multiset<Color>
    {
      multiset(front) + multiset(back) + multiset(left) +
      multiset(right) + multiset(top) + multiset(bottom)
    }
  }

  datatype CubeState = CubeState(faces: Faces, size: nat)

  /** The shape every state built by the engine has: six faces of size * size facelets. */
  predicate WellFormed(c: CubeState)
  {
    c.faces.Sized(c.size)
  }

  lemma SizedGet(fs: Faces, n: nat, g: FaceName)
    requires fs.Sized(n)
    ensures |fs.Get(g)| == n * n
  {
  }

  // ---------------------------------------------------------------------------
  // Solved cubes

  /** The colour each face is filled with in the solved cube. */
  function HomeColor(g: FaceName): Color
  {
    match g
    case Front => White
    case Back => Yellow
    case Left => Orange
    case Right => Red
    case Top => Green
    case Bottom => Blue
  }

  /** m facelets of colour x. */
  function Fill(m: nat, x: Color): (s: Face)
    ensures |s| == m
  {
    seq(m, _ => x)
  }

  /** The solved cube of side size: every face filled with its own fixed colour. */
  function GenerateSolvedCube(size: nat): (c: CubeState)
    ensures c.size == size && WellFormed(c)
    ensures forall g: FaceName, i :: 0 <= i < size * size ==> c.faces.Get(g)[i] == HomeColor(g)
  {
    var faceSize := size * size;
    CubeState(
      Faces(
        front := Fill(faceSize, White),
        back := Fill(faceSize, Yellow),
        left := Fill(faceSize, Orange),
        right := Fill(faceSize, Red),
        top := Fill(faceSize, Green),
        bottom := Fill(faceSize, Blue)),
      size)
  }

  /** Every facelet of s has the colour of the first one. */
  predicate Uniform(s: Face)
  {
    forall i :: 0 <= i < |s| ==> s[i] == s[0]
  }

  /** Every face is uniform, whichever colour each one has. */
  predicate IsSolved(c: CubeState)
  {
    Uniform(c.faces.front) && Uniform(c.faces.back) && Uniform(c.faces.left) &&
    Uniform(c.faces.right) && Uniform(c.faces.top) && Uniform(c.faces.bottom)
  }

  // ---------------------------------------------------------------------------
  // Move tokens

  /** What applyMove does for a token: a quarter turn, a half turn, or nothing. */
  datatype Move = Quarter(face: FaceName, ccw: bool) | Half(face: FaceName) | Unknown

  /** The letter that names a face in move tokens. */
  function Letter(g: FaceName): string
  {
    match g
    case Front => "F"
    case Back => "B"
    case Right => "R"
    case Left => "L"
    case Top => "U"
    case Bottom => "D"
  }

  /** The token of a handled move: the face letter, then "'" or "2" or nothing. */
  function Token(m: Move): string
    requires m != Unknown
  {
    match m
    case Quarter(g, ccw) => Letter(g) + (if ccw then "'" else "")
    case Half(g) => Letter(g) + "2"
  }

  /** The switch of applyMove: the 18 tokens it handles, anything else falls through. */
  function ParseMove(token: string): Move
  {
    if token == "F" then Quarter(Front, false)
    else if token == "F'" then Quarter(Front, true)
    else if token == "B" then Quarter(Back, false)
    else if token == "B'" then Quarter(Back, true)
    else if token == "R" then Quarter(Right, false)
    else if token == "R'" then Quarter(Right, true)
    else if token == "L" then Quarter(Left, false)
    else if token == "L'" then Quarter(Left, true)
    else if token == "U" then Quarter(Top, false)
    else if token == "U'" then Quarter(Top, true)
    else if token == "D" then Quarter(Bottom, false)
    else if token == "D'" then Quarter(Bottom, true)
    else if token == "F2" then Half(Front)
    else if token == "B2" then Half(Back)
    else if token == "R2" then Half(Right)
    else if token == "L2" then Half(Left)
    else if token == "U2" then Half(Top)
    else if token == "D2" then Half(Bottom)
    else Unknown
  }

  // ---------------------------------------------------------------------------
  // Adjacent-strip cycles

  /** One border strip of one face. */
  datatype Slot = Slot(face: FaceName, line: Line)

  /**
   * The four strips a turn carries around, and how each is read.
   * Turning clockwise, slot k receives the strip of slot k + 1 (mod 4),
   * read backwards when flips[k] is set; slot 0 is the strip the source saves
   * in temp first, so slot 3 receives the saved copy. Turning
   * counter-clockwise runs the same cycle the other way: slot k receives slot
   * k - 1, read backwards when flips[k - 1] is set.
   */
  datatype Cycle = Cycle(slots: seq<Slot>, flips: seq<bool>)

  /** Four slots on four different faces. */
  predicate WellShaped(cy: Cycle)
  {
    |cy.slots| == 4 && |cy.flips| == 4 &&
    forall j, k :: 0 <= j < k < 4 ==> cy.slots[j].face != cy.slots[k].face
  }

  /** Whether face g carries one of the cycle's strips. */
  predicate InCycle(cy: Cycle, g: FaceName)
    requires WellShaped(cy)
  {
    exists k :: 0 <= k < 4 && cy.slots[k].face == g
  }

  /** The neighbour wiring of each face, as the six rotate*Adjacent routines hard-code it. */
  function Adjacent(f: FaceName): (cy: Cycle)
    ensures WellShaped(cy)
  {
    match f
    case Front =>
      // top row n-1 <- left column n-1 (reversed) <- bottom row 0 <- right column 0 (reversed)
      Cycle([Slot(Top, Row(true)), Slot(Left, Col(true)), Slot(Bottom, Row(false)), Slot(Right, Col(false))],
            [true, false, true, false])
    case Back =>
      Cycle([Slot(Top, Row(false)), Slot(Right, Col(true)), Slot(Bottom, Row(true)), Slot(Left, Col(false))],
            [false, true, true, false])
    case Right =>
      Cycle([Slot(Top, Col(true)), Slot(Front, Col(true)), Slot(Bottom, Col(true)), Slot(Back, Col(false))],
            [false, false, true, true])
    case Left =>
      Cycle([Slot(Top, Col(false)), Slot(Back, Col(true)), Slot(Bottom, Col(false)), Slot(Front, Col(false))],
            [true, true, false, false])
    case Top =>
      Cycle([Slot(Front, Row(false)), Slot(Right, Row(false)), Slot(Back, Row(false)), Slot(Left, Row(false))],
            [false, false, false, false])
    case Bottom =>
      Cycle([Slot(Front, Row(true)), Slot(Left, Row(true)), Slot(Back, Row(true)), Slot(Right, Row(true))],
            [false, false, false, false])
  }

  /** The current colours of a slot's strip. */
  function SlotLine(fs: Faces, n: nat, s: Slot): (w: Face)
    requires fs.Sized(n)
    ensures |w| == n
  {
    SizedGet(fs, n, s.face);
    ReadLine(fs.Get(s.face), n, s.line)
  }

  /** The slot after slot k around the cycle. */
  function Next(k: int): int
  {
    if k == 3 then 0 else k + 1
  }

  /** The slot before slot k around the cycle. */
  function Prev(k: int): int
  {
    if k == 0 then 3 else k - 1
  }

  /** What slot k receives: from slot k + 1 turning forward, from slot k - 1 turning back. */
  function Incoming(fs: Faces, n: nat, cy: Cycle, forward: bool, k: int): (w: Face)
    requires fs.Sized(n) && WellShaped(cy) && 0 <= k < 4
    ensures |w| == n
  {
    if forward then
      Orient(cy.flips[k], SlotLine(fs, n, cy.slots[Next(k)]))
    else
      Orient(cy.flips[Prev(k)], SlotLine(fs, n, cy.slots[Prev(k)]))
  }

  /** Slot k's face with the incoming strip written over slot k's strip. */
  function Refill(fs: Faces, n: nat, cy: Cycle, forward: bool, k: int): (s: Face)
    requires fs.Sized(n) && WellShaped(cy) && 0 <= k < 4
    ensures |s| == n * n
  {
    SizedGet(fs, n, cy.slots[k].face);
    SetLine(fs.Get(cy.slots[k].face), n, cy.slots[k].line, Incoming(fs, n, cy, forward, k))
  }

  /** Face g after the strips of the cycle have moved one step. */
  function CycledFace(fs: Faces, n: nat, cy: Cycle, forward: bool, g: FaceName): (s: Face)
    requires fs.Sized(n) && WellShaped(cy)
    ensures |s| == n * n
  {
    SizedGet(fs, n, g);
    if g == cy.slots[0].face then Refill(fs, n, cy, forward, 0)
    else if g == cy.slots[1].face then Refill(fs, n, cy, forward, 1)
    else if g == cy.slots[2].face then Refill(fs, n, cy, forward, 2)
    else if g == cy.slots[3].face then Refill(fs, n, cy, forward, 3)
    else fs.Get(g)
  }

  /** All six faces after the strips of the cycle have moved one step. */
  function Cycled(fs: Faces, n: nat, cy: Cycle, forward: bool): (r: Faces)
    requires fs.Sized(n) && WellShaped(cy)
    ensures r.Sized(n)
    ensures forall g :: r.Get(g) == CycledFace(fs, n, cy, forward, g)
  {
    Faces(
      CycledFace(fs, n, cy, forward, Front), CycledFace(fs, n, cy, forward, Back),
      CycledFace(fs, n, cy, forward, Left), CycledFace(fs, n, cy, forward, Right),
      CycledFace(fs, n, cy, forward, Top), CycledFace(fs, n, cy, forward, Bottom))
  }

  // ---------------------------------------------------------------------------
  // Moves

  /** Face f's own grid turned a quarter, clockwise unless ccw. */
  function TurnFace(fs: Faces, n: nat, f: FaceName, ccw: bool): (r: Faces)
    requires fs.Sized(n)
    ensures r.Sized(n)
  {
    SizedGet(fs, n, f);
    var s := fs.Get(f);
    fs.With(f, if ccw then RotateCcw(s, n) else RotateCw(s, n))
  }

  /**
   * A quarter turn of face f: rotate f's grid, then cycle the four neighbour
   * strips (forwards for a clockwise turn, backwards for a counter-clockwise one).
   */
  function Turn(c: CubeState, f: FaceName, ccw: bool): (r: CubeState)
    requires WellFormed(c)
    ensures WellFormed(r) && r.size == c.size
  {
    var n := c.size;
    CubeState(Cycled(TurnFace(c.faces, n, f, ccw), n, Adjacent(f), !ccw), n)
  }

  /** The state applyMove returns for a token. */
  function Apply(c: CubeState, token: string): (r: CubeState)
    requires WellFormed(c)
    ensures WellFormed(r) && r.size == c.size
  {
    match ParseMove(token)
    case Quarter(f, ccw) => Turn(c, f, ccw)
    case Half(f) => Turn(Turn(c, f, false), f, false)
    case Unknown => c
  }

  /** The tokens applied one after another, first token first. */
  function ApplyAll(c: CubeState, tokens: seq<string>): (r: CubeState)
    requires WellFormed(c)
    ensures WellFormed(r) && r.size == c.size
    decreases |tokens|
  {
    if tokens == [] then c
    else Apply(ApplyAll(c, tokens[..|tokens| - 1]), tokens[|tokens| - 1])
  }
}
