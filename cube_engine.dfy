/**
 * The in-place engine of lib/cube-state.ts: applyMove deep-copies the cube,
 * then rotates one face array in place and overwrites four border strips of
 * its neighbours with copy loops. Every routine here is proved to compute the
 * value the Cube module specifies.
 */
module CubeEngine {
  import opened Facelets
  import opened Cube
  import opened CubeLaws

  // ---------------------------------------------------------------------------
  // Loops over one face array

  /** rotateFaceClockwise: a quarter turn of the face's grid, clockwise, in place. */
  method RotateFaceClockwise(face: array<Color>, size: nat)
    requires face.Length == size * size
    modifies face
    ensures face[..] == RotateCw(old(face[..]), size)
  {
    var temp := face[..];
    ghost var rotated := RotateCw(temp, size);
    ghost var done := 0;  // cells written so far, i * size + j
    for i := 0 to size
      invariant done == i * size
      invariant forall p {:trigger face[p]} :: 0 <= p < size * size ==> face[p] == if p < done then rotated[p] else temp[p]
    {
      for j := 0 to size
        invariant done == i * size + j
        invariant forall p {:trigger face[p]} :: 0 <= p < size * size ==> face[p] == if p < done then rotated[p] else temp[p]
      {
        CwStep(temp, size, i, j);
        face[i * size + j] := temp[(size - 1 - j) * size + i];
        done := done + 1;
      }
      assert i * size + size == (i + 1) * size;
    }
    assert face[..] == rotated;
  }

  /** rotateFaceCounterClockwise: a quarter turn of the face's grid, counter-clockwise, in place. */
  method RotateFaceCounterClockwise(face: array<Color>, size: nat)
    requires face.Length == size * size
    modifies face
    ensures face[..] == RotateCcw(old(face[..]), size)
  {
    var temp := face[..];
    ghost var rotated := RotateCcw(temp, size);
    ghost var done := 0;  // cells written so far, i * size + j
    for i := 0 to size
      invariant done == i * size
      invariant forall p {:trigger face[p]} :: 0 <= p < size * size ==> face[p] == if p < done then rotated[p] else temp[p]
    {
      for j := 0 to size
        invariant done == i * size + j
        invariant forall p {:trigger face[p]} :: 0 <= p < size * size ==> face[p] == if p < done then rotated[p] else temp[p]
      {
        CcwStep(temp, size, i, j);
        face[i * size + j] := temp[j * size + (size - 1 - i)];
        done := done + 1;
      }
      assert i * size + size == (i + 1) * size;
    }
    assert face[..] == rotated;
  }

  /** Cell (i, j) of the clockwise-turned face comes from cell (n-1-j, i). */
  lemma CwStep(s: Face, n: nat, i: int, j: int)
    requires |s| == n * n && 0 <= i < n && 0 <= j < n
    ensures 0 <= i * n + j < n * n && 0 <= (n - 1 - j) * n + i < n * n
    ensures RotateCw(s, n)[i * n + j] == s[(n - 1 - j) * n + i]
  {
    CellIndex(n, i, j);
    CellIndex(n, n - 1 - j, i);
    assert CwSource(n, i * n + j) == (n - 1 - j) * n + i;
  }

  /** Cell (i, j) of the counter-clockwise-turned face comes from cell (j, n-1-i). */
  lemma CcwStep(s: Face, n: nat, i: int, j: int)
    requires |s| == n * n && 0 <= i < n && 0 <= j < n
    ensures 0 <= i * n + j < n * n && 0 <= j * n + (n - 1 - i) < n * n
    ensures RotateCcw(s, n)[i * n + j] == s[j * n + (n - 1 - i)]
  {
    CellIndex(n, i, j);
    CellIndex(n, j, n - 1 - i);
    assert CcwSource(n, i * n + j) == j * n + (n - 1 - i);
  }

  /** The loop that saves one strip of a face into temp, in strip order. */
  method SaveLine(face: array<Color>, size: nat, l: Line) returns (temp: seq<Color>)
    requires face.Length == size * size
    ensures temp == ReadLine(face[..], size, l)
  {
    temp := [];
    for i := 0 to size
      invariant |temp| == i
      invariant forall k :: 0 <= k < i ==> temp[k] == LineAt(face[..], size, l, k)
    {
      LineIndexInv(size, l, i);
      temp := temp + [face[LineIndex(size, l, i)]];
    }
  }

  /** What a strip-copy loop has written after its first i steps. */
  ghost function PartlyWritten(s: Face, n: nat, l: Line, w: Face, i: int, p: int): Color
    requires |s| == n * n && |w| == n && 0 <= p < |s|
  {
    if OnLine(n, l, p) && LinePos(n, l, p) < i then Written(s, n, l, w, p) else s[p]
  }

  /**
   * One copy loop of a rotate*Adjacent routine: step i writes position i of
   * dst's strip from position i of src's strip, or from position n-1-i when
   * the source reads it backwards.
   */
  method CopyStrip(dst: array<Color>, size: nat, dl: Line, src: array<Color>, sl: Line, flip: bool)
    requires dst.Length == size * size && src.Length == size * size && dst != src
    modifies dst
    ensures dst[..] == SetLine(old(dst[..]), size, dl, Orient(flip, ReadLine(src[..], size, sl)))
  {
    ghost var s := dst[..];
    ghost var w := Orient(flip, ReadLine(src[..], size, sl));
    for i := 0 to size
      invariant forall p {:trigger dst[p]} :: 0 <= p < size * size ==> dst[p] == PartlyWritten(s, size, dl, w, i, p)
    {
      var from := if flip then size - 1 - i else i;
      LineIndexInv(size, dl, i);
      LineIndexInv(size, sl, from);
      StepWrites(s, size, dl, w, i);
      dst[LineIndex(size, dl, i)] := src[LineIndex(size, sl, from)];
    }
    FullyWritten(s, size, dl, w, dst[..]);
  }

  /** The last copy loop of a rotate*Adjacent routine: the saved strip goes into dst's strip. */
  method WriteStrip(dst: array<Color>, size: nat, dl: Line, temp: seq<Color>, flip: bool)
    requires dst.Length == size * size && |temp| == size
    modifies dst
    ensures dst[..] == SetLine(old(dst[..]), size, dl, Orient(flip, temp))
  {
    ghost var s := dst[..];
    ghost var w := Orient(flip, temp);
    for i := 0 to size
      invariant forall p {:trigger dst[p]} :: 0 <= p < size * size ==> dst[p] == PartlyWritten(s, size, dl, w, i, p)
    {
      LineIndexInv(size, dl, i);
      StepWrites(s, size, dl, w, i);
      dst[LineIndex(size, dl, i)] := temp[if flip then size - 1 - i else i];
    }
    FullyWritten(s, size, dl, w, dst[..]);
  }

  /** Writing position i of the strip extends the written part by exactly that cell. */
  lemma StepWrites(s: Face, n: nat, l: Line, w: Face, i: int)
    requires |s| == n * n && |w| == n && 0 <= i < n
    ensures 0 <= LineIndex(n, l, i) < n * n
    ensures forall p :: 0 <= p < n * n ==>
              PartlyWritten(s, n, l, w, i + 1, p) ==
              if p == LineIndex(n, l, i) then w[i] else PartlyWritten(s, n, l, w, i, p)
  {
    LineIndexInv(n, l, i);
    forall p | 0 <= p < n * n
      ensures PartlyWritten(s, n, l, w, i + 1, p) ==
              if p == LineIndex(n, l, i) then w[i] else PartlyWritten(s, n, l, w, i, p)
    {
      if OnLine(n, l, p) {
        LinePosInv(n, l, p);
      }
    }
  }

  /** Once all n positions are written, the face is the strip-overwritten face. */
  lemma FullyWritten(s: Face, n: nat, l: Line, w: Face, t: Face)
    requires |s| == n * n && |w| == n && |t| == n * n
    requires forall p :: 0 <= p < n * n ==> t[p] == PartlyWritten(s, n, l, w, n, p)
    ensures t == SetLine(s, n, l, w)
  {
    forall p | 0 <= p < n * n ensures t[p] == SetLine(s, n, l, w)[p] {
      if OnLine(n, l, p) {
        LinePosInv(n, l, p);
      }
    }
  }

  // ---------------------------------------------------------------------------
  // The working copy applyMove mutates

  /** A deep copy of a cube state: six separate face arrays of size * size facelets. */
  class MutableCube {
    const size: nat
    const front: array<Color>
    const back: array<Color>
    const left: array<Color>
    const right: array<Color>
    const top: array<Color>
    const bottom: array<Color>

    /** Every face has size * size facelets and no two faces share an array. */
    ghost predicate Valid()
    {
      front.Length == size * size && back.Length == size * size && left.Length == size * size &&
      right.Length == size * size && top.Length == size * size && bottom.Length == size * size &&
      front != back && front != left && front != right && front != top && front != bottom &&
      back != left && back != right && back != top && back != bottom &&
      left != right && left != top && left != bottom &&
      right != top && right != bottom &&
      top != bottom
    }

    /** The cube state the arrays currently hold. */
    function Snapshot(): (c: CubeState)
      reads front, back, left, right, top, bottom
      ensures Valid() ==> WellFormed(c) && c.size == size
    {
      CubeState(Faces(front[..], back[..], left[..], right[..], top[..], bottom[..]), size)
    }

    /** The deep copy that applyMove starts from: fresh arrays holding the given state. */
    constructor Copy(c: CubeState)
      requires WellFormed(c)
      ensures Valid() && Snapshot() == c
      ensures fresh(front) && fresh(back) && fresh(left) && fresh(right) && fresh(top) && fresh(bottom)
    {
      var f := NewFace(c.faces.front);
      var b := NewFace(c.faces.back);
      var l := NewFace(c.faces.left);
      var r := NewFace(c.faces.right);
      var u := NewFace(c.faces.top);
      var d := NewFace(c.faces.bottom);
      size := c.size;
      front, back, left, right, top, bottom := f, b, l, r, u, d;
    }

    /** rotateFrontAdjacent: cycles top row n-1, left column n-1, bottom row 0 and right column 0. */
    method RotateFrontAdjacent(reverse: bool)
      requires Valid()
      modifies top, left, bottom, right
      ensures Snapshot() == CubeState(Cycled(old(Snapshot()).faces, size, Adjacent(Front), !reverse), size)
    {
      ghost var fs := Snapshot().faces;
      var temp := SaveLine(top, size, Row(true));
      if !reverse {
        CopyStrip(top, size, Row(true), left, Col(true), true);
        CopyStrip(left, size, Col(true), bottom, Row(false), false);
        CopyStrip(bottom, size, Row(false), right, Col(false), true);
        WriteStrip(right, size, Col(false), temp, false);
      } else {
        CopyStrip(top, size, Row(true), right, Col(false), false);
        CopyStrip(right, size, Col(false), bottom, Row(false), true);
        CopyStrip(bottom, size, Row(false), left, Col(true), false);
        WriteStrip(left, size, Col(true), temp, true);
      }
      FacesExt(Snapshot().faces, Cycled(fs, size, Adjacent(Front), !reverse));
    }

    /** rotateBackAdjacent: cycles top row 0, right column n-1, bottom row n-1 and left column 0. */
    method RotateBackAdjacent(reverse: bool)
      requires Valid()
      modifies top, right, bottom, left
      ensures Snapshot() == CubeState(Cycled(old(Snapshot()).faces, size, Adjacent(Back), !reverse), size)
    {
      ghost var fs := Snapshot().faces;
      var temp := SaveLine(top, size, Row(false));
      if !reverse {
        CopyStrip(top, size, Row(false), right, Col(true), false);
        CopyStrip(right, size, Col(true), bottom, Row(true), true);
        CopyStrip(bottom, size, Row(true), left, Col(false), true);
        WriteStrip(left, size, Col(false), temp, false);
      } else {
        CopyStrip(top, size, Row(false), left, Col(false), false);
        CopyStrip(left, size, Col(false), bottom, Row(true), true);
        CopyStrip(bottom, size, Row(true), right, Col(true), true);
        WriteStrip(right, size, Col(true), temp, false);
      }
      FacesExt(Snapshot().faces, Cycled(fs, size, Adjacent(Back), !reverse));
    }

    /** rotateRightAdjacent: cycles column n-1 of top, front and bottom and column 0 of back. */
    method RotateRightAdjacent(reverse: bool)
      requires Valid()
      modifies top, front, bottom, back
      ensures Snapshot() == CubeState(Cycled(old(Snapshot()).faces, size, Adjacent(Right), !reverse), size)
    {
      ghost var fs := Snapshot().faces;
      var temp := SaveLine(top, size, Col(true));
      if !reverse {
        CopyStrip(top, size, Col(true), front, Col(true), false);
        CopyStrip(front, size, Col(true), bottom, Col(true), false);
        CopyStrip(bottom, size, Col(true), back, Col(false), true);
        WriteStrip(back, size, Col(false), temp, true);
      } else {
        CopyStrip(top, size, Col(true), back, Col(false), true);
        CopyStrip(back, size, Col(false), bottom, Col(true), true);
        CopyStrip(bottom, size, Col(true), front, Col(true), false);
        WriteStrip(front, size, Col(true), temp, false);
      }
      FacesExt(Snapshot().faces, Cycled(fs, size, Adjacent(Right), !reverse));
    }

    /** rotateLeftAdjacent: cycles column 0 of top, bottom and front and column n-1 of back. */
    method RotateLeftAdjacent(reverse: bool)
      requires Valid()
      modifies top, back, bottom, front
      ensures Snapshot() == CubeState(Cycled(old(Snapshot()).faces, size, Adjacent(Left), !reverse), size)
    {
      ghost var fs := Snapshot().faces;
      var temp := SaveLine(top, size, Col(false));
      if !reverse {
        CopyStrip(top, size, Col(false), back, Col(true), true);
        CopyStrip(back, size, Col(true), bottom, Col(false), true);
        CopyStrip(bottom, size, Col(false), front, Col(false), false);
        WriteStrip(front, size, Col(false), temp, false);
      } else {
        CopyStrip(top, size, Col(false), front, Col(false), false);
        CopyStrip(front, size, Col(false), bottom, Col(false), false);
        CopyStrip(bottom, size, Col(false), back, Col(true), true);
        WriteStrip(back, size, Col(true), temp, true);
      }
      FacesExt(Snapshot().faces, Cycled(fs, size, Adjacent(Left), !reverse));
    }

    /** rotateTopAdjacent: cycles row 0 of front, right, back and left. */
    method RotateTopAdjacent(reverse: bool)
      requires Valid()
      modifies front, right, back, left
      ensures Snapshot() == CubeState(Cycled(old(Snapshot()).faces, size, Adjacent(Top), !reverse), size)
    {
      ghost var fs := Snapshot().faces;
      var temp := SaveLine(front, size, Row(false));
      if !reverse {
        CopyStrip(front, size, Row(false), right, Row(false), false);
        CopyStrip(right, size, Row(false), back, Row(false), false);
        CopyStrip(back, size, Row(false), left, Row(false), false);
        WriteStrip(left, size, Row(false), temp, false);
      } else {
        CopyStrip(front, size, Row(false), left, Row(false), false);
        CopyStrip(left, size, Row(false), back, Row(false), false);
        CopyStrip(back, size, Row(false), right, Row(false), false);
        WriteStrip(right, size, Row(false), temp, false);
      }
      FacesExt(Snapshot().faces, Cycled(fs, size, Adjacent(Top), !reverse));
    }

    /** rotateBottomAdjacent: cycles row n-1 of front, left, back and right. */
    method RotateBottomAdjacent(reverse: bool)
      requires Valid()
      modifies front, left, back, right
      ensures Snapshot() == CubeState(Cycled(old(Snapshot()).faces, size, Adjacent(Bottom), !reverse), size)
    {
      ghost var fs := Snapshot().faces;
      var temp := SaveLine(front, size, Row(true));
      if !reverse {
        CopyStrip(front, size, Row(true), left, Row(true), false);
        CopyStrip(left, size, Row(true), back, Row(true), false);
        CopyStrip(back, size, Row(true), right, Row(true), false);
        WriteStrip(right, size, Row(true), temp, false);
      } else {
        CopyStrip(front, size, Row(true), right, Row(true), false);
        CopyStrip(right, size, Row(true), back, Row(true), false);
        CopyStrip(back, size, Row(true), left, Row(true), false);
        WriteStrip(left, size, Row(true), temp, false);
      }
      FacesExt(Snapshot().faces, Cycled(fs, size, Adjacent(Bottom), !reverse));
    }
  }

  /** A fresh array holding a copy of s. */
  method NewFace(s: Face) returns (a: array<Color>)
    ensures fresh(a) && a[..] == s
  {
    a := new Color[|s|](i requires 0 <= i < |s| => s[i]);
  }

  // ---------------------------------------------------------------------------
  // applyMove and generateScrambledCube

  /**
   * The two calls of one quarter-turn case of applyMove's switch: rotate face
   * f's own grid in place (counter-clockwise for a primed token), then cycle
   * its neighbour strips, in reverse for a primed token.
   */
  method QuarterTurn(newCube: MutableCube, f: FaceName, prime: bool)
    requires newCube.Valid()
    modifies newCube.front, newCube.back, newCube.left, newCube.right, newCube.top, newCube.bottom
    ensures newCube.Snapshot() == Turn(old(newCube.Snapshot()), f, prime)
  {
    var size := newCube.size;
    var face := match f
      case Front => newCube.front
      case Back => newCube.back
      case Left => newCube.left
      case Right => newCube.right
      case Top => newCube.top
      case Bottom => newCube.bottom;
    if prime {
      RotateFaceCounterClockwise(face, size);
    } else {
      RotateFaceClockwise(face, size);
    }
    ghost var turned := TurnFace(old(newCube.Snapshot()).faces, size, f, prime);
    assert newCube.Snapshot().faces == turned by {
      FacesExt(newCube.Snapshot().faces, turned);
    }
    match f
    case Front => newCube.RotateFrontAdjacent(prime);
    case Back => newCube.RotateBackAdjacent(prime);
    case Left => newCube.RotateLeftAdjacent(prime);
    case Right => newCube.RotateRightAdjacent(prime);
    case Top => newCube.RotateTopAdjacent(prime);
    case Bottom => newCube.RotateBottomAdjacent(prime);
  }

  /**
   * applyMove: deep-copy the state, then for a quarter-turn token rotate that
   * face's grid and cycle its neighbour strips on the copy; a half-turn token
   * is the quarter turn applied twice; any other token leaves the copy as it
   * was. The argument is never changed: the result is always a new value.
   */
  method ApplyMove(cube: CubeState, move: string) returns (r: CubeState)
    requires WellFormed(cube)
    ensures r == Apply(cube, move)
    decreases if ParseMove(move).Half? then 1 else 0
  {
    ParseTable();
    var newCube := new MutableCube.Copy(cube);
    if move == "F" {
      QuarterTurn(newCube, Front, false);
    } else if move == "F'" {
      QuarterTurn(newCube, Front, true);
    } else if move == "B" {
      QuarterTurn(newCube, Back, false);
    } else if move == "B'" {
      QuarterTurn(newCube, Back, true);
    } else if move == "R" {
      QuarterTurn(newCube, Right, false);
    } else if move == "R'" {
      QuarterTurn(newCube, Right, true);
    } else if move == "L" {
      QuarterTurn(newCube, Left, false);
    } else if move == "L'" {
      QuarterTurn(newCube, Left, true);
    } else if move == "U" {
      QuarterTurn(newCube, Top, false);
    } else if move == "U'" {
      QuarterTurn(newCube, Top, true);
    } else if move == "D" {
      QuarterTurn(newCube, Bottom, false);
    } else if move == "D'" {
      QuarterTurn(newCube, Bottom, true);
    } else if move == "F2" {
      r := ApplyMove(cube, "F");
      r := ApplyMove(r, "F");
      return;
    } else if move == "B2" {
      r := ApplyMove(cube, "B");
      r := ApplyMove(r, "B");
      return;
    } else if move == "R2" {
      r := ApplyMove(cube, "R");
      r := ApplyMove(r, "R");
      return;
    } else if move == "L2" {
      r := ApplyMove(cube, "L");
      r := ApplyMove(r, "L");
      return;
    } else if move == "U2" {
      r := ApplyMove(cube, "U");
      r := ApplyMove(r, "U");
      return;
    } else if move == "D2" {
      r := ApplyMove(cube, "D");
      r := ApplyMove(r, "D");
      return;
    }
    r := newCube.Snapshot();
  }

  /** The twelve quarter-turn tokens a scramble draws from, in the source's order. */
  const ScrambleMoves: seq<string> := ["F", "B", "R", "L", "U", "D", "F'", "B'", "R'", "L'", "U'", "D'"]

  /** How many random moves a scramble of a cube of the given side applies. */
  function ScrambleCount(size: nat): (k: nat)
    ensures k == 10 || k == 25 || k == 35
  {
    if size == 2 then 10 else if size == 3 then 25 else 35
  }

  /** The tokens the injected draws pick out of ScrambleMoves. */
  function Draws(picks: seq<nat>): (moves: seq<string>)
    requires forall i :: 0 <= i < |picks| ==> picks[i] < |ScrambleMoves|
    ensures |moves| == |picks|
  {
    seq(|picks|, i requires 0 <= i < |picks| => ScrambleMoves[picks[i]])
  }

  /** Every token a scramble can draw is a quarter turn of one of the six faces. */
  lemma DrawsAreQuarterTurns(picks: seq<nat>)
    requires forall i :: 0 <= i < |picks| ==> picks[i] < |ScrambleMoves|
    ensures forall i :: 0 <= i < |picks| ==> ParseMove(Draws(picks)[i]).Quarter?
  {
    forall i | 0 <= i < |picks| ensures ParseMove(Draws(picks)[i]).Quarter? {
      var k := picks[i];
      assert k == 0 || k == 1 || k == 2 || k == 3 || k == 4 || k == 5 ||
             k == 6 || k == 7 || k == 8 || k == 9 || k == 10 || k == 11;
    }
  }

  /**
   * generateScrambledCube with the random choices injected: picks[i] is the
   * index Math.floor(Math.random() * 12) of the i-th draw, and there are as
   * many draws as the loop runs. The result is the solved cube with the drawn
   * tokens applied in order, so it has the solved cube's colour counts.
   */
  method GenerateScrambledCube(size: nat, picks: seq<nat>) returns (cube: CubeState)
    requires |picks| == ScrambleCount(size)
    requires forall i :: 0 <= i < |picks| ==> picks[i] < |ScrambleMoves|
    ensures cube == ApplyAll(GenerateSolvedCube(size), Draws(picks))
    ensures WellFormed(cube) && cube.size == size
    ensures forall x :: cube.faces.Colors()[x] == size * size
  {
    cube := GenerateSolvedCube(size);
    var moves := ScrambleMoves;
    var scrambleMoves := ScrambleCount(size);
    ghost var drawn := Draws(picks);
    for i := 0 to scrambleMoves
      invariant cube == ApplyAll(GenerateSolvedCube(size), drawn[..i])
    {
      var randomMove := moves[picks[i]];
      ApplyAllPrefix(GenerateSolvedCube(size), drawn, i);
      cube := ApplyMove(cube, randomMove);
    }
    assert drawn[..scrambleMoves] == drawn;
    assert forall x :: cube.faces.Colors()[x] == size * size by {
      SolvedColors(size);
      ApplyAllColors(GenerateSolvedCube(size), drawn);
    }
  }
}
