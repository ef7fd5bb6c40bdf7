/**
 * The move handling of the solver page (components/cube-solver.tsx): the
 * token helpers isValidMove and getUndoMove, the text handling that turns the
 * manual-move field into tokens, and the three handlers that change the cube
 * and the move history (manual entry, quick-move buttons, undo).
 */
module CubeSolver {
  import opened Cube
  import opened CubeLaws
  import opened CubeEngine

  // ---------------------------------------------------------------------------
  // Whitespace, trim and split as JavaScript's String methods know them

  /** The characters of the regular-expression class \s, which are also the ones trim() removes. */
  predicate IsSpace(c: char)
  {
    var k := c as int;
    (9 <= k <= 13) || k == 0x20 || k == 0xA0 || k == 0x1680 || (0x2000 <= k <= 0x200A) ||
    k == 0x2028 || k == 0x2029 || k == 0x202F || k == 0x205F || k == 0x3000 || k == 0xFEFF
  }

  predicate NoSpace(w: string)
  {
    forall i :: 0 <= i < |w| ==> !IsSpace(w[i])
  }

  predicate AllSpace(w: string)
  {
    forall i :: 0 <= i < |w| ==> IsSpace(w[i])
  }

  /** The text of s with every whitespace character removed. */
  function NonSpace(s: string): string
  {
    if s == [] then [] else (if IsSpace(s[0]) then [] else [s[0]]) + NonSpace(s[1..])
  }

  /** The words of a list written one after another. */
  function Concat(parts: seq<string>): string
  {
    if parts == [] then [] else parts[0] + Concat(parts[1..])
  }

  lemma {:induction false} NonSpaceAppend(a: string, b: string)
    ensures NonSpace(a + b) == NonSpace(a) + NonSpace(b)
    decreases |a|
  {
    if a == [] {
      assert a + b == b;
    } else {
      assert (a + b)[1..] == a[1..] + b;
      NonSpaceAppend(a[1..], b);
    }
  }

  lemma {:induction false} NonSpaceOfNoSpace(w: string)
    requires NoSpace(w)
    ensures NonSpace(w) == w
    decreases |w|
  {
    if w != [] {
      NonSpaceOfNoSpace(w[1..]);
    }
  }

  lemma {:induction false} NonSpaceOfAllSpace(w: string)
    requires AllSpace(w)
    ensures NonSpace(w) == []
    decreases |w|
  {
    if w != [] {
      NonSpaceOfAllSpace(w[1..]);
    }
  }

  /** A string is its three pieces cut at a and b, put back together. */
  lemma ThreePieces(s: string, a: nat, b: nat)
    requires a <= b <= |s|
    ensures s == s[..a] + s[a..b] + s[b..]
  {
  }

  /** The text without whitespace of s, cut at a and b, is that of the three pieces. */
  lemma NonSpaceThree(s: string, a: nat, b: nat)
    requires a <= b <= |s|
    ensures NonSpace(s) == NonSpace(s[..a]) + NonSpace(s[a..b]) + NonSpace(s[b..])
  {
    ThreePieces(s, a, b);
    NonSpaceAppend(s[..a] + s[a..b], s[b..]);
    NonSpaceAppend(s[..a], s[a..b]);
  }

  /** The end of the run of whitespace that starts at i. */
  function SkipSpaces(s: string, i: nat): (k: nat)
    requires i <= |s|
    ensures i <= k <= |s|
    ensures forall j :: i <= j < k ==> IsSpace(s[j])
    ensures k < |s| ==> !IsSpace(s[k])
    decreases |s| - i
  {
    if i < |s| && IsSpace(s[i]) then SkipSpaces(s, i + 1) else i
  }

  /** The start of the run of whitespace that ends at k. */
  function SkipSpacesBack(s: string, k: nat): (b: nat)
    requires k <= |s|
    ensures b <= k
    ensures forall j :: b <= j < k ==> IsSpace(s[j])
    ensures b > 0 ==> !IsSpace(s[b - 1])
  {
    if k > 0 && IsSpace(s[k - 1]) then SkipSpacesBack(s, k - 1) else k
  }

  /** The end of the run of non-whitespace that starts at i. */
  function SkipWord(s: string, i: nat): (k: nat)
    requires i <= |s|
    ensures i <= k <= |s|
    ensures forall j :: i <= j < k ==> !IsSpace(s[j])
    ensures k < |s| ==> IsSpace(s[k])
    decreases |s| - i
  {
    if i < |s| && !IsSpace(s[i]) then SkipWord(s, i + 1) else i
  }

  /** The whitespace run starting at i ends at the first non-whitespace character after it. */
  lemma SkipSpacesAt(s: string, i: nat, k: nat)
    requires i <= k <= |s|
    requires forall j :: i <= j < k ==> IsSpace(s[j])
    requires k < |s| ==> !IsSpace(s[k])
    ensures SkipSpaces(s, i) == k
    decreases k - i
  {
    if i < k {
      SkipSpacesAt(s, i + 1, k);
    }
  }

  /** The whitespace run ending at k starts just after the last non-whitespace character before it. */
  lemma SkipSpacesBackAt(s: string, k: nat, b: nat)
    requires b <= k <= |s|
    requires forall j :: b <= j < k ==> IsSpace(s[j])
    requires b > 0 ==> !IsSpace(s[b - 1])
    ensures SkipSpacesBack(s, k) == b
    decreases k - b
  {
    if b < k {
      SkipSpacesBackAt(s, k - 1, b);
    }
  }

  /** The word starting at i ends at the first whitespace character after it. */
  lemma SkipWordAt(s: string, i: nat, k: nat)
    requires i <= k <= |s|
    requires forall j :: i <= j < k ==> !IsSpace(s[j])
    requires k < |s| ==> IsSpace(s[k])
    ensures SkipWord(s, i) == k
    decreases k - i
  {
    if i < k {
      SkipWordAt(s, i + 1, k);
    }
  }

  /** String.prototype.trim: s without its leading and trailing whitespace. */
  function Trim(s: string): (t: string)
    ensures t == [] <==> AllSpace(s)
    ensures t != [] ==> !IsSpace(t[0]) && !IsSpace(t[|t| - 1])
  {
    var a := SkipSpaces(s, 0);
    var b := SkipSpacesBack(s, |s|);
    if a == |s| then [] else s[a..b]
  }

  /** Whitespace around s[a..b] adds nothing to the text. */
  lemma NonSpaceAround(s: string, a: nat, b: nat)
    requires a <= b <= |s|
    requires forall j :: 0 <= j < a ==> IsSpace(s[j])
    requires forall j :: b <= j < |s| ==> IsSpace(s[j])
    ensures NonSpace(s) == NonSpace(s[a..b])
  {
    NonSpaceThree(s, a, b);
    assert NonSpace(s[..a]) == [] by {
      NonSpaceOfAllSpace(s[..a]);
    }
    assert NonSpace(s[b..]) == [] by {
      NonSpaceOfAllSpace(s[b..]);
    }
  }

  /** Trimming removes whitespace only. */
  lemma TrimKeepsText(s: string)
    ensures NonSpace(Trim(s)) == NonSpace(s)
  {
    var a := SkipSpaces(s, 0);
    var b := SkipSpacesBack(s, |s|);
    if a == |s| {
      NonSpaceOfAllSpace(s);
    } else {
      NonSpaceAround(s, a, b);
    }
  }

  /**
   * s.split(/\s+/): the pieces between runs of whitespace. A leading or
   * trailing run gives an empty first or last piece; a trimmed, non-empty
   * string splits into non-empty words.
   */
  function Split(s: string): (parts: seq<string>)
    ensures |parts| >= 1
    ensures forall i :: 0 <= i < |parts| ==> NoSpace(parts[i])
    ensures s != [] && !IsSpace(s[0]) && !IsSpace(s[|s| - 1]) ==> forall i :: 0 <= i < |parts| ==> parts[i] != []
    decreases |s|
  {
    var k := SkipWord(s, 0);
    if k == |s| then [s] else [s[..k]] + Split(s[SkipSpaces(s, k)..])
  }

  /** The words of a split, put back together, are the text without its whitespace. */
  lemma {:induction false} SplitKeepsText(s: string)
    ensures Concat(Split(s)) == NonSpace(s)
    decreases |s|
  {
    var k := SkipWord(s, 0);
    if k == |s| {
      NonSpaceOfNoSpace(s);
      assert Concat([s]) == s + Concat([]);
    } else {
      var e := SkipSpaces(s, k);
      var rest := Split(s[e..]);
      var word := s[..k];
      assert Concat(Split(s)) == word + Concat(rest) by {
        assert Split(s) == [word] + rest;
        assert ([word] + rest)[1..] == rest;
      }
      assert Concat(rest) == NonSpace(s[e..]) by {
        SplitKeepsText(s[e..]);
      }
      assert NonSpace(s) == word + NonSpace(s[e..]) by {
        NonSpaceThree(s, k, e);
        assert NonSpace(word) == word by {
          NonSpaceOfNoSpace(word);
        }
        assert NonSpace(s[k..e]) == [] by {
          NonSpaceOfAllSpace(s[k..e]);
        }
      }
    }
  }

  /** The tokens of the manual-move field: the trimmed text split at whitespace. */
  function Words(input: string): (words: seq<string>)
    requires Trim(input) != []
    ensures |words| >= 1
    ensures forall i :: 0 <= i < |words| ==> words[i] != [] && NoSpace(words[i])
  {
    Split(Trim(input))
  }

  /** The words of the field hold all of its text except the whitespace. */
  lemma WordsKeepText(input: string)
    requires Trim(input) != []
    ensures Concat(Words(input)) == NonSpace(input)
  {
    SplitKeepsText(Trim(input));
    TrimKeepsText(input);
  }

  /** trim() removes exactly the leading and the trailing run of whitespace, and keeps everything between. */
  lemma TrimExact(lead: string, t: string, trail: string)
    requires AllSpace(lead) && AllSpace(trail)
    requires t != [] && !IsSpace(t[0]) && !IsSpace(t[|t| - 1])
    ensures Trim(lead + t + trail) == t
  {
    var s := lead + t + trail;
    assert forall j :: 0 <= j < |lead| ==> s[j] == lead[j];
    assert forall j :: |lead| <= j < |lead| + |t| ==> s[j] == t[j - |lead|];
    assert forall j :: |lead| + |t| <= j < |s| ==> s[j] == trail[j - |lead| - |t|];
    SkipSpacesAt(s, 0, |lead|);
    SkipSpacesBackAt(s, |s|, |lead| + |t|);
    assert s[|lead|..|lead| + |t|] == t;
  }

  /** Text without whitespace is a single piece. */
  lemma SplitWord(w: string)
    requires NoSpace(w)
    ensures Split(w) == [w]
  {
    assert SkipWord(w, 0) == |w|;
  }

  /**
   * split(/\s+/) cuts at every run of whitespace: the text before the first
   * run is the first piece, and the pieces of what follows the run come after it.
   */
  lemma SplitAtRun(w: string, sep: string, rest: string)
    requires NoSpace(w) && sep != [] && AllSpace(sep)
    requires rest == [] || !IsSpace(rest[0])
    ensures Split(w + sep + rest) == [w] + Split(rest)
  {
    var s := w + sep + rest;
    assert forall j :: 0 <= j < |w| ==> s[j] == w[j];
    assert forall j :: |w| <= j < |w| + |sep| ==> s[j] == sep[j - |w|];
    assert forall j :: |w| + |sep| <= j < |s| ==> s[j] == rest[j - |w| - |sep|];
    SkipWordAt(s, 0, |w|);
    SkipSpacesAt(s, |w|, |w| + |sep|);
    assert s[..|w|] == w;
    assert s[|w| + |sep|..] == rest;
  }

  /** trim() of " R  U2 " drops the two outer blanks and keeps the inner pair. */
  lemma TrimExample()
    ensures Trim(" R  U2 ") == "R  U2"
  {
    assert " R  U2 " == " " + "R  U2" + " ";
    TrimExact(" ", "R  U2", " ");
  }

  /** split(/\s+/) of "R  U2" cuts once, at the run of two blanks. */
  lemma SplitExample()
    ensures Split("R  U2") == ["R", "U2"]
  {
    assert "R  U2" == "R" + "  " + "U2";
    SplitAtRun("R", "  ", "U2");
    SplitWord("U2");
  }

  /** The manual-move field " R  U2 " gives exactly the words "R" and "U2". */
  lemma WordsExample()
    ensures Trim(" R  U2 ") != [] && Words(" R  U2 ") == ["R", "U2"]
  {
    TrimExample();
    SplitExample();
  }

  // ---------------------------------------------------------------------------
  // isValidMove and getUndoMove

  /** The tokens isValidMove accepts. */
  const ValidMoves: seq<string> :=
    ["F", "B", "R", "L", "U", "D", "F'", "B'", "R'", "L'", "U'", "D'", "F2", "B2", "R2", "L2", "U2", "D2"]

  /** isValidMove: the token is one of the 18 listed. */
  predicate IsValidMove(move: string)
  {
    move in ValidMoves
  }

  /** The token of every handled move is listed. */
  lemma TokenListed(m: Move)
    requires m != Unknown
    ensures IsValidMove(Token(m))
  {
    match m
    case Quarter(g, ccw) =>
      match g {
        case Front => assert Token(m) == if ccw then ValidMoves[6] else ValidMoves[0];
        case Back => assert Token(m) == if ccw then ValidMoves[7] else ValidMoves[1];
        case Right => assert Token(m) == if ccw then ValidMoves[8] else ValidMoves[2];
        case Left => assert Token(m) == if ccw then ValidMoves[9] else ValidMoves[3];
        case Top => assert Token(m) == if ccw then ValidMoves[10] else ValidMoves[4];
        case Bottom => assert Token(m) == if ccw then ValidMoves[11] else ValidMoves[5];
      }
    case Half(g) =>
      match g {
        case Front => assert Token(m) == ValidMoves[12];
        case Back => assert Token(m) == ValidMoves[13];
        case Right => assert Token(m) == ValidMoves[14];
        case Left => assert Token(m) == ValidMoves[15];
        case Top => assert Token(m) == ValidMoves[16];
        case Bottom => assert Token(m) == ValidMoves[17];
      }
  }

  /** isValidMove accepts exactly the tokens applyMove handles. */
  lemma ValidIffHandled(move: string)
    ensures IsValidMove(move) <==> ParseMove(move) != Unknown
  {
    if IsValidMove(move) {
      var i :| 0 <= i < |ValidMoves| && ValidMoves[i] == move;
      ParseTable();
    }
    if ParseMove(move) != Unknown {
      ParsedToken(move);
      TokenListed(ParseMove(move));
    }
  }

  /** A slice turn such as M2, and the empty token, are rejected. */
  lemma RejectsSliceAndEmpty()
    ensures !IsValidMove("M2") && !IsValidMove("")
  {
    ValidIffHandled("M2");
    ValidIffHandled("");
    ParseMoveGrammar("M2");
  }

  /** getUndoMove: X' becomes X, X2 stays, anything else gets a prime. */
  function GetUndoMove(move: string): string
  {
    if |move| > 0 && move[|move| - 1] == '\'' then move[..|move| - 1]
    else if |move| > 0 && move[|move| - 1] == '2' then move
    else move + "'"
  }

  /** The move that undoes a handled move: the other quarter turn, or the same half turn. */
  function Inverse(m: Move): (r: Move)
    requires m != Unknown
    ensures r != Unknown && r.face == m.face
    ensures r.Half? <==> m.Half?
  {
    match m
    case Quarter(g, ccw) => Quarter(g, !ccw)
    case Half(g) => Half(g)
  }

  lemma LetterIsOneChar(g: FaceName)
    ensures |Letter(g)| == 1 && Letter(g)[0] != '\'' && Letter(g)[0] != '2'
  {
  }

  /** On the token of a handled move, getUndoMove gives the token of its inverse. */
  lemma UndoOfToken(m: Move)
    requires m != Unknown
    ensures GetUndoMove(Token(m)) == Token(Inverse(m))
  {
    LetterIsOneChar(m.face);
    var x := Letter(m.face);
    match m
    case Quarter(g, ccw) =>
      if ccw {
        assert Token(m) == x + "'";
        assert (x + "'")[..1] == x;
      } else {
        assert Token(m) == x + "";
        assert x + "" == x;
      }
    case Half(g) =>
      assert Token(m) == x + "2";
  }

  /** On a valid token, getUndoMove gives a valid token for the inverse move, and undoing twice gives the token back. */
  lemma UndoValid(move: string)
    requires IsValidMove(move)
    ensures IsValidMove(GetUndoMove(move))
    ensures ParseMove(GetUndoMove(move)) == Inverse(ParseMove(move))
    ensures GetUndoMove(GetUndoMove(move)) == move
  {
    ValidIffHandled(move);
    var m := ParseMove(move);
    ParsedToken(move);
    UndoOfToken(m);
    TokenParses(Inverse(m));
    TokenListed(Inverse(m));
    UndoOfToken(Inverse(m));
    assert Inverse(Inverse(m)) == m;
  }

  /** Applying a valid move and then its undo move gives back the cube. */
  lemma UndoRestores(c: CubeState, move: string)
    requires WellFormed(c) && IsValidMove(move)
    ensures Apply(Apply(c, move), GetUndoMove(move)) == c
  {
    ValidIffHandled(move);
    var m := ParseMove(move);
    ParsedToken(move);
    UndoOfToken(m);
    match m
    case Quarter(g, ccw) => QuarterThenInverse(c, g, ccw);
    case Half(g) => HalfTwice(c, g);
  }

  // ---------------------------------------------------------------------------
  // The tokens manual entry applies

  /** The tokens of ws that isValidMove accepts, in their order. */
  function Accepted(ws: seq<string>): (r: seq<string>)
    ensures |r| <= |ws|
    ensures forall i :: 0 <= i < |r| ==> IsValidMove(r[i])
    decreases |ws|
  {
    if ws == [] then []
    else Accepted(ws[..|ws| - 1]) + (if IsValidMove(ws[|ws| - 1]) then [ws[|ws| - 1]] else [])
  }

  /** A token is kept exactly when it occurs in ws and is valid. */
  lemma {:induction false} AcceptedMembers(ws: seq<string>, w: string)
    ensures w in Accepted(ws) <==> w in ws && IsValidMove(w)
    decreases |ws|
  {
    if ws != [] {
      var init := ws[..|ws| - 1];
      AcceptedMembers(init, w);
      assert ws == init + [ws[|ws| - 1]];
    }
  }

  /** Accepted keeps a token appended to ws exactly when it is valid. */
  lemma AcceptedSnoc(init: seq<string>, last: string)
    ensures Accepted(init + [last]) == Accepted(init) + (if IsValidMove(last) then [last] else [])
  {
    assert (init + [last])[..|init|] == init;
  }

  /** Accepted on one more token of ws. */
  lemma AcceptedPrefix(ws: seq<string>, i: nat)
    requires i < |ws|
    ensures Accepted(ws[..i + 1]) == Accepted(ws[..i]) + (if IsValidMove(ws[i]) then [ws[i]] else [])
  {
    assert ws[..i + 1][..i] == ws[..i];
  }

  /** Skipping the rejected tokens does not change the outcome: applyMove leaves the cube alone on them. */
  lemma {:induction false} AcceptedSameOutcome(c: CubeState, ws: seq<string>)
    requires WellFormed(c)
    ensures ApplyAll(c, Accepted(ws)) == ApplyAll(c, ws)
    decreases |ws|
  {
    if ws != [] {
      var init, last := ws[..|ws| - 1], ws[|ws| - 1];
      assert ws == init + [last];
      AcceptedSameOutcome(c, init);
      AcceptedSnoc(init, last);
      var before := ApplyAll(c, init);
      assert ApplyAll(c, ws) == Apply(before, last);
      if IsValidMove(last) {
        ApplyAllSnoc(c, Accepted(init), last);
      } else {
        assert Accepted(ws) == Accepted(init) by {
          assert Accepted(init) + [] == Accepted(init);
        }
        assert Apply(before, last) == before by {
          ValidIffHandled(last);
          UnknownKeeps(before, last);
        }
      }
    }
  }

  /**
   * The loop of handleManualMove: walk the tokens in order, apply each one
   * isValidMove accepts, and collect those in the order applied.
   */
  method ApplyValidMoves(state: CubeState, moves: seq<string>) returns (current: CubeState, applied: seq<string>)
    requires WellFormed(state)
    ensures applied == Accepted(moves)
    ensures current == ApplyAll(state, applied)
  {
    current := state;
    applied := [];
    for i := 0 to |moves|
      invariant applied == Accepted(moves[..i])
      invariant current == ApplyAll(state, applied)
    {
      AcceptedPrefix(moves, i);
      if IsValidMove(moves[i]) {
        var newState := ApplyMove(current, moves[i]);
        ApplyAllSnoc(state, applied, moves[i]);
        current := newState;
        applied := applied + [moves[i]];
      } else {
        assert applied + [] == applied;
      }
    }
    assert moves[..|moves|] == moves;
  }

  // ---------------------------------------------------------------------------
  // The page's cube and move history

  /**
   * The part of the solver page the move handlers change: the cube, the move
   * history and the scrambled flag. start is the cube the history is replayed on.
   */
  class Session {
    var cube: CubeState
    var history: seq<string>
    var scrambled: bool
    ghost var start: CubeState

    /** The cube is the start cube with the history applied in order. */
    ghost predicate Valid()
      reads this
    {
      WellFormed(start) && cube == ApplyAll(start, history)
    }

    /** The page opens on a freshly scrambled 3x3x3 cube with an empty history. */
    constructor (picks: seq<nat>)
      requires |picks| == ScrambleCount(3)
      requires forall i :: 0 <= i < |picks| ==> picks[i] < |ScrambleMoves|
      ensures Valid() && history == [] && scrambled
      ensures cube == ApplyAll(GenerateSolvedCube(3), Draws(picks))
    {
      var c := GenerateScrambledCube(3, picks);
      cube := c;
      history := [];
      scrambled := true;
      start := c;
    }

    /** handleManualMove: apply the valid tokens of the field in order and record them. */
    method ManualMove(input: string)
      requires Valid()
      modifies this
      ensures Valid() && start == old(start)
      ensures Trim(input) == [] ==> cube == old(cube) && history == old(history) && scrambled == old(scrambled)
      ensures Trim(input) != [] ==>
                history == old(history) + Accepted(Words(input)) &&
                cube == ApplyAll(old(cube), Accepted(Words(input))) &&
                scrambled == !IsSolved(cube)
    {
      if Trim(input) == [] {
        return;
      }
      var moves := Words(input);
      var currentState, applied := ApplyValidMoves(cube, moves);
      cube := currentState;
      history := history + applied;
      scrambled := !IsSolved(currentState);
      ApplyAllAppend(start, old(history), applied);
    }

    /** handleQuickMove: apply one token and record it. */
    method QuickMove(move: string)
      requires Valid()
      modifies this
      ensures Valid() && start == old(start)
      ensures cube == Apply(old(cube), move)
      ensures history == old(history) + [move]
      ensures scrambled == !IsSolved(cube)
    {
      var newState := ApplyMove(cube, move);
      cube := newState;
      history := history + [move];
      assert history[..|history| - 1] == old(history);
      scrambled := !IsSolved(newState);
    }

    /**
     * handleUndoMove: apply the undo move of the last history entry and drop
     * that entry. When the entry is a valid token the cube is again the start
     * cube with the shortened history applied.
     */
    method UndoMove()
      requires Valid()
      modifies this
      ensures start == old(start) && WellFormed(cube)
      ensures old(history) == [] ==> cube == old(cube) && history == old(history) && scrambled == old(scrambled)
      ensures old(history) != [] ==>
                history == old(history)[..|old(history)| - 1] &&
                cube == Apply(old(cube), GetUndoMove(old(history)[|old(history)| - 1])) &&
                scrambled == !IsSolved(cube)
      ensures old(history) != [] && IsValidMove(old(history)[|old(history)| - 1]) ==> Valid()
    {
      if |history| == 0 {
        return;
      }
      var lastMove := history[|history| - 1];
      var undoMove := GetUndoMove(lastMove);
      var newState := ApplyMove(cube, undoMove);
      cube := newState;
      history := history[..|history| - 1];
      scrambled := !IsSolved(newState);
      if IsValidMove(lastMove) {
        UndoRestores(ApplyAll(start, history), lastMove);
      }
    }
  }
}
