/**
 * Geometry of one face of an n×n×n cube.
 *
 * A face is a flat sequence of n * n facelet colours in row-major order: the
 * cell in row r and column c sits at index r * n + c. Everything here is
 * face-local: the quarter-turn index maps of a face's own grid, and the border
 * strips (first or last row or column) that a turn of a neighbouring face
 * carries around.
 */
module Facelets {

  datatype Color = White | Yellow | Orange | Red | Green | Blue

  type Face = seq<Color>

  // ---------------------------------------------------------------------------
  // Row-major index arithmetic

  lemma MulLe(a: int, b: int, n: nat)
    requires a <= b
    ensures a * n <= b * n
  {
  }

  /** Euclidean division is determined by any quotient and in-range remainder. */
  lemma DivUnique(p: int, n: int, q: int, m: int)
    requires n > 0 && 0 <= m < n && p == q * n + m
    ensures p / n == q && p % n == m
  {
    var q', m' := p / n, p % n;
    assert q' * n + m' == q * n + m;
    if q' > q {
      MulLe(1, q' - q, n);
    } else if q' < q {
      MulLe(1, q - q', n);
    }
  }

  /** Cell (r, c) has an index inside the face, and the index gives the cell back. */
  lemma CellIndex(n: nat, r: int, c: int)
    requires 0 <= r < n && 0 <= c < n
    ensures 0 <= r * n + c < n * n
    ensures (r * n + c) / n == r && (r * n + c) % n == c
  {
    MulLe(r, n - 1, n);
    MulLe(0, r, n);
    assert (n - 1) * n == n * n - n;
    DivUnique(r * n + c, n, r, c);
  }

  /** Every index of the face is the index of cell (p / n, p % n). */
  lemma CellOf(n: nat, p: int)
    requires 0 <= p < n * n
    ensures 0 <= p / n < n && 0 <= p % n < n
    ensures (p / n) * n + p % n == p
  {
    if p / n >= n {
      MulLe(n, p / n, n);
    }
  }

  // ---------------------------------------------------------------------------
  // Quarter turns of a face's own grid

  /** The index the clockwise turn reads cell p from: new[i][j] = old[n-1-j][i]. */
  function CwSource(n: nat, p: int): (q: int)
    requires 0 <= p < n * n
    ensures 0 <= q < n * n
  {
    CellOf(n, p);
    CellIndex(n, n - 1 - p % n, p / n);
    (n - 1 - p % n) * n + p / n
  }

  /** The index the counter-clockwise turn reads cell p from: new[i][j] = old[j][n-1-i]. */
  function CcwSource(n: nat, p: int): (q: int)
    requires 0 <= p < n * n
    ensures 0 <= q < n * n
  {
    CellOf(n, p);
    CellIndex(n, p % n, n - 1 - p / n);
    (p % n) * n + (n - 1 - p / n)
  }

  /** The face turned a quarter clockwise. */
  function RotateCw(s: Face, n: nat): (t: Face)
    requires |s| == n * n
    ensures |t| == |s|
  {
    seq(|s|, p requires 0 <= p < |s| => s[CwSource(n, p)])
  }

  /** The face turned a quarter counter-clockwise. */
  function RotateCcw(s: Face, n: nat): (t: Face)
    requires |s| == n * n
    ensures |t| == |s|
  {
    seq(|s|, p requires 0 <= p < |s| => s[CcwSource(n, p)])
  }

  /** The two source maps undo each other, in both orders. */
  lemma SourcesInverse(n: nat, p: int)
    requires 0 <= p < n * n
    ensures CwSource(n, CcwSource(n, p)) == p
    ensures CcwSource(n, CwSource(n, p)) == p
  {
    CellOf(n, p);
    var r, c := p / n, p % n;
    var q := CcwSource(n, p);
    assert q == c * n + (n - 1 - r);
    CellIndex(n, c, n - 1 - r);
    assert CwSource(n, q) == r * n + c;
    var q' := CwSource(n, p);
    assert q' == (n - 1 - c) * n + r;
    CellIndex(n, n - 1 - c, r);
    assert CcwSource(n, q') == r * n + c;
  }

  /** Three clockwise source steps land where one counter-clockwise step does. */
  lemma CwSourceThrice(n: nat, p: int)
    requires 0 <= p < n * n
    ensures CwSource(n, CwSource(n, CwSource(n, p))) == CcwSource(n, p)
  {
    CellOf(n, p);
    var r, c := p / n, p % n;
    CellIndex(n, n - 1 - c, r);
    CellIndex(n, n - 1 - r, n - 1 - c);
  }

  /** Counter-clockwise undoes clockwise and clockwise undoes counter-clockwise. */
  lemma {:induction false} RotateInverse(s: Face, n: nat)
    requires |s| == n * n
    ensures RotateCcw(RotateCw(s, n), n) == s
    ensures RotateCw(RotateCcw(s, n), n) == s
  {
    forall p | 0 <= p < |s|
      ensures RotateCcw(RotateCw(s, n), n)[p] == s[p] && RotateCw(RotateCcw(s, n), n)[p] == s[p]
    {
      SourcesInverse(n, p);
    }
  }

  /** Three clockwise quarter turns of a face are one counter-clockwise turn. */
  lemma {:induction false} RotateCwThrice(s: Face, n: nat)
    requires |s| == n * n
    ensures RotateCw(RotateCw(RotateCw(s, n), n), n) == RotateCcw(s, n)
  {
    forall p | 0 <= p < |s|
      ensures RotateCw(RotateCw(RotateCw(s, n), n), n)[p] == RotateCcw(s, n)[p]
    {
      CwSourceThrice(n, p);
    }
  }

  /** Four clockwise quarter turns of a face give the face back. */
  lemma RotateCwFour(s: Face, n: nat)
    requires |s| == n * n
    ensures RotateCw(RotateCw(RotateCw(RotateCw(s, n), n), n), n) == s
  {
    RotateCwThrice(RotateCw(s, n), n);
    RotateInverse(s, n);
  }

  /** The clockwise turn moves facelets around its face without changing their colours. */
  lemma RotateCwMultiset(s: Face, n: nat)
    requires |s| == n * n
    ensures multiset(RotateCw(s, n)) == multiset(s)
  {
    var idx := seq(|s|, p requires 0 <= p < |s| => CwSource(n, p));
    forall j, k | 0 <= j < k < |idx| ensures idx[j] != idx[k] {
      SourcesInverse(n, j);
      SourcesInverse(n, k);
    }
    PermutationMultiset(s, RotateCw(s, n), idx);
  }

  /** Likewise for the counter-clockwise turn. */
  lemma RotateCcwMultiset(s: Face, n: nat)
    requires |s| == n * n
    ensures multiset(RotateCcw(s, n)) == multiset(s)
  {
    RotateCwMultiset(RotateCcw(s, n), n);
    RotateInverse(s, n);
  }

  // ---------------------------------------------------------------------------
  // Border strips

  /**
   * A border strip of a face: a whole row or a whole column, either the first
   * one (index 0) or the last one (index n - 1). These are the only strips the
   * adjacent-face cycles touch. Rows run left to right, columns top to bottom.
   */
  datatype Line = Row(last: bool) | Col(last: bool)

  /** The row or column number of the strip. */
  function Fixed(n: nat, l: Line): int
  {
    if l.last then n - 1 else 0
  }

  /** Index of position i along the strip. */
  function LineIndex(n: nat, l: Line, i: int): int
  {
    match l
    case Row(_) => Fixed(n, l) * n + i
    case Col(_) => i * n + Fixed(n, l)
  }

  /** Whether index p of the face lies on the strip (a face of side 0 has no strips). */
  predicate OnLine(n: nat, l: Line, p: int)
  {
    n > 0 &&
    match l
    case Row(_) => p / n == Fixed(n, l)
    case Col(_) => p % n == Fixed(n, l)
  }

  /** Position along the strip of an index that lies on it. */
  function LinePos(n: nat, l: Line, p: int): int
    requires n > 0
  {
    match l
    case Row(_) => p % n
    case Col(_) => p / n
  }

  /** Position i of the strip is an index of the face that lies on the strip at position i. */
  lemma LineIndexInv(n: nat, l: Line, i: int)
    requires 0 <= i < n
    ensures 0 <= LineIndex(n, l, i) < n * n
    ensures OnLine(n, l, LineIndex(n, l, i)) && LinePos(n, l, LineIndex(n, l, i)) == i
  {
    match l
    case Row(_) => CellIndex(n, Fixed(n, l), i);
    case Col(_) => CellIndex(n, i, Fixed(n, l));
  }

  /** An index on the strip is the strip's index at its position. */
  lemma LinePosInv(n: nat, l: Line, p: int)
    requires 0 <= p < n * n && OnLine(n, l, p)
    ensures 0 <= LinePos(n, l, p) < n && LineIndex(n, l, LinePos(n, l, p)) == p
  {
    CellOf(n, p);
  }

  /** The colour at position i of the strip. */
  function LineAt(s: Face, n: nat, l: Line, i: int): Color
    requires |s| == n * n && 0 <= i < n
  {
    LineIndexInv(n, l, i);
    s[LineIndex(n, l, i)]
  }

  /** The n colours along a strip, in strip order. */
  function ReadLine(s: Face, n: nat, l: Line): (w: Face)
    requires |s| == n * n
    ensures |w| == n
  {
    seq(n, i requires 0 <= i < n => LineAt(s, n, l, i))
  }

  /** The colour index p holds once the strip has been overwritten with w. */
  function Written(s: Face, n: nat, l: Line, w: Face, p: int): Color
    requires |s| == n * n && |w| == n && 0 <= p < |s|
  {
    if OnLine(n, l, p) then
      LinePosInv(n, l, p);
      w[LinePos(n, l, p)]
    else
      s[p]
  }

  /** The face with its strip overwritten by w (position i of the strip gets w[i]). */
  function SetLine(s: Face, n: nat, l: Line, w: Face): (t: Face)
    requires |s| == n * n && |w| == n
    ensures |t| == |s|
  {
    seq(|s|, p requires 0 <= p < |s| => Written(s, n, l, w, p))
  }

  /** Reading a strip back after writing it gives what was written. */
  lemma ReadAfterSet(s: Face, n: nat, l: Line, w: Face)
    requires |s| == n * n && |w| == n
    ensures ReadLine(SetLine(s, n, l, w), n, l) == w
  {
    forall i | 0 <= i < n ensures ReadLine(SetLine(s, n, l, w), n, l)[i] == w[i] {
      LineIndexInv(n, l, i);
    }
  }

  /** Writing a strip over a freshly written strip leaves only the second write. */
  lemma SetAfterSet(s: Face, n: nat, l: Line, w: Face, v: Face)
    requires |s| == n * n && |w| == n && |v| == n
    ensures SetLine(SetLine(s, n, l, w), n, l, v) == SetLine(s, n, l, v)
  {
  }

  /** Writing back what a strip already holds changes nothing. */
  lemma SetOwnLine(s: Face, n: nat, l: Line)
    requires |s| == n * n
    ensures SetLine(s, n, l, ReadLine(s, n, l)) == s
  {
    forall p | 0 <= p < |s| ensures SetLine(s, n, l, ReadLine(s, n, l))[p] == s[p] {
      if OnLine(n, l, p) {
        LinePosInv(n, l, p);
      }
    }
  }

  /**
   * Overwriting a strip trades the strip's old colours for the new ones:
   * the face after the write together with the old strip holds the same
   * colours as the face before the write together with the new strip.
   */
  lemma SetLineMultiset(s: Face, n: nat, l: Line, w: Face)
    requires |s| == n * n && |w| == n
    ensures multiset(SetLine(s, n, l, w)) + multiset(ReadLine(s, n, l)) == multiset(s) + multiset(w)
  {
    var N := n * n;
    var t := SetLine(s, n, l, w) + ReadLine(s, n, l);
    var src := s + w;
    var idx := seq(N + n, k requires 0 <= k < N + n =>
                 if k < N then (if OnLine(n, l, k) then N + LinePos(n, l, k) else k)
                 else LineIndex(n, l, k - N));
    forall k | 0 <= k < |idx| ensures 0 <= idx[k] < |src| && t[k] == src[idx[k]] {
      if k < N {
        if OnLine(n, l, k) {
          LinePosInv(n, l, k);
        }
      } else {
        LineIndexInv(n, l, k - N);
      }
    }
    forall j, k | 0 <= j < k < |idx| ensures idx[j] != idx[k] {
      if j < N && OnLine(n, l, j) {
        LinePosInv(n, l, j);
      }
      if k < N && OnLine(n, l, k) {
        LinePosInv(n, l, k);
      }
      if j >= N {
        LineIndexInv(n, l, j - N);
      }
      if k >= N {
        LineIndexInv(n, l, k - N);
      }
    }
    PermutationMultiset(src, t, idx);
  }

  // ---------------------------------------------------------------------------
  // Strip orientation

  /** A strip read backwards. */
  function Rev(w: Face): (v: Face)
    ensures |v| == |w|
  {
    seq(|w|, i requires 0 <= i < |w| => w[|w| - 1 - i])
  }

  /** A strip read backwards when flip is set, forwards otherwise. */
  function Orient(flip: bool, w: Face): (v: Face)
    ensures |v| == |w|
  {
    if flip then Rev(w) else w
  }

  /** Two orientations compose like an exclusive or: reading backwards twice is reading forwards. */
  lemma OrientTwice(a: bool, b: bool, w: Face)
    ensures Orient(a, Orient(b, w)) == Orient(a != b, w)
  {
    if a && b {
      assert Rev(Rev(w)) == w;
    }
  }

  /** Reading backwards keeps the colours. */
  lemma OrientMultiset(flip: bool, w: Face)
    ensures multiset(Orient(flip, w)) == multiset(w)
  {
    if flip {
      var idx := seq(|w|, i requires 0 <= i < |w| => |w| - 1 - i);
      PermutationMultiset(w, Rev(w), idx);
    }
  }

  // ---------------------------------------------------------------------------
  // Permutations

  /**
   * A sequence that takes every element of s exactly once, through an
   * injective index map, holds the same multiset of colours as s.
   */
  lemma {:induction false} PermutationMultiset(s: Face, t: Face, idx: seq<int>)
    requires |t| == |s| == |idx|
    requires forall k :: 0 <= k < |idx| ==> 0 <= idx[k] < |s| && t[k] == s[idx[k]]
    requires forall j, k :: 0 <= j < k < |idx| ==> idx[j] != idx[k]
    ensures multiset(t) == multiset(s)
  {
    if |t| > 0 {
      var m := |t| - 1;
      var j := idx[m];
      var s' := s[..j] + s[j + 1..];
      var idx' := seq(m, k requires 0 <= k < m => if idx[k] < j then idx[k] else idx[k] - 1);
      forall k | 0 <= k < m ensures 0 <= idx'[k] < |s'| && t[..m][k] == s'[idx'[k]] {
        assert idx[k] != idx[m];
      }
      PermutationMultiset(s', t[..m], idx');
      assert s == s[..j] + [s[j]] + s[j + 1..];
      assert t == t[..m] + [t[m]];
    }
  }
}
