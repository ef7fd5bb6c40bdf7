/**
 * Algebraic laws of the moves of lib/cube-state.ts: a turn and its reverse
 * cancel, four quarter turns of a face cancel, every move keeps the colours
 * and touches only the turning face and one strip of each neighbour.
 *
 * The strip-cycle laws are proved once for any cycle of four strips on four
 * different faces; the six neighbour tables are then shown to be such cycles,
 * each with an even number of reversed reads.
 */
module CubeLaws {
  import opened Facelets
  import opened Cube

  // ---------------------------------------------------------------------------
  // Faces as records

  lemma FacesExt(a: Faces, b: Faces)
    requires forall g :: a.Get(g) == b.Get(g)
    ensures a == b
  {
    assert a.Get(Front) == b.Get(Front) && a.Get(Back) == b.Get(Back);
    assert a.Get(Left) == b.Get(Left) && a.Get(Right) == b.Get(Right);
    assert a.Get(Top) == b.Get(Top) && a.Get(Bottom) == b.Get(Bottom);
  }

  lemma WithOwn(fs: Faces, g: FaceName)
    ensures fs.With(g, fs.Get(g)) == fs
  {
    FacesExt(fs.With(g, fs.Get(g)), fs);
  }

  lemma WithTwice(fs: Faces, g: FaceName, s: Face, t: Face)
    ensures fs.With(g, s).With(g, t) == fs.With(g, t)
  {
    FacesExt(fs.With(g, s).With(g, t), fs.With(g, t));
  }

  /** Replacing face g by a sequence with the same colours keeps the cube's colours. */
  lemma WithColors(fs: Faces, g: FaceName, s: Face)
    requires multiset(s) == multiset(fs.Get(g))
    ensures fs.With(g, s).Colors() == fs.Colors()
  {
  }

  // ---------------------------------------------------------------------------
  // One step of a strip cycle

  /** The face of slot k after a step is its old face with the incoming strip written over slot k's strip. */
  lemma SlotAfterStep(fs: Faces, n: nat, cy: Cycle, forward: bool, k: int)
    requires fs.Sized(n) && WellShaped(cy) && 0 <= k < 4
    ensures Cycled(fs, n, cy, forward).Get(cy.slots[k].face) == Refill(fs, n, cy, forward, k)
  {
  }

  /** Slot k's strip after a step holds exactly what slot k received. */
  lemma ReadAfterStep(fs: Faces, n: nat, cy: Cycle, forward: bool, k: int)
    requires fs.Sized(n) && WellShaped(cy) && 0 <= k < 4
    ensures SlotLine(Cycled(fs, n, cy, forward), n, cy.slots[k]) == Incoming(fs, n, cy, forward, k)
  {
    SlotAfterStep(fs, n, cy, forward, k);
    SizedGet(fs, n, cy.slots[k].face);
    ReadAfterSet(fs.Get(cy.slots[k].face), n, cy.slots[k].line, Incoming(fs, n, cy, forward, k));
  }

  /** A face that carries none of the cycle's strips does not change. */
  lemma OutsideStep(fs: Faces, n: nat, cy: Cycle, forward: bool, g: FaceName)
    requires fs.Sized(n) && WellShaped(cy) && !InCycle(cy, g)
    ensures Cycled(fs, n, cy, forward).Get(g) == fs.Get(g)
  {
    assert cy.slots[0].face != g && cy.slots[1].face != g;
    assert cy.slots[2].face != g && cy.slots[3].face != g;
  }

  /** The faces of a cube are equal when they agree on every slot face and outside the cycle. */
  lemma CycleExt(a: Faces, b: Faces, cy: Cycle)
    requires WellShaped(cy)
    requires forall k :: 0 <= k < 4 ==> a.Get(cy.slots[k].face) == b.Get(cy.slots[k].face)
    requires forall g :: !InCycle(cy, g) ==> a.Get(g) == b.Get(g)
    ensures a == b
  {
    forall g ensures a.Get(g) == b.Get(g) {
      if InCycle(cy, g) {
        var k :| 0 <= k < 4 && cy.slots[k].face == g;
      }
    }
    FacesExt(a, b);
  }

  // ---------------------------------------------------------------------------
  // Inverse

  /** A step and the opposite step leave slot k's face as it was. */
  lemma InverseAtSlot(fs: Faces, n: nat, cy: Cycle, forward: bool, k: int)
    requires fs.Sized(n) && WellShaped(cy) && 0 <= k < 4
    ensures Cycled(Cycled(fs, n, cy, forward), n, cy, !forward).Get(cy.slots[k].face) == fs.Get(cy.slots[k].face)
  {
    var d := Cycled(fs, n, cy, forward);
    var s, l := cy.slots[k].face, cy.slots[k].line;
    SizedGet(fs, n, s);
    SlotAfterStep(d, n, cy, !forward, k);
    SlotAfterStep(fs, n, cy, forward, k);
    // the strip that comes back into slot k is the strip slot k handed on
    var j := if forward then Prev(k) else Next(k);
    ReadAfterStep(fs, n, cy, forward, j);
    var f := if forward then cy.flips[j] else cy.flips[k];
    OrientTwice(f, f, SlotLine(fs, n, cy.slots[k]));
    assert Incoming(d, n, cy, !forward, k) == SlotLine(fs, n, cy.slots[k]);
    SetAfterSet(fs.Get(s), n, l, Incoming(fs, n, cy, forward, k), SlotLine(fs, n, cy.slots[k]));
    SetOwnLine(fs.Get(s), n, l);
  }

  /** Cycling the strips one way and then the other gives the faces back, in either order. */
  lemma CycleInverse(fs: Faces, n: nat, cy: Cycle, forward: bool)
    requires fs.Sized(n) && WellShaped(cy)
    ensures Cycled(Cycled(fs, n, cy, forward), n, cy, !forward) == fs
  {
    var d := Cycled(fs, n, cy, forward);
    forall k | 0 <= k < 4
      ensures Cycled(d, n, cy, !forward).Get(cy.slots[k].face) == fs.Get(cy.slots[k].face)
    {
      InverseAtSlot(fs, n, cy, forward, k);
    }
    forall g | !InCycle(cy, g) ensures Cycled(d, n, cy, !forward).Get(g) == fs.Get(g) {
      OutsideStep(fs, n, cy, forward, g);
      OutsideStep(d, n, cy, !forward, g);
    }
    CycleExt(Cycled(d, n, cy, !forward), fs, cy);
  }

  // ---------------------------------------------------------------------------
  // Four steps

  /** An even number of the four reads are reversed. */
  predicate EvenFlips(cy: Cycle)
    requires WellShaped(cy)
  {
    (cy.flips[0] != cy.flips[1]) == (cy.flips[2] != cy.flips[3])
  }

  /** One forward step: slot k's strip now holds slot k + 1's old strip, oriented by flips[k]. */
  lemma StepRead(fs: Faces, n: nat, cy: Cycle, k: int)
    requires fs.Sized(n) && WellShaped(cy) && 0 <= k < 4
    ensures SlotLine(Cycled(fs, n, cy, true), n, cy.slots[k]) == Orient(cy.flips[k], SlotLine(fs, n, cy.slots[Next(k)]))
  {
    ReadAfterStep(fs, n, cy, true, k);
  }

  /** After three forward steps, slot k + 1 holds slot k's original strip, oriented by the other three flips. */
  lemma ThreeStepsRead(fs: Faces, n: nat, cy: Cycle, k: int)
    requires fs.Sized(n) && WellShaped(cy) && 0 <= k < 4
    ensures var d3 := Cycled(Cycled(Cycled(fs, n, cy, true), n, cy, true), n, cy, true);
            SlotLine(d3, n, cy.slots[Next(k)])
            == Orient(cy.flips[Next(k)] != (cy.flips[Next(Next(k))] != cy.flips[Prev(k)]), SlotLine(fs, n, cy.slots[k]))
  {
    var d1 := Cycled(fs, n, cy, true);
    var d2 := Cycled(d1, n, cy, true);
    var d3 := Cycled(d2, n, cy, true);
    var k1, k2, k3 := Next(k), Next(Next(k)), Prev(k);
    assert Next(k3) == k && Next(k2) == k3 && Next(k1) == k2;
    var f1, f2, f3 := cy.flips[k1], cy.flips[k2], cy.flips[k3];
    var w := SlotLine(fs, n, cy.slots[k]);
    assert SlotLine(d1, n, cy.slots[k3]) == Orient(f3, w) by {
      StepRead(fs, n, cy, k3);
    }
    assert SlotLine(d2, n, cy.slots[k2]) == Orient(f2, Orient(f3, w)) by {
      StepRead(d1, n, cy, k2);
    }
    assert SlotLine(d3, n, cy.slots[k1]) == Orient(f1, Orient(f2, Orient(f3, w))) by {
      StepRead(d2, n, cy, k1);
    }
    OrientTwice(f2, f3, w);
    OrientTwice(f1, f2 != f3, w);
  }

  /** After four forward steps slot k's face is its original face with only the last incoming strip written over it. */
  lemma FourOverwrite(fs: Faces, n: nat, cy: Cycle, k: int)
    requires fs.Sized(n) && WellShaped(cy) && 0 <= k < 4
    ensures var d3 := Cycled(Cycled(Cycled(fs, n, cy, true), n, cy, true), n, cy, true);
            Cycled(d3, n, cy, true).Get(cy.slots[k].face)
            == SetLine(fs.Get(cy.slots[k].face), n, cy.slots[k].line, Incoming(d3, n, cy, true, k))
  {
    var d1 := Cycled(fs, n, cy, true);
    var d2 := Cycled(d1, n, cy, true);
    var d3 := Cycled(d2, n, cy, true);
    var s, l := cy.slots[k].face, cy.slots[k].line;
    SizedGet(fs, n, s);
    SlotAfterStep(fs, n, cy, true, k);
    SlotAfterStep(d1, n, cy, true, k);
    SlotAfterStep(d2, n, cy, true, k);
    SlotAfterStep(d3, n, cy, true, k);
    SetAfterSet(fs.Get(s), n, l, Incoming(fs, n, cy, true, k), Incoming(d1, n, cy, true, k));
    SetAfterSet(fs.Get(s), n, l, Incoming(d1, n, cy, true, k), Incoming(d2, n, cy, true, k));
    SetAfterSet(fs.Get(s), n, l, Incoming(d2, n, cy, true, k), Incoming(d3, n, cy, true, k));
  }

  /** Four forward steps leave slot k's face as it was, when the reversals pair up. */
  lemma FourAtSlot(fs: Faces, n: nat, cy: Cycle, k: int)
    requires fs.Sized(n) && WellShaped(cy) && EvenFlips(cy) && 0 <= k < 4
    ensures Cycled(Cycled(Cycled(Cycled(fs, n, cy, true), n, cy, true), n, cy, true), n, cy, true).Get(cy.slots[k].face)
            == fs.Get(cy.slots[k].face)
  {
    var d3 := Cycled(Cycled(Cycled(fs, n, cy, true), n, cy, true), n, cy, true);
    var w := SlotLine(fs, n, cy.slots[k]);
    var f0, f1, f2, f3 := cy.flips[k], cy.flips[Next(k)], cy.flips[Next(Next(k))], cy.flips[Prev(k)];
    FourOverwrite(fs, n, cy, k);
    ThreeStepsRead(fs, n, cy, k);
    OrientTwice(f0, f1 != (f2 != f3), w);
    assert (f0 != (f1 != (f2 != f3))) == false by {
      assert k == 0 || k == 1 || k == 2 || k == 3;
    }
    assert Incoming(d3, n, cy, true, k) == w;
    SizedGet(fs, n, cy.slots[k].face);
    SetOwnLine(fs.Get(cy.slots[k].face), n, cy.slots[k].line);
  }

  /** Four forward steps of a cycle with paired reversals give the faces back. */
  lemma CycleFour(fs: Faces, n: nat, cy: Cycle)
    requires fs.Sized(n) && WellShaped(cy) && EvenFlips(cy)
    ensures Cycled(Cycled(Cycled(Cycled(fs, n, cy, true), n, cy, true), n, cy, true), n, cy, true) == fs
  {
    var d1 := Cycled(fs, n, cy, true);
    var d2 := Cycled(d1, n, cy, true);
    var d3 := Cycled(d2, n, cy, true);
    var d4 := Cycled(d3, n, cy, true);
    forall k | 0 <= k < 4 ensures d4.Get(cy.slots[k].face) == fs.Get(cy.slots[k].face) {
      FourAtSlot(fs, n, cy, k);
    }
    forall g | !InCycle(cy, g) ensures d4.Get(g) == fs.Get(g) {
      OutsideStep(fs, n, cy, true, g);
      OutsideStep(d1, n, cy, true, g);
      OutsideStep(d2, n, cy, true, g);
      OutsideStep(d3, n, cy, true, g);
    }
    CycleExt(d4, fs, cy);
  }

  // ---------------------------------------------------------------------------
  // Frame and colours of a step

  /** Cells of slot k's face off slot k's strip keep their colours. */
  lemma OffStripAfterStep(fs: Faces, n: nat, cy: Cycle, forward: bool, k: int, p: int)
    requires fs.Sized(n) && WellShaped(cy) && 0 <= k < 4 && 0 <= p < n * n
    requires !OnLine(n, cy.slots[k].line, p)
    ensures Cycled(fs, n, cy, forward).Get(cy.slots[k].face)[p] == fs.Get(cy.slots[k].face)[p]
  {
    SlotAfterStep(fs, n, cy, forward, k);
  }

  /** Slot k trades its old strip for the strip it receives. */
  lemma SlotTrade(fs: Faces, n: nat, cy: Cycle, forward: bool, k: int)
    requires fs.Sized(n) && WellShaped(cy) && 0 <= k < 4
    ensures forward ==>
              multiset(Cycled(fs, n, cy, forward).Get(cy.slots[k].face)) + multiset(SlotLine(fs, n, cy.slots[k]))
              == multiset(fs.Get(cy.slots[k].face)) + multiset(SlotLine(fs, n, cy.slots[Next(k)]))
    ensures !forward ==>
              multiset(Cycled(fs, n, cy, forward).Get(cy.slots[k].face)) + multiset(SlotLine(fs, n, cy.slots[k]))
              == multiset(fs.Get(cy.slots[k].face)) + multiset(SlotLine(fs, n, cy.slots[Prev(k)]))
  {
    var src := if forward then Next(k) else Prev(k);
    SlotAfterStep(fs, n, cy, forward, k);
    SizedGet(fs, n, cy.slots[k].face);
    SetLineMultiset(fs.Get(cy.slots[k].face), n, cy.slots[k].line, Incoming(fs, n, cy, forward, k));
    var f := if forward then cy.flips[k] else cy.flips[src];
    OrientMultiset(f, SlotLine(fs, n, cy.slots[src]));
  }

  /** The multiset of the four slot faces. */
  function SlotColors(fs: Faces, cy: Cycle): multiset<Color>
    requires WellShaped(cy)
  {
    multiset(fs.Get(cy.slots[0].face)) + multiset(fs.Get(cy.slots[1].face)) +
    multiset(fs.Get(cy.slots[2].face)) + multiset(fs.Get(cy.slots[3].face))
  }

  /** Four trades whose given-away and received parts agree in total leave the totals equal. */
  lemma TradesCancel(a0: multiset<Color>, a1: multiset<Color>, a2: multiset<Color>, a3: multiset<Color>,
                     b0: multiset<Color>, b1: multiset<Color>, b2: multiset<Color>, b3: multiset<Color>,
                     m0: multiset<Color>, m1: multiset<Color>, m2: multiset<Color>, m3: multiset<Color>,
                     p0: multiset<Color>, p1: multiset<Color>, p2: multiset<Color>, p3: multiset<Color>)
    requires a0 + m0 == b0 + p0 && a1 + m1 == b1 + p1 && a2 + m2 == b2 + p2 && a3 + m3 == b3 + p3
    requires forall x :: (m0 + m1 + m2 + m3)[x] == (p0 + p1 + p2 + p3)[x]
    ensures a0 + a1 + a2 + a3 == b0 + b1 + b2 + b3
  {
    forall x ensures (a0 + a1 + a2 + a3)[x] == (b0 + b1 + b2 + b3)[x] {
      assert (a0 + m0)[x] == (b0 + p0)[x] && (a1 + m1)[x] == (b1 + p1)[x];
      assert (a2 + m2)[x] == (b2 + p2)[x] && (a3 + m3)[x] == (b3 + p3)[x];
      assert (m0 + m1 + m2 + m3)[x] == (p0 + p1 + p2 + p3)[x];
    }
  }

  /** A forward step moves strips between the four slot faces and loses none. */
  lemma ForwardSlotColors(fs: Faces, n: nat, cy: Cycle)
    requires fs.Sized(n) && WellShaped(cy)
    ensures SlotColors(Cycled(fs, n, cy, true), cy) == SlotColors(fs, cy)
  {
    var r := Cycled(fs, n, cy, true);
    var m0, m1 := multiset(SlotLine(fs, n, cy.slots[0])), multiset(SlotLine(fs, n, cy.slots[1]));
    var m2, m3 := multiset(SlotLine(fs, n, cy.slots[2])), multiset(SlotLine(fs, n, cy.slots[3]));
    var a0, a1 := multiset(r.Get(cy.slots[0].face)), multiset(r.Get(cy.slots[1].face));
    var a2, a3 := multiset(r.Get(cy.slots[2].face)), multiset(r.Get(cy.slots[3].face));
    var b0, b1 := multiset(fs.Get(cy.slots[0].face)), multiset(fs.Get(cy.slots[1].face));
    var b2, b3 := multiset(fs.Get(cy.slots[2].face)), multiset(fs.Get(cy.slots[3].face));
    assert a0 + m0 == b0 + m1 by { SlotTrade(fs, n, cy, true, 0); }
    assert a1 + m1 == b1 + m2 by { SlotTrade(fs, n, cy, true, 1); }
    assert a2 + m2 == b2 + m3 by { SlotTrade(fs, n, cy, true, 2); }
    assert a3 + m3 == b3 + m0 by { SlotTrade(fs, n, cy, true, 3); }
    TradesCancel(a0, a1, a2, a3, b0, b1, b2, b3, m0, m1, m2, m3, m1, m2, m3, m0);
  }

  /** A backward step moves strips between the four slot faces and loses none. */
  lemma BackwardSlotColors(fs: Faces, n: nat, cy: Cycle)
    requires fs.Sized(n) && WellShaped(cy)
    ensures SlotColors(Cycled(fs, n, cy, false), cy) == SlotColors(fs, cy)
  {
    var r := Cycled(fs, n, cy, false);
    var m0, m1 := multiset(SlotLine(fs, n, cy.slots[0])), multiset(SlotLine(fs, n, cy.slots[1]));
    var m2, m3 := multiset(SlotLine(fs, n, cy.slots[2])), multiset(SlotLine(fs, n, cy.slots[3]));
    var a0, a1 := multiset(r.Get(cy.slots[0].face)), multiset(r.Get(cy.slots[1].face));
    var a2, a3 := multiset(r.Get(cy.slots[2].face)), multiset(r.Get(cy.slots[3].face));
    var b0, b1 := multiset(fs.Get(cy.slots[0].face)), multiset(fs.Get(cy.slots[1].face));
    var b2, b3 := multiset(fs.Get(cy.slots[2].face)), multiset(fs.Get(cy.slots[3].face));
    assert a0 + m0 == b0 + m3 by { SlotTrade(fs, n, cy, false, 0); }
    assert a1 + m1 == b1 + m0 by { SlotTrade(fs, n, cy, false, 1); }
    assert a2 + m2 == b2 + m1 by { SlotTrade(fs, n, cy, false, 2); }
    assert a3 + m3 == b3 + m2 by { SlotTrade(fs, n, cy, false, 3); }
    TradesCancel(a0, a1, a2, a3, b0, b1, b2, b3, m0, m1, m2, m3, m3, m0, m1, m2);
  }

  lemma StepSlotColors(fs: Faces, n: nat, cy: Cycle, forward: bool)
    requires fs.Sized(n) && WellShaped(cy)
    ensures SlotColors(Cycled(fs, n, cy, forward), cy) == SlotColors(fs, cy)
  {
    if forward {
      ForwardSlotColors(fs, n, cy);
    } else {
      BackwardSlotColors(fs, n, cy);
    }
  }

  /** The colours of the cube: those of face f's cycle, of f, and of the face opposite f. */
  lemma ColorsAround(fs: Faces, f: FaceName)
    ensures fs.Colors() == SlotColors(fs, Adjacent(f)) + multiset(fs.Get(f)) + multiset(fs.Get(Opposite(f)))
  {
  }

  /** A step of any of the six neighbour cycles keeps the colours of the cube. */
  lemma AdjacentColors(fs: Faces, n: nat, f: FaceName, forward: bool)
    requires fs.Sized(n)
    ensures Cycled(fs, n, Adjacent(f), forward).Colors() == fs.Colors()
  {
    var cy := Adjacent(f);
    var r := Cycled(fs, n, cy, forward);
    StepSlotColors(fs, n, cy, forward);
    AdjacentShape(f);
    OutsideStep(fs, n, cy, forward, f);
    OutsideStep(fs, n, cy, forward, Opposite(f));
    ColorsAround(fs, f);
    ColorsAround(r, f);
  }

  // ---------------------------------------------------------------------------
  // The six tables

  /** The face across the cube from f. */
  function Opposite(f: FaceName): FaceName
  {
    match f
    case Front => Back
    case Back => Front
    case Left => Right
    case Right => Left
    case Top => Bottom
    case Bottom => Top
  }

  /**
   * Each face's cycle runs over the four faces around it, never over the face
   * itself or the face opposite, and reverses an even number of its reads.
   */
  lemma AdjacentShape(f: FaceName)
    ensures !InCycle(Adjacent(f), f) && !InCycle(Adjacent(f), Opposite(f))
    ensures forall g :: g != f && g != Opposite(f) ==> InCycle(Adjacent(f), g)
    ensures EvenFlips(Adjacent(f))
  {
    var cy := Adjacent(f);
    forall g | g != f && g != Opposite(f) ensures InCycle(cy, g) {
      if g == cy.slots[0].face {
        assert 0 <= 0 < 4 && cy.slots[0].face == g;
      } else if g == cy.slots[1].face {
        assert 0 <= 1 < 4 && cy.slots[1].face == g;
      } else if g == cy.slots[2].face {
        assert 0 <= 2 < 4 && cy.slots[2].face == g;
      } else {
        assert 0 <= 3 < 4 && cy.slots[3].face == g;
      }
    }
  }

  // ---------------------------------------------------------------------------
  // Quarter turns

  /** Rotating face f commutes with a cycle that does not touch f. */
  lemma CycleCommutes(fs: Faces, n: nat, cy: Cycle, forward: bool, f: FaceName, s: Face)
    requires fs.Sized(n) && WellShaped(cy) && !InCycle(cy, f) && |s| == n * n
    ensures fs.With(f, s).Sized(n)
    ensures Cycled(fs.With(f, s), n, cy, forward) == Cycled(fs, n, cy, forward).With(f, s)
  {
    var fs' := fs.With(f, s);
    assert fs'.Sized(n) by {
      forall g ensures |fs'.Get(g)| == n * n {
        SizedGet(fs, n, g);
      }
      assert |fs'.Get(Front)| == n * n && |fs'.Get(Back)| == n * n && |fs'.Get(Left)| == n * n;
      assert |fs'.Get(Right)| == n * n && |fs'.Get(Top)| == n * n && |fs'.Get(Bottom)| == n * n;
    }
    forall k | 0 <= k < 4 ensures cy.slots[k].face != f {
    }
    forall g ensures Cycled(fs', n, cy, forward).Get(g) == Cycled(fs, n, cy, forward).With(f, s).Get(g) {
      if g == f {
        OutsideStep(fs', n, cy, forward, f);
      } else if !InCycle(cy, g) {
        OutsideStep(fs', n, cy, forward, g);
        OutsideStep(fs, n, cy, forward, g);
      } else {
        var k :| 0 <= k < 4 && cy.slots[k].face == g;
        SlotAfterStep(fs', n, cy, forward, k);
        SlotAfterStep(fs, n, cy, forward, k);
        assert Incoming(fs', n, cy, forward, k) == Incoming(fs, n, cy, forward, k);
      }
    }
    FacesExt(Cycled(fs', n, cy, forward), Cycled(fs, n, cy, forward).With(f, s));
  }

  /** A clockwise turn of f on faces whose f is s: the strips cycle and f becomes s turned. */
  lemma TurnOfWith(fs: Faces, n: nat, f: FaceName, s: Face)
    requires fs.Sized(n) && |s| == n * n
    ensures fs.With(f, s).Sized(n)
    ensures Turn(CubeState(fs.With(f, s), n), f, false).faces == Cycled(fs, n, Adjacent(f), true).With(f, RotateCw(s, n))
  {
    AdjacentShape(f);
    CycleCommutes(fs, n, Adjacent(f), true, f, s);
    WithTwice(fs, f, s, RotateCw(s, n));
    CycleCommutes(fs, n, Adjacent(f), true, f, RotateCw(s, n));
  }

  /** A quarter turn followed by the quarter turn of the same face the other way changes nothing. */
  lemma TurnInverse(c: CubeState, f: FaceName, ccw: bool)
    requires WellFormed(c)
    ensures Turn(Turn(c, f, ccw), f, !ccw) == c
  {
    var n, cy, fs := c.size, Adjacent(f), c.faces;
    AdjacentShape(f);
    SizedGet(fs, n, f);
    var s := fs.Get(f);
    var r := if ccw then RotateCcw(s, n) else RotateCw(s, n);
    var b := Cycled(fs, n, cy, !ccw);
    // the first turn: the strips cycle, f is rotated
    CycleCommutes(fs, n, cy, !ccw, f, r);
    assert Turn(c, f, ccw).faces == b.With(f, r);
    // the second turn: the strips cycle back, f is rotated back
    RotateInverse(s, n);
    assert (if !ccw then RotateCcw(r, n) else RotateCw(r, n)) == s;
    WithTwice(b, f, r, s);
    OutsideStep(fs, n, cy, !ccw, f);
    WithOwn(b, f);
    CycleInverse(fs, n, cy, !ccw);
  }

  /** Four clockwise quarter turns of the same face change nothing. */
  lemma TurnFour(c: CubeState, f: FaceName)
    requires WellFormed(c)
    ensures Turn(Turn(Turn(Turn(c, f, false), f, false), f, false), f, false) == c
  {
    var n, cy := c.size, Adjacent(f);
    AdjacentShape(f);
    SizedGet(c.faces, n, f);
    var s := c.faces.Get(f);
    var d1 := Cycled(c.faces, n, cy, true);
    var d2 := Cycled(d1, n, cy, true);
    var d3 := Cycled(d2, n, cy, true);
    var s1 := RotateCw(s, n);
    var s2 := RotateCw(s1, n);
    var s3 := RotateCw(s2, n);
    WithOwn(c.faces, f);
    TurnOfWith(c.faces, n, f, s);
    var t1 := Turn(c, f, false);
    assert t1.faces == d1.With(f, s1);
    TurnOfWith(d1, n, f, s1);
    var t2 := Turn(t1, f, false);
    assert t2.faces == d2.With(f, s2);
    TurnOfWith(d2, n, f, s2);
    var t3 := Turn(t2, f, false);
    assert t3.faces == d3.With(f, s3);
    TurnOfWith(d3, n, f, s3);
    RotateCwFour(s, n);
    CycleFour(c.faces, n, cy);
    OutsideStep(c.faces, n, cy, true, f);
    WithOwn(c.faces, f);
  }

  /** A quarter turn keeps the colours of the cube. */
  lemma TurnColors(c: CubeState, f: FaceName, ccw: bool)
    requires WellFormed(c)
    ensures Turn(c, f, ccw).faces.Colors() == c.faces.Colors()
  {
    var n := c.size;
    SizedGet(c.faces, n, f);
    var s := c.faces.Get(f);
    if ccw {
      RotateCcwMultiset(s, n);
    } else {
      RotateCwMultiset(s, n);
    }
    WithColors(c.faces, f, if ccw then RotateCcw(s, n) else RotateCw(s, n));
    AdjacentColors(TurnFace(c.faces, n, f, ccw), n, f, !ccw);
  }

  /**
   * A quarter turn of f changes only face f and the four neighbour strips of
   * its table: the opposite face keeps every facelet, and each neighbour keeps
   * every facelet off its strip.
   */
  lemma TurnFrame(c: CubeState, f: FaceName, ccw: bool)
    requires WellFormed(c)
    ensures Turn(c, f, ccw).faces.Get(Opposite(f)) == c.faces.Get(Opposite(f))
    ensures forall k, p :: 0 <= k < 4 && 0 <= p < c.size * c.size && !OnLine(c.size, Adjacent(f).slots[k].line, p) ==>
              Turn(c, f, ccw).faces.Get(Adjacent(f).slots[k].face)[p] == c.faces.Get(Adjacent(f).slots[k].face)[p]
  {
    var n, cy := c.size, Adjacent(f);
    var fs := TurnFace(c.faces, n, f, ccw);
    AdjacentShape(f);
    OutsideStep(fs, n, cy, !ccw, Opposite(f));
    forall k, p | 0 <= k < 4 && 0 <= p < n * n && !OnLine(n, cy.slots[k].line, p)
      ensures Turn(c, f, ccw).faces.Get(cy.slots[k].face)[p] == c.faces.Get(cy.slots[k].face)[p]
    {
      OffStripAfterStep(fs, n, cy, !ccw, k, p);
      assert cy.slots[k].face != f;
    }
  }

  /** A quarter turn rotates the turned face's own grid, and its strip cycle leaves that face alone. */
  lemma TurnRotatesFace(c: CubeState, f: FaceName, ccw: bool)
    requires WellFormed(c)
    ensures |c.faces.Get(f)| == c.size * c.size
    ensures Turn(c, f, ccw).faces.Get(f) ==
            if ccw then RotateCcw(c.faces.Get(f), c.size) else RotateCw(c.faces.Get(f), c.size)
  {
    SizedGet(c.faces, c.size, f);
    AdjacentShape(f);
    OutsideStep(TurnFace(c.faces, c.size, f, ccw), c.size, Adjacent(f), !ccw, f);
  }

  /**
   * The F turn of rotateFrontAdjacent: the back face keeps every facelet, and
   * of the neighbours only top row n-1, left column n-1, bottom row 0 and
   * right column 0 can change.
   */
  lemma FrontTurnFrame(c: CubeState, ccw: bool)
    requires WellFormed(c)
    ensures var n, r := c.size, Turn(c, Front, ccw).faces;
            r.back == c.faces.back &&
            (forall p :: 0 <= p < n * n && p / n != n - 1 ==> r.top[p] == c.faces.top[p]) &&
            (forall p :: 0 <= p < n * n && p % n != n - 1 ==> r.left[p] == c.faces.left[p]) &&
            (forall p :: 0 <= p < n * n && p / n != 0 ==> r.bottom[p] == c.faces.bottom[p]) &&
            (forall p :: 0 <= p < n * n && p % n != 0 ==> r.right[p] == c.faces.right[p])
  {
    TurnFrame(c, Front, ccw);
    var cy := Adjacent(Front);
    assert cy.slots[0] == Slot(Top, Row(true)) && cy.slots[1] == Slot(Left, Col(true));
    assert cy.slots[2] == Slot(Bottom, Row(false)) && cy.slots[3] == Slot(Right, Col(false));
  }

  /**
   * The U turn of rotateTopAdjacent: the bottom face keeps every facelet, and
   * of the four side faces only row 0 can change.
   */
  lemma TopTurnFrame(c: CubeState, ccw: bool)
    requires WellFormed(c)
    ensures var n, r := c.size, Turn(c, Top, ccw).faces;
            r.bottom == c.faces.bottom &&
            forall g, p :: g in {Front, Right, Back, Left} && 0 <= p < n * n && p / n != 0 ==>
              r.Get(g)[p] == c.faces.Get(g)[p]
  {
    TurnFrame(c, Top, ccw);
    var cy := Adjacent(Top);
    forall g, p | g in {Front, Right, Back, Left} && 0 <= p < c.size * c.size && p / c.size != 0
      ensures Turn(c, Top, ccw).faces.Get(g)[p] == c.faces.Get(g)[p]
    {
      var k := if g == Front then 0 else if g == Right then 1 else if g == Back then 2 else 3;
      assert cy.slots[k] == Slot(g, Row(false));
    }
  }

  // ---------------------------------------------------------------------------
  // Move tokens

  /** Every handled move's token is parsed back to that move. */
  lemma TokenParses(m: Move)
    requires m != Unknown
    ensures ParseMove(Token(m)) == m
  {
    match m
    case Quarter(g, ccw) =>
      match g {
        case Front => assert Token(m) == if ccw then "F'" else "F";
        case Back => assert Token(m) == if ccw then "B'" else "B";
        case Right => assert Token(m) == if ccw then "R'" else "R";
        case Left => assert Token(m) == if ccw then "L'" else "L";
        case Top => assert Token(m) == if ccw then "U'" else "U";
        case Bottom => assert Token(m) == if ccw then "D'" else "D";
      }
    case Half(g) =>
      match g {
        case Front => assert Token(m) == "F2";
        case Back => assert Token(m) == "B2";
        case Right => assert Token(m) == "R2";
        case Left => assert Token(m) == "L2";
        case Top => assert Token(m) == "U2";
        case Bottom => assert Token(m) == "D2";
      }
  }

  /** The face a move letter names. */
  function FaceOfLetter(x: char): (g: FaceName)
    requires x in "FBRLUD"
    ensures Letter(g) == [x]
  {
    if x == 'F' then Front else if x == 'B' then Back else if x == 'R' then Right
    else if x == 'L' then Left else if x == 'U' then Top else Bottom
  }

  /** The token grammar: a face letter, then nothing, a prime or a 2. */
  function ReadToken(token: string): Move
  {
    if |token| == 0 || |token| > 2 || token[0] !in "FBRLUD" then Unknown
    else if |token| == 1 then Quarter(FaceOfLetter(token[0]), false)
    else if token[1] == '\'' then Quarter(FaceOfLetter(token[0]), true)
    else if token[1] == '2' then Half(FaceOfLetter(token[0]))
    else Unknown
  }

  /** applyMove's switch accepts exactly the tokens of the grammar, with the same meaning. */
  lemma ParseMoveGrammar(token: string)
    ensures ParseMove(token) == ReadToken(token)
  {
  }

  /** The three tokens of the front face. */
  lemma ParseFrontTokens()
    ensures ParseMove("F") == Quarter(Front, false) && ParseMove("F'") == Quarter(Front, true) && ParseMove("F2") == Half(Front)
  {
  }

  /** The three tokens of the back face. */
  lemma ParseBackTokens()
    ensures ParseMove("B") == Quarter(Back, false) && ParseMove("B'") == Quarter(Back, true) && ParseMove("B2") == Half(Back)
  {
  }

  /** The three tokens of the right face. */
  lemma ParseRightTokens()
    ensures ParseMove("R") == Quarter(Right, false) && ParseMove("R'") == Quarter(Right, true) && ParseMove("R2") == Half(Right)
  {
  }

  /** The three tokens of the left face. */
  lemma ParseLeftTokens()
    ensures ParseMove("L") == Quarter(Left, false) && ParseMove("L'") == Quarter(Left, true) && ParseMove("L2") == Half(Left)
  {
  }

  /** The three tokens of the top face. */
  lemma ParseTopTokens()
    ensures ParseMove("U") == Quarter(Top, false) && ParseMove("U'") == Quarter(Top, true) && ParseMove("U2") == Half(Top)
  {
  }

  /** The three tokens of the bottom face. */
  lemma ParseBottomTokens()
    ensures ParseMove("D") == Quarter(Bottom, false) && ParseMove("D'") == Quarter(Bottom, true) && ParseMove("D2") == Half(Bottom)
  {
  }

  /** The switch of applyMove, token by token. */
  lemma ParseTable()
    ensures ParseMove("F") == Quarter(Front, false) && ParseMove("F'") == Quarter(Front, true)
    ensures ParseMove("B") == Quarter(Back, false) && ParseMove("B'") == Quarter(Back, true)
    ensures ParseMove("R") == Quarter(Right, false) && ParseMove("R'") == Quarter(Right, true)
    ensures ParseMove("L") == Quarter(Left, false) && ParseMove("L'") == Quarter(Left, true)
    ensures ParseMove("U") == Quarter(Top, false) && ParseMove("U'") == Quarter(Top, true)
    ensures ParseMove("D") == Quarter(Bottom, false) && ParseMove("D'") == Quarter(Bottom, true)
    ensures ParseMove("F2") == Half(Front) && ParseMove("B2") == Half(Back) && ParseMove("R2") == Half(Right)
    ensures ParseMove("L2") == Half(Left) && ParseMove("U2") == Half(Top) && ParseMove("D2") == Half(Bottom)
  {
    ParseFrontTokens();
    ParseBackTokens();
    ParseRightTokens();
    ParseLeftTokens();
    ParseTopTokens();
    ParseBottomTokens();
  }

  /** A token applyMove handles is exactly the token of the move it is parsed to. */
  lemma ParsedToken(token: string)
    requires ParseMove(token) != Unknown
    ensures Token(ParseMove(token)) == token
  {
  }

  // ---------------------------------------------------------------------------
  // Moves as applyMove performs them

  /** A token outside the 18 handled ones gives back the state unchanged. */
  lemma UnknownKeeps(c: CubeState, token: string)
    requires WellFormed(c) && ParseMove(token) == Unknown
    ensures Apply(c, token) == c
  {
  }

  /** X then X', and X' then X, give back the state. */
  lemma QuarterThenInverse(c: CubeState, f: FaceName, ccw: bool)
    requires WellFormed(c)
    ensures Apply(Apply(c, Token(Quarter(f, ccw))), Token(Quarter(f, !ccw))) == c
  {
    TokenParses(Quarter(f, ccw));
    TokenParses(Quarter(f, !ccw));
    TurnInverse(c, f, ccw);
  }

  /** X applied four times gives back the state. */
  lemma QuarterFour(c: CubeState, f: FaceName)
    requires WellFormed(c)
    ensures var x := Token(Quarter(f, false));
            Apply(Apply(Apply(Apply(c, x), x), x), x) == c
  {
    TokenParses(Quarter(f, false));
    TurnFour(c, f);
  }

  /** X2 is X applied twice, and also X' applied twice. */
  lemma HalfIsTwoQuarters(c: CubeState, f: FaceName)
    requires WellFormed(c)
    ensures Apply(c, Token(Half(f))) == Apply(Apply(c, Token(Quarter(f, false))), Token(Quarter(f, false)))
    ensures Apply(c, Token(Half(f))) == Apply(Apply(c, Token(Quarter(f, true))), Token(Quarter(f, true)))
  {
    TokenParses(Half(f));
    TokenParses(Quarter(f, false));
    TokenParses(Quarter(f, true));
    var a := Turn(c, f, true);
    var b := Turn(a, f, true);
    // b turned twice clockwise is c turned twice counter-clockwise, then four times clockwise
    TurnFour(b, f);
    TurnInverse(a, f, true);
    TurnInverse(c, f, true);
    assert Turn(b, f, false) == a;
    assert Turn(Turn(b, f, false), f, false) == c;
    assert Turn(Turn(c, f, false), f, false) == b;
  }

  /** X2 applied twice gives back the state. */
  lemma HalfTwice(c: CubeState, f: FaceName)
    requires WellFormed(c)
    ensures Apply(Apply(c, Token(Half(f))), Token(Half(f))) == c
  {
    TokenParses(Half(f));
    TurnFour(c, f);
  }

  /** Every move keeps the multiset of the cube's colours. */
  lemma ApplyColors(c: CubeState, token: string)
    requires WellFormed(c)
    ensures Apply(c, token).faces.Colors() == c.faces.Colors()
  {
    match ParseMove(token)
    case Quarter(f, ccw) =>
      TurnColors(c, f, ccw);
    case Half(f) =>
      TurnColors(c, f, false);
      TurnColors(Turn(c, f, false), f, false);
    case Unknown =>
  }

  /** Any sequence of moves keeps the multiset of the cube's colours. */
  lemma {:induction false} ApplyAllColors(c: CubeState, tokens: seq<string>)
    requires WellFormed(c)
    ensures ApplyAll(c, tokens).faces.Colors() == c.faces.Colors()
    decreases |tokens|
  {
    if tokens != [] {
      ApplyAllColors(c, tokens[..|tokens| - 1]);
      ApplyColors(ApplyAll(c, tokens[..|tokens| - 1]), tokens[|tokens| - 1]);
    }
  }

  /** Applying a + b is applying a, then b. */
  lemma {:induction false} ApplyAllAppend(c: CubeState, a: seq<string>, b: seq<string>)
    requires WellFormed(c)
    ensures ApplyAll(c, a + b) == ApplyAll(ApplyAll(c, a), b)
    decreases |b|
  {
    if b == [] {
      assert a + b == a;
    } else {
      assert (a + b)[..|a + b| - 1] == a + b[..|b| - 1];
      ApplyAllAppend(c, a, b[..|b| - 1]);
    }
  }

  /** Applying init + [last] is applying init, then last. */
  lemma ApplyAllSnoc(c: CubeState, init: seq<string>, last: string)
    requires WellFormed(c)
    ensures ApplyAll(c, init + [last]) == Apply(ApplyAll(c, init), last)
  {
    assert (init + [last])[..|init|] == init;
  }

  /** Applying the first i + 1 tokens is applying the first i, then token i. */
  lemma ApplyAllPrefix(c: CubeState, ws: seq<string>, i: nat)
    requires WellFormed(c) && i < |ws|
    ensures ApplyAll(c, ws[..i + 1]) == Apply(ApplyAll(c, ws[..i]), ws[i])
  {
    assert ws[..i + 1][..i] == ws[..i];
  }

  /** Tokens that applyMove does not handle can be dropped from a sequence of moves. */
  lemma {:induction false} ApplyAllSkipsUnknown(c: CubeState, tokens: seq<string>)
    requires WellFormed(c)
    requires forall i :: 0 <= i < |tokens| ==> ParseMove(tokens[i]) == Unknown
    ensures ApplyAll(c, tokens) == c
    decreases |tokens|
  {
    if tokens != [] {
      ApplyAllSkipsUnknown(c, tokens[..|tokens| - 1]);
    }
  }

  // ---------------------------------------------------------------------------
  // Solved cubes

  /** m facelets of colour x hold x m times and nothing else. */
  lemma {:induction false} FillCount(m: nat, x: Color)
    ensures forall y :: multiset(Fill(m, x))[y] == if y == x then m else 0
  {
    if m > 0 {
      FillCount(m - 1, x);
      assert Fill(m, x) == Fill(m - 1, x) + [x];
    }
  }

  /** The solved cube of side n holds each of the six colours exactly n * n times. */
  lemma SolvedColors(n: nat)
    ensures forall x :: GenerateSolvedCube(n).faces.Colors()[x] == n * n
  {
    var m := n * n;
    FillCount(m, White);
    FillCount(m, Yellow);
    FillCount(m, Orange);
    FillCount(m, Red);
    FillCount(m, Green);
    FillCount(m, Blue);
  }

  /** A cube of side n whose faces are each painted in one colour, chosen per face. */
  function Painted(n: nat, paint: FaceName -> Color): (c: CubeState)
    ensures WellFormed(c) && c.size == n
  {
    CubeState(Faces(Fill(n * n, paint(Front)), Fill(n * n, paint(Back)), Fill(n * n, paint(Left)),
                    Fill(n * n, paint(Right)), Fill(n * n, paint(Top)), Fill(n * n, paint(Bottom))), n)
  }

  /**
   * isSolved holds exactly for the cubes whose faces are each painted in one
   * colour, whatever those colours are: each face in the colour of its first facelet.
   */
  lemma SolvedIffPainted(c: CubeState)
    requires WellFormed(c) && c.size > 0
    ensures IsSolved(c) <==> c == Painted(c.size, g => c.faces.Get(g)[0])
  {
    var n := c.size;
    var p := Painted(n, g => c.faces.Get(g)[0]);
    if IsSolved(c) {
      assert c.faces.front == p.faces.front;
      assert c.faces.back == p.faces.back;
      assert c.faces.left == p.faces.left;
      assert c.faces.right == p.faces.right;
      assert c.faces.top == p.faces.top;
      assert c.faces.bottom == p.faces.bottom;
    }
  }

  /** A face is uniform exactly when any two of its facelets have the same colour. */
  lemma UniformPairs(s: Face)
    ensures Uniform(s) <==> forall i, j :: 0 <= i < |s| && 0 <= j < |s| ==> s[i] == s[j]
  {
  }

  /**
   * isSolved, stated without the first facelet: on every face, any two
   * facelets have the same colour.
   */
  lemma SolvedIffUniform(c: CubeState)
    ensures IsSolved(c) <==>
            forall g: FaceName, i, j :: 0 <= i < |c.faces.Get(g)| && 0 <= j < |c.faces.Get(g)| ==>
              c.faces.Get(g)[i] == c.faces.Get(g)[j]
  {
    forall g: FaceName
      ensures Uniform(c.faces.Get(g)) <==>
              forall i, j :: 0 <= i < |c.faces.Get(g)| && 0 <= j < |c.faces.Get(g)| ==> c.faces.Get(g)[i] == c.faces.Get(g)[j]
    {
      UniformPairs(c.faces.Get(g));
    }
    if IsSolved(c) {
      forall g: FaceName
        ensures Uniform(c.faces.Get(g))
      {
        match g
        case Front =>
        case Back =>
        case Left =>
        case Right =>
        case Top =>
        case Bottom =>
      }
    }
    assert (Uniform(c.faces.Get(Front)) && Uniform(c.faces.Get(Back)) && Uniform(c.faces.Get(Left)) &&
            Uniform(c.faces.Get(Right)) && Uniform(c.faces.Get(Top)) && Uniform(c.faces.Get(Bottom))) ==> IsSolved(c);
  }

  /** The solved cube is painted in the home colours, so isSolved holds for it. */
  lemma GeneratedIsSolved(n: nat)
    ensures GenerateSolvedCube(n) == Painted(n, HomeColor)
    ensures IsSolved(GenerateSolvedCube(n))
  {
  }

  /**
   * On a solved cube of side at least 2 an R turn brings white onto the top
   * face (its column n-1 now starts with a white facelet) while its row 0
   * still starts with green, so the result is not solved.
   */
  lemma RightTurnUnsolves(n: nat)
    requires n >= 2
    ensures var r := Apply(GenerateSolvedCube(n), "R");
            ReadLine(r.faces.top, n, Col(true))[0] == White &&
            ReadLine(r.faces.top, n, Row(false))[0] == Green &&
            !IsSolved(r)
  {
    var c := GenerateSolvedCube(n);
    assert ParseMove("R") == Quarter(Right, false);
    var r := Turn(c, Right, false);
    var cy := Adjacent(Right);
    assert r.faces.top[n - 1] == White by {
      // top column n-1 receives front column n-1
      var fs := TurnFace(c.faces, n, Right, false);
      assert cy.slots[0] == Slot(Top, Col(true)) && cy.slots[1] == Slot(Front, Col(true));
      ReadAfterStep(fs, n, cy, true, 0);
      assert SlotLine(r.faces, n, cy.slots[0]) == ReadLine(c.faces.front, n, Col(true));
      LineIndexInv(n, Col(true), 0);
      assert LineIndex(n, Col(true), 0) == n - 1;
      assert ReadLine(r.faces.top, n, Col(true))[0] == White;
    }
    assert r.faces.top[0] == Green by {
      // top cell 0 is off that column
      TurnFrame(c, Right, false);
      assert cy.slots[0] == Slot(Top, Col(true));
      assert 0 % n == 0;
      assert !OnLine(n, Col(true), 0);
    }
    assert !Uniform(r.faces.top) by {
      assert r.faces.top[n - 1] != r.faces.top[0];
    }
    assert ReadLine(r.faces.top, n, Row(false))[0] == Green by {
      LineIndexInv(n, Row(false), 0);
      assert LineIndex(n, Row(false), 0) == 0;
    }
  }
}
