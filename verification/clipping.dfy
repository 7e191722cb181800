/**
 * Cohen–Sutherland line clipping against an axis-aligned window, as done by
 * `cohenSutherland` and its inner `computeCode` in static/js/script.js.
 *
 * Coordinates are exact reals. `Clip` is the specification: the loop of the
 * source unrolled as a recursive function, one round per call. The method
 * `CohenSutherland` is the loop itself, proved to compute `Clip`.
 */
module Clipping {

  /** A 4-bit region code: which half-planes outside the window a point is in. */
  type Outcode = bv4

  const INSIDE: Outcode := 0
  const LEFT: Outcode := 1
  const RIGHT: Outcode := 2
  const BOTTOM: Outcode := 4
  const TOP: Outcode := 8

  /** The clip window as the form hands it over; nothing forces xmin <= xmax. */
  datatype Window = Window(xmin: real, ymin: real, xmax: real, ymax: real)
  {
    predicate Ordered() {
      xmin <= xmax && ymin <= ymax
    }

    /** The closed rectangle [xmin, xmax] x [ymin, ymax]. */
    predicate Contains(x: real, y: real) {
      xmin <= x <= xmax && ymin <= y <= ymax
    }
  }

  datatype Segment = Segment(x1: real, y1: real, x2: real, y2: real)

  /** `{ accept: false }` or `{ accept: true, x1, y1, x2, y2 }`. */
  datatype ClipResult = Rejected | Accepted(seg: Segment)

  /** The region code of (x, y): each bit is set exactly when the point is
      beyond that boundary, LEFT/RIGHT and BOTTOM/TOP being tested in that
      order, so a point is never both LEFT and RIGHT, nor both BOTTOM and TOP. */
  function ComputeCode(clip: Window, x: real, y: real): (code: Outcode)
    ensures (code & LEFT != INSIDE) <==> x < clip.xmin
    ensures (code & RIGHT != INSIDE) <==> clip.xmin <= x && clip.xmax < x
    ensures (code & BOTTOM != INSIDE) <==> y < clip.ymin
    ensures (code & TOP != INSIDE) <==> clip.ymin <= y && clip.ymax < y
    ensures code & (LEFT | RIGHT) != LEFT | RIGHT
    ensures code & (BOTTOM | TOP) != BOTTOM | TOP
    ensures code == INSIDE <==> clip.Contains(x, y)
  {
    var horizontal := if x < clip.xmin then LEFT else if x > clip.xmax then RIGHT else INSIDE;
    var vertical := if y < clip.ymin then BOTTOM else if y > clip.ymax then TOP else INSIDE;
    INSIDE | horizontal | vertical
  }

  function Code1(clip: Window, s: Segment): Outcode {
    ComputeCode(clip, s.x1, s.y1)
  }

  function Code2(clip: Window, s: Segment): Outcode {
    ComputeCode(clip, s.x2, s.y2)
  }

  /** Neither trivial test decides: some endpoint is outside, and no boundary
      has both endpoints beyond it. The loop body then clips. */
  predicate Pending(clip: Window, s: Segment) {
    Code1(clip, s) | Code2(clip, s) != INSIDE && Code1(clip, s) & Code2(clip, s) == INSIDE
  }

  /** `code1 ? code1 : code2`: the code of the endpoint that will be moved. */
  function ChosenCode(clip: Window, s: Segment): (code: Outcode)
    requires Pending(clip, s)
    ensures code != INSIDE
  {
    if Code1(clip, s) != INSIDE then Code1(clip, s) else Code2(clip, s)
  }

  /** True when the first endpoint is the one moved (`code === code1`). */
  predicate MovesFirst(clip: Window, s: Segment)
    requires Pending(clip, s)
  {
    ChosenCode(clip, s) == Code1(clip, s)
  }

  /** The boundary clipped against: the first bit of `code` in the order
      TOP, BOTTOM, RIGHT, LEFT. */
  function Boundary(code: Outcode): (bit: Outcode)
    requires code != INSIDE
    ensures bit == TOP || bit == BOTTOM || bit == RIGHT || bit == LEFT
    ensures code & bit == bit
    ensures bit == RIGHT || bit == LEFT ==> code & (TOP | BOTTOM) == INSIDE
  {
    if code & TOP != INSIDE then TOP
    else if code & BOTTOM != INSIDE then BOTTOM
    else if code & RIGHT != INSIDE then RIGHT
    else LEFT
  }

  function ClippedBit(clip: Window, s: Segment): Outcode
    requires Pending(clip, s)
  {
    Boundary(ChosenCode(clip, s))
  }

  /** Safe division: the denominator of the intersection formula that the
      chosen boundary uses is never zero. The moved endpoint is beyond that
      boundary and the other endpoint is not, so they differ in the
      coordinate that boundary constrains. */
  lemma SafeDivision(clip: Window, s: Segment)
    requires Pending(clip, s)
    ensures ClippedBit(clip, s) == TOP || ClippedBit(clip, s) == BOTTOM ==> s.y2 - s.y1 != 0.0
    ensures ClippedBit(clip, s) == RIGHT || ClippedBit(clip, s) == LEFT ==> s.x2 - s.x1 != 0.0
  {
    var c1, c2 := Code1(clip, s), Code2(clip, s);
    var bit := ClippedBit(clip, s);
    if MovesFirst(clip, s) {
      assert c1 & bit == bit && c2 & bit == INSIDE;
    } else {
      assert c2 & bit == bit && c1 & bit == INSIDE;
    }
  }

  /** The parametric line equation as the source writes it: on the line
      through (a1, b1) and (a2, b2), the a-coordinate of the point whose
      b-coordinate is v. */
  function LineAt(a1: real, a2: real, b1: real, b2: real, v: real): real
    requires b2 - b1 != 0.0
  {
    a1 + (a2 - a1) * (v - b1) / (b2 - b1)
  }

  /** The intersection of the segment's line with boundary `bit`. */
  function Intersection(clip: Window, s: Segment, bit: Outcode): (real, real)
    requires bit == TOP || bit == BOTTOM ==> s.y2 - s.y1 != 0.0
    requires bit != TOP && bit != BOTTOM ==> s.x2 - s.x1 != 0.0
  {
    if bit == TOP then (LineAt(s.x1, s.x2, s.y1, s.y2, clip.ymax), clip.ymax)
    else if bit == BOTTOM then (LineAt(s.x1, s.x2, s.y1, s.y2, clip.ymin), clip.ymin)
    else if bit == RIGHT then (clip.xmax, LineAt(s.y1, s.y2, s.x1, s.x2, clip.xmax))
    else (clip.xmin, LineAt(s.y1, s.y2, s.x1, s.x2, clip.xmin))
  }

  /** One round of the loop after both trivial tests failed: the chosen
      endpoint is replaced by the intersection of the segment's line with the
      chosen boundary. */
  function ClipStep(clip: Window, s: Segment): Segment
    requires Pending(clip, s)
  {
    SafeDivision(clip, s);
    var (x, y) := Intersection(clip, s, ClippedBit(clip, s));
    if MovesFirst(clip, s) then Segment(x, y, s.x2, s.y2) else Segment(s.x1, s.y1, x, y)
  }

  /** Number of bits set in an outcode. */
  function Popcount(code: Outcode): (n: nat)
    ensures n <= 4
    ensures n == 0 <==> code == INSIDE
  {
    (if code & LEFT != INSIDE then 1 else 0) + (if code & RIGHT != INSIDE then 1 else 0) +
    (if code & BOTTOM != INSIDE then 1 else 0) + (if code & TOP != INSIDE then 1 else 0)
  }

  lemma PopcountShrinks(smaller: Outcode, larger: Outcode)
    requires smaller & larger == smaller && smaller != larger
    ensures Popcount(smaller) < Popcount(larger)
  {
  }

  /** The termination measure of the loop: 0 once the codes share a bit (the
      next round rejects), otherwise one more than the bits of `code1 | code2`. */
  function Progress(clip: Window, s: Segment): (n: nat)
    ensures n <= 5
    ensures Pending(clip, s) ==> n >= 2
  {
    var c1, c2 := Code1(clip, s), Code2(clip, s);
    if c1 & c2 != INSIDE then 0 else Popcount(c1 | c2) + 1
  }

  /** Linear interpolation: the point at parameter t on the line from a to b. */
  function Lerp(a: real, b: real, t: real): real {
    a + (b - a) * t
  }

  /** The part of s between parameters t1 and t2. */
  function Sub(s: Segment, t1: real, t2: real): Segment {
    Segment(Lerp(s.x1, s.x2, t1), Lerp(s.y1, s.y2, t1), Lerp(s.x1, s.x2, t2), Lerp(s.y1, s.y2, t2))
  }

  /** r lies on s with the same direction: its endpoints are convex
      combinations of the endpoints of s, in order. */
  ghost predicate SubSegment(r: Segment, s: Segment) {
    exists t1: real, t2: real :: 0.0 <= t1 <= t2 <= 1.0 && r == Sub(s, t1, t2)
  }

  /** The parameter, on the line through the endpoints of s, of
      `Intersection(clip, s, bit)`. */
  ghost function Param(clip: Window, s: Segment, bit: Outcode): real
    requires bit == TOP || bit == BOTTOM ==> s.y2 - s.y1 != 0.0
    requires bit != TOP && bit != BOTTOM ==> s.x2 - s.x1 != 0.0
  {
    if bit == TOP then Ratio(s.y1, s.y2, clip.ymax)
    else if bit == BOTTOM then Ratio(s.y1, s.y2, clip.ymin)
    else if bit == RIGHT then Ratio(s.x1, s.x2, clip.xmax)
    else Ratio(s.x1, s.x2, clip.xmin)
  }

  /** Where v falls between b1 (parameter 0) and b2 (parameter 1). */
  ghost function Ratio(b1: real, b2: real, v: real): real
    requires b2 - b1 != 0.0
  {
    (v - b1) / (b2 - b1)
  }

  /** The parameter of the point the step moves to. */
  ghost function StepParam(clip: Window, s: Segment): real
    requires Pending(clip, s)
  {
    SafeDivision(clip, s);
    Param(clip, s, ClippedBit(clip, s))
  }

  /** The window is ordered along the axis that `bit` constrains. */
  predicate AxisOrdered(clip: Window, bit: Outcode) {
    if bit == TOP || bit == BOTTOM then clip.ymin <= clip.ymax else clip.xmin <= clip.xmax
  }

  lemma MulNonneg(a: real, b: real)
    requires 0.0 <= a && 0.0 <= b
    ensures 0.0 <= a * b
  {
  }

  lemma MulPos(a: real, b: real)
    requires 0.0 < a && 0.0 < b
    ensures 0.0 < a * b
  {
  }

  lemma LineFormula(a1: real, a2: real, b1: real, b2: real, v: real)
    requires b2 - b1 != 0.0
    ensures LineAt(a1, a2, b1, b2, v) == Lerp(a1, a2, Ratio(b1, b2, v))
    ensures Lerp(b1, b2, Ratio(b1, b2, v)) == v
  {
    var t := (v - b1) / (b2 - b1);
    assert (a2 - a1) * (v - b1) / (b2 - b1) == (a2 - a1) * t;
    assert (b2 - b1) * t == v - b1;
  }

  /** A quotient n / d with n between 0 and d lies in [0, 1]. */
  lemma DivInUnit(n: real, d: real)
    requires (0.0 <= n <= d && 0.0 < d) || (d <= n <= 0.0 && d < 0.0)
    ensures 0.0 <= n / d <= 1.0
  {
    var q := n / d;
    assert q * d == n;
    assert (q - 1.0) * d == n - d;
    if d > 0.0 {
      if q < 0.0 {
        MulPos(-q, d);
        assert false;
      }
      if q > 1.0 {
        MulPos(q - 1.0, d);
        assert false;
      }
    } else {
      if q < 0.0 {
        MulPos(-q, -d);
        assert false;
      }
      if q > 1.0 {
        MulPos(q - 1.0, -d);
        assert false;
      }
    }
  }

  lemma RatioInUnit(b1: real, b2: real, v: real)
    requires b2 - b1 != 0.0
    requires b1 <= v <= b2 || b2 <= v <= b1
    ensures 0.0 <= Ratio(b1, b2, v) <= 1.0
  {
    DivInUnit(v - b1, b2 - b1);
  }

  lemma LerpBetween(a: real, b: real, t: real)
    requires 0.0 <= t <= 1.0
    ensures a <= b ==> a <= Lerp(a, b, t) <= b
    ensures b <= a ==> b <= Lerp(a, b, t) <= a
  {
    if a <= b {
      MulNonneg(b - a, t);
      MulNonneg(b - a, 1.0 - t);
    } else {
      MulNonneg(a - b, t);
      MulNonneg(a - b, 1.0 - t);
    }
  }

  /** The intersection formula is the parametric line equation: the point it
      yields is at parameter `Param` on the line through the endpoints. */
  lemma IntersectionOnLine(clip: Window, s: Segment, bit: Outcode)
    requires bit == TOP || bit == BOTTOM ==> s.y2 - s.y1 != 0.0
    requires bit != TOP && bit != BOTTOM ==> s.x2 - s.x1 != 0.0
    ensures Intersection(clip, s, bit) ==
      (Lerp(s.x1, s.x2, Param(clip, s, bit)), Lerp(s.y1, s.y2, Param(clip, s, bit)))
  {
    if bit == TOP {
      LineFormula(s.x1, s.x2, s.y1, s.y2, clip.ymax);
    } else if bit == BOTTOM {
      LineFormula(s.x1, s.x2, s.y1, s.y2, clip.ymin);
    } else if bit == RIGHT {
      LineFormula(s.y1, s.y2, s.x1, s.x2, clip.xmax);
    } else {
      LineFormula(s.y1, s.y2, s.x1, s.x2, clip.xmin);
    }
  }

  /** Along an ordered axis the clipped boundary lies between the two
      endpoints, so the step's parameter is in [0, 1]. */
  lemma StepParamInUnit(clip: Window, s: Segment)
    requires Pending(clip, s) && AxisOrdered(clip, ClippedBit(clip, s))
    ensures 0.0 <= StepParam(clip, s) <= 1.0
  {
    SafeDivision(clip, s);
    var bit := ClippedBit(clip, s);
    var c1, c2 := Code1(clip, s), Code2(clip, s);
    if MovesFirst(clip, s) {
      assert c1 & bit == bit && c2 & bit == INSIDE;
    } else {
      assert c2 & bit == bit && c1 & bit == INSIDE;
    }
    if bit == TOP {
      RatioInUnit(s.y1, s.y2, clip.ymax);
    } else if bit == BOTTOM {
      RatioInUnit(s.y1, s.y2, clip.ymin);
    } else if bit == RIGHT {
      RatioInUnit(s.x1, s.x2, clip.xmax);
    } else {
      RatioInUnit(s.x1, s.x2, clip.xmin);
    }
  }

  /** When the clipped axis is ordered, the step keeps a piece of s: the moved
      endpoint goes to a parameter in [0, 1]. */
  lemma StepOnSegment(clip: Window, s: Segment)
    requires Pending(clip, s) && AxisOrdered(clip, ClippedBit(clip, s))
    ensures 0.0 <= StepParam(clip, s) <= 1.0
    ensures ClipStep(clip, s) ==
      if MovesFirst(clip, s) then Sub(s, StepParam(clip, s), 1.0) else Sub(s, 0.0, StepParam(clip, s))
  {
    SafeDivision(clip, s);
    StepParamInUnit(clip, s);
    IntersectionOnLine(clip, s, ClippedBit(clip, s));
  }

  /** A point between the endpoints of s (coordinate by coordinate) is beyond
      no boundary that neither endpoint is beyond. */
  lemma BetweenCodeCovered(clip: Window, s: Segment, x: real, y: real)
    requires s.x1 <= x <= s.x2 || s.x2 <= x <= s.x1
    requires s.y1 <= y <= s.y2 || s.y2 <= y <= s.y1
    ensures ComputeCode(clip, x, y) & (Code1(clip, s) | Code2(clip, s)) == ComputeCode(clip, x, y)
  {
  }

  /** Termination: every round strictly lowers `Progress`. Along an ordered
      axis, the round removes the clipped bit from `code1 | code2` and adds
      none; along an inverted axis, both endpoints end up beyond the same
      boundary, so the next round rejects. */
  lemma StepProgress(clip: Window, s: Segment)
    requires Pending(clip, s)
    ensures Progress(clip, ClipStep(clip, s)) < Progress(clip, s)
  {
    var bit := ClippedBit(clip, s);
    var s' := ClipStep(clip, s);
    var c1, c2 := Code1(clip, s), Code2(clip, s);
    var n1, n2 := Code1(clip, s'), Code2(clip, s');
    if AxisOrdered(clip, bit) {
      StepCodesShrink(clip, s);
      PopcountShrinks(n1 | n2, c1 | c2);
    } else {
      // Every point is beyond exactly one boundary of the inverted axis, so
      // the first endpoint is the one moved, and it lands beyond the same
      // boundary of that axis as the second.
      assert MovesFirst(clip, s);
      assert c1 & bit == bit && c2 & bit == INSIDE;
      assert n1 & n2 != INSIDE;
    }
  }

  /** Along an ordered axis a round removes the clipped bit from
      `code1 | code2` and adds no other. */
  lemma StepCodesShrink(clip: Window, s: Segment)
    requires Pending(clip, s) && AxisOrdered(clip, ClippedBit(clip, s))
    ensures var s' := ClipStep(clip, s);
      (Code1(clip, s') | Code2(clip, s')) & (Code1(clip, s) | Code2(clip, s)) == Code1(clip, s') | Code2(clip, s')
    ensures var s' := ClipStep(clip, s);
      (Code1(clip, s') | Code2(clip, s')) & ClippedBit(clip, s) == INSIDE
    ensures (Code1(clip, s) | Code2(clip, s)) & ClippedBit(clip, s) != INSIDE
  {
    var bit := ClippedBit(clip, s);
    var t := StepParam(clip, s);
    StepOnSegment(clip, s);
    LerpBetween(s.x1, s.x2, t);
    LerpBetween(s.y1, s.y2, t);
    var x, y := Lerp(s.x1, s.x2, t), Lerp(s.y1, s.y2, t);
    BetweenCodeCovered(clip, s, x, y);
    var c1, c2 := Code1(clip, s), Code2(clip, s);
    if MovesFirst(clip, s) {
      assert c1 & bit == bit && c2 & bit == INSIDE;
      assert ClipStep(clip, s) == Segment(x, y, s.x2, s.y2);
    } else {
      assert c2 & bit == bit && c1 & bit == INSIDE;
      assert ClipStep(clip, s) == Segment(s.x1, s.y1, x, y);
    }
  }

  /** The clipping loop as a function: trivial accept, trivial reject, or one
      more round on the clipped segment. Defined for every window. */
  function Clip(clip: Window, s: Segment): ClipResult
    decreases Progress(clip, s)
  {
    var c1, c2 := Code1(clip, s), Code2(clip, s);
    if c1 | c2 == INSIDE then Accepted(s)
    else if c1 & c2 != INSIDE then Rejected
    else
      StepProgress(clip, s);
      Clip(clip, ClipStep(clip, s))
  }

  /** The number of rounds that clip (move an endpoint) before a trivial test
      decides. */
  function Rounds(clip: Window, s: Segment): nat
    decreases Progress(clip, s)
  {
    var c1, c2 := Code1(clip, s), Code2(clip, s);
    if c1 | c2 == INSIDE || c1 & c2 != INSIDE then 0
    else
      StepProgress(clip, s);
      1 + Rounds(clip, ClipStep(clip, s))
  }

  /** Each round lowers `Progress`, which starts at most at 5 and is at least
      1 while a round is still to come, so at most four rounds clip. */
  lemma {:induction false} RoundsBound(clip: Window, s: Segment)
    ensures Rounds(clip, s) == 0 || Rounds(clip, s) + 1 <= Progress(clip, s)
    ensures Rounds(clip, s) <= 4
    decreases Progress(clip, s)
  {
    if Pending(clip, s) {
      StepProgress(clip, s);
      RoundsBound(clip, ClipStep(clip, s));
    }
  }

  /** `cohenSutherland(x1, y1, x2, y2, clip)`: the source's `while (true)`
      loop over the four coordinates and two codes. At most four rounds clip
      before the loop returns. */
  method CohenSutherland(x1: real, y1: real, x2: real, y2: real, clip: Window)
    returns (result: ClipResult, ghost rounds: nat)
    ensures result == Clip(clip, Segment(x1, y1, x2, y2))
    ensures rounds == Rounds(clip, Segment(x1, y1, x2, y2)) && rounds <= 4
  {
    ghost var input := Segment(x1, y1, x2, y2);
    var x1, y1, x2, y2 := x1, y1, x2, y2;
    var code1 := ComputeCode(clip, x1, y1);
    var code2 := ComputeCode(clip, x2, y2);
    rounds := 0;
    RoundsBound(clip, input);
    while true
      invariant code1 == ComputeCode(clip, x1, y1) && code2 == ComputeCode(clip, x2, y2)
      invariant Clip(clip, Segment(x1, y1, x2, y2)) == Clip(clip, input)
      invariant rounds + Rounds(clip, Segment(x1, y1, x2, y2)) == Rounds(clip, input)
      decreases Progress(clip, Segment(x1, y1, x2, y2))
    {
      if code1 | code2 == INSIDE {
        result := Accepted(Segment(x1, y1, x2, y2));
        return;
      }
      ghost var s := Segment(x1, y1, x2, y2);
      assert Code1(clip, s) == code1 && Code2(clip, s) == code2;
      if code1 & code2 != INSIDE {
        result := Rejected;
        return;
      }
      SafeDivision(clip, s);
      var code := if code1 != INSIDE then code1 else code2;
      var x, y;
      if code & TOP != INSIDE {
        x := LineAt(x1, x2, y1, y2, clip.ymax);
        y := clip.ymax;
      } else if code & BOTTOM != INSIDE {
        x := LineAt(x1, x2, y1, y2, clip.ymin);
        y := clip.ymin;
      } else if code & RIGHT != INSIDE {
        y := LineAt(y1, y2, x1, x2, clip.xmax);
        x := clip.xmax;
      } else {
        assert code & LEFT != INSIDE;
        y := LineAt(y1, y2, x1, x2, clip.xmin);
        x := clip.xmin;
      }
      assert (x, y) == Intersection(clip, s, ClippedBit(clip, s));
      if code == code1 {
        x1, y1 := x, y;
        code1 := ComputeCode(clip, x1, y1);
      } else {
        x2, y2 := x, y;
        code2 := ComputeCode(clip, x2, y2);
      }
      assert Segment(x1, y1, x2, y2) == ClipStep(clip, s);
      StepProgress(clip, s);
      rounds := rounds + 1;
    }
  }
}
