/**
 * What the Cohen–Sutherland loop of static/js/script.js guarantees, stated
 * about its specification `Clipping.Clip` (and so, through the ensures of
 * `Clipping.CohenSutherland`, about the loop itself).
 */
module ClipProperties {
  import opened Clipping

  /** Both endpoints inside the window: the first round accepts the segment
      as it is. */
  lemma TrivialAccept(clip: Window, s: Segment)
    requires clip.Contains(s.x1, s.y1) && clip.Contains(s.x2, s.y2)
    ensures Clip(clip, s) == Accepted(s)
  {
  }

  /** Both endpoints beyond the same boundary: the first round rejects. */
  lemma TrivialReject(clip: Window, s: Segment)
    requires Code1(clip, s) & Code2(clip, s) != INSIDE
    ensures Clip(clip, s) == Rejected
  {
  }

  /** Whatever the window, an accepted segment has both endpoints inside the
      closed window, which therefore is ordered. */
  lemma {:induction false} AcceptedInside(clip: Window, s: Segment)
    ensures Clip(clip, s).Accepted? ==>
      clip.Contains(Clip(clip, s).seg.x1, Clip(clip, s).seg.y1) &&
      clip.Contains(Clip(clip, s).seg.x2, Clip(clip, s).seg.y2)
    ensures Clip(clip, s).Accepted? ==> clip.Ordered()
    decreases Progress(clip, s)
  {
    if Pending(clip, s) {
      StepProgress(clip, s);
      AcceptedInside(clip, ClipStep(clip, s));
    }
  }

  /** Clipping an accepted result again against the same window gives it
      back unchanged. */
  lemma Idempotent(clip: Window, s: Segment)
    ensures Clip(clip, s).Accepted? ==> Clip(clip, Clip(clip, s).seg) == Clip(clip, s)
  {
    if Clip(clip, s).Accepted? {
      AcceptedInside(clip, s);
      TrivialAccept(clip, Clip(clip, s).seg);
    }
  }

  lemma LerpOfLerp(p: real, q: real, a: real, b: real, t: real)
    ensures Lerp(Lerp(p, q, a), Lerp(p, q, b), t) == Lerp(p, q, a + (b - a) * t)
  {
    calc {
      Lerp(Lerp(p, q, a), Lerp(p, q, b), t);
      (p + (q - p) * a) + ((p + (q - p) * b) - (p + (q - p) * a)) * t;
      { assert (p + (q - p) * b) - (p + (q - p) * a) == (q - p) * (b - a); }
      p + (q - p) * a + (q - p) * (b - a) * t;
      p + (q - p) * (a + (b - a) * t);
    }
  }

  /** A piece of a piece of s is a piece of s: the piece of Sub(s, a, b)
      from t1 to t2 is the piece of s from T1 to T2, the parameters composed. */
  lemma SubOfSub(s: Segment, a: real, b: real, t1: real, t2: real) returns (T1: real, T2: real)
    requires 0.0 <= a <= b <= 1.0 && 0.0 <= t1 <= t2 <= 1.0
    ensures T1 == a + (b - a) * t1 && T2 == a + (b - a) * t2
    ensures Sub(Sub(s, a, b), t1, t2) == Sub(s, T1, T2)
    ensures a <= T1 <= T2 <= b
    ensures t1 == 0.0 ==> T1 == a
    ensures t2 == 1.0 ==> T2 == b
  {
    T1, T2 := a + (b - a) * t1, a + (b - a) * t2;
    LerpOfLerp(s.x1, s.x2, a, b, t1);
    LerpOfLerp(s.y1, s.y2, a, b, t1);
    LerpOfLerp(s.x1, s.x2, a, b, t2);
    LerpOfLerp(s.y1, s.y2, a, b, t2);
    MulNonneg(b - a, t1);
    MulNonneg(b - a, t2 - t1);
    MulNonneg(b - a, 1.0 - t2);
  }

  lemma SubWhole(s: Segment)
    ensures Sub(s, 0.0, 1.0) == s
  {
  }

  /** A piece of a piece of s is a piece of s. */
  lemma SubSegmentOfPiece(r: Segment, s: Segment, a: real, b: real)
    requires 0.0 <= a <= b <= 1.0 && SubSegment(r, Sub(s, a, b))
    ensures SubSegment(r, s)
  {
    var t1, t2 :| 0.0 <= t1 <= t2 <= 1.0 && r == Sub(Sub(s, a, b), t1, t2);
    var T1, T2 := SubOfSub(s, a, b, t1, t2);
    assert 0.0 <= T1 <= T2 <= 1.0 && r == Sub(s, T1, T2);
  }

  /** For an ordered window, one round keeps a piece of the segment. */
  lemma StepPiece(clip: Window, s: Segment) returns (a: real, b: real)
    requires clip.Ordered() && Pending(clip, s)
    ensures 0.0 <= a <= b <= 1.0 && ClipStep(clip, s) == Sub(s, a, b)
    ensures if MovesFirst(clip, s) then b == 1.0 else a == 0.0
  {
    StepOnSegment(clip, s);
    var u := StepParam(clip, s);
    if MovesFirst(clip, s) {
      a, b := u, 1.0;
    } else {
      a, b := 0.0, u;
    }
  }

  /** Clipping unrolls by one round while neither trivial test decides. */
  lemma Unroll(clip: Window, s: Segment)
    requires Pending(clip, s)
    ensures Clip(clip, s) == Clip(clip, ClipStep(clip, s))
  {
  }

  /** An accepted segment lies on the input segment, its endpoints being
      convex combinations of the input's endpoints, in the same order. (A
      window that is not ordered accepts nothing.) */
  lemma {:induction false} AcceptedOnSegment(clip: Window, s: Segment)
    ensures Clip(clip, s).Accepted? ==> SubSegment(Clip(clip, s).seg, s)
    decreases Progress(clip, s)
  {
    AcceptedInside(clip, s);
    if Pending(clip, s) && clip.Ordered() {
      var s' := ClipStep(clip, s);
      StepProgress(clip, s);
      Unroll(clip, s);
      AcceptedOnSegment(clip, s');
      if Clip(clip, s').Accepted? {
        var a, b := StepPiece(clip, s);
        SubSegmentOfPiece(Clip(clip, s').seg, s, a, b);
      }
    } else if !Pending(clip, s) && Clip(clip, s).Accepted? {
      SubWhole(s);
      assert Clip(clip, s).seg == Sub(s, 0.0, 1.0);
    }
  }

  /** The point of s at parameter t lies in the closed window. */
  ghost predicate Visible(clip: Window, s: Segment, t: real) {
    clip.Contains(Lerp(s.x1, s.x2, t), Lerp(s.y1, s.y2, t))
  }

  /** Between parameters t1 and t2 lie exactly the visible points of s. */
  ghost predicate VisibleExactly(clip: Window, s: Segment, t1: real, t2: real) {
    forall t :: 0.0 <= t <= 1.0 ==> (Visible(clip, s, t) <==> t1 <= t <= t2)
  }

  /** Every visible point of s has its parameter in [t1, t2]. */
  ghost predicate VisibleWithin(clip: Window, s: Segment, t1: real, t2: real) {
    forall t :: 0.0 <= t <= 1.0 && Visible(clip, s, t) ==> t1 <= t <= t2
  }

  /** r is the visible part of s: the piece of s, in the same direction,
      holding all of the points of s in the window and no other. */
  ghost predicate VisiblePart(clip: Window, r: Segment, s: Segment) {
    exists t1: real, t2: real :: 0.0 <= t1 <= t2 <= 1.0 && r == Sub(s, t1, t2) && VisibleExactly(clip, s, t1, t2)
  }

  /** How far (x, y) is beyond boundary `bit`: positive beyond it, zero on it. */
  function Excess(clip: Window, bit: Outcode, x: real, y: real): real {
    if bit == TOP then y - clip.ymax
    else if bit == BOTTOM then clip.ymin - y
    else if bit == RIGHT then x - clip.xmax
    else clip.xmin - x
  }

  lemma ExcessOfCode(clip: Window, bit: Outcode, x: real, y: real)
    requires bit == TOP || bit == BOTTOM || bit == RIGHT || bit == LEFT
    requires ComputeCode(clip, x, y) & bit != INSIDE
    ensures Excess(clip, bit, x, y) > 0.0
  {
  }

  lemma ContainsNoExcess(clip: Window, x: real, y: real)
    ensures clip.Contains(x, y) <==>
      Excess(clip, TOP, x, y) <= 0.0 && Excess(clip, BOTTOM, x, y) <= 0.0 &&
      Excess(clip, RIGHT, x, y) <= 0.0 && Excess(clip, LEFT, x, y) <= 0.0
  {
  }

  /** Along s, the excess over a boundary is the interpolation of its values
      at the endpoints. */
  lemma ExcessAlong(clip: Window, bit: Outcode, s: Segment, t: real)
    ensures Excess(clip, bit, Lerp(s.x1, s.x2, t), Lerp(s.y1, s.y2, t)) ==
      Lerp(Excess(clip, bit, s.x1, s.y1), Excess(clip, bit, s.x2, s.y2), t)
  {
    if bit == BOTTOM {
      assert (clip.ymin - s.y2 - (clip.ymin - s.y1)) * t == -((s.y2 - s.y1) * t);
    } else if bit != TOP && bit != RIGHT {
      assert (clip.xmin - s.x2 - (clip.xmin - s.x1)) * t == -((s.x2 - s.x1) * t);
    }
  }

  /** The intersection the step moves to is on the chosen boundary. */
  lemma IntersectionOnBoundary(clip: Window, s: Segment, bit: Outcode)
    requires bit == TOP || bit == BOTTOM ==> s.y2 - s.y1 != 0.0
    requires bit != TOP && bit != BOTTOM ==> s.x2 - s.x1 != 0.0
    ensures Excess(clip, bit, Intersection(clip, s, bit).0, Intersection(clip, s, bit).1) == 0.0
  {
  }

  /** A value interpolated at t between ta and tb lies between its values at
      ta and tb. */
  lemma LerpBetweenParams(e0: real, e1: real, ta: real, tb: real, t: real)
    requires ta <= t <= tb
    ensures Lerp(e0, e1, ta) <= Lerp(e0, e1, t) <= Lerp(e0, e1, tb) ||
            Lerp(e0, e1, tb) <= Lerp(e0, e1, t) <= Lerp(e0, e1, ta)
  {
    var d := e1 - e0;
    assert Lerp(e0, e1, t) - Lerp(e0, e1, ta) == d * (t - ta);
    assert Lerp(e0, e1, tb) - Lerp(e0, e1, t) == d * (tb - t);
    if d >= 0.0 {
      MulNonneg(d, t - ta);
      MulNonneg(d, tb - t);
    } else {
      MulNonneg(-d, t - ta);
      MulNonneg(-d, tb - t);
    }
  }

  /** An interpolated value positive at ta and zero at tm stays positive from
      ta up to, but excluding, tm. */
  lemma LerpPositiveBeforeZero(e0: real, e1: real, ta: real, tm: real, t: real)
    requires Lerp(e0, e1, ta) > 0.0 && Lerp(e0, e1, tm) == 0.0
    requires ta <= t < tm || tm < t <= ta
    ensures Lerp(e0, e1, t) > 0.0
  {
    var d := e1 - e0;
    if ta < tm {
      assert d < 0.0 by {
        assert Lerp(e0, e1, ta) == -(d * (tm - ta));
        if d >= 0.0 { MulNonneg(d, tm - ta); }
      }
      MulPos(-d, tm - t);
      assert Lerp(e0, e1, t) == (-d) * (tm - t);
    } else {
      assert d > 0.0 by {
        assert Lerp(e0, e1, ta) == d * (ta - tm);
        if d <= 0.0 { MulNonneg(-d, ta - tm); }
      }
      MulPos(d, t - tm);
      assert Lerp(e0, e1, t) == d * (t - tm);
    }
  }

  /** The induction behind exactness: if every visible point of s0 has its
      parameter in [a, b], then clipping the piece Sub(s0, a, b) rejects only
      when no point of s0 is visible, and accepts exactly the visible part. */
  lemma {:induction false} ClipExactFrom(clip: Window, s0: Segment, a: real, b: real)
    requires clip.Ordered() && 0.0 <= a <= b <= 1.0
    requires VisibleWithin(clip, s0, a, b)
    ensures Clip(clip, Sub(s0, a, b)) == Rejected ==>
      forall t :: 0.0 <= t <= 1.0 ==> !Visible(clip, s0, t)
    ensures Clip(clip, Sub(s0, a, b)).Accepted? ==> VisiblePart(clip, Clip(clip, Sub(s0, a, b)).seg, s0)
    decreases Progress(clip, Sub(s0, a, b))
  {
    var s := Sub(s0, a, b);
    var c1, c2 := Code1(clip, s), Code2(clip, s);
    if c1 | c2 == INSIDE {
      ExactWhenInside(clip, s0, a, b);
    } else if c1 & c2 != INSIDE {
      NothingVisibleWhenShared(clip, s0, a, b);
    } else {
      var a', b' := StepWithin(clip, s0, a, b);
      StepProgress(clip, s);
      Unroll(clip, s);
      ClipExactFrom(clip, s0, a', b');
    }
  }

  /** Trivial accept of a piece: it is the visible part. */
  lemma ExactWhenInside(clip: Window, s0: Segment, a: real, b: real)
    requires 0.0 <= a <= b <= 1.0 && VisibleWithin(clip, s0, a, b)
    requires Code1(clip, Sub(s0, a, b)) == INSIDE && Code2(clip, Sub(s0, a, b)) == INSIDE
    ensures VisibleExactly(clip, s0, a, b)
  {
    forall t | 0.0 <= t <= 1.0 && a <= t <= b
      ensures Visible(clip, s0, t)
    {
      forall bit | bit == TOP || bit == BOTTOM || bit == RIGHT || bit == LEFT
        ensures Excess(clip, bit, Lerp(s0.x1, s0.x2, t), Lerp(s0.y1, s0.y2, t)) <= 0.0
      {
        var e0, e1 := Excess(clip, bit, s0.x1, s0.y1), Excess(clip, bit, s0.x2, s0.y2);
        ExcessAlong(clip, bit, s0, a);
        ExcessAlong(clip, bit, s0, b);
        ExcessAlong(clip, bit, s0, t);
        ContainsNoExcess(clip, Lerp(s0.x1, s0.x2, a), Lerp(s0.y1, s0.y2, a));
        ContainsNoExcess(clip, Lerp(s0.x1, s0.x2, b), Lerp(s0.y1, s0.y2, b));
        LerpBetweenParams(e0, e1, a, b, t);
      }
      ContainsNoExcess(clip, Lerp(s0.x1, s0.x2, t), Lerp(s0.y1, s0.y2, t));
    }
  }

  /** Trivial reject of a piece: both its ends are beyond one boundary, so is
      all of it, and nothing of s0 is visible. */
  lemma NothingVisibleWhenShared(clip: Window, s0: Segment, a: real, b: real)
    requires 0.0 <= a <= b <= 1.0 && VisibleWithin(clip, s0, a, b)
    requires Code1(clip, Sub(s0, a, b)) & Code2(clip, Sub(s0, a, b)) != INSIDE
    ensures forall t :: 0.0 <= t <= 1.0 ==> !Visible(clip, s0, t)
  {
    var s := Sub(s0, a, b);
    var bit := Boundary(Code1(clip, s) & Code2(clip, s));
    var e0, e1 := Excess(clip, bit, s0.x1, s0.y1), Excess(clip, bit, s0.x2, s0.y2);
    ExcessOfCode(clip, bit, s.x1, s.y1);
    ExcessOfCode(clip, bit, s.x2, s.y2);
    ExcessAlong(clip, bit, s0, a);
    ExcessAlong(clip, bit, s0, b);
    forall t | 0.0 <= t <= 1.0
      ensures !Visible(clip, s0, t)
    {
      if Visible(clip, s0, t) {
        ExcessAlong(clip, bit, s0, t);
        LerpBetweenParams(e0, e1, a, b, t);
        ContainsNoExcess(clip, Lerp(s0.x1, s0.x2, t), Lerp(s0.y1, s0.y2, t));
        assert false;
      }
    }
  }

  /** The points of s0 from parameter ta up to, but excluding, tm are not
      visible when s0 is beyond boundary `bit` at ta and on it at tm. */
  lemma InvisibleBeforeBoundary(clip: Window, s0: Segment, bit: Outcode, ta: real, tm: real, t: real)
    requires bit == TOP || bit == BOTTOM || bit == RIGHT || bit == LEFT
    requires Excess(clip, bit, Lerp(s0.x1, s0.x2, ta), Lerp(s0.y1, s0.y2, ta)) > 0.0
    requires Excess(clip, bit, Lerp(s0.x1, s0.x2, tm), Lerp(s0.y1, s0.y2, tm)) == 0.0
    requires ta <= t < tm || tm < t <= ta
    ensures !Visible(clip, s0, t)
  {
    var e0, e1 := Excess(clip, bit, s0.x1, s0.y1), Excess(clip, bit, s0.x2, s0.y2);
    ExcessAlong(clip, bit, s0, ta);
    ExcessAlong(clip, bit, s0, tm);
    ExcessAlong(clip, bit, s0, t);
    LerpPositiveBeforeZero(e0, e1, ta, tm, t);
    ContainsNoExcess(clip, Lerp(s0.x1, s0.x2, t), Lerp(s0.y1, s0.y2, t));
  }

  /** A round moves the chosen endpoint from beyond the clipped boundary
      onto it, and keeps the other endpoint. */
  lemma MovedEndOnBoundary(clip: Window, s: Segment)
    requires Pending(clip, s)
    ensures var bit, s' := ClippedBit(clip, s), ClipStep(clip, s);
      if MovesFirst(clip, s) then
        s'.x2 == s.x2 && s'.y2 == s.y2 &&
        Excess(clip, bit, s.x1, s.y1) > 0.0 && Excess(clip, bit, s'.x1, s'.y1) == 0.0
      else
        s'.x1 == s.x1 && s'.y1 == s.y1 &&
        Excess(clip, bit, s.x2, s.y2) > 0.0 && Excess(clip, bit, s'.x2, s'.y2) == 0.0
  {
    var bit := ClippedBit(clip, s);
    SafeDivision(clip, s);
    IntersectionOnBoundary(clip, s, bit);
    if MovesFirst(clip, s) {
      assert Code1(clip, s) & bit == bit;
      ExcessOfCode(clip, bit, s.x1, s.y1);
    } else {
      assert ChosenCode(clip, s) == Code2(clip, s);
      assert Code2(clip, s) & bit == bit;
      ExcessOfCode(clip, bit, s.x2, s.y2);
    }
  }

  /** A round on the piece Sub(s0, a, b) moves one end of it, from beyond the
      clipped boundary onto it. */
  lemma StepMovesOntoBoundary(clip: Window, s0: Segment, a: real, b: real) returns (a': real, b': real)
    requires clip.Ordered() && 0.0 <= a <= b <= 1.0
    requires Pending(clip, Sub(s0, a, b))
    ensures a <= a' <= b' <= b && ClipStep(clip, Sub(s0, a, b)) == Sub(s0, a', b')
    ensures var bit := ClippedBit(clip, Sub(s0, a, b));
      if MovesFirst(clip, Sub(s0, a, b)) then
        b' == b &&
        Excess(clip, bit, Lerp(s0.x1, s0.x2, a), Lerp(s0.y1, s0.y2, a)) > 0.0 &&
        Excess(clip, bit, Lerp(s0.x1, s0.x2, a'), Lerp(s0.y1, s0.y2, a')) == 0.0
      else
        a' == a &&
        Excess(clip, bit, Lerp(s0.x1, s0.x2, b), Lerp(s0.y1, s0.y2, b)) > 0.0 &&
        Excess(clip, bit, Lerp(s0.x1, s0.x2, b'), Lerp(s0.y1, s0.y2, b')) == 0.0
  {
    var s := Sub(s0, a, b);
    var alpha, beta := StepPiece(clip, s);
    a', b' := SubOfSub(s0, a, b, alpha, beta);
    MovedEndOnBoundary(clip, s);
  }

  /** A round on the piece Sub(s0, a, b) leaves a smaller piece
      Sub(s0, a', b') that still holds every visible point of s0: what it
      cuts off is beyond the clipped boundary. */
  lemma StepWithin(clip: Window, s0: Segment, a: real, b: real) returns (a': real, b': real)
    requires clip.Ordered() && 0.0 <= a <= b <= 1.0 && VisibleWithin(clip, s0, a, b)
    requires Pending(clip, Sub(s0, a, b))
    ensures a <= a' <= b' <= b && ClipStep(clip, Sub(s0, a, b)) == Sub(s0, a', b')
    ensures VisibleWithin(clip, s0, a', b')
  {
    a', b' := StepMovesOntoBoundary(clip, s0, a, b);
    var bit := ClippedBit(clip, Sub(s0, a, b));
    var first := MovesFirst(clip, Sub(s0, a, b));
    forall t | 0.0 <= t <= 1.0 && Visible(clip, s0, t)
      ensures a' <= t <= b'
    {
      if first && t < a' {
        InvisibleBeforeBoundary(clip, s0, bit, a, a', t);
      } else if !first && t > b' {
        InvisibleBeforeBoundary(clip, s0, bit, b, b', t);
      }
    }
  }

  /** A rejected segment has no point in the window. (A window that is not
      ordered contains no point at all.) */
  lemma RejectedMissesWindow(clip: Window, s: Segment)
    ensures Clip(clip, s) == Rejected ==> forall t :: 0.0 <= t <= 1.0 ==> !Visible(clip, s, t)
  {
    if clip.Ordered() {
      SubWhole(s);
      ClipExactFrom(clip, s, 0.0, 1.0);
    }
  }

  /** An accepted segment is exactly the part of the input inside the window,
      in the input's direction. (A window that is not ordered accepts
      nothing.) */
  lemma AcceptedIsVisiblePart(clip: Window, s: Segment)
    ensures Clip(clip, s).Accepted? ==> VisiblePart(clip, Clip(clip, s).seg, s)
  {
    AcceptedInside(clip, s);
    if clip.Ordered() {
      SubWhole(s);
      ClipExactFrom(clip, s, 0.0, 1.0);
    }
  }
}
