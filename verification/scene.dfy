/** The scene: the list of segments on screen, removed by identity, clipped
    one by one against the window, and the random clip window. */
module SceneState {
  import opened Clipping
  import ClipProperties

  /** One segment row of the form, compared by identity. */
  class SegmentEntry {
    /** The coordinates its four input fields hold; the user may edit them. */
    var data: Segment

    constructor(data: Segment)
      ensures this.data == data
    {
      this.data := data;
    }
  }

  /** The position of the first occurrence of x in s, or -1 when x is not
      in s. */
  function IndexOf<T(==)>(s: seq<T>, x: T): (i: int)
    ensures i == -1 <==> x !in s
    ensures i != -1 ==> 0 <= i < |s| && s[i] == x && x !in s[..i]
  {
    if |s| == 0 then -1
    else if s[0] == x then 0
    else
      var j := IndexOf(s[1..], x);
      if j == -1 then -1
      else
        assert s[..j + 1] == [s[0]] + s[1..][..j];
        j + 1
  }

  /** No entry appears twice. */
  ghost predicate Distinct<T>(s: seq<T>) {
    forall i, j :: 0 <= i < j < |s| ==> s[i] != s[j]
  }

  /** Removing the entry at i from a duplicate-free list removes exactly that
      entry: the rest keep their order, and it no longer occurs. */
  lemma RemoveAtDistinct<T>(s: seq<T>, i: int)
    requires Distinct(s) && 0 <= i < |s|
    ensures Distinct(s[..i] + s[i + 1..])
    ensures s[i] !in s[..i] + s[i + 1..]
    ensures multiset(s[..i] + s[i + 1..]) + multiset{s[i]} == multiset(s)
  {
    var r := s[..i] + s[i + 1..];
    forall k | 0 <= k < |r|
      ensures r[k] == if k < i then s[k] else s[k + 1]
    {
    }
    assert s == s[..i] + [s[i]] + s[i + 1..];
  }

  /** The segments of the scene, in form order. */
  class Scene {
    var segments: seq<SegmentEntry>

    /** Each row is in the list at most once. */
    ghost predicate Valid()
      reads this
    {
      Distinct(segments)
    }

    constructor()
      ensures Valid() && segments == []
    {
      segments := [];
    }

    /** A new row, holding the segment (0, 0)-(1, 1), goes at the end. */
    method AddSegment() returns (entry: SegmentEntry)
      requires Valid()
      modifies this
      ensures Valid() && fresh(entry)
      ensures entry.data == Segment(0.0, 0.0, 1.0, 1.0)
      ensures segments == old(segments) + [entry]
    {
      entry := new SegmentEntry(Segment(0.0, 0.0, 1.0, 1.0));
      segments := segments + [entry];
    }

    /** Removes the row `entry` if it is in the list, wherever it is, and
        keeps the order of the rest; otherwise nothing changes. */
    method RemoveSegment(entry: SegmentEntry)
      requires Valid()
      modifies this
      ensures Valid() && entry !in segments
      ensures entry in old(segments) ==>
        multiset(segments) + multiset{entry} == multiset(old(segments))
      ensures var i := IndexOf(old(segments), entry);
        if i == -1 then segments == old(segments)
        else segments == old(segments)[..i] + old(segments)[i + 1..]
    {
      var index := IndexOf(segments, entry);
      if index != -1 {
        RemoveAtDistinct(segments, index);
        segments := segments[..index] + segments[index + 1..];
      }
    }

    /** The user types new coordinates into the input fields of a row in
        the list: that row's coordinates change, no other row's, and the
        list itself stays as it was. */
    method EditSegment(entry: SegmentEntry, s: Segment)
      requires Valid() && entry in segments
      modifies entry
      ensures Valid() && entry.data == s && segments == old(segments)
      ensures forall e :: e in segments && e != entry ==> e.data == old(e.data)
    {
      entry.data := s;
    }

    /** Empties the list. */
    method Clear()
      modifies this
      ensures Valid() && segments == []
    {
      segments := [];
    }

    /** Clips every segment of the list against the window, in order; every
        accepted result lies inside the window. */
    method ClipSegments(clip: Window) returns (results: seq<ClipResult>)
      ensures |results| == |segments|
      ensures forall i :: 0 <= i < |segments| ==> results[i] == Clip(clip, segments[i].data)
      ensures forall i :: 0 <= i < |results| && results[i].Accepted? ==>
        clip.Contains(results[i].seg.x1, results[i].seg.y1) &&
        clip.Contains(results[i].seg.x2, results[i].seg.y2)
    {
      results := [];
      for n := 0 to |segments|
        invariant |results| == n
        invariant forall i :: 0 <= i < n ==> results[i] == Clip(clip, segments[i].data)
        invariant forall i :: 0 <= i < n && results[i].Accepted? ==>
          clip.Contains(results[i].seg.x1, results[i].seg.y1) &&
          clip.Contains(results[i].seg.x2, results[i].seg.y2)
      {
        var s := segments[n].data;
        var clipped, _ := CohenSutherland(s.x1, s.y1, s.x2, s.y2, clip);
        ClipProperties.AcceptedInside(clip, s);
        results := results + [clipped];
      }
    }
  }

  /** What Math.floor(Math.random() * n) can yield. */
  predicate Draw(k: int, n: int) {
    0 <= k < n
  }

  /** The four draws of the random window are each in their range: the
      lower bound among the 21 integers from -10 to 10, the upper bound
      among those from the lower bound to 10. */
  predicate DrawsInRange(k1: int, k2: int, k3: int, k4: int) {
    Draw(k1, 10 - (-10) + 1) && Draw(k2, 10 - (k1 - 10) + 1) &&
    Draw(k3, 10 - (-10) + 1) && Draw(k4, 10 - (k3 - 10) + 1)
  }

  /** The random clip window from four draws: xmin = k1 - 10,
      xmax = k2 + xmin, ymin = k3 - 10, ymax = k4 + ymin. */
  function RandomWindow(k1: int, k2: int, k3: int, k4: int): (w: Window)
    ensures DrawsInRange(k1, k2, k3, k4) ==>
      -10.0 <= w.xmin <= w.xmax <= 10.0 && -10.0 <= w.ymin <= w.ymax <= 10.0 && w.Ordered()
  {
    var xmin := k1 + -10;
    var xmax := k2 + xmin;
    var ymin := k3 + -10;
    var ymax := k4 + ymin;
    Window(xmin as real, ymin as real, xmax as real, ymax as real)
  }

  /** Every ordered window with integer bounds in [-10, 10] is one the
      random draw can produce. */
  lemma RandomWindowCovers(xmin: int, ymin: int, xmax: int, ymax: int)
    requires -10 <= xmin <= xmax <= 10 && -10 <= ymin <= ymax <= 10
    ensures DrawsInRange(xmin + 10, xmax - xmin, ymin + 10, ymax - ymin)
    ensures RandomWindow(xmin + 10, xmax - xmin, ymin + 10, ymax - ymin) ==
      Window(xmin as real, ymin as real, xmax as real, ymax as real)
  {
  }
}
