/** Closed time windows and the union/intersection the availability code takes from
    the `time_intervals` library. That library is not part of this model: its
    operations are defined here only so that every result is a sorted list of
    separated windows covering exactly the points the operands describe. */
module Intervals {

  /** An instant, in microseconds since the Unix epoch (UTC). */
  type Time = int

  /** A closed window `(start, end)`. */
  datatype Window = Window(start: Time, end: Time)

  predicate Valid(w: Window) {
    w.start <= w.end
  }

  predicate Contains(w: Window, t: Time) {
    w.start <= t <= w.end
  }

  /** Point membership: some window of `ws` contains `t`. */
  predicate Covers(ws: seq<Window>, t: Time) {
    exists i :: 0 <= i < |ws| && Contains(ws[i], t)
  }

  /** Earliest first, every window valid, consecutive windows separated by a gap. */
  predicate Ascending(ws: seq<Window>) {
    && (forall i :: 0 <= i < |ws| ==> Valid(ws[i]))
    && (forall i :: 0 < i < |ws| ==> ws[i - 1].end < ws[i].start)
  }

  /** Latest first, every window valid, consecutive windows separated by a gap. */
  predicate Descending(ws: seq<Window>) {
    && (forall i :: 0 <= i < |ws| ==> Valid(ws[i]))
    && (forall i :: 0 < i < |ws| ==> ws[i].end < ws[i - 1].start)
  }

  function Min(a: int, b: int): int {
    if a <= b then a else b
  }

  function Max(a: int, b: int): int {
    if a <= b then b else a
  }

  lemma CoversCons(w: Window, ws: seq<Window>)
    ensures forall t :: Covers([w] + ws, t) <==> Contains(w, t) || Covers(ws, t)
  {
    forall t
      ensures Covers([w] + ws, t) <==> Contains(w, t) || Covers(ws, t)
    {
      if Contains(w, t) {
        assert ([w] + ws)[0] == w;
      }
      if Covers(ws, t) {
        var i :| 0 <= i < |ws| && Contains(ws[i], t);
        assert ([w] + ws)[i + 1] == ws[i];
      }
      if Covers([w] + ws, t) {
        var i :| 0 <= i < |[w] + ws| && Contains(([w] + ws)[i], t);
        if i > 0 {
          assert ([w] + ws)[i] == ws[i - 1];
        }
      }
    }
  }

  lemma CoversAppend(a: seq<Window>, b: seq<Window>)
    ensures forall t :: Covers(a + b, t) <==> Covers(a, t) || Covers(b, t)
  {
    forall t
      ensures Covers(a + b, t) <==> Covers(a, t) || Covers(b, t)
    {
      if Covers(a, t) {
        var i :| 0 <= i < |a| && Contains(a[i], t);
        assert (a + b)[i] == a[i];
      }
      if Covers(b, t) {
        var i :| 0 <= i < |b| && Contains(b[i], t);
        assert (a + b)[|a| + i] == b[i];
      }
      if Covers(a + b, t) {
        var i :| 0 <= i < |a + b| && Contains((a + b)[i], t);
        if i >= |a| {
          assert (a + b)[i] == b[i - |a|];
        }
      }
    }
  }

  /** Adds one valid window to an ascending list, merging every window it
      overlaps or touches. */
  function Insert(w: Window, xs: seq<Window>): (r: seq<Window>)
    requires Valid(w) && Ascending(xs)
    ensures Ascending(r) && |r| >= 1
    ensures r[0].start == if |xs| == 0 then w.start else Min(w.start, xs[0].start)
    ensures forall t :: Covers(r, t) <==> Contains(w, t) || Covers(xs, t)
    decreases |xs|
  {
    if |xs| == 0 then
      CoversCons(w, []);
      [w]
    else if w.end < xs[0].start then
      CoversCons(w, xs);
      [w] + xs
    else if xs[0].end < w.start then
      var rest := Insert(w, xs[1..]);
      CoversCons(xs[0], rest);
      CoversCons(xs[0], xs[1..]);
      assert xs == [xs[0]] + xs[1..];
      [xs[0]] + rest
    else
      var merged := Window(Min(w.start, xs[0].start), Max(w.end, xs[0].end));
      CoversCons(xs[0], xs[1..]);
      assert xs == [xs[0]] + xs[1..];
      Insert(merged, xs[1..])
  }

  /** The library's normal form: ascending, separated, covering the same points;
      windows with start after end cover nothing and are dropped. */
  function Normalize(ws: seq<Window>): (r: seq<Window>)
    ensures Ascending(r)
    ensures forall t :: Covers(r, t) <==> Covers(ws, t)
    decreases |ws|
  {
    if |ws| == 0 then []
    else
      var rest := Normalize(ws[1..]);
      CoversCons(ws[0], ws[1..]);
      assert ws == [ws[0]] + ws[1..];
      if Valid(ws[0]) then Insert(ws[0], rest) else rest
  }

  /** All windows of all operands, in order. */
  function Flatten(sets: seq<seq<Window>>): (r: seq<Window>)
    ensures forall t :: Covers(r, t) <==> exists i :: 0 <= i < |sets| && Covers(sets[i], t)
    decreases |sets|
  {
    if |sets| == 0 then []
    else
      var rest := Flatten(sets[1..]);
      CoversAppend(sets[0], rest);
      assert forall i :: 1 <= i < |sets| ==> sets[i] == sets[1..][i - 1];
      sets[0] + rest
  }

  /** `Intervals().union(sets)`: the points covered by any operand. */
  function Union(sets: seq<seq<Window>>): (r: seq<Window>)
    ensures Ascending(r)
    ensures forall t :: Covers(r, t) <==> exists i :: 0 <= i < |sets| && Covers(sets[i], t)
  {
    Normalize(Flatten(sets))
  }

  /** `w` cut down to each window of `ws`. */
  function ClipTo(w: Window, ws: seq<Window>): (r: seq<Window>)
    ensures forall t :: Covers(r, t) <==> Contains(w, t) && Covers(ws, t)
  {
    var r := seq(|ws|, j requires 0 <= j < |ws| => Window(Max(w.start, ws[j].start), Min(w.end, ws[j].end)));
    assert forall t :: Covers(r, t) <==> Contains(w, t) && Covers(ws, t) by {
      forall t
        ensures Covers(r, t) <==> Contains(w, t) && Covers(ws, t)
      {
        if Covers(r, t) {
          var j :| 0 <= j < |r| && Contains(r[j], t);
          assert Contains(ws[j], t);
        }
        if Contains(w, t) && Covers(ws, t) {
          var j :| 0 <= j < |ws| && Contains(ws[j], t);
          assert Contains(r[j], t);
        }
      }
    }
    r
  }

  /** Every window of `a` cut down to every window of `b`. */
  function ClipAll(a: seq<Window>, b: seq<Window>): (r: seq<Window>)
    ensures forall t :: Covers(r, t) <==> Covers(a, t) && Covers(b, t)
    decreases |a|
  {
    if |a| == 0 then []
    else
      var first := ClipTo(a[0], b);
      var rest := ClipAll(a[1..], b);
      CoversAppend(first, rest);
      CoversCons(a[0], a[1..]);
      assert a == [a[0]] + a[1..];
      first + rest
  }

  /** `a.intersect([b])`: the points covered by both operands. */
  function Intersect(a: seq<Window>, b: seq<Window>): (r: seq<Window>)
    ensures Ascending(r)
    ensures forall t :: Covers(r, t) <==> Covers(a, t) && Covers(b, t)
  {
    Normalize(ClipAll(a, b))
  }

  /** Python's `reversed(...)` over a window list. */
  function Reverse(ws: seq<Window>): (r: seq<Window>)
    ensures |r| == |ws|
    ensures forall i :: 0 <= i < |ws| ==> r[i] == ws[|ws| - 1 - i]
  {
    seq(|ws|, i requires 0 <= i < |ws| => ws[|ws| - 1 - i])
  }

  /** Reversing an ascending list gives a latest-first list over the same points. */
  lemma ReverseAscending(ws: seq<Window>)
    requires Ascending(ws)
    ensures Descending(Reverse(ws))
    ensures forall t :: Covers(Reverse(ws), t) <==> Covers(ws, t)
  {
    var r := Reverse(ws);
    forall t
      ensures Covers(r, t) <==> Covers(ws, t)
    {
      if Covers(ws, t) {
        var i :| 0 <= i < |ws| && Contains(ws[i], t);
        assert r[|ws| - 1 - i] == ws[i];
      }
    }
  }

  /** Intersecting an operand with itself covers exactly what the operand covers. */
  lemma IntersectIdempotent(a: seq<Window>)
    ensures forall t :: Covers(Intersect(a, a), t) <==> Covers(a, t)
  {
  }

  /** The union does not depend on the order of its operands. */
  lemma UnionCommutes(a: seq<Window>, b: seq<Window>)
    ensures forall t :: Covers(Union([a, b]), t) <==> Covers(Union([b, a]), t)
  {
    assert forall t :: Covers(Union([a, b]), t) <==> Covers(a, t) || Covers(b, t) by {
      assert [a, b][0] == a && [a, b][1] == b;
    }
    assert forall t :: Covers(Union([b, a]), t) <==> Covers(a, t) || Covers(b, t) by {
      assert [b, a][0] == b && [b, a][1] == a;
    }
  }
}
