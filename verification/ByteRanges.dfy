/** The two interval lists that record which bytes of a part file have arrived: the transfer
    layer's RangeTracker (core/transfer/writer.go) and the registry's addRange
    (app/daemon/registry.go). Both are canonical forms of the same byte set. */
module ByteRanges {
  datatype Interval = Interval(start: int, end: int)

  ghost predicate Within(b: int, start: int, end: int) { start <= b < end }

  ghost function Span(start: int, end: int): set<int> {
    set b {:trigger Within(b, start, end)} | start <= b < end && Within(b, start, end)
  }

  lemma {:induction false} SpanSize(start: int, end: int)
    requires start <= end
    ensures |Span(start, end)| == end - start
    decreases end - start
  {
    if start < end {
      SpanSize(start, end - 1);
      assert Span(start, end) == Span(start, end - 1) + {end - 1};
    }
  }

  /** The bytes an interval list stands for. */
  ghost function Bytes(s: seq<Interval>): set<int> {
    if s == [] then {} else Bytes(s[..|s| - 1]) + Span(s[|s| - 1].start, s[|s| - 1].end)
  }

  lemma {:induction false} InBytes(s: seq<Interval>, b: int)
    ensures b in Bytes(s) <==> exists i :: 0 <= i < |s| && s[i].start <= b < s[i].end
  {
    if s != [] {
      var front := s[..|s| - 1];
      InBytes(front, b);
      if i :| 0 <= i < |s| && s[i].start <= b < s[i].end {
        assert i == |s| - 1 || front[i] == s[i];
      }
    }
  }

  /** Sorted, no empty interval, no negative byte, and a gap between neighbours. */
  ghost predicate Canonical(s: seq<Interval>) {
    && (forall i :: 0 <= i < |s| ==> 0 <= s[i].start < s[i].end)
    && (forall i, j :: 0 <= i < j < |s| ==> s[i].end < s[j].start)
  }

  type RangeList = s: seq<Interval> | Canonical(s)

  ghost function Total(s: seq<Interval>): int {
    if s == [] then 0 else Total(s[..|s| - 1]) + s[|s| - 1].end - s[|s| - 1].start
  }

  lemma BytesSnoc(s: seq<Interval>, x: Interval)
    ensures Bytes(s + [x]) == Bytes(s) + Span(x.start, x.end)
  {
    assert (s + [x])[..|s|] == s;
  }

  lemma BytesPrefix(s: seq<Interval>, n: nat)
    requires n < |s|
    ensures Bytes(s[..n + 1]) == Bytes(s[..n]) + Span(s[n].start, s[n].end)
  {
    assert s[..n + 1] == s[..n] + [s[n]];
    BytesSnoc(s[..n], s[n]);
  }

  /** Everything in the list ends strictly before x. */
  ghost predicate Before(s: seq<Interval>, x: int) {
    forall i :: 0 <= i < |s| ==> s[i].end < x
  }

  lemma BytesBefore(s: seq<Interval>, x: int)
    requires Before(s, x)
    ensures forall b :: b in Bytes(s) ==> b < x
  {
    forall b | b in Bytes(s) ensures b < x { InBytes(s, b); }
  }

  /** The sum of the lengths of a canonical list is the number of bytes it covers. */
  lemma {:induction false} TotalIsCardinality(s: seq<Interval>)
    requires Canonical(s)
    ensures Total(s) == |Bytes(s)|
  {
    if s != [] {
      var front, last := s[..|s| - 1], s[|s| - 1];
      TotalIsCardinality(front);
      BytesBefore(front, last.start);
      SpanSize(last.start, last.end);
    }
  }

  /** The last interval of a canonical list is the last run of its byte set. */
  lemma LastRun(s: seq<Interval>, last: Interval)
    requires Canonical(s) && s != [] && last == s[|s| - 1]
    ensures Canonical(s[..|s| - 1]) && Bytes(s[..|s| - 1]) == Bytes(s) - Span(last.start, last.end)
    ensures forall b :: last.start <= b < last.end ==> b in Bytes(s)
    ensures last.start - 1 !in Bytes(s)
    ensures forall b :: b in Bytes(s) ==> b < last.end
  {
    BytesBefore(s[..|s| - 1], last.start);
    assert last.start - 1 !in Bytes(s[..|s| - 1]) by { InBytes(s[..|s| - 1], last.start - 1); }
  }

  lemma SameLast(s: seq<Interval>, t: seq<Interval>)
    requires Canonical(s) && Canonical(t) && Bytes(s) == Bytes(t) && s != []
    ensures t != [] && s[|s| - 1] == t[|t| - 1]
  {
    LastRun(s, s[|s| - 1]);
    assert s[|s| - 1].start in Bytes(s) && s[|s| - 1].end - 1 in Bytes(s);
    LastRun(t, t[|t| - 1]);
    assert t[|t| - 1].start in Bytes(t) && t[|t| - 1].end - 1 in Bytes(t);
  }

  /** A byte set has exactly one canonical list. */
  lemma {:induction false} CanonicalUnique(s: seq<Interval>, t: seq<Interval>)
    requires Canonical(s) && Canonical(t) && Bytes(s) == Bytes(t)
    ensures s == t
    decreases |s|
  {
    if s == [] {
      if t != [] { SameLast(t, s); }
    } else {
      SameLast(s, t);
      LastRun(s, s[|s| - 1]);
      LastRun(t, t[|t| - 1]);
      CanonicalUnique(s[..|s| - 1], t[..|t| - 1]);
      assert s == s[..|s| - 1] + [s[|s| - 1]] && t == t[..|t| - 1] + [t[|t| - 1]];
    }
  }

  /** What both merging loops keep over the first n intervals while `pending` waits behind `merged`. */
  ghost predicate Merging(s: seq<Interval>, n: nat, merged: seq<Interval>, pending: Interval, start: int, end: int)
    requires n <= |s|
  {
    && Canonical(merged) && Before(merged, pending.start)
    && 0 <= pending.start < pending.end
    && Bytes(merged) + Span(pending.start, pending.end) == Bytes(s[..n]) + Span(start, end)
    && (n < |s| ==> Before(merged, s[n].start))
  }

  /** What they keep once it has been placed. */
  ghost predicate Placed(s: seq<Interval>, n: nat, merged: seq<Interval>, start: int, end: int)
    requires n <= |s|
  {
    && Canonical(merged)
    && Bytes(merged) == Bytes(s[..n]) + Span(start, end)
    && (n < |s| ==> Before(merged, s[n].start))
  }

  lemma PassBy(s: seq<Interval>, n: nat, merged: seq<Interval>, pending: Interval, start: int, end: int)
    requires Canonical(s) && n < |s| && Merging(s, n, merged, pending, start, end)
    requires s[n].end < pending.start
    ensures Merging(s, n + 1, merged + [s[n]], pending, start, end)
  {
    BytesPrefix(s, n);
    BytesSnoc(merged, s[n]);
  }

  lemma Absorb(s: seq<Interval>, n: nat, merged: seq<Interval>, pending: Interval, next: Interval, start: int, end: int)
    requires Canonical(s) && n < |s| && Merging(s, n, merged, pending, start, end)
    requires pending.start <= s[n].end && s[n].start <= pending.end
    requires next == Interval(if s[n].start < pending.start then s[n].start else pending.start,
                              if s[n].end > pending.end then s[n].end else pending.end)
    ensures Merging(s, n + 1, merged, next, start, end)
  {
    BytesPrefix(s, n);
    assert Span(next.start, next.end) == Span(pending.start, pending.end) + Span(s[n].start, s[n].end);
  }

  lemma Place(s: seq<Interval>, n: nat, merged: seq<Interval>, pending: Interval, start: int, end: int)
    requires Canonical(s) && n < |s| && Merging(s, n, merged, pending, start, end)
    requires pending.end < s[n].start
    ensures Placed(s, n + 1, merged + [pending] + [s[n]], start, end)
  {
    BytesPrefix(s, n);
    BytesSnoc(merged, pending);
    BytesSnoc(merged + [pending], s[n]);
  }

  lemma Carry(s: seq<Interval>, n: nat, merged: seq<Interval>, start: int, end: int)
    requires Canonical(s) && n < |s| && Placed(s, n, merged, start, end)
    ensures Placed(s, n + 1, merged + [s[n]], start, end)
  {
    BytesPrefix(s, n);
    BytesSnoc(merged, s[n]);
  }

  lemma PlaceLast(s: seq<Interval>, merged: seq<Interval>, pending: Interval, start: int, end: int)
    requires Merging(s, |s|, merged, pending, start, end)
    ensures Placed(s, |s|, merged + [pending], start, end)
  {
    BytesSnoc(merged, pending);
  }

  class RangeTracker {
    var intervals: seq<Interval>

    constructor ()
      ensures Canonical(intervals) && Bytes(intervals) == {}
    {
      intervals := [];
    }

    method AddRange(start: int, end: int)
      requires Canonical(intervals)
      modifies this
      ensures Canonical(intervals)
      ensures Bytes(intervals) == old(Bytes(intervals)) + if start < 0 then {} else Span(start, end)
    {
      if start >= end || start < 0 { return; }
      var pending := Interval(start, end);
      var merged: seq<Interval> := [];
      var inserted := false;
      for n := 0 to |intervals|
        invariant intervals == old(intervals)
        invariant !inserted ==> Merging(intervals, n, merged, pending, start, end)
        invariant inserted ==> Placed(intervals, n, merged, start, end)
      {
        var it := intervals[n];
        if inserted {
          Carry(intervals, n, merged, start, end);
          merged := merged + [it];
        } else if pending.end < it.start {
          Place(intervals, n, merged, pending, start, end);
          merged := merged + [pending] + [it];
          inserted := true;
        } else if pending.start > it.end {
          PassBy(intervals, n, merged, pending, start, end);
          merged := merged + [it];
        } else {
          ghost var was := pending;
          if it.start < pending.start { pending := pending.(start := it.start); }
          if it.end > pending.end { pending := pending.(end := it.end); }
          Absorb(intervals, n, merged, was, pending, start, end);
        }
      }
      assert intervals[..|intervals|] == intervals;
      if !inserted {
        PlaceLast(intervals, merged, pending, start, end);
        merged := merged + [pending];
      }
      intervals := merged;
    }

    /** Complete exactly when the bytes seen are one run from zero that reaches the expected size. */
    method IsComplete(expectedSize: int) returns (complete: bool)
      requires Canonical(intervals)
      ensures complete <==> expectedSize <= 0 || exists m :: m >= expectedSize && Bytes(intervals) == Span(0, m)
    {
      if expectedSize <= 0 { return true; }
      if |intervals| == 1 && intervals[0].start == 0 && intervals[0].end >= expectedSize {
        assert Bytes(intervals) == Span(0, intervals[0].end);
        return true;
      }
      forall m | m >= expectedSize && Bytes(intervals) == Span(0, m) ensures false {
        var whole := [Interval(0, m)];
        assert Bytes(whole) == Span(0, m);
        CanonicalUnique(intervals, whole);
      }
      return false;
    }

    method CoveredBytes() returns (total: int)
      requires Canonical(intervals)
      ensures total == |Bytes(intervals)|
    {
      total := 0;
      for n := 0 to |intervals|
        invariant total == Total(intervals[..n])
      {
        total := total + intervals[n].end - intervals[n].start;
        assert intervals[..n + 1][..n] == intervals[..n];
      }
      assert intervals[..|intervals|] == intervals;
      TotalIsCardinality(intervals);
    }
  }

  /** One more interval adds exactly its own share to the overlap with a window. */
  lemma OverlapGrows(s: seq<Interval>, n: nat, window: set<int>, left: int, right: int)
    requires Canonical(s) && n < |s|
    requires Span(s[n].start, s[n].end) * window == Span(left, right)
    ensures |Bytes(s[..n + 1]) * window| == |Bytes(s[..n]) * window| + if left < right then right - left else 0
  {
    BytesPrefix(s, n);
    BytesBefore(s[..n], s[n].start);
    var before := Bytes(s[..n]) * window;
    assert Bytes(s[..n + 1]) * window == before + Span(left, right);
    assert before !! Span(left, right);
    if left < right { SpanSize(left, right); } else { assert Span(left, right) == {}; }
  }

  method Overlap(ranges: seq<Interval>, start: int, end: int) returns (overlap: int)
    requires Canonical(ranges)
    ensures overlap == |Bytes(ranges) * Span(start, end)|
  {
    overlap := 0;
    assert Bytes(ranges[..0]) * Span(start, end) == {};
    for n := 0 to |ranges|
      invariant overlap == |Bytes(ranges[..n]) * Span(start, end)|
    {
      var left := if start > ranges[n].start then start else ranges[n].start;
      var right := if end < ranges[n].end then end else ranges[n].end;
      assert Span(ranges[n].start, ranges[n].end) * Span(start, end) == Span(left, right);
      OverlapGrows(ranges, n, Span(start, end), left, right);
      if right > left { overlap := overlap + right - left; }
    }
    assert ranges[..|ranges|] == ranges;
  }

  /** The registry's own merge: the same list, and the number of bytes not seen before. */
  method AddRange(ranges: seq<Interval>, start: int, end: int) returns (merged: seq<Interval>, unique: int)
    requires Canonical(ranges) && 0 <= start < end
    ensures Canonical(merged) && Bytes(merged) == Bytes(ranges) + Span(start, end)
    ensures unique == |Span(start, end) - Bytes(ranges)|
  {
    var overlap := Overlap(ranges, start, end);
    unique := end - start - overlap;
    SpanSize(start, end);
    assert Span(start, end) == (Span(start, end) - Bytes(ranges)) + Bytes(ranges) * Span(start, end);

    var pending := Interval(start, end);
    merged := [];
    var inserted := false;
    for n := 0 to |ranges|
      invariant !inserted ==> Merging(ranges, n, merged, pending, start, end)
      invariant inserted ==> Placed(ranges, n, merged, start, end)
      invariant inserted ==> n > 0 && pending.end < ranges[n - 1].start && pending.start < pending.end
    {
      var it := ranges[n];
      if it.end < pending.start {
        PassBy(ranges, n, merged, pending, start, end);
        merged := merged + [it];
      } else if pending.end < it.start {
        if !inserted {
          Place(ranges, n, merged, pending, start, end);
          merged := merged + [pending];
          inserted := true;
          merged := merged + [it];
        } else {
          Carry(ranges, n, merged, start, end);
          merged := merged + [it];
        }
      } else {
        ghost var was := pending;
        pending := Interval(if it.start < pending.start then it.start else pending.start,
                            if it.end > pending.end then it.end else pending.end);
        Absorb(ranges, n, merged, was, pending, start, end);
      }
    }
    assert ranges[..|ranges|] == ranges;
    if !inserted {
      PlaceLast(ranges, merged, pending, start, end);
      merged := merged + [pending];
    }
  }
}
