/**
 uncovered of tools/inspect-upload-capture.py: a sweep over sorted intervals that decides
 whether some byte of [begin, end) lies in no flushed range.
 */
module FlushCoverage {
  import opened Sorting

  /** A half-open range of byte offsets. */
  type Range = (int, int)

  predicate RangeLess(a: Range, b: Range) { a.0 < b.0 || (a.0 == b.0 && a.1 < b.1) }

  ghost predicate Inside(x: int, ranges: seq<Range>) {
    exists k :: 0 <= k < |ranges| && ranges[k].0 <= x < ranges[k].1
  }

  /** Some byte of [begin, end) is in no range. */
  ghost predicate ByteMissing(begin: int, end: int, ranges: seq<Range>) {
    exists x :: begin <= x < end && !Inside(x, ranges)
  }

  /** What the sweep answers on an empty interval: begin is in no range, though some range
      ends after it. */
  ghost predicate PointMissing(begin: int, ranges: seq<Range>) {
    !Inside(begin, ranges) && exists k :: 0 <= k < |ranges| && ranges[k].1 > begin
  }

  lemma {:induction false} SameRanges(a: seq<Range>, b: seq<Range>, x: int)
    requires multiset(a) == multiset(b)
    ensures Inside(x, a) ==> Inside(x, b)
  {
    if Inside(x, a) {
      var k :| 0 <= k < |a| && a[k].0 <= x < a[k].1;
      assert a[k] in multiset(b);
      var j :| 0 <= j < |b| && b[j] == a[k];
      assert b[j].0 <= x < b[j].1;
    }
  }

  lemma {:induction false} SameEnds(a: seq<Range>, b: seq<Range>, begin: int)
    requires multiset(a) == multiset(b)
    ensures (exists k :: 0 <= k < |a| && a[k].1 > begin) ==> (exists k :: 0 <= k < |b| && b[k].1 > begin)
  {
    if exists k :: 0 <= k < |a| && a[k].1 > begin {
      var k :| 0 <= k < |a| && a[k].1 > begin;
      assert a[k] in multiset(b);
      var j :| 0 <= j < |b| && b[j] == a[k];
      assert b[j].1 > begin;
    }
  }

  /** A cursor past every earlier range and before every later one is in none. */
  lemma {:induction false} CursorExposed(rs: seq<Range>, n: nat, cursor: int)
    requires InOrder(rs, RangeLess) && n < |rs|
    requires forall j :: 0 <= j < n ==> rs[j].1 <= cursor
    requires rs[n].0 > cursor
    ensures !Inside(cursor, rs)
  {
    forall j | 0 <= j < |rs|
      ensures !(rs[j].0 <= cursor < rs[j].1)
    {
      if j > n {
        assert !RangeLess(rs[j], rs[n]);
      }
    }
  }

  /** The sweep decides exactly whether a byte is missing; on an empty interval it answers
      PointMissing. */
  method Uncovered(begin: int, end: int, ranges: seq<Range>) returns (missing: bool)
    ensures begin < end ==> (missing <==> ByteMissing(begin, end, ranges))
    ensures begin >= end ==> (missing <==> PointMissing(begin, ranges))
  {
    var rs := SortedList(ranges, RangeLess);
    forall x ensures Inside(x, rs) <==> Inside(x, ranges) {
      SameRanges(rs, ranges, x);
      SameRanges(ranges, rs, x);
    }
    SameEnds(rs, ranges, begin);
    SameEnds(ranges, rs, begin);
    var cursor := begin;
    for n := 0 to |rs|
      invariant begin <= cursor && (cursor == begin || cursor < end)
      invariant forall x :: begin <= x < cursor ==> Inside(x, rs)
      invariant forall j :: 0 <= j < n ==> rs[j].1 <= cursor
    {
      var (low, high) := rs[n];
      if high <= cursor {
        continue;
      }
      if low > cursor {
        CursorExposed(rs, n, cursor);
        return true;
      }
      forall x | cursor <= x < high
        ensures Inside(x, rs)
      {
        assert rs[n].0 <= x < rs[n].1;
      }
      cursor := if cursor > high then cursor else high;
      if cursor >= end {
        return false;
      }
    }
    if cursor < end {
      assert !Inside(cursor, rs);
    }
    return cursor < end;
  }

  /** On an empty interval the sweep can answer yes though there is no byte to miss. */
  lemma {:induction false} EmptyIntervalCanBeMissing()
    ensures PointMissing(5, [(7, 9)]) && !ByteMissing(5, 5, [(7, 9)])
  {
    assert [(7, 9)][0].1 > 5;
  }
}
