/**
 The suspend/resume language of dynamic rendering ("Render Pass" chapter of the
 Vulkan 1.3 specification, VkRenderingFlagBits), stated as a parse of the stream into
 begin/end segments, and the theorem that inspect_batch reports nothing exactly on
 that language.
 */
module RenderingLanguage {
  import opened Options
  import opened RenderingStream
  import opened RenderingBatch

  /** The positions of a begin command and of the end command that closes it. */
  datatype Segment = Segment(begin: nat, end: nat)

  function InfoAt(s: Stream, j: nat): RenderingInfo
    requires j < |s| && IsBegin(s[j])
  {
    s[j].command.action.info
  }

  /** The begin and the end are in place, inside one recording. */
  ghost predicate IsSegment(s: Stream, g: Segment) {
    && g.begin < g.end < |s|
    && IsBegin(s[g.begin]) && IsEnd(s[g.end])
    && forall k :: g.begin < k < g.end ==> !s[k].Close? && !s[k].Missing?
  }

  ghost predicate AreSegments(s: Stream, segs: seq<Segment>) {
    && (forall i :: 0 <= i < |segs| ==> IsSegment(s, segs[i]))
    && (forall i, j :: 0 <= i < j < |segs| ==> segs[i].end < segs[j].begin)
  }

  ghost predicate Covered(segs: seq<Segment>, p: nat) {
    exists i :: 0 <= i < |segs| && (segs[i].begin == p || segs[i].end == p)
  }

  /** What the begin at b must satisfy after segment a: it resumes exactly when a was
      suspended, and then repeats the parameters with no work in between. */
  ghost predicate Linked(s: Stream, a: Segment, b: nat, registry: Registry) {
    && IsSegment(s, a) && a.end < b < |s| && IsBegin(s[b])
    && (Suspends(InfoAt(s, a.begin)) <==> Resumes(InfoAt(s, b)))
    && (Suspends(InfoAt(s, a.begin)) ==>
          && RenderingKey(InfoAt(s, a.begin)) == RenderingKey(InfoAt(s, b))
          && forall k :: a.end < k < b ==> !IsWork(s[k], registry))
  }

  ghost predicate Chained(s: Stream, segs: seq<Segment>, registry: Registry)
    requires AreSegments(s, segs)
  {
    && (segs != [] ==> !Resumes(InfoAt(s, segs[0].begin)))
    && forall i :: 0 < i < |segs| ==> Linked(s, segs[i - 1], segs[i].begin, registry)
  }

  /** s is a sentence of the language, segs being its parse: the segments are all the begins
      and ends there are, they chain, and the last one is not suspended. */
  ghost predicate Parses(s: Stream, segs: seq<Segment>, registry: Registry) {
    && AreSegments(s, segs)
    && (forall p :: 0 <= p < |s| && (IsBegin(s[p]) || IsEnd(s[p])) ==> Covered(segs, p))
    && Chained(s, segs, registry)
    && (segs != [] ==> !Suspends(InfoAt(s, segs[|segs| - 1].begin)))
  }

  ghost predicate Available(s: Stream) {
    forall k :: 0 <= k < |s| ==> !s[k].Missing?
  }

  // ---------------------------------------------------------------------------
  // Work and prefixes

  lemma {:induction false} NoWork(s: Stream, from: nat, registry: Registry)
    requires from <= |s|
    ensures Work(s, from, registry) == [] <==> forall k :: from <= k < |s| ==> !IsWork(s[k], registry)
  {
    if from < |s| {
      var t := s[..|s| - 1];
      NoWork(t, from, registry);
      assert forall k :: from <= k < |t| ==> t[k] == s[k];
    }
  }

  lemma {:induction false} BoundaryIs(s: Stream, k: nat, b: nat)
    requires k <= b <= |s|
    requires forall i :: k <= i < b ==> !IsBoundary(s[i])
    requires b < |s| ==> IsBoundary(s[b])
    ensures Boundary(s, k) == b
    decreases b - k
  {
    if k < b {
      BoundaryIs(s, k + 1, b);
    }
  }

  lemma {:induction false} LastBeginIs(s: Stream, j: nat)
    requires j < |s| && IsBegin(s[j])
    requires forall k :: j < k < |s| ==> !IsBegin(s[k])
    ensures LastBegin(s) == Some(j)
  {
    LastBeginIsLast(s, j);
  }

  lemma {:induction false} NoVerdicts(s: Stream, n: nat, registry: Registry)
    requires n <= |s|
    requires forall p :: 0 <= p < n ==> Verdict(s[..p], s[p], registry) == []
    ensures Verdicts(s[..n], registry) == []
  {
    if n > 0 {
      NoVerdicts(s, n - 1, registry);
      PrefixSnoc(s, n);
      VerdictsSnoc(s[..n - 1], s[n - 1], registry);
    }
  }

  lemma {:induction false} PrefixSnoc(s: Stream, n: nat)
    requires 0 < n <= |s|
    ensures s[..n] == s[..n - 1] + [s[n - 1]]
  {
  }

  lemma {:induction false} VerdictsSnoc(s: Stream, e: Event, registry: Registry)
    requires Verdict(s, e, registry) == [] && Verdicts(s, registry) == []
    ensures Verdicts(s + [e], registry) == []
  {
    FoldsSnoc(s, e, registry);
  }

  /** The latest scope a of t has been closed. */
  ghost predicate Closed(t: Stream, a: Segment) {
    && IsSegment(t, a)
    && LastBegin(t) == Some(a.begin)
    && Boundary(t, a.begin + 1) == a.end
  }

  lemma {:induction false} ClosedState(t: Stream, a: Segment)
    requires Closed(t, a) && Available(t)
    ensures ActiveScope(t) == None
    ensures SuspendedScope(t) == if Suspends(InfoAt(t, a.begin)) then Some(a.begin) else None
  {
  }

  lemma {:induction false} NoBeginFindings(c: Command, active: Option<nat>, suspended: Option<(nat, RenderingInfo)>,
                        intervening: seq<Command>)
    requires c.action.Begin?
    ensures BeginFindings(c, active, suspended, intervening) == []
       <==> && active.None?
            && (suspended.Some? <==> Resumes(c.action.info))
            && (suspended.Some? ==> intervening == [] && RenderingKey(suspended.value.1) == RenderingKey(c.action.info))
  {
  }

  lemma {:induction false} BeginVerdict(t: Stream, a: Segment, e: Event, registry: Registry)
    requires Closed(t, a) && Available(t) && IsBegin(e)
    ensures Verdict(t, e, registry) == []
       <==> && (Suspends(InfoAt(t, a.begin)) <==> Resumes(e.command.action.info))
            && (Suspends(InfoAt(t, a.begin)) ==>
                  && RenderingKey(InfoAt(t, a.begin)) == RenderingKey(e.command.action.info)
                  && Work(t, a.end, registry) == [])
  {
    ClosedState(t, a);
    NoBeginFindings(e.command, ActiveBegin(t), SuspendedBegin(t), Intervening(t, registry));
  }

  lemma {:induction false} NoWorkAfter(t: Stream, a: Segment, e: Event, registry: Registry)
    requires IsSegment(t, a)
    ensures Work(t, a.end, registry) == []
       <==> forall k :: a.end < k < |t| ==> !IsWork((t + [e])[k], registry)
  {
    var u := t + [e];
    assert forall k :: 0 <= k < |t| ==> u[k] == t[k];
    NoWork(t, a.end, registry);
  }

  lemma {:induction false} SegmentGrows(t: Stream, a: Segment, e: Event)
    requires IsSegment(t, a)
    ensures IsSegment(t + [e], a)
    ensures InfoAt(t + [e], a.begin) == InfoAt(t, a.begin)
  {
    assert forall k :: 0 <= k < |t| ==> (t + [e])[k] == t[k];
  }

  /** After a closed scope, a begin is clean exactly when it links. */
  lemma {:induction false} LinkVerdict(t: Stream, a: Segment, e: Event, registry: Registry)
    requires Closed(t, a) && Available(t) && IsBegin(e)
    ensures Verdict(t, e, registry) == [] <==> Linked(t + [e], a, |t|, registry)
  {
    BeginVerdict(t, a, e, registry);
    NoWorkAfter(t, a, e, registry);
    SegmentGrows(t, a, e);
    assert (t + [e])[|t|] == e;
  }

  // ---------------------------------------------------------------------------
  // A parsed stream deserves no finding

  /** In the gap after segment i, that segment is the latest and is closed. */
  lemma {:induction false} AfterSegment(s: Stream, segs: seq<Segment>, registry: Registry, i: nat, p: nat)
    requires Parses(s, segs, registry) && i < |segs|
    requires segs[i].end < p <= |s|
    requires i + 1 < |segs| ==> p <= segs[i + 1].begin
    ensures Closed(s[..p], segs[i])
  {
    var t := s[..p];
    assert IsSegment(s, segs[i]);
    forall k | segs[i].begin < k < p
      ensures !IsBegin(t[k])
      ensures k < segs[i].end ==> !IsBoundary(t[k])
    {
      OnlyCovered(s, segs, registry, i, k);
    }
    assert t[segs[i].begin] == s[segs[i].begin] && t[segs[i].end] == s[segs[i].end];
    LastBeginIs(t, segs[i].begin);
    BoundaryIs(t, segs[i].begin + 1, segs[i].end);
  }

  lemma {:induction false} SegmentOrder(s: Stream, segs: seq<Segment>, m: nat, i: nat)
    requires AreSegments(s, segs) && m <= i < |segs|
    ensures segs[m].begin < segs[m].end < |s| && segs[i].begin < segs[i].end < |s|
    ensures m < i ==> segs[m].end < segs[i].begin
  {
    assert IsSegment(s, segs[m]) && IsSegment(s, segs[i]);
  }

  lemma {:induction false} CoveredOnce(s: Stream, segs: seq<Segment>, i: nat, k: nat, m: nat)
    requires AreSegments(s, segs) && i < |segs| && m < |segs|
    requires segs[m].begin == k || segs[m].end == k
    requires segs[i].begin < k
    requires i + 1 < |segs| ==> k < segs[i + 1].begin
    ensures m == i && k == segs[i].end
  {
    SegmentOrder(s, segs, if m < i then m else i, if m < i then i else m);
    if i + 1 < |segs| {
      SegmentOrder(s, segs, i + 1, if i < m then m else i + 1);
    }
  }

  /** Between the begin of segment i and the begin of the next, its end is the only
      begin or end. */
  lemma {:induction false} OnlyCovered(s: Stream, segs: seq<Segment>, registry: Registry, i: nat, k: nat)
    requires Parses(s, segs, registry) && i < |segs|
    requires segs[i].begin < k < |s|
    requires i + 1 < |segs| ==> k < segs[i + 1].begin
    ensures k != segs[i].end ==> !IsBegin(s[k]) && !IsEnd(s[k])
    ensures !IsBegin(s[k])
  {
    assert IsSegment(s, segs[i]);
    if IsBegin(s[k]) || IsEnd(s[k]) {
      assert Covered(segs, k);
      var m :| 0 <= m < |segs| && (segs[m].begin == k || segs[m].end == k);
      CoveredOnce(s, segs, i, k, m);
    }
  }

  lemma {:induction false} InsideSegment(s: Stream, segs: seq<Segment>, registry: Registry, i: nat, p: nat)
    requires Parses(s, segs, registry) && i < |segs|
    requires segs[i].begin < p <= segs[i].end
    ensures ActiveScope(s[..p]) == Some(segs[i].begin)
  {
    var t := s[..p];
    assert IsSegment(s, segs[i]);
    forall k | segs[i].begin < k < p
      ensures !IsBoundary(t[k])
    {
      if i + 1 < |segs| {
        assert segs[i].end < segs[i + 1].begin;
      }
      OnlyCovered(s, segs, registry, i, k);
    }
    assert t[segs[i].begin] == s[segs[i].begin];
    LastBeginIs(t, segs[i].begin);
    BoundaryIs(t, segs[i].begin + 1, p);
  }

  lemma {:induction false} BeginsFromFirst(s: Stream, segs: seq<Segment>, registry: Registry, k: nat)
    requires Parses(s, segs, registry) && k < |s| && IsBegin(s[k])
    ensures segs != [] && segs[0].begin <= k
  {
    assert Covered(segs, k);
    var m :| 0 <= m < |segs| && (segs[m].begin == k || segs[m].end == k);
    assert IsSegment(s, segs[m]) && IsSegment(s, segs[0]);
  }

  lemma {:induction false} BeforeSegments(s: Stream, segs: seq<Segment>, registry: Registry, p: nat)
    requires Parses(s, segs, registry) && p <= |s|
    requires segs != [] ==> p <= segs[0].begin
    ensures LastBegin(s[..p]) == None
  {
    forall k | 0 <= k < |s| && IsBegin(s[k])
      ensures segs != [] && segs[0].begin <= k
    {
      BeginsFromFirst(s, segs, registry, k);
    }
  }

  /** The segment that a position comes after, or is inside of. */
  lemma {:induction false} Locate(s: Stream, segs: seq<Segment>, n: nat, p: nat) returns (i: int)
    requires AreSegments(s, segs) && n <= |segs|
    requires n < |segs| ==> p <= segs[n].begin
    ensures -1 <= i < n
    ensures i >= 0 ==> segs[i].begin < p
    ensures i + 1 < |segs| ==> p <= segs[i + 1].begin
  {
    if n == 0 {
      i := -1;
    } else if segs[n - 1].begin < p {
      i := n - 1;
    } else {
      i := Locate(s, segs, n - 1, p);
    }
  }

  lemma {:induction false} ParsedBegin(s: Stream, segs: seq<Segment>, registry: Registry, i: nat)
    requires Parses(s, segs, registry) && Available(s) && i < |segs|
    ensures segs[i].begin < |s|
    ensures Verdict(s[..segs[i].begin], s[segs[i].begin], registry) == []
  {
    assert IsSegment(s, segs[i]);
    var p := segs[i].begin;
    if i == 0 {
      BeforeSegments(s, segs, registry, p);
    } else {
      AfterSegment(s, segs, registry, i - 1, p);
      assert Linked(s, segs[i - 1], p, registry);
      LinkedPrefix(s, segs[i - 1], p, registry);
      LinkVerdict(s[..p], segs[i - 1], s[p], registry);
    }
  }

  lemma {:induction false} LinkedPrefix(s: Stream, a: Segment, b: nat, registry: Registry)
    requires Linked(s, a, b, registry)
    ensures Linked(s[..b] + [s[b]], a, b, registry)
  {
    var u := s[..b] + [s[b]];
    assert forall k :: 0 <= k < |u| ==> u[k] == s[k];
  }

  lemma {:induction false} ParsedClose(s: Stream, segs: seq<Segment>, registry: Registry, p: nat)
    requires Parses(s, segs, registry) && Available(s) && p < |s| && s[p].Close?
    ensures ActiveScope(s[..p]) == None
  {
    var i := Locate(s, segs, |segs|, p);
    if i < 0 {
      BeforeSegments(s, segs, registry, p);
    } else {
      assert IsSegment(s, segs[i]);
      AfterSegment(s, segs, registry, i, p);
      ClosedState(s[..p], segs[i]);
    }
  }

  lemma {:induction false} ParsedEnd(s: Stream, segs: seq<Segment>, registry: Registry, p: nat)
    requires Parses(s, segs, registry) && p < |s| && IsEnd(s[p])
    ensures ActiveScope(s[..p]).Some?
  {
    assert Covered(segs, p);
    var m :| 0 <= m < |segs| && (segs[m].begin == p || segs[m].end == p);
    assert IsSegment(s, segs[m]);
    InsideSegment(s, segs, registry, m, p);
  }

  lemma {:induction false} ParsedEvent(s: Stream, segs: seq<Segment>, registry: Registry, p: nat)
    requires Parses(s, segs, registry) && Available(s) && p < |s|
    ensures Verdict(s[..p], s[p], registry) == []
  {
    if IsBegin(s[p]) {
      assert Covered(segs, p);
      var m :| 0 <= m < |segs| && (segs[m].begin == p || segs[m].end == p);
      assert IsSegment(s, segs[m]);
      ParsedBegin(s, segs, registry, m);
    } else if IsEnd(s[p]) {
      ParsedEnd(s, segs, registry, p);
    } else if s[p].Close? {
      ParsedClose(s, segs, registry, p);
    }
  }

  /** The inspector reports nothing on a sentence of the language. */
  lemma {:induction false} ParsedIsClean(s: Stream, segs: seq<Segment>, registry: Registry, submit: Option<nat>)
    requires Parses(s, segs, registry) && Available(s)
    ensures Verdicts(s, registry) == [] && Closing(s, registry, submit) == []
  {
    forall p | 0 <= p < |s|
      ensures Verdict(s[..p], s[p], registry) == []
    {
      ParsedEvent(s, segs, registry, p);
    }
    NoVerdicts(s, |s|, registry);
    assert s[..|s|] == s;
    if segs == [] {
      BeforeSegments(s, segs, registry, |s|);
    } else {
      assert IsSegment(s, segs[|segs| - 1]);
      AfterSegment(s, segs, registry, |segs| - 1, |s|);
      ClosedState(s, segs[|segs| - 1]);
    }
  }

  // ---------------------------------------------------------------------------
  // A clean stream parses

  /** Every begin and end of t is in segs, but for the open scope. */
  ghost predicate Covering(t: Stream, segs: seq<Segment>, open: Option<nat>) {
    forall p :: 0 <= p < |t| && (IsBegin(t[p]) || IsEnd(t[p])) ==> Covered(segs, p) || open == Some(p)
  }

  /** Where the chain stands: after its last segment, or in a scope that links to it. */
  ghost predicate Standing(t: Stream, segs: seq<Segment>, open: Option<nat>, registry: Registry) {
    if open.None? then
      if segs == [] then LastBegin(t).None? else Closed(t, segs[|segs| - 1])
    else
      && open.value < |t| && IsBegin(t[open.value])
      && if segs == [] then !Resumes(InfoAt(t, open.value)) else Linked(t, segs[|segs| - 1], open.value, registry)
  }

  /** A prefix parses up to the scope that is still open in it. */
  ghost predicate ParsesUpTo(t: Stream, segs: seq<Segment>, registry: Registry) {
    && AreSegments(t, segs)
    && Chained(t, segs, registry)
    && Covering(t, segs, ActiveScope(t))
    && Standing(t, segs, ActiveScope(t), registry)
  }

  lemma {:induction false} SegmentsGrow(t: Stream, e: Event, segs: seq<Segment>, registry: Registry)
    requires AreSegments(t, segs) && Chained(t, segs, registry)
    ensures AreSegments(t + [e], segs) && Chained(t + [e], segs, registry)
  {
    var u := t + [e];
    assert forall k :: 0 <= k < |t| ==> u[k] == t[k];
    forall i | 0 <= i < |segs|
      ensures IsSegment(u, segs[i])
    {
      assert IsSegment(t, segs[i]);
    }
    forall i | 0 < i < |segs|
      ensures Linked(u, segs[i - 1], segs[i].begin, registry)
    {
      assert Linked(t, segs[i - 1], segs[i].begin, registry);
    }
  }

  lemma {:induction false} CoveringGrows(t: Stream, e: Event, segs: seq<Segment>, open: Option<nat>)
    requires Covering(t, segs, open)
    requires IsBegin(e) || IsEnd(e) ==> Covered(segs, |t|) || open == Some(|t|)
    ensures Covering(t + [e], segs, open)
  {
    var u := t + [e];
    assert forall k :: 0 <= k < |t| ==> u[k] == t[k];
    assert u[|t|] == e;
  }

  lemma {:induction false} StandingGrows(t: Stream, e: Event, segs: seq<Segment>, open: Option<nat>, registry: Registry)
    requires Standing(t, segs, open, registry)
    requires !IsBegin(e)
    ensures Standing(t + [e], segs, open, registry)
  {
    LastBeginSnoc(t, e);
    if open.Some? {
      assert (t + [e])[open.value] == t[open.value];
      if segs != [] {
        LinkedGrows(t, e, segs[|segs| - 1], open.value, registry);
      }
    } else if segs != [] {
      SegmentGrows(t, segs[|segs| - 1], e);
      BoundarySnoc(t, e, segs[|segs| - 1].begin + 1);
    }
  }

  /** Appending an event that is not a begin or an end. */
  lemma {:induction false} PlainGrows(t: Stream, e: Event, segs: seq<Segment>, registry: Registry)
    requires ParsesUpTo(t, segs, registry) && !e.Missing?
    requires !IsBegin(e) && !IsEnd(e)
    requires Verdict(t, e, registry) == []
    ensures ParsesUpTo(t + [e], segs, registry)
  {
    SegmentsGrow(t, e, segs, registry);
    ActiveSnoc(t, e);
    CoveringGrows(t, e, segs, ActiveScope(t));
    StandingGrows(t, e, segs, ActiveScope(t), registry);
  }

  lemma {:induction false} BeginGrows(t: Stream, e: Event, segs: seq<Segment>, registry: Registry)
    requires ParsesUpTo(t, segs, registry) && Available(t)
    requires IsBegin(e)
    requires Verdict(t, e, registry) == []
    ensures ParsesUpTo(t + [e], segs, registry)
  {
    SegmentsGrow(t, e, segs, registry);
    ActiveSnoc(t, e);
    NoBeginFindings(e.command, ActiveBegin(t), SuspendedBegin(t), Intervening(t, registry));
    CoveringGrows(t, e, segs, Some(|t|));
    assert (t + [e])[|t|] == e;
    if segs != [] {
      LinkVerdict(t, segs[|segs| - 1], e, registry);
    }
  }

  /** The end of the open scope completes a segment. */
  lemma {:induction false} EndCloses(t: Stream, e: Event, j: nat)
    requires ActiveScope(t) == Some(j) && IsEnd(e)
    ensures Closed(t + [e], Segment(j, |t|))
  {
    var u := t + [e];
    assert u[|t|] == e && u[j] == t[j];
    LastBeginSnoc(t, e);
    BoundarySnoc(t, e, j + 1);
    forall k | j < k < |t|
      ensures !u[k].Close? && !u[k].Missing?
    {
      if IsBoundary(t[k]) {
        BoundaryIsFirst(t, j + 1, k);
      }
      assert u[k] == t[k];
    }
  }

  lemma {:induction false} SegmentsAppend(s: Stream, segs: seq<Segment>, g: Segment)
    requires AreSegments(s, segs) && IsSegment(s, g)
    requires segs != [] ==> segs[|segs| - 1].end < g.begin
    ensures AreSegments(s, segs + [g])
  {
    var all := segs + [g];
    forall i, j | 0 <= i < j < |all|
      ensures all[i].end < all[j].begin
    {
      SegmentOrder(s, segs, i, |segs| - 1);
    }
  }

  lemma {:induction false} SegmentsSnoc(s: Stream, segs: seq<Segment>, g: Segment, registry: Registry)
    requires AreSegments(s, segs) && Chained(s, segs, registry)
    requires IsSegment(s, g)
    requires if segs == [] then !Resumes(InfoAt(s, g.begin)) else Linked(s, segs[|segs| - 1], g.begin, registry)
    ensures AreSegments(s, segs + [g]) && Chained(s, segs + [g], registry)
  {
    SegmentsAppend(s, segs, g);
    var all := segs + [g];
    forall i | 0 < i < |all|
      ensures Linked(s, all[i - 1], all[i].begin, registry)
    {
      if i < |segs| {
        assert Linked(s, segs[i - 1], segs[i].begin, registry);
      }
    }
  }

  lemma {:induction false} CoveringSnoc(t: Stream, segs: seq<Segment>, g: Segment)
    requires Covering(t, segs, Some(g.begin))
    ensures Covering(t, segs + [g], None)
    ensures Covered(segs + [g], g.end)
  {
    var all := segs + [g];
    assert all[|segs|] == g;
    forall p | 0 <= p < |t| && (IsBegin(t[p]) || IsEnd(t[p]))
      ensures Covered(all, p)
    {
      if Covered(segs, p) {
        var i :| 0 <= i < |segs| && (segs[i].begin == p || segs[i].end == p);
        assert all[i] == segs[i];
      }
    }
  }

  lemma {:induction false} EndGrows(t: Stream, e: Event, segs: seq<Segment>, registry: Registry)
    requires ParsesUpTo(t, segs, registry)
    requires IsEnd(e) && ActiveScope(t).Some?
    ensures ParsesUpTo(t + [e], segs + [Segment(ActiveScope(t).value, |t|)], registry)
  {
    var g := Segment(ActiveScope(t).value, |t|);
    SegmentsGrow(t, e, segs, registry);
    ActiveSnoc(t, e);
    EndCloses(t, e, g.begin);
    StandingGrows(t, e, segs, ActiveScope(t), registry);
    SegmentsSnoc(t + [e], segs, g, registry);
    CoveringSnoc(t, segs, g);
    CoveringGrows(t, e, segs + [g], None);
  }

  lemma {:induction false} LinkedGrows(t: Stream, e: Event, a: Segment, b: nat, registry: Registry)
    requires Linked(t, a, b, registry)
    ensures Linked(t + [e], a, b, registry)
  {
    assert forall k :: 0 <= k < |t| ==> (t + [e])[k] == t[k];
  }

  lemma {:induction false} CleanParses(s: Stream, registry: Registry) returns (segs: seq<Segment>)
    requires Available(s)
    requires Verdicts(s, registry) == []
    ensures ParsesUpTo(s, segs, registry)
  {
    if s == [] {
      segs := [];
    } else {
      var t, e := s[..|s| - 1], s[|s| - 1];
      LastEvent(s);
      segs := CleanParses(t, registry);
      if IsBegin(e) {
        BeginGrows(t, e, segs, registry);
      } else if IsEnd(e) {
        EndGrows(t, e, segs, registry);
        segs := segs + [Segment(ActiveScope(t).value, |t|)];
      } else {
        PlainGrows(t, e, segs, registry);
      }
    }
  }

  /** A batch stream ends with no open scope. */
  lemma {:induction false} BatchEndsClosed(batch: Batch, registry: Registry)
    ensures ActiveScope(BatchStream(batch)).None?
  {
    if batch != [] {
      var s := BatchStream(batch);
      var last := batch[|batch| - 1];
      var before := BatchStream(batch[..|batch| - 1]);
      assert s == s[..|s| - 1] + [s[|s| - 1]];
      ActiveSnoc(s[..|s| - 1], s[|s| - 1]);
    }
  }

  lemma {:induction false} CompleteIsAvailable(batch: Batch)
    requires forall i :: 0 <= i < |batch| ==> Complete(batch[i].1)
    ensures Available(BatchStream(batch))
  {
    if batch != [] {
      var (handle, recording) := batch[|batch| - 1];
      var before, last := BatchStream(batch[..|batch| - 1]), RecordingStream(handle, recording);
      CompleteIsAvailable(batch[..|batch| - 1]);
      assert Complete(batch[|batch| - 1].1);
      assert forall k :: 0 <= k < |last| ==> !last[k].Missing?;
      assert forall k :: 0 <= k < |before + last| ==>
          (before + last)[k] == if k < |before| then before[k] else last[k - |before|];
    }
  }

  /** inspect_batch has no finding exactly when the batch is in the language. */
  lemma {:induction false} CleanIffInLanguage(submit: Option<nat>, batch: Batch, registry: Registry)
    requires forall i :: 0 <= i < |batch| ==> Complete(batch[i].1)
    ensures BatchSpec(submit, batch, registry).findings == []
       <==> exists segs :: Parses(BatchStream(batch), segs, registry)
  {
    var s := BatchStream(batch);
    CompleteIsAvailable(batch);
    if BatchSpec(submit, batch, registry).findings == [] {
      var segs := CleanParses(s, registry);
      BatchEndsClosed(batch, registry);
      if segs != [] {
        ClosedState(s, segs[|segs| - 1]);
      }
      assert Parses(s, segs, registry);
    }
    if exists segs :: Parses(s, segs, registry) {
      var segs :| Parses(s, segs, registry);
      ParsedIsClean(s, segs, registry, submit);
    }
  }
}
