/**
 The expansion of triangles into lines in arlinux/diagnostics/polygon_probe.cpp: a sequence of vertex
 indices becomes a list of lines, two indices each, that draws the outline of every triangle. The
 triangles are those of the Vulkan specification, chapter Drawing Commands, section Primitive
 Topologies.
 */
module EdgeExpansion {
  const SENTINEL := 0xFFFF_FFFF
  const U32 := 0x1_0000_0000

  datatype Topology = List | Strip | Fan

  /** Three positions in the sequence of indices. */
  datatype Triple = Triple(a: nat, b: nat, d: nat)

  // ---------------------------------------------------------------------------
  // What the loop does

  function WindowCount(topology: Topology, count: nat): nat
    requires count >= 2
  {
    if topology.List? then count / 3 else count - 2
  }

  /** The positions that the loop looks at in round t. */
  function Window(topology: Topology, t: nat): Triple {
    match topology
    case List => Triple(3 * t, 3 * t + 1, 3 * t + 2)
    case Strip => Triple(t, t + 1, t + 2)
    case Fan => Triple(0, t + 1, t + 2)
  }

  predicate Within(s: seq<nat>, w: Triple) { w.a < |s| && w.b < |s| && w.d < |s| }

  predicate Skipped(s: seq<nat>, w: Triple)
    requires Within(s, w)
  {
    s[w.a] == SENTINEL || s[w.b] == SENTINEL || s[w.d] == SENTINEL
  }

  /** The vertex that is drawn for a position: its index, moved by the base that the probe uses, or
      the position itself if the draw is not indexed. */
  function Vertex(s: seq<nat>, indexed: bool, restart: bool, x: nat): nat
    requires x < |s|
  {
    if indexed then (s[x] + if restart then 4 else 7) % U32 else x
  }

  /** Three lines around a triple, or three lines of no length. */
  function Outline(s: seq<nat>, indexed: bool, restart: bool, w: Triple): (r: seq<nat>)
    requires Within(s, w)
    ensures |r| == 6
  {
    if Skipped(s, w) then [0, 0, 0, 0, 0, 0]
    else
      var a, b, d := Vertex(s, indexed, restart, w.a), Vertex(s, indexed, restart, w.b), Vertex(s, indexed, restart, w.d);
      [a, b, b, d, d, a]
  }

  lemma {:induction false} WindowWithin(topology: Topology, s: seq<nat>, t: nat)
    requires |s| >= 2 && t < WindowCount(topology, |s|)
    ensures Within(s, Window(topology, t))
  {
  }

  /** The windows in order. */
  function Windows(topology: Topology, n: nat): (r: seq<Triple>)
    ensures |r| == n
  {
    seq(n, t requires 0 <= t => Window(topology, t))
  }

  predicate AllWithin(s: seq<nat>, ws: seq<Triple>) { forall w <- ws :: Within(s, w) }

  function Outlines(s: seq<nat>, indexed: bool, restart: bool, ws: seq<Triple>): (r: seq<nat>)
    requires AllWithin(s, ws)
    ensures |r| == 6 * |ws|
  {
    if ws == [] then []
    else Outlines(s, indexed, restart, ws[..|ws| - 1]) + Outline(s, indexed, restart, ws[|ws| - 1])
  }

  /** The indices of one window are pushed one by one. */
  method PushOutline(before: seq<nat>, s: seq<nat>, indexed: bool, restart: bool, w: Triple) returns (r: seq<nat>)
    requires Within(s, w)
    ensures r == before + Outline(s, indexed, restart, w)
  {
    r := before;
    var skip := s[w.a] == SENTINEL || s[w.b] == SENTINEL || s[w.d] == SENTINEL;
    var v := [w.a, w.b, w.b, w.d, w.d, w.a];
    for i := 0 to 6
      invariant r == before + Outline(s, indexed, restart, w)[..i]
    {
      r := r + [if skip then 0 else Vertex(s, indexed, restart, v[i])];
    }
  }

  lemma {:induction false} WindowsSnoc(topology: Topology, t: nat)
    ensures Windows(topology, t + 1) == Windows(topology, t) + [Window(topology, t)]
    ensures Windows(topology, t + 1)[..t] == Windows(topology, t)
  {
  }

  // ---------------------------------------------------------------------------
  // Which windows are drawn

  /** The windows that are not skipped, in order. */
  function Drawn(s: seq<nat>, ws: seq<Triple>): seq<Triple>
    requires AllWithin(s, ws)
  {
    if ws == [] then []
    else
      var before := Drawn(s, ws[..|ws| - 1]);
      if Skipped(s, ws[|ws| - 1]) then before else before + [ws[|ws| - 1]]
  }

  /** Every three neighbours of a stretch of positions, in order. */
  function Neighbours(first: nat, length: nat): seq<Triple> {
    if length < 3 then [] else Neighbours(first, length - 1) + [Window(Strip, first + length - 3)]
  }

  /** The neighbours within every stretch between sentinels, in order; first is where the present
      stretch starts, and end how far it is known to be free. */
  function SegmentTriples(s: seq<nat>, first: nat, end: nat): seq<Triple>
    requires first <= end <= |s|
    decreases |s| - end
  {
    if end == |s| then Neighbours(first, end - first)
    else if s[end] == SENTINEL then Neighbours(first, end - first) + SegmentTriples(s, end + 1, end + 1)
    else SegmentTriples(s, first, end + 1)
  }

  /** The windows of a strip that are drawn among the first n. */
  function StripDrawn(s: seq<nat>, n: nat): seq<Triple>
    requires n + 2 <= |s|
  {
    Drawn(s, Windows(Strip, n))
  }

  lemma {:induction false} StripDrawnNext(s: seq<nat>, n: nat)
    requires n + 3 <= |s|
    ensures StripDrawn(s, n + 1)
         == if Skipped(s, Window(Strip, n)) then StripDrawn(s, n) else StripDrawn(s, n) + [Window(Strip, n)]
  {
    WindowsSnoc(Strip, n);
  }

  predicate Free(s: seq<nat>, first: nat, end: nat)
    requires first <= end <= |s|
  {
    forall i :: first <= i < end ==> s[i] != SENTINEL
  }

  /** In a free stretch every window is drawn. */
  lemma {:induction false} FreeStretch(s: seq<nat>, first: nat, length: nat)
    requires length >= 2 && first + length <= |s| && Free(s, first, first + length)
    ensures StripDrawn(s, first + length - 2) == StripDrawn(s, first) + Neighbours(first, length)
  {
    if length > 2 {
      FreeStretch(s, first, length - 1);
      StripDrawnNext(s, first + length - 3);
    }
  }

  /** A window that contains a sentinel is not drawn. */
  lemma {:induction false} SentinelStretch(s: seq<nat>, at: nat, first: nat, last: nat)
    requires first <= last && last + 2 <= |s| && at < |s| && s[at] == SENTINEL
    requires last <= at + 1 && at <= first + 2
    ensures StripDrawn(s, last) == StripDrawn(s, first)
    decreases last
  {
    if first < last {
      SentinelStretch(s, at, first, last - 1);
      StripDrawnNext(s, last - 1);
    }
  }

  function Min(a: int, b: int): int { if a < b then a else b }

  /** Up to the sentinel that ends a stretch, the windows of the stretch are drawn. */
  lemma {:induction false} StretchDrawn(s: seq<nat>, first: nat, end: nat)
    requires 2 <= |s| && first <= end < |s| && Free(s, first, end) && s[end] == SENTINEL
    ensures StripDrawn(s, Min(end + 1, |s| - 2))
         == StripDrawn(s, Min(first, |s| - 2)) + Neighbours(first, end - first)
  {
    if end - first >= 2 {
      FreeStretch(s, first, end - first);
      SentinelStretch(s, end, end - 2, Min(end + 1, |s| - 2));
    } else {
      SentinelStretch(s, end, Min(first, |s| - 2), Min(end + 1, |s| - 2));
    }
  }

  lemma {:induction false} Assoc<T>(a: seq<T>, b: seq<T>, c: seq<T>)
    ensures (a + b) + c == a + (b + c)
  {
  }

  lemma {:induction false} RestDrawn(s: seq<nat>, first: nat, end: nat)
    requires 2 <= |s| && first <= end <= |s| && Free(s, first, end)
    ensures StripDrawn(s, |s| - 2) == StripDrawn(s, Min(first, |s| - 2)) + SegmentTriples(s, first, end)
    decreases |s| - end
  {
    if end == |s| {
      if end - first >= 2 { FreeStretch(s, first, end - first); }
    } else if s[end] == SENTINEL {
      StretchDrawn(s, first, end);
      RestDrawn(s, end + 1, end + 1);
      Assoc(StripDrawn(s, Min(first, |s| - 2)), Neighbours(first, end - first), SegmentTriples(s, end + 1, end + 1));
    } else {
      RestDrawn(s, first, end + 1);
    }
  }

  /** The windows of a strip that are drawn are, in order, the neighbours within every stretch
      between sentinels. */
  lemma {:induction false} StripDrawsSegments(s: seq<nat>)
    requires |s| >= 2
    ensures AllWithin(s, Windows(Strip, |s| - 2))
    ensures Drawn(s, Windows(Strip, |s| - 2)) == SegmentTriples(s, 0, 0)
  {
    RestDrawn(s, 0, 0);
  }

  // ---------------------------------------------------------------------------
  // The triangles that Vulkan assembles

  function TriangleCount(topology: Topology, length: nat): nat {
    if topology.List? then length / 3 else if length < 3 then 0 else length - 2
  }

  /** The i-th triangle of a stretch of vertices that starts at first. */
  function Triangle(topology: Topology, first: nat, i: nat): Triple {
    match topology
    case List => Triple(first + 3 * i, first + 3 * i + 1, first + 3 * i + 2)
    case Strip => Triple(first + i, first + i + 1 + i % 2, first + i + 2 - i % 2)
    case Fan => Triple(first + i + 1, first + i + 2, first)
  }

  function Triangles(topology: Topology, first: nat, length: nat): (r: seq<Triple>)
    ensures |r| == TriangleCount(topology, length)
    ensures forall i :: 0 <= i < |r| ==> r[i] == Triangle(topology, first, i)
  {
    seq(TriangleCount(topology, length), i requires 0 <= i => Triangle(topology, first, i))
  }

  /** A sentinel ends a strip, and the next vertex starts a new one. */
  function RestartedStrips(s: seq<nat>, first: nat, end: nat): seq<Triple>
    requires first <= end <= |s|
    decreases |s| - end
  {
    if end == |s| then Triangles(Strip, first, end - first)
    else if s[end] == SENTINEL then Triangles(Strip, first, end - first) + RestartedStrips(s, end + 1, end + 1)
    else RestartedStrips(s, first, end + 1)
  }

  /** The sides of a triangle, without direction. */
  function Sides(w: Triple): set<set<nat>> { {{w.a, w.b}, {w.b, w.d}, {w.d, w.a}} }

  function AllSides(ws: seq<Triple>): (r: seq<set<set<nat>>>)
    ensures |r| == |ws|
    ensures forall i :: 0 <= i < |r| ==> r[i] == Sides(ws[i])
  {
    seq(|ws|, i requires 0 <= i < |ws| => Sides(ws[i]))
  }

  lemma {:induction false} AllSidesConcat(a: seq<Triple>, b: seq<Triple>)
    ensures AllSides(a + b) == AllSides(a) + AllSides(b)
  {
  }

  /** Turning a triangle around, or swapping two of its corners, keeps its sides. */
  lemma {:induction false} SameSides(a: nat, b: nat, d: nat)
    ensures Sides(Triple(a, b, d)) == Sides(Triple(a, d, b)) == Sides(Triple(b, d, a))
  {
    assert {a, b} == {b, a} && {b, d} == {d, b} && {d, a} == {a, d};
  }

  lemma {:induction false} WindowSides(topology: Topology, first: nat, i: nat)
    requires topology.Strip? || first == 0
    ensures Sides(Window(topology, first + i)) == Sides(Triangle(topology, first, i))
  {
    var w := Window(topology, first + i);
    SameSides(w.a, w.b, w.d);
  }

  lemma {:induction false} NeighboursAt(first: nat, length: nat)
    ensures |Neighbours(first, length)| == TriangleCount(Strip, length)
    ensures forall i :: 0 <= i < |Neighbours(first, length)| ==> Neighbours(first, length)[i] == Window(Strip, first + i)
  {
    if length >= 3 {
      NeighboursAt(first, length - 1);
    }
  }

  lemma {:induction false} StretchSides(first: nat, length: nat)
    ensures AllSides(Neighbours(first, length)) == AllSides(Triangles(Strip, first, length))
  {
    NeighboursAt(first, length);
    forall i: nat | i < TriangleCount(Strip, length)
      ensures Sides(Neighbours(first, length)[i]) == Sides(Triangles(Strip, first, length)[i])
    {
      WindowSides(Strip, first, i);
    }
  }

  lemma {:induction false} SegmentSides(s: seq<nat>, first: nat, end: nat)
    requires first <= end <= |s|
    ensures AllSides(SegmentTriples(s, first, end)) == AllSides(RestartedStrips(s, first, end))
    decreases |s| - end
  {
    StretchSides(first, end - first);
    if end < |s| {
      if s[end] == SENTINEL {
        SegmentSides(s, end + 1, end + 1);
        AllSidesConcat(Neighbours(first, end - first), SegmentTriples(s, end + 1, end + 1));
        AllSidesConcat(Triangles(Strip, first, end - first), RestartedStrips(s, end + 1, end + 1));
      } else {
        SegmentSides(s, first, end + 1);
      }
    }
  }

  /** For any sequence, with sentinels anywhere, the windows of a strip that are drawn have the sides
      of the triangles that Vulkan assembles, in the same order. */
  lemma {:induction false} StripDrawsTriangles(s: seq<nat>)
    requires |s| >= 2
    ensures AllWithin(s, Windows(Strip, |s| - 2))
    ensures AllSides(Drawn(s, Windows(Strip, |s| - 2))) == AllSides(RestartedStrips(s, 0, 0))
  {
    StripDrawsSegments(s);
    SegmentSides(s, 0, 0);
  }

  /** Without sentinels every topology draws the sides of its triangles. */
  lemma {:induction false} DrawsTriangles(s: seq<nat>, topology: Topology)
    requires |s| >= 2 && SENTINEL !in s
    ensures AllWithin(s, Windows(topology, WindowCount(topology, |s|)))
    ensures AllSides(Drawn(s, Windows(topology, WindowCount(topology, |s|)))) == AllSides(Triangles(topology, 0, |s|))
  {
    DrawnAll(s, topology, WindowCount(topology, |s|));
    WindowsSides(topology, |s|);
  }

  lemma {:induction false} WindowsSides(topology: Topology, length: nat)
    requires length >= 2
    ensures AllSides(Windows(topology, WindowCount(topology, length))) == AllSides(Triangles(topology, 0, length))
  {
    var n := WindowCount(topology, length);
    assert n == TriangleCount(topology, length);
    forall i: nat | i < n
      ensures Sides(Windows(topology, n)[i]) == Sides(Triangles(topology, 0, length)[i])
    {
      WindowSides(topology, 0, i);
    }
  }

  lemma {:induction false} DrawnAll(s: seq<nat>, topology: Topology, n: nat)
    requires |s| >= 2 && SENTINEL !in s && n <= WindowCount(topology, |s|)
    ensures AllWithin(s, Windows(topology, n)) && Drawn(s, Windows(topology, n)) == Windows(topology, n)
  {
    if n > 0 {
      DrawnAll(s, topology, n - 1);
      WindowWithin(topology, s, n - 1);
      WindowsSnoc(topology, n - 1);
    }
  }

  // ---------------------------------------------------------------------------
  // The list of indices

  /** The three lines in six indices, without direction. */
  function Lines(six: seq<nat>): set<set<nat>>
    requires |six| == 6
  {
    {{six[0], six[1]}, {six[2], six[3]}, {six[4], six[5]}}
  }

  /** The lines of every six indices of a list. */
  function AllLines(indices: seq<nat>): seq<set<set<nat>>> {
    if |indices| < 6 then [] else AllLines(indices[..|indices| - 6]) + [Lines(indices[|indices| - 6..])]
  }

  const ZEROED: set<set<nat>> := {{0}}

  /** Without the outlines that are only the point zero. */
  function Visible(outlines: seq<set<set<nat>>>): seq<set<set<nat>>> {
    if outlines == [] then []
    else
      var n := |outlines| - 1;
      if outlines[n] == ZEROED then Visible(outlines[..n]) else Visible(outlines[..n]) + [outlines[n]]
  }

  /** A side between positions as a line between the vertices there. */
  function LineOf(s: seq<nat>, indexed: bool, restart: bool, side: set<nat>): set<nat> {
    set x | x in side && x < |s| :: Vertex(s, indexed, restart, x)
  }

  function LinesOf(s: seq<nat>, indexed: bool, restart: bool, sides: set<set<nat>>): set<set<nat>> {
    set side | side in sides :: LineOf(s, indexed, restart, side)
  }

  function AllLinesOf(s: seq<nat>, indexed: bool, restart: bool, sides: seq<set<set<nat>>>): seq<set<set<nat>>> {
    if sides == [] then []
    else AllLinesOf(s, indexed, restart, sides[..|sides| - 1]) + [LinesOf(s, indexed, restart, sides[|sides| - 1])]
  }

  lemma {:induction false} SideIsLine(s: seq<nat>, indexed: bool, restart: bool, a: nat, b: nat)
    requires a < |s| && b < |s|
    ensures LineOf(s, indexed, restart, {a, b})
         == {Vertex(s, indexed, restart, a), Vertex(s, indexed, restart, b)}
  {
  }

  /** The six indices of a window that is drawn are the sides of the window. */
  lemma {:induction false} OutlineLines(s: seq<nat>, indexed: bool, restart: bool, w: Triple)
    requires Within(s, w)
    ensures Lines(Outline(s, indexed, restart, w)) ==
            if Skipped(s, w) then ZEROED else LinesOf(s, indexed, restart, Sides(w))
  {
    SideIsLine(s, indexed, restart, w.a, w.b);
    SideIsLine(s, indexed, restart, w.b, w.d);
    SideIsLine(s, indexed, restart, w.d, w.a);
    assert LinesOf(s, indexed, restart, Sides(w)) ==
           {LineOf(s, indexed, restart, {w.a, w.b}), LineOf(s, indexed, restart, {w.b, w.d}),
            LineOf(s, indexed, restart, {w.d, w.a})};
    assert {0, 0} == {0};
  }

  lemma {:induction false} AllLinesSnoc(indices: seq<nat>, six: seq<nat>)
    requires |six| == 6
    ensures AllLines(indices + six) == AllLines(indices) + [Lines(six)]
  {
    var all := indices + six;
    assert all[..|all| - 6] == indices && all[|all| - 6..] == six;
  }

  lemma {:induction false} VisibleSnoc(outlines: seq<set<set<nat>>>, outline: set<set<nat>>)
    ensures Visible(outlines + [outline])
         == if outline == ZEROED then Visible(outlines) else Visible(outlines) + [outline]
  {
    assert (outlines + [outline])[..|outlines|] == outlines;
  }

  lemma {:induction false} AllLinesOfSnoc(s: seq<nat>, indexed: bool, restart: bool, ws: seq<Triple>, w: Triple)
    ensures AllLinesOf(s, indexed, restart, AllSides(ws + [w]))
         == AllLinesOf(s, indexed, restart, AllSides(ws)) + [LinesOf(s, indexed, restart, Sides(w))]
  {
    var sides := AllSides(ws + [w]);
    assert sides[..|ws|] == AllSides(ws);
  }

  /** What is visible in the list are the sides of the windows that are drawn. */
  lemma {:induction false} VisibleIsDrawn(s: seq<nat>, indexed: bool, restart: bool, ws: seq<Triple>)
    requires AllWithin(s, ws)
    ensures Visible(AllLines(Outlines(s, indexed, restart, ws)))
         == Visible(AllLinesOf(s, indexed, restart, AllSides(Drawn(s, ws))))
  {
    if ws != [] {
      var before, w := ws[..|ws| - 1], ws[|ws| - 1];
      VisibleIsDrawn(s, indexed, restart, before);
      OutlineLines(s, indexed, restart, w);
      AllLinesSnoc(Outlines(s, indexed, restart, before), Outline(s, indexed, restart, w));
      VisibleSnoc(AllLines(Outlines(s, indexed, restart, before)), Lines(Outline(s, indexed, restart, w)));
      if !Skipped(s, w) {
        AllLinesOfSnoc(s, indexed, restart, Drawn(s, before), w);
        VisibleSnoc(AllLinesOf(s, indexed, restart, AllSides(Drawn(s, before))), LinesOf(s, indexed, restart, Sides(w)));
      }
    }
  }

  /** What the probe adds to an index in the buffer of the draw under test. */
  function Base(restart: bool): nat { if restart then 4 else 7 }

  /** The vertex offset of an indexed draw, of either kind. */
  function Offset(restart: bool): int { if restart then 0 else -3 }

  /** Where the draw under test fetches the vertex for a position: by its index buffer and vertex offset,
      or from its first vertex on. */
  function FetchedDirectly(s: seq<nat>, indexed: bool, restart: bool, x: nat): int
    requires x < |s|
  {
    if indexed then (s[x] + Base(restart)) % U32 + Offset(restart) else 4 + x
  }

  /** Where the reference draw fetches a vertex of the expanded list. */
  function FetchedByReference(vertex: nat, indexed: bool, restart: bool): int {
    vertex + if indexed then Offset(restart) else 4
  }

  /** Both draws fetch the same vertex for a position: where the index does not wrap, the one stored four
      places after the first. */
  lemma {:induction false} SameVertexFetched(s: seq<nat>, indexed: bool, restart: bool, x: nat)
    requires x < |s|
    ensures FetchedByReference(Vertex(s, indexed, restart, x), indexed, restart)
         == FetchedDirectly(s, indexed, restart, x)
    ensures !indexed || s[x] + 7 < U32 ==>
              FetchedDirectly(s, indexed, restart, x) == 4 + if indexed then s[x] else x
  {
  }

  /** The triangles that Vulkan assembles from a sequence of indices, with or without restart. */
  function Assembled(s: seq<nat>, topology: Topology, restarts: bool): seq<Triple> {
    if topology.Strip? && restarts then RestartedStrips(s, 0, 0) else Triangles(topology, 0, |s|)
  }

  lemma {:induction false} AssembledSides(s: seq<nat>, topology: Topology, restarts: bool)
    requires |s| >= 2 && ((topology.Strip? && restarts) || SENTINEL !in s)
    ensures AllWithin(s, Windows(topology, WindowCount(topology, |s|)))
    ensures AllSides(Drawn(s, Windows(topology, WindowCount(topology, |s|))))
         == AllSides(Assembled(s, topology, restarts))
  {
    if topology.Strip? && restarts {
      StripDrawsTriangles(s);
    } else {
      DrawsTriangles(s, topology);
    }
  }

  /** Six indices for every window, in order. For an indexed strip with restart, and for every topology
      without sentinels, the lines in the list are the sides of the triangles that Vulkan assembles,
      in order, apart from outlines that are only the point zero. */
  method Expand(s: seq<nat>, topology: Topology, indexed: bool, restart: bool) returns (expanded: seq<nat>)
    requires |s| >= 2
    ensures AllWithin(s, Windows(topology, WindowCount(topology, |s|)))
    ensures expanded == Outlines(s, indexed, restart, Windows(topology, WindowCount(topology, |s|)))
    ensures (topology.Strip? && restart && indexed) || SENTINEL !in s ==>
              Visible(AllLines(expanded)) ==
              Visible(AllLinesOf(s, indexed, restart, AllSides(Assembled(s, topology, restart && indexed))))
  {
    expanded := [];
    var n := WindowCount(topology, |s|);
    for t := 0 to n
      invariant AllWithin(s, Windows(topology, t))
      invariant expanded == Outlines(s, indexed, restart, Windows(topology, t))
    {
      WindowWithin(topology, s, t);
      WindowsSnoc(topology, t);
      expanded := PushOutline(expanded, s, indexed, restart, Window(topology, t));
    }
    if (topology.Strip? && restart && indexed) || SENTINEL !in s {
      VisibleIsDrawn(s, indexed, restart, Windows(topology, n));
      AssembledSides(s, topology, restart && indexed);
    }
  }
}
