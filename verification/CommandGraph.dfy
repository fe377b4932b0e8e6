/**
 The execute-secondary references between command buffers, and the path-based search of
 tools/inspect-upload-capture.py over them: it visits exactly the reachable command
 buffers, it ends even when the references are cyclic, and it meets one of its own
 ancestors exactly when a cycle is reachable.
 */
module CommandGraph {

  type Handle = nat

  datatype Kind = TextureStaging | BufferStaging | ImmediateVertex | IndirectParameters

  /** A recorded consumption of a buffer, or a reference to a secondary command buffer. */
  datatype Entry =
    | Secondary(command: Handle)
    | Use(buffer: nat, kind: Kind, call: int)

  type Graph = map<Handle, seq<Entry>>

  predicate Edge(g: Graph, a: Handle, b: Handle) { a in g && Secondary(b) in g[a] }

  ghost predicate IsWalk(g: Graph, w: seq<Handle>) {
    && w != []
    && forall i :: 0 < i < |w| ==> Edge(g, w[i - 1], w[i])
  }

  ghost predicate WalkFrom(g: Graph, c: Handle, w: seq<Handle>) {
    IsWalk(g, w) && w[0] == c
  }

  ghost predicate Reaches(g: Graph, c: Handle, v: Handle) {
    exists w :: WalkFrom(g, c, w) && w[|w| - 1] == v
  }

  /** A walk from c passes some command buffer twice: a cycle is reachable. */
  ghost predicate CycleReachable(g: Graph, c: Handle) {
    exists w, i: nat, j: nat :: WalkFrom(g, c, w) && Repeats(w, i, j)
  }

  ghost predicate Repeats(w: seq<Handle>, i: nat, j: nat) {
    i < j < |w| && w[i] == w[j]
  }

  // ---------------------------------------------------------------------------
  // The search, with the set of ancestors it carries

  /** Everything consumed on the way from c, without entering an ancestor again. */
  function UsesFrom(g: Graph, c: Handle, seen: set<Handle>): set<Entry>
    decreases |g.Keys - seen|, 1, 0
  {
    if c in seen || c !in g then {}
    else
      Fewer(g, c, seen);
      UsesIn(g, g[c], |g[c]|, seen + {c})
  }

  function UsesIn(g: Graph, entries: seq<Entry>, n: nat, seen: set<Handle>): set<Entry>
    requires n <= |entries|
    decreases |g.Keys - seen|, 2, n
  {
    if n == 0 then {}
    else UsesIn(g, entries, n - 1, seen)
         + match entries[n - 1]
           case Secondary(d) => UsesFrom(g, d, seen)
           case Use(_, _, _) => {entries[n - 1]}
  }

  /** The same in the order of the search. */
  function VisitsFrom(g: Graph, c: Handle, seen: set<Handle>): seq<Entry>
    decreases |g.Keys - seen|, 1, 0
  {
    if c in seen || c !in g then []
    else
      Fewer(g, c, seen);
      VisitsIn(g, g[c], |g[c]|, seen + {c})
  }

  function VisitsIn(g: Graph, entries: seq<Entry>, n: nat, seen: set<Handle>): seq<Entry>
    requires n <= |entries|
    decreases |g.Keys - seen|, 2, n
  {
    if n == 0 then []
    else VisitsIn(g, entries, n - 1, seen)
         + match entries[n - 1]
           case Secondary(d) => VisitsFrom(g, d, seen)
           case Use(_, _, _) => [entries[n - 1]]
  }

  function Members(visits: seq<Entry>): set<Entry> { set u | u in visits }

  lemma {:induction false} MembersConcat(a: seq<Entry>, b: seq<Entry>)
    ensures Members(a + b) == Members(a) + Members(b)
  {
  }

  /** The search visits exactly what it collects. */
  lemma {:induction false} VisitsAreUses(g: Graph, c: Handle, seen: set<Handle>)
    ensures Members(VisitsFrom(g, c, seen)) == UsesFrom(g, c, seen)
    decreases |g.Keys - seen|, 1, 0
  {
    if c !in seen && c in g {
      Fewer(g, c, seen);
      VisitsInAreUses(g, g[c], |g[c]|, seen + {c});
    }
  }

  lemma {:induction false} VisitsInAreUses(g: Graph, entries: seq<Entry>, n: nat, seen: set<Handle>)
    requires n <= |entries|
    ensures Members(VisitsIn(g, entries, n, seen)) == UsesIn(g, entries, n, seen)
    decreases |g.Keys - seen|, 2, n
  {
    if n > 0 {
      VisitsInAreUses(g, entries, n - 1, seen);
      match entries[n - 1]
      case Secondary(d) =>
        VisitsAreUses(g, d, seen);
        MembersConcat(VisitsIn(g, entries, n - 1, seen), VisitsFrom(g, d, seen));
      case Use(_, _, _) =>
        MembersConcat(VisitsIn(g, entries, n - 1, seen), [entries[n - 1]]);
    }
  }

  /** The search from c meets an ancestor. */
  predicate MeetsAncestor(g: Graph, c: Handle, seen: set<Handle>)
    decreases |g.Keys - seen|, 1, 0
  {
    if c in seen then true
    else if c !in g then false
    else
      Fewer(g, c, seen);
      MeetsIn(g, g[c], |g[c]|, seen + {c})
  }

  predicate MeetsIn(g: Graph, entries: seq<Entry>, n: nat, seen: set<Handle>)
    requires n <= |entries|
    decreases |g.Keys - seen|, 2, n
  {
    n > 0 && (MeetsIn(g, entries, n - 1, seen)
              || (entries[n - 1].Secondary? && MeetsAncestor(g, entries[n - 1].command, seen)))
  }

  /** Entering a new command buffer leaves fewer to enter. */
  lemma {:induction false} Fewer(g: Graph, c: Handle, seen: set<Handle>)
    requires c in g && c !in seen
    ensures g.Keys - (seen + {c}) < g.Keys - seen
    ensures |g.Keys - (seen + {c})| < |g.Keys - seen|
  {
    assert g.Keys - (seen + {c}) == (g.Keys - seen) - {c};
  }

  // ---------------------------------------------------------------------------
  // Entries and edges

  lemma {:induction false} MeetsInIff(g: Graph, entries: seq<Entry>, n: nat, seen: set<Handle>)
    requires n <= |entries|
    ensures MeetsIn(g, entries, n, seen)
       <==> exists k :: 0 <= k < n && entries[k].Secondary? && MeetsAncestor(g, entries[k].command, seen)
  {
    if n > 0 {
      MeetsInIff(g, entries, n - 1, seen);
    }
  }

  lemma {:induction false} UsesInIff(g: Graph, entries: seq<Entry>, n: nat, seen: set<Handle>, u: Entry)
    requires n <= |entries|
    ensures u in UsesIn(g, entries, n, seen)
       <==> exists k :: 0 <= k < n && (if entries[k].Secondary? then u in UsesFrom(g, entries[k].command, seen)
                                       else u == entries[k])
  {
    if n > 0 {
      UsesInIff(g, entries, n - 1, seen, u);
    }
  }

  lemma {:induction false} WalkTail(g: Graph, w: seq<Handle>, i: nat)
    requires IsWalk(g, w) && i < |w|
    ensures IsWalk(g, w[i..])
    ensures i > 0 ==> Edge(g, w[i - 1], w[i])
  {
    var t := w[i..];
    forall k | 0 < k < |t|
      ensures Edge(g, t[k - 1], t[k])
    {
      assert t[k - 1] == w[i + k - 1] && t[k] == w[i + k];
    }
  }

  lemma {:induction false} WalkCons(g: Graph, c: Handle, w: seq<Handle>)
    requires IsWalk(g, w) && Edge(g, c, w[0])
    ensures IsWalk(g, [c] + w)
  {
    var t := [c] + w;
    forall k | 0 < k < |t|
      ensures Edge(g, t[k - 1], t[k])
    {
      assert t[k] == w[k - 1];
      assert k > 1 ==> t[k - 1] == w[k - 2];
    }
  }

  // ---------------------------------------------------------------------------
  // Cycles

  /** A walk from c that runs into an ancestor, or into itself. */
  ghost predicate Closes(g: Graph, c: Handle, seen: set<Handle>, w: seq<Handle>) {
    && WalkFrom(g, c, w)
    && (w[|w| - 1] in seen || exists i: nat, j: nat :: Repeats(w, i, j))
  }

  lemma {:induction false} MeetsGivesWalk(g: Graph, c: Handle, seen: set<Handle>) returns (w: seq<Handle>)
    requires MeetsAncestor(g, c, seen)
    ensures Closes(g, c, seen, w)
    decreases |g.Keys - seen|
  {
    if c in seen {
      w := [c];
    } else {
      MeetsInIff(g, g[c], |g[c]|, seen + {c});
      var k :| 0 <= k < |g[c]| && g[c][k].Secondary? && MeetsAncestor(g, g[c][k].command, seen + {c});
      Fewer(g, c, seen);
      var t := MeetsGivesWalk(g, g[c][k].command, seen + {c});
      assert g[c][k] == Secondary(t[0]);
      WalkCons(g, c, t);
      w := [c] + t;
      if exists i: nat, j: nat :: Repeats(t, i, j) {
        var i: nat, j: nat :| Repeats(t, i, j);
        assert Repeats(w, i + 1, j + 1);
      } else if w[|w| - 1] == c {
        assert Repeats(w, 0, |w| - 1);
      }
    }
  }

  lemma {:induction false} MeetsStep(g: Graph, c: Handle, seen: set<Handle>, d: Handle)
    requires c !in seen && Edge(g, c, d) && MeetsAncestor(g, d, seen + {c})
    ensures MeetsAncestor(g, c, seen)
  {
    var k :| 0 <= k < |g[c]| && g[c][k] == Secondary(d);
    MeetsInIff(g, g[c], |g[c]|, seen + {c});
    assert g[c][k].Secondary? && g[c][k].command == d;
  }

  lemma {:induction false} WalkGivesMeets(g: Graph, c: Handle, seen: set<Handle>, w: seq<Handle>)
    requires Closes(g, c, seen, w)
    ensures MeetsAncestor(g, c, seen)
    decreases |w|
  {
    if c !in seen {
      if w[|w| - 1] in seen {
        assert |w| > 1;
        StepInto(g, c, seen, w);
      } else {
        var i: nat, j: nat :| Repeats(w, i, j);
        if i == 0 {
          var t := w[..j + 1];
          WalkHead(g, w, j + 1);
          StepInto(g, c, seen, t);
        } else {
          var t := w[1..];
          WalkTail(g, w, 1);
          assert Repeats(t, i - 1, j - 1);
          assert Closes(g, t[0], seen + {c}, t);
          WalkGivesMeets(g, t[0], seen + {c}, t);
          MeetsStep(g, c, seen, t[0]);
        }
      }
    }
  }

  lemma {:induction false} WalkHead(g: Graph, w: seq<Handle>, n: nat)
    requires IsWalk(g, w) && 0 < n <= |w|
    ensures IsWalk(g, w[..n])
  {
    forall k | 0 < k < n
      ensures Edge(g, w[..n][k - 1], w[..n][k])
    {
      assert w[..n][k - 1] == w[k - 1] && w[..n][k] == w[k];
    }
  }

  /** A walk from c whose last step enters an ancestor or c itself. */
  lemma {:induction false} StepInto(g: Graph, c: Handle, seen: set<Handle>, w: seq<Handle>)
    requires WalkFrom(g, c, w) && |w| > 1 && c !in seen
    requires w[|w| - 1] in seen + {c}
    ensures MeetsAncestor(g, c, seen)
    decreases |w|, 0
  {
    var t := w[1..];
    WalkTail(g, w, 1);
    var d := t[0];
    if d !in seen + {c} && |t| > 1 {
      assert t[|t| - 1] in (seen + {c}) + {d};
      StepInto(g, d, seen + {c}, t);
    }
    MeetsStep(g, c, seen, d);
  }

  /** The search meets an ancestor exactly when a cycle is reachable. */
  lemma {:induction false} FlaggedIffCycle(g: Graph, c: Handle)
    ensures MeetsAncestor(g, c, {}) <==> CycleReachable(g, c)
  {
    if MeetsAncestor(g, c, {}) {
      var w := MeetsGivesWalk(g, c, {});
      var i: nat, j: nat :| Repeats(w, i, j);
      assert WalkFrom(g, c, w);
    }
    if CycleReachable(g, c) {
      var w, i: nat, j: nat :| WalkFrom(g, c, w) && Repeats(w, i, j);
      WalkGivesMeets(g, c, {}, w);
    }
  }

  // ---------------------------------------------------------------------------
  // Visits

  lemma {:induction false} UseGivesWalk(g: Graph, c: Handle, seen: set<Handle>, u: Entry) returns (w: seq<Handle>)
    requires u in UsesFrom(g, c, seen)
    ensures u.Use? && WalkFrom(g, c, w) && w[|w| - 1] in g && u in g[w[|w| - 1]]
    decreases |g.Keys - seen|
  {
    UsesInIff(g, g[c], |g[c]|, seen + {c}, u);
    var k :| 0 <= k < |g[c]| && (if g[c][k].Secondary? then u in UsesFrom(g, g[c][k].command, seen + {c})
                                 else u == g[c][k]);
    if g[c][k].Secondary? {
      Fewer(g, c, seen);
      var t := UseGivesWalk(g, g[c][k].command, seen + {c}, u);
      assert g[c][k] == Secondary(t[0]);
      WalkCons(g, c, t);
      w := [c] + t;
    } else {
      w := [c];
    }
  }

  ghost predicate Avoids(w: seq<Handle>, seen: set<Handle>) {
    forall i :: 0 <= i < |w| ==> w[i] !in seen
  }

  /** The last visit of c on a walk. */
  lemma {:induction false} LastVisit(w: seq<Handle>, c: Handle, n: nat) returns (k: nat)
    requires w != [] && w[0] == c && 0 < n <= |w|
    ensures k < n && w[k] == c && forall i :: k < i < n ==> w[i] != c
  {
    k := 0;
    for m := 1 to n
      invariant k < m && w[k] == c && forall i :: k < i < m ==> w[i] != c
    {
      if w[m] == c {
        k := m;
      }
    }
  }

  lemma {:induction false} WalkGivesUse(g: Graph, c: Handle, seen: set<Handle>, w: seq<Handle>, u: Entry)
    requires WalkFrom(g, c, w) && Avoids(w, seen)
    requires w[|w| - 1] in g && u in g[w[|w| - 1]] && u.Use?
    ensures u in UsesFrom(g, c, seen)
    decreases |w|
  {
    var k := LastVisit(w, c, |w|);
    if k == |w| - 1 {
      var m :| 0 <= m < |g[c]| && g[c][m] == u;
      UsesInIff(g, g[c], |g[c]|, seen + {c}, u);
      assert !g[c][m].Secondary?;
    } else {
      WalkTail(g, w, k + 1);
      var t := w[k + 1..];
      assert forall i :: 0 <= i < |t| ==> t[i] == w[k + 1 + i];
      WalkGivesUse(g, t[0], seen + {c}, t, u);
      var m :| 0 <= m < |g[c]| && g[c][m] == Secondary(t[0]);
      UsesInIff(g, g[c], |g[c]|, seen + {c}, u);
      assert g[c][m].Secondary? && u in UsesFrom(g, g[c][m].command, seen + {c});
    }
  }

  /** The search collects exactly what the reachable command buffers consume. */
  lemma {:induction false} CollectedIffReachable(g: Graph, c: Handle, u: Entry)
    ensures u in UsesFrom(g, c, {}) <==> u.Use? && exists v :: v in g && Reaches(g, c, v) && u in g[v]
  {
    if u in UsesFrom(g, c, {}) {
      var w := UseGivesWalk(g, c, {}, u);
      assert Reaches(g, c, w[|w| - 1]);
    }
    if u.Use? && exists v :: v in g && Reaches(g, c, v) && u in g[v] {
      var v :| v in g && Reaches(g, c, v) && u in g[v];
      var w :| WalkFrom(g, c, w) && w[|w| - 1] == v;
      WalkGivesUse(g, c, {}, w, u);
    }
  }
}
