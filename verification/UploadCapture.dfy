/**
 inspect of tools/inspect-upload-capture.py: it follows memory, buffers and command
 buffers through a capture and reports the buffers that a submission consumes while some
 snapshot of their memory was never flushed.
 */
module UploadCapture {
  import opened Options
  import opened CommandGraph
  import opened FlushCoverage
  import opened UploadWorld
  import opened UploadHistory
  import opened UploadCommands
  import opened UploadVerdict

  // ---------------------------------------------------------------------------
  // Whole captures

  /** Some command buffer reachable from a submitted one records the entry u. */
  ghost predicate Consumes(w: World, roots: seq<Handle>, u: Entry) {
    exists i, v :: 0 <= i < |roots| && v in w.commands && Reaches(w.commands, roots[i], v) && u in w.commands[v]
  }

  /** A submit of roots uses a lost buffer with key k. */
  ghost predicate Hit(w: World, roots: seq<Handle>, k: Key) {
    exists u: Entry :: u.Use? && Consumes(w, roots, u) && IsLost(w, u, k)
  }

  /** A submit of roots uses a buffer with key k that snapshots touch. */
  ghost predicate Touched(w: World, roots: seq<Handle>, k: Key) {
    exists u: Entry :: u.Use? && Consumes(w, roots, u) && Examined(w, u) && KeyOf(w, u) == k
  }

  /** A submit of roots uses a buffer in memory of unknown type. */
  ghost predicate Unknowable(w: World, roots: seq<Handle>) {
    exists u: Entry :: u.Use? && Consumes(w, roots, u) && Unjudged(w, u)
  }

  ghost predicate Looped(w: World, roots: seq<Handle>) {
    exists i :: 0 <= i < |roots| && CycleReachable(w.commands, roots[i])
  }

  lemma {:induction false} UsesOfRootsIff(g: Graph, roots: seq<Handle>, u: Entry)
    ensures u in UsesOfRoots(g, roots) <==> exists i :: 0 <= i < |roots| && u in UsesFrom(g, roots[i], {})
  {
    if roots != [] {
      UsesOfRootsIff(g, roots[..|roots| - 1], u);
    }
  }

  lemma {:induction false} ConsumesIff(w: World, roots: seq<Handle>, u: Entry)
    requires u.Use?
    ensures u in UsesOfRoots(w.commands, roots) <==> Consumes(w, roots, u)
  {
    UsesOfRootsIff(w.commands, roots, u);
    forall i | 0 <= i < |roots|
      ensures u in UsesFrom(w.commands, roots[i], {})
         <==> exists v :: v in w.commands && Reaches(w.commands, roots[i], v) && u in w.commands[v]
    {
      CollectedIffReachable(w.commands, roots[i], u);
    }
  }

  lemma {:induction false} OnlyUses(g: Graph, roots: seq<Handle>, u: Entry)
    requires u in UsesOfRoots(g, roots)
    ensures u.Use?
  {
    UsesOfRootsIff(g, roots, u);
    var i :| 0 <= i < |roots| && u in UsesFrom(g, roots[i], {});
    CollectedIffReachable(g, roots[i], u);
  }

  lemma {:induction false} UsesAreConsumed(w: World, roots: seq<Handle>, u: Entry)
    ensures u in UsesOfRoots(w.commands, roots) <==> u.Use? && Consumes(w, roots, u)
  {
    if u.Use? {
      ConsumesIff(w, roots, u);
    } else if u in UsesOfRoots(w.commands, roots) {
      OnlyUses(w.commands, roots, u);
    }
  }

  lemma {:induction false} LostKeysAreHits(w: World, roots: seq<Handle>, k: Key)
    ensures k in LostKeys(w, UsesOfRoots(w.commands, roots)) <==> Hit(w, roots, k)
  {
    forall u: Entry
      ensures u in UsesOfRoots(w.commands, roots) <==> u.Use? && Consumes(w, roots, u)
    {
      UsesAreConsumed(w, roots, u);
    }
  }

  lemma {:induction false} ExaminedKeysAreTouched(w: World, roots: seq<Handle>, k: Key)
    ensures k in ExaminedKeys(w, UsesOfRoots(w.commands, roots)) <==> Touched(w, roots, k)
  {
    forall u: Entry
      ensures u in UsesOfRoots(w.commands, roots) <==> u.Use? && Consumes(w, roots, u)
    {
      UsesAreConsumed(w, roots, u);
    }
  }

  lemma {:induction false} AnyUnjudgedIff(w: World, roots: seq<Handle>)
    ensures AnyUnjudged(w, UsesOfRoots(w.commands, roots)) <==> Unknowable(w, roots)
  {
    forall u: Entry
      ensures u in UsesOfRoots(w.commands, roots) <==> u.Use? && Consumes(w, roots, u)
    {
      UsesAreConsumed(w, roots, u);
    }
  }

  lemma {:induction false} AnyCycleIff(w: World, roots: seq<Handle>)
    ensures AnyCycle(w.commands, roots) <==> Looped(w, roots)
  {
    if roots != [] {
      var before := roots[..|roots| - 1];
      AnyCycleIff(w, before);
      FlaggedIffCycle(w.commands, roots[|roots| - 1]);
      if Looped(w, before) {
        var i :| 0 <= i < |before| && CycleReachable(w.commands, before[i]);
        assert roots[i] == before[i];
      }
      if Looped(w, roots) {
        var i :| 0 <= i < |roots| && CycleReachable(w.commands, roots[i]);
        assert i < |before| ==> before[i] == roots[i];
      }
    }
  }

  /** Row t is a submit that hits k, given everything tracked before it. */
  ghost predicate HitAt(rows: seq<Row>, t: nat, k: Key) {
    t < |rows| && rows[t].event.Submit? && Hit(WorldAfter(rows[..t]), rows[t].event.roots, k)
  }

  ghost predicate LoopedAt(rows: seq<Row>, t: nat) {
    t < |rows| && rows[t].event.Submit? && Looped(WorldAfter(rows[..t]), rows[t].event.roots)
  }

  ghost predicate TouchedAt(rows: seq<Row>, t: nat, k: Key) {
    t < |rows| && rows[t].event.Submit? && Touched(WorldAfter(rows[..t]), rows[t].event.roots, k)
  }

  ghost predicate TouchedBefore(rows: seq<Row>, n: nat, k: Key) {
    exists t: nat :: t < n && TouchedAt(rows, t, k)
  }

  ghost predicate UnknowableAt(rows: seq<Row>, t: nat) {
    t < |rows| && rows[t].event.Submit? && Unknowable(WorldAfter(rows[..t]), rows[t].event.roots)
  }

  ghost predicate UnknowableBefore(rows: seq<Row>, n: nat) {
    exists t: nat :: t < n && UnknowableAt(rows, t)
  }

  ghost predicate HitBefore(rows: seq<Row>, n: nat, k: Key) {
    exists t: nat :: t < n && HitAt(rows, t, k)
  }

  ghost predicate CountedBefore(rows: seq<Row>, n: nat, k: Key, call: int) {
    exists t: nat :: t < n && HitAt(rows, t, k) && rows[t].index == call
  }

  ghost predicate LoopedBefore(rows: seq<Row>, n: nat) {
    exists t: nat :: t < n && LoopedAt(rows, t)
  }

  /** f names the first submit that hits k, and the first use in its search that does. */
  ghost predicate FirstHit(rows: seq<Row>, k: Key, f: Finding) {
    exists t: nat :: FirstHitAt(rows, t, k, f)
  }

  ghost predicate FirstHitAt(rows: seq<Row>, t: nat, k: Key, f: Finding) {
    && HitAt(rows, t, k) && !HitBefore(rows, t, k) && rows[t].index == f.firstSubmit
    && var w := WorldAfter(rows[..t]); FirstLost(w, VisitsOfRoots(w.commands, rows[t].event.roots), k, f.firstUse)
  }

  ghost predicate FindingsRight(rows: seq<Row>, n: nat, findings: set<Key>) {
    forall k :: k in findings <==> HitBefore(rows, n, k)
  }

  ghost predicate CountsRight(rows: seq<Row>, n: nat, counted: set<(Key, int)>) {
    forall e :: e in counted <==> CountedBefore(rows, n, e.0, e.1)
  }

  ghost predicate FirstsRight(rows: seq<Row>, findings: map<Key, Finding>) {
    forall k <- findings :: FirstHit(rows, k, findings[k])
  }

  /** What the results say about the first n rows. */
  ghost predicate Accounts(rows: seq<Row>, n: nat, r: Results) {
    && FindingsRight(rows, n, r.findings.Keys)
    && CountsRight(rows, n, r.counted)
    && FirstsRight(rows, r.findings)
    && (r.cyclic <==> LoopedBefore(rows, n))
    && (forall k :: k in r.examined <==> TouchedBefore(rows, n, k))
    && (r.unknownTypes <==> UnknowableBefore(rows, n))
    && Tallied(r)
  }

  lemma {:induction false} FindingsGrow(rows: seq<Row>, n: nat, before: set<Key>, hits: set<Key>)
    requires FindingsRight(rows, n, before)
    requires forall k :: k in hits <==> HitAt(rows, n, k)
    ensures FindingsRight(rows, n + 1, before + hits)
  {
    forall k
      ensures k in before + hits <==> HitBefore(rows, n + 1, k)
    {
      if HitBefore(rows, n, k) {
        var t: nat :| t < n && HitAt(rows, t, k);
      }
      if HitBefore(rows, n + 1, k) {
        var t: nat :| t < n + 1 && HitAt(rows, t, k);
        assert t < n ==> HitBefore(rows, n, k);
      }
    }
  }

  lemma {:induction false} CountsGrow(rows: seq<Row>, n: nat, before: set<(Key, int)>, hits: set<Key>)
    requires n < |rows| && CountsRight(rows, n, before)
    requires forall k :: k in hits <==> HitAt(rows, n, k)
    ensures CountsRight(rows, n + 1, before + (set k | k in hits :: (k, rows[n].index)))
  {
    var after := before + (set k | k in hits :: (k, rows[n].index));
    forall e
      ensures e in after <==> CountedBefore(rows, n + 1, e.0, e.1)
    {
      if e in before {
        var t: nat :| t < n && HitAt(rows, t, e.0) && rows[t].index == e.1;
      }
      if CountedBefore(rows, n + 1, e.0, e.1) {
        var t: nat :| t < n + 1 && HitAt(rows, t, e.0) && rows[t].index == e.1;
        if t < n {
          assert CountedBefore(rows, n, e.0, e.1);
        } else {
          assert e == (e.0, rows[n].index);
        }
      }
    }
  }

  lemma {:induction false} FirstsGrow(rows: seq<Row>, n: nat, visits: seq<Entry>, before: Results, after: Results)
    requires n < |rows| && FindingsRight(rows, n, before.findings.Keys)
    requires rows[n].event.Submit? ==> visits == VisitsOfRoots(WorldAfter(rows[..n]).commands, rows[n].event.roots)
    requires FirstsRight(rows, before.findings) && FirstsKept(rows[n].index, before, after)
    requires UsesKept(WorldAfter(rows[..n]), visits, before, after)
    requires forall k :: k in after.findings ==> k in before.findings || HitAt(rows, n, k)
    ensures FirstsRight(rows, after.findings)
  {
    forall k | k in after.findings
      ensures FirstHit(rows, k, after.findings[k])
    {
      if k in before.findings {
        var t: nat :| FirstHitAt(rows, t, k, before.findings[k]);
        assert FirstHitAt(rows, t, k, after.findings[k]);
      } else {
        assert FirstHitAt(rows, n, k, after.findings[k]);
      }
    }
  }

  lemma {:induction false} ExaminedGrow(rows: seq<Row>, n: nat, before: set<Key>, seen: set<Key>)
    requires forall k :: k in before <==> TouchedBefore(rows, n, k)
    requires forall k :: k in seen <==> TouchedAt(rows, n, k)
    ensures forall k :: k in before + seen <==> TouchedBefore(rows, n + 1, k)
  {
    forall k
      ensures k in before + seen <==> TouchedBefore(rows, n + 1, k)
    {
      if TouchedBefore(rows, n, k) {
        var t: nat :| t < n && TouchedAt(rows, t, k);
      }
      if TouchedBefore(rows, n + 1, k) {
        var t: nat :| t < n + 1 && TouchedAt(rows, t, k);
        assert t < n ==> TouchedBefore(rows, n, k);
      }
    }
  }

  lemma {:induction false} UnknownsGrow(rows: seq<Row>, n: nat)
    ensures UnknowableBefore(rows, n + 1) <==> UnknowableBefore(rows, n) || UnknowableAt(rows, n)
  {
    if UnknowableBefore(rows, n + 1) {
      var t: nat :| t < n + 1 && UnknowableAt(rows, t);
    }
  }

  lemma {:induction false} LoopsGrow(rows: seq<Row>, n: nat)
    ensures LoopedBefore(rows, n + 1) <==> LoopedBefore(rows, n) || LoopedAt(rows, n)
  {
    if LoopedBefore(rows, n + 1) {
      var t: nat :| t < n + 1 && LoopedAt(rows, t);
    }
  }

  /** Results that grow by what row n hits account for one more row. */
  lemma {:induction false} AccountsGrow(rows: seq<Row>, n: nat, hits: set<Key>, seen: set<Key>, unknown: bool,
                                        visits: seq<Entry>, r0: Results, r: Results)
    requires n < |rows| && Accounts(rows, n, r0)
    requires rows[n].event.Submit? ==> visits == VisitsOfRoots(WorldAfter(rows[..n]).commands, rows[n].event.roots)
    requires forall k :: k in hits <==> HitAt(rows, n, k)
    requires forall k :: k in seen <==> TouchedAt(rows, n, k)
    requires unknown <==> UnknowableAt(rows, n)
    requires Grown(hits, seen, unknown, rows[n].index, r0, r)
    requires UsesKept(WorldAfter(rows[..n]), visits, r0, r)
    requires r.cyclic == (r0.cyclic || LoopedAt(rows, n))
    ensures Accounts(rows, n + 1, r)
  {
    FindingsGrow(rows, n, r0.findings.Keys, hits);
    CountsGrow(rows, n, r0.counted, hits);
    FirstsGrow(rows, n, visits, r0, r);
    LoopsGrow(rows, n);
    ExaminedGrow(rows, n, r0.examined, seen);
    UnknownsGrow(rows, n);
  }

  lemma {:induction false} AccountsQuiet(rows: seq<Row>, n: nat, r: Results)
    requires n < |rows| && !rows[n].event.Submit? && Accounts(rows, n, r)
    ensures Accounts(rows, n + 1, r)
  {
    AccountsGrow(rows, n, {}, {}, false, [], r, r);
  }

  lemma {:induction false} AccountsSubmit(rows: seq<Row>, n: nat, r0: Results, r: Results)
    requires n < |rows| && rows[n].event.Submit? && Accounts(rows, n, r0)
    requires var w := WorldAfter(rows[..n]);
             && Visited(w, VisitsOfRoots(w.commands, rows[n].event.roots), rows[n].index, r0, r)
             && r.cyclic == (r0.cyclic || AnyCycle(w.commands, rows[n].event.roots))
    ensures Accounts(rows, n + 1, r)
  {
    var w, roots := WorldAfter(rows[..n]), rows[n].event.roots;
    var uses := UsesOfRoots(w.commands, roots);
    VisitsOfRootsAreUses(w.commands, roots);
    forall k
      ensures k in LostKeys(w, uses) <==> HitAt(rows, n, k)
      ensures k in ExaminedKeys(w, uses) <==> TouchedAt(rows, n, k)
    {
      LostKeysAreHits(w, roots, k);
      ExaminedKeysAreTouched(w, roots, k);
    }
    AnyUnjudgedIff(w, roots);
    AnyCycleIff(w, roots);
    AccountsGrow(rows, n, LostKeys(w, uses), ExaminedKeys(w, uses), AnyUnjudged(w, uses),
                 VisitsOfRoots(w.commands, roots), r0, r);
  }

  // The same in bytes

  /** Row t is a submit that uses a buffer with key k of which a written byte lies in no flush. */
  ghost predicate ByteHitAt(rows: seq<Row>, t: nat, k: Key) {
    && t < |rows| && rows[t].event.Submit?
    && var w := WorldAfter(rows[..t]);
       exists u: Entry :: u.Use? && Consumes(w, rows[t].event.roots, u) && ByteLost(w, u) && KeyOf(w, u) == k
  }

  lemma {:induction false} HitIsByteHit(rows: seq<Row>, t: nat, k: Key)
    requires forall row <- rows :: SolidRow(row)
    ensures HitAt(rows, t, k) <==> ByteHitAt(rows, t, k)
  {
    if t < |rows| {
      forall u: Entry
        ensures Lost(WorldAfter(rows[..t]), u) <==> ByteLost(WorldAfter(rows[..t]), u)
      {
        SolidIsByteExact(rows[..t], u);
      }
    }
  }

  /** With nonempty fills and buffers, a key has a finding exactly when some submit uses a buffer of
      which a written byte lies in no flush so far. */
  lemma {:induction false} FindingsAreLostBytes(rows: seq<Row>, r: Results, k: Key)
    requires Accounts(rows, |rows|, r) && forall row <- rows :: SolidRow(row)
    ensures k in r.findings <==> exists t: nat :: ByteHitAt(rows, t, k)
  {
    forall t: nat
      ensures HitAt(rows, t, k) <==> ByteHitAt(rows, t, k)
    {
      HitIsByteHit(rows, t, k);
    }
    assert k in r.findings.Keys <==> HitBefore(rows, |rows|, k);
    if exists t: nat :: ByteHitAt(rows, t, k) {
      var t: nat :| ByteHitAt(rows, t, k);
      assert HitAt(rows, t, k);
    }
  }

  // ---------------------------------------------------------------------------
  // The same, read off the rows

  /** The byte of the allocation made at row a lies in no flush. */
  ghost predicate Unflushed(rows: seq<Row>, a: nat, y: int)
    requires IsAllocation(rows, a)
  {
    forall r: Range | Flushed(rows, a, r) :: !(r.0 <= y < r.1)
  }

  /** A byte of the part of a fill that lies in the buffer is in no flush. Of an empty part, the point
      where it is lies in no flush, and some flush ends after it. */
  ghost predicate FillExposed(rows: seq<Row>, a: nat, low: int, high: int, x: Write)
    requires IsAllocation(rows, a)
  {
    var from, to := Max(low, x.begin), Min(high, x.End());
    if from < to then exists y | from <= y < to :: Unflushed(rows, a, y)
    else Unflushed(rows, a, from) && exists r: Range :: Flushed(rows, a, r) && r.1 > from
  }

  /** A fill overlaps the buffer created at row b, which lies in memory that needs flushes. */
  ghost predicate FillOf(rows: seq<Row>, b: nat, a: nat, offset: nat, x: Write) {
    && IsCreation(rows, b) && IsAllocation(rows, a) && LiesIn(rows, b, a, offset) && AtRisk(rows, a) && Wrote(rows, a, x)
    && x.begin < offset + rows[b].event.size && x.End() > offset
  }

  ghost predicate RowTouched(rows: seq<Row>, b: nat) {
    exists a: nat, offset: nat, x: Write :: FillOf(rows, b, a, offset, x)
  }

  ghost predicate RowLost(rows: seq<Row>, b: nat) {
    exists a: nat, offset: nat, x: Write :: LostFill(rows, b, a, offset, x)
  }

  /** A fill of which the part in the buffer is exposed. */
  ghost predicate LostFill(rows: seq<Row>, b: nat, a: nat, offset: nat, x: Write) {
    FillOf(rows, b, a, offset, x) && FillExposed(rows, a, offset, offset + rows[b].event.size, x)
  }

  /** A byte of the buffer was filled and lies in no flush. */
  ghost predicate RowByteLost(rows: seq<Row>, b: nat) {
    exists a: nat, offset: nat, x: Write, y: int :: LostByte(rows, b, a, offset, x, y)
  }

  ghost predicate LostByte(rows: seq<Row>, b: nat, a: nat, offset: nat, x: Write, y: int) {
    && FillOf(rows, b, a, offset, x) && Unflushed(rows, a, y)
    && x.begin <= y < x.End() && offset <= y < offset + rows[b].event.size
  }

  /** The buffer lies in mapped memory of unknown type. */
  ghost predicate RowUnjudged(rows: seq<Row>, b: nat) {
    exists a: nat, offset: nat ::
      LiesIn(rows, b, a, offset) && IsAllocation(rows, a) && Mapped(rows, a) && rows[a].event.flags.None?
  }

  lemma {:induction false} NeedsFlushIff(flags: nat)
    ensures flags / 2 % 2 == 1 && flags / 4 % 2 == 0 <==> flags % 8 in {2, 3}
  {
    Bits(flags / 8, flags % 8);
  }

  lemma {:induction false} Bits(q: nat, r: nat)
    requires r < 8
    ensures (8 * q + r) / 2 % 2 == r / 2 % 2 && (8 * q + r) / 4 % 2 == r / 4
  {
    var c := r / 2 % 2;
    assert r / 2 == 2 * (r / 4) + c;
    assert (8 * q + r) / 2 == 2 * (2 * q + r / 4) + c && (8 * q + r) / 4 == 2 * q + r / 4;
    Parity(2 * q + r / 4, c);
    Parity(q, r / 4);
  }

  lemma {:induction false} Parity(x: nat, c: nat)
    requires c < 2
    ensures (2 * x + c) % 2 == c
  {
  }

  /** A tracked buffer with its memory, and the rows that made them. */
  lemma {:induction false} BoundRows(rows: seq<Row>, w: World, u: Entry) returns (b: nat, a: nat)
    requires w == WorldAfter(rows) && u.Use? && u.buffer < |w.bufs| && BoundTo(w, u).Some?
    ensures b < |rows| && |Creations(rows)| == |w.bufs| && b == Creations(rows)[u.buffer] && IsAllocation(rows, a)
    ensures LiesIn(rows, b, a, w.bufs[u.buffer].offset) && MemoryIs(rows, a, BoundTo(w, u).value)
  {
    WorldIsHistory(rows);
    var i := w.bufs[u.buffer].binding.value;
    b, a := Creations(rows)[u.buffer], Allocations(rows)[i];
    assert IsCreation(rows, b);
    LiesIff(rows, w, u.buffer, i, w.bufs[u.buffer].offset);
    assert MemoryIs(rows, a, w.mems[i]);
  }

  lemma {:induction false} RowsBound(rows: seq<Row>, w: World, u: Entry, a: nat, offset: nat)
    requires w == WorldAfter(rows) && u.Use? && u.buffer < |w.bufs| && |Creations(rows)| == |w.bufs|
    requires IsAllocation(rows, a) && LiesIn(rows, Creations(rows)[u.buffer], a, offset)
    ensures BoundTo(w, u).Some? && w.bufs[u.buffer].offset == offset && MemoryIs(rows, a, BoundTo(w, u).value)
  {
    WorldIsHistory(rows);
    var at := Allocations(rows);
    var i :| 0 <= i < |at| && at[i] == a;
    LiesIff(rows, w, u.buffer, i, offset);
    assert MemoryIs(rows, a, w.mems[i]);
  }

  lemma {:induction false} SizeAndKey(rows: seq<Row>, w: World, j: nat)
    requires w == WorldAfter(rows) && j < |w.bufs|
    ensures |Creations(rows)| == |w.bufs| && IsCreation(rows, Creations(rows)[j])
    ensures w.bufs[j].size == rows[Creations(rows)[j]].event.size && w.bufs[j].created == rows[Creations(rows)[j]].index
  {
    WorldIsHistory(rows);
    assert BufferIs(rows, Creations(rows)[j], w.bufs[j]);
  }

  lemma {:induction false} InsideIff(rows: seq<Row>, a: nat, m: Memory, y: int)
    requires MemoryIs(rows, a, m)
    ensures Inside(y, m.flushes) <==> !Unflushed(rows, a, y)
  {
    if Inside(y, m.flushes) {
      var k :| 0 <= k < |m.flushes| && m.flushes[k].0 <= y < m.flushes[k].1;
      assert m.flushes[k] in m.flushes;
    }
    if r: Range :| Flushed(rows, a, r) && r.0 <= y < r.1 {
      assert r in m.flushes;
    }
  }

  lemma {:induction false} PointIff(rows: seq<Row>, a: nat, m: Memory, y: int)
    requires MemoryIs(rows, a, m)
    ensures PointMissing(y, m.flushes) <==> Unflushed(rows, a, y) && exists r: Range :: Flushed(rows, a, r) && r.1 > y
  {
    InsideIff(rows, a, m, y);
    if k :| 0 <= k < |m.flushes| && m.flushes[k].1 > y { assert m.flushes[k] in m.flushes; }
    if r: Range :| Flushed(rows, a, r) && r.1 > y { assert r in m.flushes; }
  }

  lemma {:induction false} ExposedIff(rows: seq<Row>, w: World, u: Entry, a: nat, m: Memory, x: Write)
    requires MemoryIs(rows, a, m)
    ensures Exposed(w, u, x, m.flushes) <==> FillExposed(rows, a, Low(w, u), High(w, u), x)
  {
    var from, to := Max(Low(w, u), x.begin), Min(High(w, u), x.End());
    forall y: int
      ensures Inside(y, m.flushes) <==> !Unflushed(rows, a, y)
    {
      InsideIff(rows, a, m, y);
    }
    PointIff(rows, a, m, from);
  }

  /** The fills that overlap a tracked buffer are those of the rows. */
  lemma {:induction false} FillIff(rows: seq<Row>, w: World, u: Entry, a: nat, offset: nat, m: Memory, x: Write)
    requires w == WorldAfter(rows) && u.Use? && u.buffer < |w.bufs| && |Creations(rows)| == |w.bufs|
    requires BoundTo(w, u) == Some(m) && MemoryIs(rows, a, m) && w.bufs[u.buffer].offset == offset
    requires LiesIn(rows, Creations(rows)[u.buffer], a, offset)
    ensures FillOf(rows, Creations(rows)[u.buffer], a, offset, x) <==>
            NeedsFlush(w, u) && x in m.writes && Overlaps(w, u, x)
  {
    SizeAndKey(rows, w, u.buffer);
    if m.flags.Some? { NeedsFlushIff(m.flags.value); }
  }

  lemma {:induction false} TouchedIff(rows: seq<Row>, w: World, u: Entry)
    requires w == WorldAfter(rows) && u.Use? && u.buffer < |w.bufs| && |Creations(rows)| == |w.bufs|
    ensures Examined(w, u) <==> RowTouched(rows, Creations(rows)[u.buffer])
  {
    var c := Creations(rows)[u.buffer];
    if Examined(w, u) {
      var b, a := BoundRows(rows, w, u);
      var m := BoundTo(w, u).value;
      var i :| 0 <= i < |m.writes| && Overlaps(w, u, m.writes[i]);
      FillIff(rows, w, u, a, w.bufs[u.buffer].offset, m, m.writes[i]);
    }
    if a: nat, offset: nat, x: Write :| FillOf(rows, c, a, offset, x) {
      var m, i := FillIsWrite(rows, w, u, a, offset, x);
    }
  }

  lemma {:induction false} LostIsRowLost(rows: seq<Row>, w: World, u: Entry)
    requires w == WorldAfter(rows) && u.Use? && u.buffer < |w.bufs| && |Creations(rows)| == |w.bufs| && Lost(w, u)
    ensures RowLost(rows, Creations(rows)[u.buffer])
  {
    var b, a := BoundRows(rows, w, u);
    var m, offset := BoundTo(w, u).value, w.bufs[u.buffer].offset;
    var i :| 0 <= i < |m.writes| && Overlaps(w, u, m.writes[i]) && Exposed(w, u, m.writes[i], m.flushes);
    FillIff(rows, w, u, a, offset, m, m.writes[i]);
    ExposedIff(rows, w, u, a, m, m.writes[i]);
    SizeAndKey(rows, w, u.buffer);
    assert LostFill(rows, b, a, offset, m.writes[i]);
  }

  /** A fill that the rows show is a write of the memory that the buffer is bound to. */
  lemma {:induction false} FillIsWrite(rows: seq<Row>, w: World, u: Entry, a: nat, offset: nat, x: Write)
    returns (m: Memory, i: nat)
    requires w == WorldAfter(rows) && u.Use? && u.buffer < |w.bufs| && |Creations(rows)| == |w.bufs|
    requires FillOf(rows, Creations(rows)[u.buffer], a, offset, x)
    ensures NeedsFlush(w, u) && BoundTo(w, u) == Some(m) && MemoryIs(rows, a, m) && Low(w, u) == offset
    ensures High(w, u) == offset + rows[Creations(rows)[u.buffer]].event.size
    ensures i < |m.writes| && m.writes[i] == x && Overlaps(w, u, x)
  {
    RowsBound(rows, w, u, a, offset);
    m := BoundTo(w, u).value;
    FillIff(rows, w, u, a, offset, m, x);
    SizeAndKey(rows, w, u.buffer);
    i :| 0 <= i < |m.writes| && m.writes[i] == x;
  }

  lemma {:induction false} RowLostIsLost(rows: seq<Row>, w: World, u: Entry)
    requires w == WorldAfter(rows) && u.Use? && u.buffer < |w.bufs| && |Creations(rows)| == |w.bufs|
    requires RowLost(rows, Creations(rows)[u.buffer])
    ensures Lost(w, u)
  {
    var c := Creations(rows)[u.buffer];
    var a: nat, offset: nat, x: Write :| LostFill(rows, c, a, offset, x);
    LostByFill(rows, w, u, a, offset, x);
  }

  lemma {:induction false} LostByFill(rows: seq<Row>, w: World, u: Entry, a: nat, offset: nat, x: Write)
    requires w == WorldAfter(rows) && u.Use? && u.buffer < |w.bufs| && |Creations(rows)| == |w.bufs|
    requires LostFill(rows, Creations(rows)[u.buffer], a, offset, x)
    ensures Lost(w, u)
  {
    var m, i := FillIsWrite(rows, w, u, a, offset, x);
    ExposedIff(rows, w, u, a, m, x);
    LostByWrite(w, u, m, i);
  }

  lemma {:induction false} LostByWrite(w: World, u: Entry, m: Memory, i: nat)
    requires NeedsFlush(w, u) && BoundTo(w, u) == Some(m) && i < |m.writes|
    requires Overlaps(w, u, m.writes[i]) && Exposed(w, u, m.writes[i], m.flushes)
    ensures Lost(w, u)
  {
  }

  lemma {:induction false} ByteLostIsRowLost(rows: seq<Row>, w: World, u: Entry)
    requires w == WorldAfter(rows) && u.Use? && u.buffer < |w.bufs| && |Creations(rows)| == |w.bufs| && ByteLost(w, u)
    ensures RowByteLost(rows, Creations(rows)[u.buffer])
  {
    SizeAndKey(rows, w, u.buffer);
    var b, a := BoundRows(rows, w, u);
    var m := BoundTo(w, u).value;
    var y :| Low(w, u) <= y < High(w, u) && Written(m, y) && !Inside(y, m.flushes);
    var i :| 0 <= i < |m.writes| && m.writes[i].begin <= y < m.writes[i].End();
    FillIff(rows, w, u, a, w.bufs[u.buffer].offset, m, m.writes[i]);
    InsideIff(rows, a, m, y);
    assert LostByte(rows, b, a, w.bufs[u.buffer].offset, m.writes[i], y);
  }

  lemma {:induction false} RowByteLostIsLost(rows: seq<Row>, w: World, u: Entry)
    requires w == WorldAfter(rows) && u.Use? && u.buffer < |w.bufs| && |Creations(rows)| == |w.bufs|
    requires RowByteLost(rows, Creations(rows)[u.buffer])
    ensures ByteLost(w, u)
  {
    var c := Creations(rows)[u.buffer];
    var a: nat, offset: nat, x: Write, y: int :| LostByte(rows, c, a, offset, x, y);
    var m, i := FillIsWrite(rows, w, u, a, offset, x);
    InsideIff(rows, a, m, y);
    assert m.writes[i].begin <= y < m.writes[i].End();
    assert Written(m, y);
  }

  lemma {:induction false} ByteLostIff(rows: seq<Row>, w: World, u: Entry)
    requires w == WorldAfter(rows) && u.Use? && u.buffer < |w.bufs| && |Creations(rows)| == |w.bufs|
    ensures ByteLost(w, u) <==> RowByteLost(rows, Creations(rows)[u.buffer])
  {
    if ByteLost(w, u) { ByteLostIsRowLost(rows, w, u); }
    if RowByteLost(rows, Creations(rows)[u.buffer]) { RowByteLostIsLost(rows, w, u); }
  }

  lemma {:induction false} UnjudgedIff(rows: seq<Row>, w: World, u: Entry)
    requires w == WorldAfter(rows) && u.Use? && u.buffer < |w.bufs| && |Creations(rows)| == |w.bufs|
    ensures Unjudged(w, u) <==> RowUnjudged(rows, Creations(rows)[u.buffer])
  {
    if Unjudged(w, u) {
      var b, a := BoundRows(rows, w, u);
    }
    if a: nat, offset: nat :| LiesIn(rows, Creations(rows)[u.buffer], a, offset) && IsAllocation(rows, a) &&
                              Mapped(rows, a) && rows[a].event.flags.None? {
      RowsBound(rows, w, u, a, offset);
    }
  }

  lemma {:induction false} LostIff(rows: seq<Row>, w: World, u: Entry)
    requires w == WorldAfter(rows) && u.Use? && u.buffer < |w.bufs| && |Creations(rows)| == |w.bufs|
    ensures Lost(w, u) <==> RowLost(rows, Creations(rows)[u.buffer])
  {
    if Lost(w, u) { LostIsRowLost(rows, w, u); }
    if RowLost(rows, Creations(rows)[u.buffer]) { RowLostIsLost(rows, w, u); }
  }

  /** A submit comes to the uses that the rows say. */
  lemma {:induction false} ConsumesIsSubmits(rows: seq<Row>, w: World, roots: seq<Handle>, u: Entry)
    requires w == WorldAfter(rows) && u.Use? && Consumes(w, roots, u)
    ensures u.buffer < |w.bufs| && |Creations(rows)| == |w.bufs|
    ensures Submits(rows, roots, Creations(rows)[u.buffer], u.kind, u.call)
  {
    WorldIsHistory(rows);
    var i, v :| 0 <= i < |roots| && v in w.commands && Reaches(w.commands, roots[i], v) && u in w.commands[v];
    var path :| WalkFrom(w.commands, roots[i], path) && path[|path| - 1] == v;
    ChainIff(rows, w, path);
    UsedExists(rows, w, v, u);
    UseIff(rows, w, v, u.buffer, u.kind, u.call);
  }

  lemma {:induction false} SubmitsIsConsumes(rows: seq<Row>, w: World, roots: seq<Handle>, b: nat, kind: Kind, call: int)
    returns (u: Entry)
    requires w == WorldAfter(rows) && Submits(rows, roots, b, kind, call)
    ensures u.Use? && u.kind == kind && u.call == call && u.buffer < |w.bufs| && |Creations(rows)| == |w.bufs|
    ensures Creations(rows)[u.buffer] == b && Consumes(w, roots, u)
  {
    WorldIsHistory(rows);
    var path: seq<Handle> :| Chain(rows, path) && path[0] in roots && Uses(rows, path[|path| - 1], b, kind, call);
    var at, v := Creations(rows), path[|path| - 1];
    assert IsCreation(rows, b);
    var j :| 0 <= j < |at| && at[j] == b;
    u := Use(j, kind, call);
    UseIff(rows, w, v, j, kind, call);
    ChainIff(rows, w, path);
    var i :| 0 <= i < |roots| && roots[i] == path[0];
    assert WalkFrom(w.commands, roots[i], path);
    assert Reaches(w.commands, roots[i], v);
  }

  /** A submit of roots after these rows uses such a buffer with key k. */
  ghost predicate RowHit(rows: seq<Row>, roots: seq<Handle>, k: Key, b: nat, call: int) {
    b < |rows| && rows[b].index == k.0 && Submits(rows, roots, b, k.1, call) && RowLost(rows, b)
  }

  ghost predicate RowByteHit(rows: seq<Row>, roots: seq<Handle>, k: Key, b: nat, call: int) {
    b < |rows| && rows[b].index == k.0 && Submits(rows, roots, b, k.1, call) && RowByteLost(rows, b)
  }

  ghost predicate RowTouch(rows: seq<Row>, roots: seq<Handle>, k: Key, b: nat, call: int) {
    b < |rows| && rows[b].index == k.0 && Submits(rows, roots, b, k.1, call) && RowTouched(rows, b)
  }

  /** Row t is a submit that uses a lost buffer with key k. */
  ghost predicate RowHitAt(rows: seq<Row>, t: nat, k: Key) {
    && t < |rows| && rows[t].event.Submit?
    && exists b: nat, call: int :: RowHit(rows[..t], rows[t].event.roots, k, b, call)
  }

  ghost predicate RowByteHitAt(rows: seq<Row>, t: nat, k: Key) {
    && t < |rows| && rows[t].event.Submit?
    && exists b: nat, call: int :: RowByteHit(rows[..t], rows[t].event.roots, k, b, call)
  }

  ghost predicate RowTouchedAt(rows: seq<Row>, t: nat, k: Key) {
    && t < |rows| && rows[t].event.Submit?
    && exists b: nat, call: int :: RowTouch(rows[..t], rows[t].event.roots, k, b, call)
  }

  ghost predicate RowUnknownAt(rows: seq<Row>, t: nat) {
    && t < |rows| && rows[t].event.Submit?
    && exists b: nat, kind: Kind, call: int ::
         Submits(rows[..t], rows[t].event.roots, b, kind, call) && RowUnjudged(rows[..t], b)
  }

  /** Row t is a submit from which a chain of command buffers comes to one of them twice. */
  ghost predicate RowLoopAt(rows: seq<Row>, t: nat) {
    && t < |rows| && rows[t].event.Submit?
    && exists path: seq<Handle>, i: nat, j: nat ::
         Chain(rows[..t], path) && path[0] in rows[t].event.roots && i < j < |path| && path[i] == path[j]
  }

  lemma {:induction false} KeyIs(rows: seq<Row>, w: World, u: Entry, k: Key)
    requires w == WorldAfter(rows) && u.Use? && u.buffer < |w.bufs|
    ensures |Creations(rows)| == |w.bufs| && Creations(rows)[u.buffer] < |rows|
    ensures KeyOf(w, u) == k <==> u.kind == k.1 && rows[Creations(rows)[u.buffer]].index == k.0
  {
    SizeAndKey(rows, w, u.buffer);
  }

  lemma {:induction false} UseIsSubmitted(rows: seq<Row>, w: World, roots: seq<Handle>, u: Entry, k: Key)
    requires w == WorldAfter(rows) && u.Use? && Consumes(w, roots, u) && KeyOf(w, u) == k
    ensures u.buffer < |w.bufs| && |Creations(rows)| == |w.bufs| && Creations(rows)[u.buffer] < |rows|
    ensures var b := Creations(rows)[u.buffer];
            Submits(rows, roots, b, k.1, u.call) && rows[b].index == k.0
  {
    ConsumesIsSubmits(rows, w, roots, u);
    KeyIs(rows, w, u, k);
  }

  lemma {:induction false} SubmittedIsUse(rows: seq<Row>, w: World, roots: seq<Handle>, b: nat, k: Key, call: int)
    returns (u: Entry)
    requires w == WorldAfter(rows) && b < |rows| && Submits(rows, roots, b, k.1, call) && rows[b].index == k.0
    ensures u.Use? && u.buffer < |w.bufs| && |Creations(rows)| == |w.bufs| && Creations(rows)[u.buffer] == b
    ensures Consumes(w, roots, u) && KeyOf(w, u) == k
  {
    u := SubmitsIsConsumes(rows, w, roots, b, k.1, call);
    KeyIs(rows, w, u, k);
  }

  lemma {:induction false} HitIff(rows: seq<Row>, t: nat, k: Key)
    ensures HitAt(rows, t, k) <==> RowHitAt(rows, t, k)
  {
    if t < |rows| && rows[t].event.Submit? {
      var before, roots := rows[..t], rows[t].event.roots;
      var w := WorldAfter(before);
      if u: Entry :| u.Use? && Consumes(w, roots, u) && IsLost(w, u, k) {
        UseIsSubmitted(before, w, roots, u, k);
        LostIff(before, w, u);
        assert RowHit(before, roots, k, Creations(before)[u.buffer], u.call);
      }
      if b: nat, call: int :| RowHit(before, roots, k, b, call) {
        var u := SubmittedIsUse(before, w, roots, b, k, call);
        LostIff(before, w, u);
        assert IsLost(w, u, k);
      }
    }
  }

  lemma {:induction false} ByteHitIff(rows: seq<Row>, t: nat, k: Key)
    ensures ByteHitAt(rows, t, k) <==> RowByteHitAt(rows, t, k)
  {
    if t < |rows| && rows[t].event.Submit? {
      var before, roots := rows[..t], rows[t].event.roots;
      var w := WorldAfter(before);
      if u: Entry :| u.Use? && Consumes(w, roots, u) && ByteLost(w, u) && KeyOf(w, u) == k {
        UseIsSubmitted(before, w, roots, u, k);
        ByteLostIff(before, w, u);
        assert RowByteHit(before, roots, k, Creations(before)[u.buffer], u.call);
      }
      if b: nat, call: int :| RowByteHit(before, roots, k, b, call) {
        var u := SubmittedIsUse(before, w, roots, b, k, call);
        ByteLostIff(before, w, u);
      }
    }
  }

  lemma {:induction false} TouchIff(rows: seq<Row>, t: nat, k: Key)
    ensures TouchedAt(rows, t, k) <==> RowTouchedAt(rows, t, k)
  {
    if t < |rows| && rows[t].event.Submit? {
      var before, roots := rows[..t], rows[t].event.roots;
      var w := WorldAfter(before);
      if u: Entry :| u.Use? && Consumes(w, roots, u) && Examined(w, u) && KeyOf(w, u) == k {
        UseIsSubmitted(before, w, roots, u, k);
        TouchedIff(before, w, u);
        assert RowTouch(before, roots, k, Creations(before)[u.buffer], u.call);
      }
      if b: nat, call: int :| RowTouch(before, roots, k, b, call) {
        var u := SubmittedIsUse(before, w, roots, b, k, call);
        TouchedIff(before, w, u);
      }
    }
  }

  lemma {:induction false} UnknownIff(rows: seq<Row>, t: nat)
    ensures UnknowableAt(rows, t) <==> RowUnknownAt(rows, t)
  {
    if t < |rows| && rows[t].event.Submit? {
      var before, roots := rows[..t], rows[t].event.roots;
      var w := WorldAfter(before);
      if u: Entry :| u.Use? && Consumes(w, roots, u) && Unjudged(w, u) {
        ConsumesIsSubmits(before, w, roots, u);
        UnjudgedIff(before, w, u);
      }
      if b: nat, kind: Kind, call: int :| Submits(before, roots, b, kind, call) && RowUnjudged(before, b) {
        var u := SubmitsIsConsumes(before, w, roots, b, kind, call);
        UnjudgedIff(before, w, u);
      }
    }
  }

  lemma {:induction false} LoopIff(rows: seq<Row>, t: nat)
    ensures LoopedAt(rows, t) <==> RowLoopAt(rows, t)
  {
    if t < |rows| && rows[t].event.Submit? {
      var before, roots := rows[..t], rows[t].event.roots;
      var w := WorldAfter(before);
      WorldIsHistory(before);
      if n :| 0 <= n < |roots| && CycleReachable(w.commands, roots[n]) {
        var path, i: nat, j: nat :| WalkFrom(w.commands, roots[n], path) && Repeats(path, i, j);
        ChainIff(before, w, path);
      }
      if path: seq<Handle>, i: nat, j: nat :|
        Chain(before, path) && path[0] in roots && i < j < |path| && path[i] == path[j] {
        ChainIff(before, w, path);
        var n :| 0 <= n < |roots| && roots[n] == path[0];
        assert WalkFrom(w.commands, roots[n], path) && Repeats(path, i, j);
      }
    }
  }

  /** What the results have to say of a capture, read off its rows. */
  ghost predicate RowsAccount(rows: seq<Row>, r: Results) {
    && (forall k: Key :: k in r.findings <==> exists t: nat :: RowHitAt(rows, t, k))
    && (forall k <- r.findings :: r.findings[k].submissions == |CallsOf(r, k)|)
    && (forall k: Key, call: int ::
          call in CallsOf(r, k) <==> exists t: nat :: RowHitAt(rows, t, k) && rows[t].index == call)
    && (forall k <- r.findings :: FirstRowHit(rows, k, r.findings[k]))
    && (forall k: Key :: k in r.examined <==> exists t: nat :: RowTouchedAt(rows, t, k))
    && (r.cyclic <==> exists t: nat :: RowLoopAt(rows, t))
    && (r.unknownTypes <==> exists t: nat :: RowUnknownAt(rows, t))
  }

  /** The finding names the first submit that uses a lost buffer with its key, and such a use. */
  ghost predicate FirstRowHit(rows: seq<Row>, k: Key, f: Finding) {
    exists t: nat, b: nat :: FirstRowHitAt(rows, t, b, k, f)
  }

  ghost predicate FirstRowHitAt(rows: seq<Row>, t: nat, b: nat, k: Key, f: Finding) {
    && t < |rows| && rows[t].event.Submit? && f.firstSubmit == rows[t].index
    && (forall s: nat | s < t :: !RowHitAt(rows, s, k))
    && RowHit(rows[..t], rows[t].event.roots, k, b, f.firstUse)
  }

  lemma {:induction false} AllIff(rows: seq<Row>)
    ensures forall t: nat, k: Key :: TouchedAt(rows, t, k) <==> RowTouchedAt(rows, t, k)
    ensures forall t: nat :: UnknowableAt(rows, t) <==> RowUnknownAt(rows, t)
    ensures forall t: nat :: LoopedAt(rows, t) <==> RowLoopAt(rows, t)
  {
    forall t: nat, k: Key
      ensures TouchedAt(rows, t, k) <==> RowTouchedAt(rows, t, k)
    {
      TouchIff(rows, t, k);
    }
    forall t: nat
      ensures UnknowableAt(rows, t) <==> RowUnknownAt(rows, t)
      ensures LoopedAt(rows, t) <==> RowLoopAt(rows, t)
    {
      UnknownIff(rows, t);
      LoopIff(rows, t);
    }
  }

  /** A lost buffer that a search visits is one that the rows show. */
  lemma {:induction false} VisitIsRow(rows: seq<Row>, w: World, roots: seq<Handle>, u: Entry, k: Key)
    requires w == WorldAfter(rows) && u in VisitsOfRoots(w.commands, roots) && IsLost(w, u, k)
    ensures u.Use? && u.buffer < |Creations(rows)| && Creations(rows)[u.buffer] < |rows|
    ensures var b := Creations(rows)[u.buffer];
            Submits(rows, roots, b, k.1, u.call) && RowLost(rows, b) && rows[b].index == k.0
  {
    VisitsOfRootsAreUses(w.commands, roots);
    assert u in Members(VisitsOfRoots(w.commands, roots));
    UsesAreConsumed(w, roots, u);
    ConsumesIsSubmits(rows, w, roots, u);
    LostIff(rows, w, u);
    KeyIs(rows, w, u, k);
  }

  lemma {:induction false} NotHitBefore(rows: seq<Row>, t: nat, k: Key)
    requires !HitBefore(rows, t, k)
    ensures forall s: nat | s < t :: !RowHitAt(rows, s, k)
  {
    forall s: nat | s < t
      ensures !RowHitAt(rows, s, k)
    {
      HitIff(rows, s, k);
    }
  }

  lemma {:induction false} FirstIsRow(rows: seq<Row>, k: Key, f: Finding)
    requires FirstHit(rows, k, f)
    ensures FirstRowHit(rows, k, f)
  {
    var t: nat :| FirstHitAt(rows, t, k, f);
    NotHitBefore(rows, t, k);
    FirstUseIsRow(rows, t, k, f);
  }

  lemma {:induction false} FirstUseIsRow(rows: seq<Row>, t: nat, k: Key, f: Finding)
    requires FirstHitAt(rows, t, k, f) && forall s: nat | s < t :: !RowHitAt(rows, s, k)
    ensures FirstRowHit(rows, k, f)
  {
    var before, roots := rows[..t], rows[t].event.roots;
    var w := WorldAfter(before);
    var visits := VisitsOfRoots(w.commands, roots);
    var i: nat :| && i < |visits| && visits[i].Use? && visits[i].call == f.firstUse && IsLost(w, visits[i], k)
                  && forall j :: 0 <= j < i ==> !IsLost(w, visits[j], k);
    VisitIsRow(before, w, roots, visits[i], k);
    var b := Creations(before)[visits[i].buffer];
    assert before[b] == rows[b];
    assert FirstRowHitAt(rows, t, b, k, f);
  }

  lemma {:induction false} FindingIsRow(rows: seq<Row>, findings: set<Key>, k: Key)
    requires FindingsRight(rows, |rows|, findings)
    ensures k in findings <==> exists t: nat :: RowHitAt(rows, t, k)
  {
    assert k in findings <==> HitBefore(rows, |rows|, k);
    forall t: nat
      ensures HitAt(rows, t, k) <==> RowHitAt(rows, t, k)
    {
      HitIff(rows, t, k);
    }
    if t: nat :| RowHitAt(rows, t, k) { assert HitAt(rows, t, k); }
  }

  lemma {:induction false} CountIsRow(rows: seq<Row>, r: Results, k: Key, call: int)
    requires CountsRight(rows, |rows|, r.counted)
    ensures call in CallsOf(r, k) <==> exists t: nat :: RowHitAt(rows, t, k) && rows[t].index == call
  {
    assert call in CallsOf(r, k) <==> (k, call) in r.counted;
    assert (k, call) in r.counted <==> CountedBefore(rows, |rows|, k, call);
    forall t: nat
      ensures HitAt(rows, t, k) <==> RowHitAt(rows, t, k)
    {
      HitIff(rows, t, k);
    }
    if t: nat :| RowHitAt(rows, t, k) && rows[t].index == call { assert HitAt(rows, t, k); }
  }

  lemma {:induction false} FindingsAreRows(rows: seq<Row>, r: Results)
    requires Accounts(rows, |rows|, r)
    ensures forall k: Key :: k in r.findings <==> exists t: nat :: RowHitAt(rows, t, k)
    ensures forall k: Key, call: int ::
              call in CallsOf(r, k) <==> exists t: nat :: RowHitAt(rows, t, k) && rows[t].index == call
  {
    forall k: Key
      ensures k in r.findings <==> exists t: nat :: RowHitAt(rows, t, k)
    {
      FindingIsRow(rows, r.findings.Keys, k);
    }
    forall k: Key, call: int
      ensures call in CallsOf(r, k) <==> exists t: nat :: RowHitAt(rows, t, k) && rows[t].index == call
    {
      CountIsRow(rows, r, k, call);
    }
  }

  lemma {:induction false} NotesAreRows(rows: seq<Row>, r: Results)
    requires Accounts(rows, |rows|, r)
    ensures forall k: Key :: k in r.examined <==> exists t: nat :: RowTouchedAt(rows, t, k)
    ensures r.cyclic <==> exists t: nat :: RowLoopAt(rows, t)
    ensures r.unknownTypes <==> exists t: nat :: RowUnknownAt(rows, t)
  {
    AllIff(rows);
    forall k: Key
      ensures k in r.examined <==> exists t: nat :: RowTouchedAt(rows, t, k)
    {
      assert k in r.examined <==> TouchedBefore(rows, |rows|, k);
      if t: nat :| RowTouchedAt(rows, t, k) { assert TouchedAt(rows, t, k); }
      if t: nat :| t < |rows| && TouchedAt(rows, t, k) { assert RowTouchedAt(rows, t, k); }
    }
    if t: nat :| RowLoopAt(rows, t) { assert LoopedAt(rows, t); }
    if t: nat :| RowUnknownAt(rows, t) { assert UnknowableAt(rows, t); }
    if t: nat :| t < |rows| && LoopedAt(rows, t) { assert RowLoopAt(rows, t); }
    if t: nat :| t < |rows| && UnknowableAt(rows, t) { assert RowUnknownAt(rows, t); }
  }

  /** The results say of a capture what its rows say. */
  lemma {:induction false} AccountsAreRows(rows: seq<Row>, r: Results)
    requires Accounts(rows, |rows|, r)
    ensures RowsAccount(rows, r)
  {
    FindingsAreRows(rows, r);
    NotesAreRows(rows, r);
    forall k | k in r.findings
      ensures FirstRowHit(rows, k, r.findings[k])
    {
      FirstIsRow(rows, k, r.findings[k]);
    }
  }

  /** With nonempty fills and buffers, a key has a finding exactly when some submit uses a buffer of
      which a filled byte lies in no flush so far. */
  lemma {:induction false} FindingsAreRowBytes(rows: seq<Row>, r: Results, k: Key)
    requires Accounts(rows, |rows|, r) && forall row <- rows :: SolidRow(row)
    ensures k in r.findings <==> exists t: nat :: RowByteHitAt(rows, t, k)
  {
    FindingsAreLostBytes(rows, r, k);
    forall t: nat
      ensures ByteHitAt(rows, t, k) <==> RowByteHitAt(rows, t, k)
    {
      ByteHitIff(rows, t, k);
    }
  }

  /** A buffer is reported exactly when some submit reaches a consumption of it while a snapshot in
      its memory is uncovered; its count is the number of such submit calls. It is examined exactly
      when some submit reaches a consumption of it that snapshots touch. The limitations are noted
      exactly when some submit can reach a cycle, or uses a buffer in memory of unknown type. */
  method InspectUploads(rows: seq<Row>) returns (r: Results)
    ensures RowsAccount(rows, r) && Accounts(rows, |rows|, r)
    ensures (forall row <- rows :: SolidRow(row)) ==>
              forall k :: k in r.findings <==> exists t: nat :: RowByteHitAt(rows, t, k)
  {
    var w := NOTHING;
    r := CLEAN;
    for n := 0 to |rows|
      invariant w == WorldAfter(rows[..n])
      invariant Accounts(rows, n, r)
    {
      assert rows[..n + 1][..n] == rows[..n];
      if rows[n].event.Submit? {
        ghost var before := r;
        r := SubmitAll(w, rows[n].event.roots, rows[n].index, r);
        AccountsSubmit(rows, n, before, r);
      } else {
        AccountsQuiet(rows, n, r);
      }
      w := Track(w, rows[n]);
    }
    if forall row <- rows :: SolidRow(row) {
      forall k {
        FindingsAreRowBytes(rows, r, k);
      }
    }
    AccountsAreRows(rows, r);
  }

  // ---------------------------------------------------------------------------
  // A capture with an empty fill

  const EMPTY_FILL := [
    Row(0, Allocate(1, Some(2), 16)), Row(1, MapMemory(1)), Row(2, CreateBuffer(2, 10, 1)),
    Row(3, BindMemory([Binding(2, 1, 0)])), Row(4, Fill(1, 5, 0)), Row(5, Flush([Span(1, 7, 2)])),
    Row(6, StartCommands(3)), Row(7, Consume(3, [2], BufferStaging)), Row(8, Submit([3]))]

  lemma {:induction false} WorldSnoc(rows: seq<Row>, n: nat)
    requires n < |rows|
    ensures WorldAfter(rows[..n + 1]) == Track(WorldAfter(rows[..n]), rows[n])
  {
    assert rows[..n + 1][..n] == rows[..n];
  }

  lemma {:induction false} OneOfEach(w: World, b: Binding, x: Span, c: Handle, h: Handle, kind: Kind, index: int)
    ensures BindAll(w, [b]) == BindOne(w, b) && FlushAll(w, [x]) == FlushOne(w, x)
    ensures ConsumeAll(w, c, [h], kind, index) == ConsumeOne(w, c, h, kind, index)
  {
    assert [b][..0] == [] && [x][..0] == [] && [h][..0] == [];
  }

  /** The memory, with what was written and flushed, bound to the buffer. */
  function EmptyFillState(writes: seq<Write>, flushes: seq<Range>, commands: Graph): World {
    World(map[1 := 0], [Memory(Some(2), 16, true, writes, flushes)],
          map[2 := 0], [Buffer(2, 10, 1, Some(0), 0)], commands)
  }

  lemma {:induction false} EmptyFillAllocates()
    ensures WorldAfter(EMPTY_FILL[..3]) ==
            World(map[1 := 0], [Memory(Some(2), 16, true, [], [])], map[2 := 0], [Buffer(2, 10, 1, None, 0)], map[])
  {
    var rows := EMPTY_FILL;
    assert rows[..0] == [];
    WorldSnoc(rows, 0);
    assert WorldAfter(rows[..1]) == World(map[1 := 0], [Memory(Some(2), 16, false, [], [])], map[], [], map[]);
    WorldSnoc(rows, 1);
    assert WorldAfter(rows[..2]) == World(map[1 := 0], [Memory(Some(2), 16, true, [], [])], map[], [], map[]);
    WorldSnoc(rows, 2);
  }

  lemma {:induction false} EmptyFillBinds()
    ensures WorldAfter(EMPTY_FILL[..4]) == EmptyFillState([], [], map[])
  {
    var rows := EMPTY_FILL;
    EmptyFillAllocates();
    WorldSnoc(rows, 3);
    OneOfEach(WorldAfter(rows[..3]), Binding(2, 1, 0), Span(1, 7, 2), 3, 2, BufferStaging, 7);
  }

  lemma {:induction false} Single<T>(x: T, y: T)
    ensures [x][0 := y] == [y] && [] + [x] == [x]
  {
  }

  lemma {:induction false} FillStep()
    ensures Track(EmptyFillState([], [], map[]), Row(4, Fill(1, 5, 0))) == EmptyFillState([Write(5, 0, 4)], [], map[])
  {
    var x := Write(5, 0, 4);
    Single(x, x);
    Single(Memory(Some(2), 16, true, [], []), Memory(Some(2), 16, true, [x], []));
  }

  lemma {:induction false} FlushStep()
    ensures FlushOne(EmptyFillState([Write(5, 0, 4)], [], map[]), Span(1, 7, 2))
         == EmptyFillState([Write(5, 0, 4)], [(7, 9)], map[])
  {
    var x, flush: Range := Write(5, 0, 4), (7, 9);
    Single(flush, flush);
    Single(Memory(Some(2), 16, true, [x], []), Memory(Some(2), 16, true, [x], [flush]));
  }

  lemma {:induction false} ConsumeStep(writes: seq<Write>, flushes: seq<Range>)
    ensures ConsumeOne(EmptyFillState(writes, flushes, map[3 := []]), 3, 2, BufferStaging, 7)
         == EmptyFillState(writes, flushes, map[3 := [Use(0, BufferStaging, 7)]])
  {
    var use := Use(0, BufferStaging, 7);
    Single(use, use);
    assert map[3 := []][3 := [use]] == map[3 := [use]];
  }

  lemma {:induction false} EmptyFillWrites()
    ensures WorldAfter(EMPTY_FILL[..6]) == EmptyFillState([Write(5, 0, 4)], [(7, 9)], map[])
  {
    EmptyFillBinds();
    WorldSnoc(EMPTY_FILL, 4);
    FillStep();
    WorldSnoc(EMPTY_FILL, 5);
    OneOfEach(WorldAfter(EMPTY_FILL[..5]), Binding(2, 1, 0), Span(1, 7, 2), 3, 2, BufferStaging, 7);
    FlushStep();
  }

  lemma {:induction false} EmptyFillStarts()
    ensures WorldAfter(EMPTY_FILL[..7]) == EmptyFillState([Write(5, 0, 4)], [(7, 9)], map[3 := []])
  {
    EmptyFillWrites();
    WorldSnoc(EMPTY_FILL, 6);
  }

  /** What is tracked when the buffer is submitted. */
  lemma {:induction false} EmptyFillWorld()
    ensures WorldAfter(EMPTY_FILL[..8])
         == EmptyFillState([Write(5, 0, 4)], [(7, 9)], map[3 := [Use(0, BufferStaging, 7)]])
  {
    EmptyFillStarts();
    WorldSnoc(EMPTY_FILL, 7);
    OneOfEach(WorldAfter(EMPTY_FILL[..7]), Binding(2, 1, 0), Span(1, 7, 2), 3, 2, BufferStaging, 7);
    ConsumeStep([Write(5, 0, 4)], [(7, 9)]);
  }

  lemma {:induction false} EmptyFillLost(w: World)
    requires w == EmptyFillState([Write(5, 0, 4)], [(7, 9)], map[3 := [Use(0, BufferStaging, 7)]])
    ensures Hit(w, [3], (2, BufferStaging))
    ensures forall u: Entry :: !ByteLost(w, u)
  {
    var u := Use(0, BufferStaging, 7);
    assert WalkFrom(w.commands, 3, [3]);
    assert Reaches(w.commands, 3, 3);
    assert u in w.commands[3] && [3][0] == 3;
    assert Consumes(w, [3], u);
    EmptyIntervalCanBeMissing();
    assert w.mems[0].writes[0] == Write(5, 0, 4);
    assert Exposed(w, u, w.mems[0].writes[0], w.mems[0].flushes);
    assert IsLost(w, u, (2, BufferStaging));
  }

  /** The submit of a capture with an empty fill is reported though no buffer has a lost byte. */
  lemma {:induction false} EmptySnapshotReported()
    ensures HitAt(EMPTY_FILL, 8, (2, BufferStaging))
    ensures forall u: Entry :: !ByteLost(WorldAfter(EMPTY_FILL[..8]), u)
  {
    EmptyFillWorld();
    EmptyFillLost(WorldAfter(EMPTY_FILL[..8]));
  }
}
