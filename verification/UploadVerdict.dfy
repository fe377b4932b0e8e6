/**
 submit of tools/inspect-upload-capture.py: the verdict on a buffer that a submission consumes, in the
 terms of the program and in bytes, and what a submission adds to the results.
 */
module UploadVerdict {
  import opened Options
  import opened CommandGraph
  import opened FlushCoverage
  import opened UploadWorld

  // ---------------------------------------------------------------------------
  // What a submission should report, in bytes

  type Key = (int, Kind)

  function BoundTo(w: World, u: Entry): Option<Memory> {
    if u.Use? && u.buffer < |w.bufs| && w.bufs[u.buffer].binding.Some?
       && w.bufs[u.buffer].binding.value < |w.mems|
    then Some(w.mems[w.bufs[u.buffer].binding.value]) else None
  }

  function KeyOf(w: World, u: Entry): Key {
    if u.Use? && u.buffer < |w.bufs| then (w.bufs[u.buffer].created, u.kind) else (0, TextureStaging)
  }

  /** The buffer sits in mapped memory of unknown type. */
  predicate Unjudged(w: World, u: Entry) {
    var m := BoundTo(w, u);
    m.Some? && m.value.mapped && m.value.flags.None?
  }

  /** The buffer sits in mapped memory that is host-visible and not coherent. */
  predicate NeedsFlush(w: World, u: Entry) {
    var m := BoundTo(w, u);
    m.Some? && m.value.mapped && m.value.flags.Some?
    && m.value.flags.value / 2 % 2 == 1 && m.value.flags.value / 4 % 2 == 0
  }

  function Low(w: World, u: Entry): int { if u.Use? && u.buffer < |w.bufs| then w.bufs[u.buffer].offset else 0 }
  function High(w: World, u: Entry): int {
    if u.Use? && u.buffer < |w.bufs| then w.bufs[u.buffer].offset + w.bufs[u.buffer].size else 0
  }

  predicate Overlaps(w: World, u: Entry, x: Write) { x.begin < High(w, u) && x.End() > Low(w, u) }

  function Max(a: int, b: int): int { if a < b then b else a }
  function Min(a: int, b: int): int { if a < b then a else b }

  /** The clipped snapshot, judged as the sweep judges it. */
  ghost predicate Exposed(w: World, u: Entry, x: Write, flushes: seq<Range>) {
    var a, b := Max(Low(w, u), x.begin), Min(High(w, u), x.End());
    if a < b then ByteMissing(a, b, flushes) else PointMissing(a, flushes)
  }

  /** Some snapshot that touches the buffer is exposed. */
  ghost predicate Lost(w: World, u: Entry) {
    && NeedsFlush(w, u)
    && var m := BoundTo(w, u).value;
    exists i :: 0 <= i < |m.writes| && Overlaps(w, u, m.writes[i]) && Exposed(w, u, m.writes[i], m.flushes)
  }

  ghost predicate Written(m: Memory, x: int) {
    exists i :: 0 <= i < |m.writes| && m.writes[i].begin <= x < m.writes[i].End()
  }

  /** Some byte of the buffer was snapshot-written and lies in no flush so far. */
  ghost predicate ByteLost(w: World, u: Entry) {
    && NeedsFlush(w, u)
    && var m := BoundTo(w, u).value;
    exists x :: Low(w, u) <= x < High(w, u) && Written(m, x) && !Inside(x, m.flushes)
  }

  /** A snapshot or buffer of no bytes that the sweep nevertheless calls uncovered. */
  ghost predicate Phantom(w: World, u: Entry) {
    && NeedsFlush(w, u)
    && var m := BoundTo(w, u).value;
    exists i :: 0 <= i < |m.writes| && Overlaps(w, u, m.writes[i])
                && (m.writes[i].length == 0 || Low(w, u) == High(w, u))
                && PointMissing(Max(Low(w, u), m.writes[i].begin), m.flushes)
  }

  lemma {:induction false} LostIsByteLostOrPhantom(w: World, u: Entry)
    requires Lost(w, u)
    ensures ByteLost(w, u) || Phantom(w, u)
  {
    var m := BoundTo(w, u).value;
    var i :| 0 <= i < |m.writes| && Overlaps(w, u, m.writes[i]) && Exposed(w, u, m.writes[i], m.flushes);
    var a, b := Max(Low(w, u), m.writes[i].begin), Min(High(w, u), m.writes[i].End());
    if a < b {
      var x :| a <= x < b && !Inside(x, m.flushes);
      assert m.writes[i].begin <= x < m.writes[i].End();
      assert Written(m, x);
    }
  }

  lemma {:induction false} ByteLostIsLost(w: World, u: Entry)
    requires ByteLost(w, u)
    ensures Lost(w, u)
  {
    var m := BoundTo(w, u).value;
    var x :| Low(w, u) <= x < High(w, u) && Written(m, x) && !Inside(x, m.flushes);
    var i :| 0 <= i < |m.writes| && m.writes[i].begin <= x < m.writes[i].End();
    assert Overlaps(w, u, m.writes[i]) && Exposed(w, u, m.writes[i], m.flushes);
  }

  lemma {:induction false} PhantomIsLost(w: World, u: Entry)
    requires Phantom(w, u)
    ensures Lost(w, u)
  {
    var m := BoundTo(w, u).value;
    var i :| && 0 <= i < |m.writes| && Overlaps(w, u, m.writes[i])
             && (m.writes[i].length == 0 || Low(w, u) == High(w, u))
             && PointMissing(Max(Low(w, u), m.writes[i].begin), m.flushes);
    assert Exposed(w, u, m.writes[i], m.flushes);
  }

  /** The inspector's verdict on a buffer is the byte-level one, except for phantoms. */
  lemma {:induction false} LostIffByteLost(w: World, u: Entry)
    ensures Lost(w, u) <==> ByteLost(w, u) || Phantom(w, u)
  {
    if Lost(w, u) {
      LostIsByteLostOrPhantom(w, u);
    }
    if ByteLost(w, u) {
      ByteLostIsLost(w, u);
    }
    if Phantom(w, u) {
      PhantomIsLost(w, u);
    }
  }

  // Captures without empty snapshots and empty buffers have no phantoms

  ghost predicate SolidMemory(m: Memory) { forall i :: 0 <= i < |m.writes| ==> m.writes[i].length > 0 }

  ghost predicate Solid(w: World) {
    && (forall i :: 0 <= i < |w.mems| ==> SolidMemory(w.mems[i]))
    && (forall i :: 0 <= i < |w.bufs| ==> w.bufs[i].size > 0)
  }

  predicate SolidRow(row: Row) {
    match row.event
    case Fill(_, _, length) => length > 0
    case CreateBuffer(_, size, _) => size > 0
    case _ => true
  }

  lemma {:induction false} BindAllSolid(w: World, bs: seq<Binding>)
    requires Solid(w)
    ensures Solid(BindAll(w, bs))
  {
    if bs != [] {
      BindAllSolid(w, bs[..|bs| - 1]);
    }
  }

  lemma {:induction false} FlushAllSolid(w: World, ss: seq<Span>)
    requires Solid(w)
    ensures Solid(FlushAll(w, ss))
  {
    if ss != [] {
      FlushAllSolid(w, ss[..|ss| - 1]);
    }
  }

  lemma {:induction false} CommandsKeepObjects(w: World, c: Handle, hs: seq<Handle>, kind: Kind, index: int)
    ensures ConsumeAll(w, c, hs, kind, index).mems == w.mems && ConsumeAll(w, c, hs, kind, index).bufs == w.bufs
    ensures ExecuteAll(w, c, hs).mems == w.mems && ExecuteAll(w, c, hs).bufs == w.bufs
  {
    if hs != [] {
      CommandsKeepObjects(w, c, hs[..|hs| - 1], kind, index);
    }
  }

  lemma {:induction false} TrackSolid(w: World, row: Row)
    requires Solid(w) && SolidRow(row)
    ensures Solid(Track(w, row))
  {
    match row.event {
      case BindMemory(bs) => BindAllSolid(w, bs);
      case Flush(ss) => FlushAllSolid(w, ss);
      case Consume(c, hs, kind) => CommandsKeepObjects(w, c, hs, kind, row.index);
      case Execute(c, ds) => CommandsKeepObjects(w, c, ds, TextureStaging, 0);
      case _ =>
    }
  }

  lemma {:induction false} WorldSolid(rows: seq<Row>)
    requires forall i :: 0 <= i < |rows| ==> SolidRow(rows[i])
    ensures Solid(WorldAfter(rows))
  {
    if rows != [] {
      WorldSolid(rows[..|rows| - 1]);
      TrackSolid(WorldAfter(rows[..|rows| - 1]), rows[|rows| - 1]);
    }
  }

  /** With nonempty snapshots and buffers the verdict is exactly the byte-level one. */
  lemma {:induction false} SolidIsByteExact(rows: seq<Row>, u: Entry)
    requires forall i :: 0 <= i < |rows| ==> SolidRow(rows[i])
    ensures Lost(WorldAfter(rows), u) <==> ByteLost(WorldAfter(rows), u)
  {
    var w := WorldAfter(rows);
    WorldSolid(rows);
    LostIffByteLost(w, u);
  }

  // ---------------------------------------------------------------------------
  // Results

  datatype Finding = Finding(firstUse: int, firstSubmit: int, submissions: nat)

  datatype Results = Results(
    findings: map<Key, Finding>, examined: set<Key>, counted: set<(Key, int)>,
    cyclic: bool, unknownTypes: bool)

  const CLEAN := Results(map[], {}, {}, false, false)

  /** The submit calls that were counted for a key. */
  function CallsOf(r: Results, k: Key): set<int> { set e | e in r.counted && e.0 == k :: e.1 }

  /** Every count is the number of distinct submit calls behind it. */
  ghost predicate Tallied(r: Results) {
    && (forall e :: e in r.counted ==> e.0 in r.findings)
    && (forall k :: k in r.findings ==> r.findings[k].submissions == |CallsOf(r, k)|)
  }

  /** The buffer was examined: it needs flushes and some snapshot touches it. */
  ghost predicate Examined(w: World, u: Entry) {
    && NeedsFlush(w, u)
    && var m := BoundTo(w, u).value;
    exists i :: 0 <= i < |m.writes| && Overlaps(w, u, m.writes[i])
  }

  ghost function LostKeys(w: World, uses: set<Entry>): set<Key> {
    set u | u in uses && Lost(w, u) :: KeyOf(w, u)
  }

  ghost function ExaminedKeys(w: World, uses: set<Entry>): set<Key> {
    set u | u in uses && Examined(w, u) :: KeyOf(w, u)
  }

  ghost predicate AnyUnjudged(w: World, uses: set<Entry>) { exists u :: u in uses && Unjudged(w, u) }

  /** The results grow by findings for the keys in lost, examinations of the keys in seen,
      and the note on unknown memory types. */
  ghost predicate Grown(lost: set<Key>, seen: set<Key>, unknown: bool, call: int, before: Results, after: Results) {
    && after.unknownTypes == (before.unknownTypes || unknown)
    && after.examined == before.examined + seen
    && after.findings.Keys == before.findings.Keys + lost
    && after.counted == before.counted + (set k | k in lost :: (k, call))
    && FirstsKept(call, before, after)
    && (Tallied(before) ==> Tallied(after))
  }

  /** What reporting a set of uses at a submit call does to the results. */
  ghost predicate Reported(w: World, uses: set<Entry>, call: int, before: Results, after: Results) {
    Grown(LostKeys(w, uses), ExaminedKeys(w, uses), AnyUnjudged(w, uses), call, before, after)
  }

  /** A finding keeps the first submit it was made for. */
  ghost predicate FirstsKept(call: int, before: Results, after: Results) {
    && (forall k :: k in before.findings && k in after.findings ==>
          after.findings[k].firstSubmit == before.findings[k].firstSubmit)
    && (forall k :: k in after.findings && k !in before.findings ==> after.findings[k].firstSubmit == call)
  }

  /** The first visit of a lost buffer with key k was recorded by the given call. */
  ghost predicate FirstLost(w: World, visits: seq<Entry>, k: Key, use: int) {
    exists i: nat ::
      && i < |visits| && visits[i].Use? && visits[i].call == use && IsLost(w, visits[i], k)
      && forall j :: 0 <= j < i ==> !IsLost(w, visits[j], k)
  }

  ghost predicate IsLost(w: World, u: Entry, k: Key) { Lost(w, u) && KeyOf(w, u) == k }

  /** A finding keeps the use that it was first made for, and a new one has the first in the order of
      the search. */
  ghost predicate UsesKept(w: World, visits: seq<Entry>, before: Results, after: Results) {
    && (forall k <- before.findings :: k in after.findings ==>
          after.findings[k].firstUse == before.findings[k].firstUse)
    && (forall k <- after.findings :: k !in before.findings ==> FirstLost(w, visits, k, after.findings[k].firstUse))
  }

  /** What the visits of a search at a submit call do to the results. */
  ghost predicate Visited(w: World, visits: seq<Entry>, call: int, before: Results, after: Results) {
    Reported(w, Members(visits), call, before, after) && UsesKept(w, visits, before, after)
  }

  lemma {:induction false} NothingVisited(w: World, call: int, r: Results)
    ensures Visited(w, [], call, r, r)
  {
  }

  lemma {:induction false} FirstLostEarlier(w: World, a: seq<Entry>, b: seq<Entry>, k: Key, use: int)
    requires FirstLost(w, a, k, use)
    ensures FirstLost(w, a + b, k, use)
  {
    var i: nat :| && i < |a| && a[i].Use? && a[i].call == use && IsLost(w, a[i], k)
                  && forall j :: 0 <= j < i ==> !IsLost(w, a[j], k);
    assert (a + b)[i] == a[i];
    assert forall j :: 0 <= j < i ==> (a + b)[j] == a[j];
  }

  lemma {:induction false} FirstLostLater(w: World, a: seq<Entry>, b: seq<Entry>, k: Key, use: int)
    requires FirstLost(w, b, k, use) && k !in LostKeys(w, Members(a))
    ensures FirstLost(w, a + b, k, use)
  {
    var i: nat :| && i < |b| && b[i].Use? && b[i].call == use && IsLost(w, b[i], k)
                  && forall j :: 0 <= j < i ==> !IsLost(w, b[j], k);
    var all := a + b;
    assert all[|a| + i] == b[i];
    forall j | 0 <= j < |a| + i
      ensures !IsLost(w, all[j], k)
    {
      if j < |a| {
        assert all[j] in Members(a);
      } else {
        assert all[j] == b[j - |a|];
      }
    }
  }

  lemma {:induction false} UsesKeptBoth(w: World, a: seq<Entry>, b: seq<Entry>, r0: Results, r1: Results, r2: Results)
    requires UsesKept(w, a, r0, r1) && UsesKept(w, b, r1, r2)
    requires r1.findings.Keys == r0.findings.Keys + LostKeys(w, Members(a))
    requires r1.findings.Keys <= r2.findings.Keys
    ensures UsesKept(w, a + b, r0, r2)
  {
    forall k | k in r2.findings && k !in r0.findings
      ensures FirstLost(w, a + b, k, r2.findings[k].firstUse)
    {
      if k in r1.findings {
        FirstLostEarlier(w, a, b, k, r2.findings[k].firstUse);
      } else {
        FirstLostLater(w, a, b, k, r2.findings[k].firstUse);
      }
    }
  }

  lemma {:induction false} VisitedBoth(
    w: World, a: seq<Entry>, b: seq<Entry>, call: int, r0: Results, r1: Results, r2: Results)
    requires Visited(w, a, call, r0, r1) && Visited(w, b, call, r1, r2)
    ensures Visited(w, a + b, call, r0, r2)
  {
    ReportedBoth(w, Members(a), Members(b), call, r0, r1, r2);
    MembersConcat(a, b);
    UsesKeptBoth(w, a, b, r0, r1, r2);
  }

  lemma {:induction false} ReportedBoth(w: World, a: set<Entry>, b: set<Entry>, call: int,
                                        r0: Results, r1: Results, r2: Results)
    requires Reported(w, a, call, r0, r1) && Reported(w, b, call, r1, r2)
    ensures Reported(w, a + b, call, r0, r2)
  {
    KeysOfBoth(w, a, b);
    GrownBoth(LostKeys(w, a), LostKeys(w, b), ExaminedKeys(w, a), ExaminedKeys(w, b),
              AnyUnjudged(w, a), AnyUnjudged(w, b), call, r0, r1, r2);
  }

  lemma {:induction false} GrownBoth(a: set<Key>, b: set<Key>, c: set<Key>, d: set<Key>, p: bool, q: bool, call: int,
                                     r0: Results, r1: Results, r2: Results)
    requires Grown(a, c, p, call, r0, r1) && Grown(b, d, q, call, r1, r2)
    ensures Grown(a + b, c + d, p || q, call, r0, r2)
  {
    assert (set k | k in a + b :: (k, call)) == (set k | k in a :: (k, call)) + (set k | k in b :: (k, call));
  }

  lemma {:induction false} KeysOfBoth(w: World, a: set<Entry>, b: set<Entry>)
    ensures LostKeys(w, a + b) == LostKeys(w, a) + LostKeys(w, b)
    ensures ExaminedKeys(w, a + b) == ExaminedKeys(w, a) + ExaminedKeys(w, b)
    ensures AnyUnjudged(w, a + b) == (AnyUnjudged(w, a) || AnyUnjudged(w, b))
  {
  }

  lemma {:induction false} KeysOfOne(w: World, u: Entry)
    ensures LostKeys(w, {u}) == if Lost(w, u) then {KeyOf(w, u)} else {}
    ensures ExaminedKeys(w, {u}) == if Examined(w, u) then {KeyOf(w, u)} else {}
    ensures AnyUnjudged(w, {u}) == Unjudged(w, u)
  {
  }

  /** The snapshots that touch the buffer, and whether one of them is exposed. */
  method Scan(w: World, u: Entry, m: Memory) returns (touched: bool, missing: bool)
    requires NeedsFlush(w, u) && m == BoundTo(w, u).value
    ensures touched <==> Examined(w, u)
    ensures missing <==> Lost(w, u)
  {
    touched, missing := false, false;
    var low, high := Low(w, u), High(w, u);
    for i := 0 to |m.writes|
      invariant touched <==> exists k :: 0 <= k < i && Overlaps(w, u, m.writes[k])
      invariant missing <==>
                exists k :: 0 <= k < i && Overlaps(w, u, m.writes[k]) && Exposed(w, u, m.writes[k], m.flushes)
    {
      var x := m.writes[i];
      if x.begin < high && x.End() > low {
        touched := true;
        var gap := Uncovered(Max(low, x.begin), Min(high, x.End()), m.flushes);
        missing := missing || gap;
      }
    }
  }

  lemma {:induction false} TallyCounts(before: Results, after: Results, key: Key, call: int, f: Finding)
    requires Tallied(before)
    requires (key, call) !in before.counted
    requires after.counted == before.counted + {(key, call)}
    requires after.findings == before.findings[key := f]
    requires f.submissions == (if key in before.findings then before.findings[key].submissions else 0) + 1
    ensures Tallied(after)
  {
    assert CallsOf(after, key) == CallsOf(before, key) + {call};
    forall k | k in after.findings && k != key
      ensures CallsOf(after, k) == CallsOf(before, k)
    {
    }
    if key !in before.findings {
      assert CallsOf(before, key) == {};
    }
  }

  /** Note one more uncovered consumption of a buffer. */
  method Record(r0: Results, key: Key, use: int, call: int) returns (r: Results)
    ensures r.findings.Keys == r0.findings.Keys + {key}
    ensures r.counted == r0.counted + {(key, call)}
    ensures r.examined == r0.examined && r.cyclic == r0.cyclic && r.unknownTypes == r0.unknownTypes
    ensures FirstsKept(call, r0, r)
    ensures forall k <- r0.findings :: r.findings[k].firstUse == r0.findings[k].firstUse
    ensures key !in r0.findings ==> r.findings[key].firstUse == use
    ensures Tallied(r0) ==> Tallied(r)
  {
    r := r0;
    var finding := if key in r.findings then r.findings[key] else Finding(use, call, 0);
    if (key, call) !in r.counted {
      finding := finding.(submissions := finding.submissions + 1);
      r := r.(findings := r.findings[key := finding], counted := r.counted + {(key, call)});
      if Tallied(r0) {
        TallyCounts(r0, r, key, call, finding);
      }
    } else {
      r := r.(findings := r.findings[key := finding]);
      assert Tallied(r0) ==> r == r0;
    }
  }

  lemma {:induction false} GrownNone(call: int, r: Results)
    ensures Grown({}, {}, false, call, r, r)
    ensures Grown({}, {}, true, call, r, r.(unknownTypes := true))
  {
  }

  lemma {:induction false} GrownExamined(key: Key, call: int, r: Results)
    ensures Grown({}, {key}, false, call, r, r.(examined := r.examined + {key}))
  {
  }

  lemma {:induction false} GrownLost(key: Key, call: int, r0: Results, r: Results)
    requires r.findings.Keys == r0.findings.Keys + {key} && r.counted == r0.counted + {(key, call)}
    requires r.examined == r0.examined + {key} && r.unknownTypes == r0.unknownTypes
    requires FirstsKept(call, r0, r) && (Tallied(r0) ==> Tallied(r))
    ensures Grown({key}, {key}, false, call, r0, r)
  {
    assert (set k | k in {key} :: (k, call)) == {(key, call)};
  }

  /** Findings keep the use that they were first made for, and a new one is made for u. */
  ghost predicate UseKept(u: Entry, before: Results, after: Results)
    requires u.Use?
  {
    && (forall k <- before.findings :: k in after.findings && after.findings[k].firstUse == before.findings[k].firstUse)
    && (forall k <- after.findings :: k !in before.findings ==> after.findings[k].firstUse == u.call)
  }

  lemma {:induction false} VisitOne(w: World, u: Entry, call: int, r0: Results, r: Results)
    requires u.Use? && Reported(w, {u}, call, r0, r) && UseKept(u, r0, r)
    ensures Visited(w, [u], call, r0, r)
  {
    assert Members([u]) == {u};
    KeysOfOne(w, u);
    forall k | k in r.findings && k !in r0.findings
      ensures FirstLost(w, [u], k, r.findings[k].firstUse)
    {
      assert IsLost(w, [u][0], k);
    }
  }

  /** One consumed buffer: the body of the loop in submit. */
  method Judge(w: World, u: Entry, call: int, r0: Results) returns (r: Results)
    requires u.Use?
    ensures Reported(w, {u}, call, r0, r) && UseKept(u, r0, r)
    ensures r.cyclic == r0.cyclic
  {
    r := r0;
    var memory := BoundTo(w, u);
    KeysOfOne(w, u);
    GrownNone(call, r0);
    if memory.None? || !memory.value.mapped {
      return;
    }
    if memory.value.flags.None? {
      r := r.(unknownTypes := true);
      return;
    }
    var flags := memory.value.flags.value;
    if flags / 2 % 2 == 0 || flags / 4 % 2 == 1 {
      return;
    }
    var touched, missing := Scan(w, u, memory.value);
    if !touched {
      return;
    }
    var key := KeyOf(w, u);
    r := r.(examined := r.examined + {key});
    GrownExamined(key, call, r0);
    if missing {
      r := Record(r, key, u.call, call);
      GrownLost(key, call, r0, r);
    }
  }

  /** submit: the recursive search, with the set of ancestors on the current path. */
  method SubmitCommand(w: World, c: Handle, call: int, seen: set<Handle>, r0: Results) returns (r: Results)
    ensures Visited(w, VisitsFrom(w.commands, c, seen), call, r0, r)
    ensures r.cyclic == (r0.cyclic || MeetsAncestor(w.commands, c, seen))
    decreases |w.commands.Keys - seen|
  {
    r := r0;
    NothingVisited(w, call, r0);
    if c in seen {
      r := r.(cyclic := true);
      return;
    }
    if c !in w.commands {
      return;
    }
    Fewer(w.commands, c, seen);
    var entries := w.commands[c];
    for n := 0 to |entries|
      invariant Visited(w, VisitsIn(w.commands, entries, n, seen + {c}), call, r0, r)
      invariant r.cyclic == (r0.cyclic || MeetsIn(w.commands, entries, n, seen + {c}))
    {
      ghost var before := r;
      if entries[n].Secondary? {
        r := SubmitCommand(w, entries[n].command, call, seen + {c}, r);
        VisitedBoth(w, VisitsIn(w.commands, entries, n, seen + {c}),
                    VisitsFrom(w.commands, entries[n].command, seen + {c}), call, r0, before, r);
      } else {
        r := Judge(w, entries[n], call, r);
        VisitOne(w, entries[n], call, before, r);
        VisitedBoth(w, VisitsIn(w.commands, entries, n, seen + {c}), [entries[n]], call, r0, before, r);
      }
    }
  }

  /** Everything that the submitted command buffers consume, directly or indirectly. */
  function UsesOfRoots(g: Graph, roots: seq<Handle>): set<Entry> {
    if roots == [] then {} else UsesOfRoots(g, roots[..|roots| - 1]) + UsesFrom(g, roots[|roots| - 1], {})
  }

  function VisitsOfRoots(g: Graph, roots: seq<Handle>): seq<Entry> {
    if roots == [] then [] else VisitsOfRoots(g, roots[..|roots| - 1]) + VisitsFrom(g, roots[|roots| - 1], {})
  }

  lemma {:induction false} VisitsOfRootsAreUses(g: Graph, roots: seq<Handle>)
    ensures Members(VisitsOfRoots(g, roots)) == UsesOfRoots(g, roots)
  {
    if roots != [] {
      var before, last := roots[..|roots| - 1], roots[|roots| - 1];
      VisitsOfRootsAreUses(g, before);
      VisitsAreUses(g, last, {});
      MembersConcat(VisitsOfRoots(g, before), VisitsFrom(g, last, {}));
    }
  }

  predicate AnyCycle(g: Graph, roots: seq<Handle>) {
    roots != [] && (AnyCycle(g, roots[..|roots| - 1]) || MeetsAncestor(g, roots[|roots| - 1], {}))
  }

  method SubmitAll(w: World, roots: seq<Handle>, call: int, r0: Results) returns (r: Results)
    ensures Visited(w, VisitsOfRoots(w.commands, roots), call, r0, r)
    ensures r.cyclic == (r0.cyclic || AnyCycle(w.commands, roots))
  {
    r := r0;
    NothingVisited(w, call, r0);
    assert roots[..|roots|] == roots;
    for n := 0 to |roots|
      invariant Visited(w, VisitsOfRoots(w.commands, roots[..n]), call, r0, r)
      invariant r.cyclic == (r0.cyclic || AnyCycle(w.commands, roots[..n]))
    {
      ghost var before := r;
      assert roots[..n + 1][..n] == roots[..n];
      r := SubmitCommand(w, roots[n], call, {}, r);
      VisitedBoth(w, VisitsOfRoots(w.commands, roots[..n]), VisitsFrom(w.commands, roots[n], {}), call, r0, before, r);
    }
  }
}
