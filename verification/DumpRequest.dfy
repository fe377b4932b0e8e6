/**
 dump_request of tools/inspect-rendering-capture.py: from the reports of a capture and a
 set of draw indices to a GFXReconstruct resource-dump request.
 */
module DumpRequest {
  import opened Options
  import opened RenderingStream
  import opened RenderingBatch
  import opened RenderingLocality
  import opened RenderingTracker
  import opened RenderingCapture
  import opened Sorting

  type Key = (nat, nat)

  predicate NatLess(a: nat, b: nat) { a < b }

  predicate KeyLess(a: Key, b: Key) { a.0 < b.0 || (a.0 == b.0 && a.1 < b.1) }

  /** One execution of a draw in a selected submission. begin is that of its recording and
      pass the begin and end of its scope; evidenced says that the batch was seen whole and
      the scope has an end. */
  datatype Placement = Placement(draw: nat, submit: nat, begin: nat, pass: Key, evidenced: bool) {
    function Group(): Key { (submit, begin) }
  }

  /** The begin of the first listed recording of a command buffer. */
  function BeginOf(refs: seq<RecordingRef>, buffer: Handle): nat {
    if refs == [] then 0 else if refs[0].buffer == buffer then refs[0].begin else BeginOf(refs[1..], buffer)
  }

  function Place(r: BatchReport, scope: Scope, d: DrawRecord): Placement {
    Placement(d.index,
              if r.submit.Some? then r.submit.value else 0,
              BeginOf(r.recordings, scope.buffer),
              (scope.begin, if scope.end.Some? then scope.end.value else 0),
              r.uncovered == [] && scope.end.Some?)
  }

  function ScopePlacements(r: BatchReport, scope: Scope): (ps: seq<Placement>)
    ensures |ps| == |scope.draws|
    ensures forall i :: 0 <= i < |ps| ==> ps[i] == Place(r, scope, scope.draws[i])
  {
    seq(|scope.draws|, i requires 0 <= i < |scope.draws| => Place(r, scope, scope.draws[i]))
  }

  function ReportPlacements(r: BatchReport, n: nat): seq<Placement>
    requires n <= |r.renderings|
  {
    if n == 0 then [] else ReportPlacements(r, n - 1) + ScopePlacements(r, r.renderings[n - 1])
  }

  predicate Chosen(r: BatchReport, submit: Option<nat>) { submit.None? || r.submit == submit }

  /** All executions of draws in the chosen submissions: what the three nested loops visit. */
  function Placements(reports: seq<BatchReport>, submit: Option<nat>): seq<Placement> {
    if reports == [] then []
    else
      var last := reports[|reports| - 1];
      Placements(reports[..|reports| - 1], submit)
      + if Chosen(last, submit) then ReportPlacements(last, |last.renderings|) else []
  }

  /** The draw is executed exactly once, and that execution is evidenced. */
  ghost predicate Once(ps: seq<Placement>, d: nat) {
    exists k :: 0 <= k < |ps| && ps[k].draw == d && ps[k].evidenced
                && forall j :: 0 <= j < |ps| && ps[j].draw == d ==> j == k
  }

  // ---------------------------------------------------------------------------
  // Every evidenced placement is in call order

  ghost predicate InCallOrder(p: Placement) {
    p.evidenced ==> p.begin < p.pass.0 < p.draw < p.pass.1 < p.submit
  }

  /** Two evidenced placements in one recording are in the same scope or in disjoint ones. */
  ghost predicate SameOrDisjoint(p: Placement, q: Placement) {
    p.evidenced && q.evidenced && p.Group() == q.Group() ==>
      p.pass == q.pass || p.pass.1 < q.pass.0 || q.pass.1 < p.pass.0
  }

  lemma {:induction false} FoundBegin(batch: Batch, i: nat)
    requires i < |batch| && Complete(batch[i].1)
    requires forall k, j :: 0 <= k < |batch| && 0 <= j < |batch| && batch[k].0 == batch[j].0 ==> batch[k].1 == batch[j].1
    ensures BeginOf(Recordings(batch), batch[i].0) == batch[i].1.value.begin
  {
    var before := batch[..|batch| - 1];
    var refs := Recordings(before);
    var last := batch[|batch| - 1];
    if exists k :: 0 <= k < |before| && before[k].0 == batch[i].0 {
      var k :| 0 <= k < |before| && before[k].0 == batch[i].0;
      assert batch[k].0 == batch[i].0;
      FoundBegin(before, k);
      RefersTo(before, k);
      BeginOfPrefix(refs, Recordings(batch)[|refs|..], batch[i].0);
      assert Recordings(batch) == refs + Recordings(batch)[|refs|..];
    } else {
      NotMentioned(before, batch[i].0);
      BeginOfSuffix(refs, RecordingRef(last.0, last.1.value.begin, last.1.value.end.value));
    }
  }

  ghost predicate Listed(refs: seq<RecordingRef>, buffer: Handle) {
    exists k :: 0 <= k < |refs| && refs[k].buffer == buffer
  }

  lemma {:induction false} RefersTo(batch: Batch, i: nat)
    requires i < |batch| && Complete(batch[i].1)
    ensures Listed(Recordings(batch), batch[i].0)
  {
    var before := batch[..|batch| - 1];
    if i < |before| {
      RefersTo(before, i);
      var k :| 0 <= k < |Recordings(before)| && Recordings(before)[k].buffer == before[i].0;
      assert Recordings(batch)[k] == Recordings(before)[k];
    } else {
      assert Recordings(batch)[|Recordings(before)|].buffer == batch[i].0;
    }
  }

  lemma {:induction false} NotMentioned(batch: Batch, buffer: Handle)
    requires forall k :: 0 <= k < |batch| ==> batch[k].0 != buffer
    ensures !Listed(Recordings(batch), buffer)
  {
    if batch != [] {
      NotMentioned(batch[..|batch| - 1], buffer);
    }
  }

  lemma {:induction false} BeginOfPrefix(a: seq<RecordingRef>, b: seq<RecordingRef>, buffer: Handle)
    requires Listed(a, buffer)
    ensures BeginOf(a + b, buffer) == BeginOf(a, buffer)
  {
    if a[0].buffer != buffer {
      var k :| 0 <= k < |a| && a[k].buffer == buffer;
      assert a[1..][k - 1].buffer == buffer;
      assert (a + b)[1..] == a[1..] + b;
      BeginOfPrefix(a[1..], b, buffer);
    }
  }

  lemma {:induction false} BeginOfSuffix(a: seq<RecordingRef>, last: RecordingRef)
    requires !Listed(a, last.buffer)
    ensures BeginOf(a + [last], last.buffer) == last.begin
  {
    if a != [] {
      assert a[0].buffer != last.buffer;
      assert forall k :: 0 <= k < |a[1..]| ==> a[1..][k] == a[k + 1];
      assert (a + [last])[1..] == a[1..] + [last];
      BeginOfSuffix(a[1..], last);
    }
  }

  /** Where a placement comes from: a draw of a scope of a complete recording of t. */
  ghost predicate From(p: Placement, t: Tracker, h: Handle, i: nat) {
    && Complete(Find(t, h))
    && var scopes := Scopes(RecordingStream(h, Find(t, h)));
    && i < |scopes|
    && p.begin == t.recordings[h].begin
    && p.pass.0 == scopes[i].begin
    && (p.evidenced ==> scopes[i].end == Some(p.pass.1))
    && exists d :: d in scopes[i].draws && d.index == p.draw
  }

  lemma {:induction false} ScopeOrigin(batch: Batch, i: nat) returns (m: nat, k: nat)
    requires i < |ScopesByRecording(batch)|
    ensures m < |batch| && Complete(batch[m].1)
    ensures var scopes := Scopes(RecordingStream(batch[m].0, batch[m].1));
            && k < |scopes| && scopes[k] == ScopesByRecording(batch)[i] && scopes[k].buffer == batch[m].0
  {
    var before := batch[..|batch| - 1];
    var (handle, recording) := batch[|batch| - 1];
    if i < |ScopesByRecording(before)| {
      m, k := ScopeOrigin(before, i);
    } else {
      m, k := |batch| - 1, i - |ScopesByRecording(before)|;
      if Complete(recording) {
        ScopesHaveOwner(handle, recording.value, |RecordingStream(handle, recording)|);
        assert Scopes(RecordingStream(handle, recording))[k] in Scopes(RecordingStream(handle, recording));
      } else {
        MissingAddsNoScope([], handle);
      }
    }
  }

  lemma {:induction false} LookupOrigin(t: Tracker, handles: seq<Handle>, j: nat) returns (h: Handle, i: nat)
    requires j < |ScopesByRecording(Lookups(t, handles))|
    ensures Complete(Find(t, h)) && i < |Scopes(RecordingStream(h, Find(t, h)))|
    ensures var scope := Scopes(RecordingStream(h, Find(t, h)))[i];
            && scope == ScopesByRecording(Lookups(t, handles))[j]
            && BeginOf(Recordings(Lookups(t, handles)), scope.buffer) == t.recordings[h].begin
  {
    var batch := Lookups(t, handles);
    var m, k := ScopeOrigin(batch, j);
    h, i := batch[m].0, k;
    FoundBegin(batch, m);
  }

  lemma {:induction false} PlacementOrigin(r: BatchReport, t: Tracker, registry: Registry, j: nat, n: nat)
    returns (h: Handle, i: nat)
    requires Sound(r, t, registry) && j < n <= |r.renderings|
    ensures forall d :: d in r.renderings[j].draws ==> From(Place(r, r.renderings[j], d), t, h, i)
  {
    var handles :| r == BatchSpec(r.submit, Lookups(t, handles), registry);
    ScopesAreLocal(Lookups(t, handles));
    h, i := LookupOrigin(t, handles, j);
    forall d | d in r.renderings[j].draws
      ensures From(Place(r, r.renderings[j], d), t, h, i)
    {
      PlacedFrom(r, t, r.renderings[j], d, h, i);
    }
  }

  lemma {:induction false} PlacedFrom(r: BatchReport, t: Tracker, scope: Scope, d: DrawRecord, h: Handle, i: nat)
    requires Complete(Find(t, h)) && i < |Scopes(RecordingStream(h, Find(t, h)))|
    requires scope == Scopes(RecordingStream(h, Find(t, h)))[i] && d in scope.draws
    requires BeginOf(r.recordings, scope.buffer) == t.recordings[h].begin
    ensures From(Place(r, scope, d), t, h, i)
  {
  }

  lemma {:induction false} FromInOrder(p: Placement, t: Tracker, h: Handle, i: nat)
    requires From(p, t, h, i) && Ordered(t, p.submit)
    ensures InCallOrder(p)
  {
    RecordingScopesInOrder(h, t.recordings[h], p.submit);
    var scope := Scopes(RecordingStream(h, Find(t, h)))[i];
    assert ScopeInOrder(scope, t.recordings[h].begin, p.submit);
  }

  lemma {:induction false} FromDisjoint(p: Placement, q: Placement, t: Tracker, h: Handle, i: nat, g: Handle, j: nat)
    requires From(p, t, h, i) && From(q, t, g, j) && Ordered(t, p.submit)
    ensures SameOrDisjoint(p, q)
  {
    if p.evidenced && q.evidenced && p.Group() == q.Group() {
      assert h == g;
      RecordingScopesInOrder(h, t.recordings[h], p.submit);
    }
  }

  /** p comes from the recordings as they stood before its submit. */
  ghost predicate Rooted(p: Placement, rows: seq<Row>)
    requires Increasing(rows)
  {
    var t := TrackerBefore(rows, p.submit);
    Ordered(t, p.submit) && exists h, i :: From(p, t, h, i)
  }

  lemma {:induction false} RootedInOrder(p: Placement, q: Placement, rows: seq<Row>)
    requires Increasing(rows) && Rooted(p, rows) && Rooted(q, rows)
    ensures InCallOrder(p) && SameOrDisjoint(p, q)
  {
    var t := TrackerBefore(rows, p.submit);
    var h, i :| From(p, t, h, i);
    FromInOrder(p, t, h, i);
    if p.submit == q.submit {
      var g, j :| From(q, t, g, j);
      FromDisjoint(p, q, t, h, i, g, j);
    }
  }

  ghost predicate AllRooted(ps: seq<Placement>, rows: seq<Row>)
    requires Increasing(rows)
  {
    forall k :: 0 <= k < |ps| ==> Rooted(ps[k], rows)
  }

  lemma {:induction false} ScopeRooted(r: BatchReport, j: nat, rows: seq<Row>, registry: Registry)
    requires Increasing(rows) && SoundIn(r, rows, registry) && j < |r.renderings|
    ensures AllRooted(ScopePlacements(r, r.renderings[j]), rows)
  {
    var scope := r.renderings[j];
    var t := TrackerBefore(rows, r.submit.value);
    var h, i := PlacementOrigin(r, t, registry, j, |r.renderings|);
    forall k | 0 <= k < |scope.draws|
      ensures Rooted(ScopePlacements(r, scope)[k], rows)
    {
      assert From(Place(r, scope, scope.draws[k]), t, h, i);
    }
  }

  lemma {:induction false} BothRooted(a: seq<Placement>, b: seq<Placement>, rows: seq<Row>)
    requires Increasing(rows) && AllRooted(a, rows) && AllRooted(b, rows)
    ensures AllRooted(a + b, rows)
  {
  }

  lemma {:induction false} ScopesRooted(r: BatchReport, n: nat, rows: seq<Row>)
    requires Increasing(rows) && n <= |r.renderings|
    requires forall j :: 0 <= j < |r.renderings| ==> AllRooted(ScopePlacements(r, r.renderings[j]), rows)
    ensures AllRooted(ReportPlacements(r, n), rows)
  {
    if n > 0 {
      ScopesRooted(r, n - 1, rows);
      BothRooted(ReportPlacements(r, n - 1), ScopePlacements(r, r.renderings[n - 1]), rows);
    }
  }

  lemma {:induction false} ReportRooted(r: BatchReport, rows: seq<Row>, registry: Registry)
    requires Increasing(rows) && SoundIn(r, rows, registry)
    ensures AllRooted(ReportPlacements(r, |r.renderings|), rows)
  {
    forall j | 0 <= j < |r.renderings|
      ensures AllRooted(ScopePlacements(r, r.renderings[j]), rows)
    {
      ScopeRooted(r, j, rows, registry);
    }
    ScopesRooted(r, |r.renderings|, rows);
  }

  lemma {:induction false} PlacementsRooted(
    reports: seq<BatchReport>, submit: Option<nat>, rows: seq<Row>, registry: Registry)
    requires Increasing(rows) && AllSoundIn(reports, rows, registry)
    ensures AllRooted(Placements(reports, submit), rows)
  {
    if reports != [] {
      var before, last := reports[..|reports| - 1], reports[|reports| - 1];
      assert forall i :: 0 <= i < |before| ==> before[i] == reports[i];
      PlacementsRooted(before, submit, rows, registry);
      assert SoundIn(last, rows, registry);
      ReportRooted(last, rows, registry);
      BothRooted(Placements(before, submit), ReportPlacements(last, |last.renderings|), rows);
    }
  }

  // ---------------------------------------------------------------------------
  // Selection

  /** The nested loops over submissions, scopes and draws, and the check for missing draws. */
  method Select(ps: seq<Placement>, requested: set<nat>) returns (selected: Option<map<nat, Placement>>)
    ensures selected.Some? <==> forall d :: d in requested ==> Once(ps, d)
    ensures selected.Some? ==>
              && selected.value.Keys == requested
              && forall d :: d in requested ==>
                   selected.value[d] in ps && selected.value[d].draw == d && selected.value[d].evidenced
  {
    var m: map<nat, Placement> := map[];
    ghost var at: map<nat, nat> := map[];
    for k := 0 to |ps|
      invariant m.Keys == at.Keys && m.Keys <= requested
      invariant forall d :: d in m ==>
                  && at[d] < k && m[d] == ps[at[d]] && m[d].draw == d && m[d].evidenced
                  && (forall j :: 0 <= j < k && ps[j].draw == d ==> j == at[d])
      invariant forall j :: 0 <= j < k && ps[j].draw in requested ==> ps[j].draw in m
    {
      var p := ps[k];
      if p.draw !in requested {
        continue;
      }
      if p.draw in m {
        assert ps[at[p.draw]].draw == p.draw && at[p.draw] != k;
        assert !Once(ps, p.draw);
        return None;
      }
      if !p.evidenced {
        assert !Once(ps, p.draw);
        return None;
      }
      m, at := m[p.draw := p], at[p.draw := k];
    }
    if !(requested <= m.Keys) {
      var d :| d in requested && d !in m;
      assert !Once(ps, d);
      return None;
    }
    forall d | d in requested
      ensures Once(ps, d)
    {
      assert ps[at[d]].draw == d;
    }
    return Some(m);
  }

  // ---------------------------------------------------------------------------
  // The request

  datatype Request = Request(begins: seq<nat>, draws: seq<seq<nat>>, passes: seq<seq<Key>>, submits: seq<nat>) {
    ghost predicate Parallel() {
      |begins| == |draws| == |passes| == |submits|
    }
  }

  /** The groups are strictly sorted by submit and recording begin, and sorted inside. */
  ghost predicate SortedRequest(q: Request)
    requires q.Parallel()
  {
    && (forall i, j :: 0 <= i < j < |q.begins| ==> KeyLess((q.submits[i], q.begins[i]), (q.submits[j], q.begins[j])))
    && (forall i :: 0 <= i < |q.begins| ==> Ascends(q.draws[i], NatLess) && Ascends(q.passes[i], KeyLess))
  }

  /** Every requested draw is in exactly one group. */
  ghost predicate PlacesOnce(q: Request, requested: set<nat>) {
    && (forall d :: d in requested <==> exists i :: 0 <= i < |q.draws| && d in q.draws[i])
    && (forall i, j, d :: 0 <= i < j < |q.draws| && d in q.draws[i] ==> d !in q.draws[j])
  }

  /** Each draw lies inside a listed scope of its recording, which lies before the submit,
      and the listed scopes do not overlap. */
  ghost predicate NestedGroup(begin: nat, draws: seq<nat>, passes: seq<Key>, submit: nat) {
    && (forall i :: 0 <= i < |draws| ==> Enclosed(begin, passes, draws[i], submit))
    && (forall a, b :: 0 <= a < b < |passes| ==> passes[a].1 < passes[b].0)
  }

  ghost predicate Enclosed(begin: nat, passes: seq<Key>, draw: nat, submit: nat) {
    exists k :: 0 <= k < |passes| && Encloses(begin, passes[k], draw, submit)
  }

  predicate Encloses(begin: nat, pass: Key, draw: nat, submit: nat) {
    begin < pass.0 < draw < pass.1 < submit
  }

  ghost predicate NestedRequest(q: Request)
    requires q.Parallel()
  {
    forall i :: 0 <= i < |q.begins| ==> NestedGroup(q.begins[i], q.draws[i], q.passes[i], q.submits[i])
  }

  // The groups, as filters of the sorted draws

  predicate Holds(m: map<nat, Placement>, order: seq<nat>) {
    forall i :: 0 <= i < |order| ==> order[i] in m
  }

  function DrawsIn(m: map<nat, Placement>, order: seq<nat>, key: Key): seq<nat>
    requires Holds(m, order)
  {
    if order == [] then []
    else
      var d := order[|order| - 1];
      DrawsIn(m, order[..|order| - 1], key) + if m[d].Group() == key then [d] else []
  }

  function PassesIn(m: map<nat, Placement>, draws: seq<nat>): set<Key> {
    set d | d in draws && d in m :: m[d].pass
  }

  lemma {:induction false} DrawsAscend(m: map<nat, Placement>, order: seq<nat>, key: Key)
    requires Holds(m, order) && Ascends(order, NatLess)
    ensures Ascends(DrawsIn(m, order, key), NatLess)
    ensures forall d :: d in DrawsIn(m, order, key) <==> d in order && m[d].Group() == key
  {
    if order != [] {
      var before := order[..|order| - 1];
      DrawsAscend(m, before, key);
      assert order == before + [order[|order| - 1]];
      var draws := DrawsIn(m, before, key);
      forall i | 0 <= i < |draws|
        ensures NatLess(draws[i], order[|order| - 1])
      {
        assert draws[i] in before;
      }
    }
  }

  lemma {:induction false} PassesSnoc(m: map<nat, Placement>, draws: seq<nat>, d: nat)
    requires d in m
    ensures PassesIn(m, draws + [d]) == PassesIn(m, draws) + {m[d].pass}
  {
  }

  lemma {:induction false} DrawsSnoc(m: map<nat, Placement>, order: seq<nat>, n: nat, key: Key)
    requires Holds(m, order) && n < |order|
    ensures Holds(m, order[..n]) && Holds(m, order[..n + 1])
    ensures DrawsIn(m, order[..n + 1], key)
         == DrawsIn(m, order[..n], key) + if m[order[n]].Group() == key then [order[n]] else []
  {
    assert order[..n + 1][..n] == order[..n];
  }

  datatype Group = Group(draws: seq<nat>, scopes: set<Key>)

  function GroupAt(groups: map<Key, Group>, key: Key): Group {
    if key in groups then groups[key] else Group([], {})
  }

  /** The second loop: groups.setdefault(key, ...) for every selected draw in order. */
  method MakeGroups(m: map<nat, Placement>, order: seq<nat>) returns (groups: map<Key, Group>)
    requires Holds(m, order)
    ensures forall key :: GroupAt(groups, key).draws == DrawsIn(m, order, key)
    ensures forall key :: GroupAt(groups, key).scopes == PassesIn(m, DrawsIn(m, order, key))
    ensures forall key :: key in groups ==> groups[key].draws != []
  {
    groups := map[];
    assert order[..|order|] == order;
    for n := 0 to |order|
      invariant Holds(m, order[..n])
      invariant forall key :: GroupAt(groups, key).draws == DrawsIn(m, order[..n], key)
      invariant forall key :: GroupAt(groups, key).scopes == PassesIn(m, DrawsIn(m, order[..n], key))
      invariant forall key :: key in groups ==> groups[key].draws != []
    {
      var d := order[n];
      var key := m[d].Group();
      var g := GroupAt(groups, key);
      PassesSnoc(m, g.draws, d);
      forall k
        ensures DrawsIn(m, order[..n + 1], k) == DrawsIn(m, order[..n], k) + if key == k then [d] else []
      {
        DrawsSnoc(m, order, n, k);
      }
      ghost var was := groups;
      groups := groups[key := Group(g.draws + [d], g.scopes + {m[d].pass})];
      forall k
        ensures GroupAt(groups, k).draws == DrawsIn(m, order[..n + 1], k)
        ensures GroupAt(groups, k).scopes == PassesIn(m, DrawsIn(m, order[..n + 1], k))
      {
        assert GroupAt(was, k).draws == DrawsIn(m, order[..n], k);
        assert DrawsIn(m, order[..n], k) + [] == DrawsIn(m, order[..n], k);
      }
    }
  }

  /** The placements that a request was made from: what its draws and scopes are. */
  ghost predicate MadeFrom(q: Request, m: map<nat, Placement>)
    requires q.Parallel()
  {
    && (forall i, d :: 0 <= i < |q.draws| ==>
          (d in q.draws[i] <==> d in m && m[d].Group() == (q.submits[i], q.begins[i])))
    && (forall i :: 0 <= i < |q.draws| ==> Elements(q.passes[i]) == PassesIn(m, q.draws[i]))
    && (forall d :: d in m ==> exists i :: 0 <= i < |q.begins| && (q.submits[i], q.begins[i]) == m[d].Group())
    && (forall i :: 0 <= i < |q.draws| ==> q.draws[i] != [])
  }

  lemma {:induction false} MadeFromPlacesOnce(q: Request, m: map<nat, Placement>)
    requires q.Parallel() && MadeFrom(q, m) && SortedRequest(q)
    ensures PlacesOnce(q, m.Keys)
  {
    forall i, j, d | 0 <= i < j < |q.draws| && d in q.draws[i]
      ensures d !in q.draws[j]
    {
      assert KeyLess((q.submits[i], q.begins[i]), (q.submits[j], q.begins[j]));
    }
    forall d | d in m
      ensures exists i :: 0 <= i < |q.draws| && d in q.draws[i]
    {
      var i :| 0 <= i < |q.begins| && (q.submits[i], q.begins[i]) == m[d].Group();
      assert d in q.draws[i];
    }
  }

  ghost predicate AllGood(m: map<nat, Placement>, rows: seq<Row>)
    requires Increasing(rows)
  {
    forall d :: d in m ==> m[d].draw == d && m[d].evidenced && Rooted(m[d], rows)
  }

  lemma {:induction false} DrawEnclosed(q: Request, m: map<nat, Placement>, rows: seq<Row>, i: nat, j: nat)
    requires Increasing(rows) && AllGood(m, rows)
    requires q.Parallel() && MadeFrom(q, m) && i < |q.begins| && j < |q.draws[i]|
    ensures Enclosed(q.begins[i], q.passes[i], q.draws[i][j], q.submits[i])
  {
    var d := q.draws[i][j];
    assert d in q.draws[i];
    RootedInOrder(m[d], m[d], rows);
    assert m[d].pass in Elements(q.passes[i]);
    var k :| 0 <= k < |q.passes[i]| && q.passes[i][k] == m[d].pass;
    assert Encloses(q.begins[i], q.passes[i][k], d, q.submits[i]);
  }

  lemma {:induction false} PassSource(q: Request, m: map<nat, Placement>, i: nat, a: nat) returns (x: nat)
    requires q.Parallel() && MadeFrom(q, m) && i < |q.begins| && a < |q.passes[i]|
    ensures x in m && m[x].pass == q.passes[i][a] && m[x].Group() == (q.submits[i], q.begins[i])
  {
    assert q.passes[i][a] in Elements(q.passes[i]);
    x :| x in q.draws[i] && x in m && m[x].pass == q.passes[i][a];
  }

  lemma {:induction false} PassesDisjoint(p: Placement, q: Placement, rows: seq<Row>)
    requires Increasing(rows) && Rooted(p, rows) && Rooted(q, rows)
    requires p.evidenced && q.evidenced && p.Group() == q.Group() && KeyLess(p.pass, q.pass)
    ensures p.pass.1 < q.pass.0
  {
    RootedInOrder(p, q, rows);
    RootedInOrder(q, p, rows);
  }

  lemma {:induction false} MadeFromNests(q: Request, m: map<nat, Placement>, rows: seq<Row>, i: nat)
    requires Increasing(rows) && AllGood(m, rows)
    requires q.Parallel() && MadeFrom(q, m) && SortedRequest(q) && i < |q.begins|
    ensures NestedGroup(q.begins[i], q.draws[i], q.passes[i], q.submits[i])
  {
    forall j | 0 <= j < |q.draws[i]|
      ensures Enclosed(q.begins[i], q.passes[i], q.draws[i][j], q.submits[i])
    {
      DrawEnclosed(q, m, rows, i, j);
    }
    forall a, b | 0 <= a < b < |q.passes[i]|
      ensures q.passes[i][a].1 < q.passes[i][b].0
    {
      var x := PassSource(q, m, i, a);
      var y := PassSource(q, m, i, b);
      assert Ascends(q.passes[i], KeyLess);
      PassesDisjoint(m[x], m[y], rows);
    }
  }

  lemma {:induction false} GroupExists(m: map<nat, Placement>, order: seq<nat>, groups: map<Key, Group>, d: nat)
    requires Ascends(order, NatLess) && Holds(m, order) && d in order && d in m
    requires GroupAt(groups, m[d].Group()).draws == DrawsIn(m, order, m[d].Group())
    ensures m[d].Group() in groups
  {
    DrawsAscend(m, order, m[d].Group());
  }

  /** The lists are those of the groups with the given keys. */
  ghost predicate ListsFor(q: Request, m: map<nat, Placement>, order: seq<nat>, keys: seq<Key>)
    requires Holds(m, order)
  {
    && q.Parallel() && |q.begins| == |keys|
    && (forall i :: 0 <= i < |keys| ==> (q.submits[i], q.begins[i]) == keys[i])
    && (forall i :: 0 <= i < |keys| ==> q.draws[i] == DrawsIn(m, order, keys[i]) != [])
    && (forall i :: 0 <= i < |keys| ==> Elements(q.passes[i]) == PassesIn(m, DrawsIn(m, order, keys[i])))
    && (forall i :: 0 <= i < |keys| ==> Ascends(q.passes[i], KeyLess))
  }

  lemma {:induction false} ListsForNext(q: Request, m: map<nat, Placement>, order: seq<nat>, keys: seq<Key>, key: Key,
                                        scopes: seq<(nat, nat)>)
    requires Holds(m, order) && ListsFor(q, m, order, keys)
    requires Elements(scopes) == PassesIn(m, DrawsIn(m, order, key)) && Ascends(scopes, KeyLess)
    requires DrawsIn(m, order, key) != []
    ensures ListsFor(Request(q.begins + [key.1], q.draws + [DrawsIn(m, order, key)], q.passes + [scopes],
                             q.submits + [key.0]), m, order, keys + [key])
  {
  }

  /** Every draw of the selection has its group. */
  lemma {:induction false} GroupsCover(m: map<nat, Placement>, order: seq<nat>, groups: map<Key, Group>)
    requires Elements(order) == m.Keys && Ascends(order, NatLess) && Holds(m, order)
    requires forall key :: GroupAt(groups, key).draws == DrawsIn(m, order, key)
    ensures forall d :: d in m ==> m[d].Group() in groups
  {
    forall d | d in m
      ensures m[d].Group() in groups
    {
      assert d in Elements(order);
      GroupExists(m, order, groups, d);
    }
  }

  /** The loop over the keys in order. */
  method ListGroups(m: map<nat, Placement>, order: seq<nat>, groups: map<Key, Group>, keys: seq<Key>)
    returns (q: Request)
    requires Holds(m, order) && Elements(keys) == groups.Keys
    requires forall key :: key in groups ==> groups[key].draws == DrawsIn(m, order, key) != []
    requires forall key :: key in groups ==> groups[key].scopes == PassesIn(m, DrawsIn(m, order, key))
    ensures ListsFor(q, m, order, keys)
  {
    q := Request([], [], [], []);
    for n := 0 to |keys|
      invariant ListsFor(q, m, order, keys[..n])
    {
      var key := keys[n];
      assert key in Elements(keys);
      var scopes := Sorted(groups[key].scopes, KeyLess);
      ListsForNext(q, m, order, keys[..n], key, scopes);
      assert keys[..n + 1] == keys[..n] + [key];
      q := Request(q.begins + [key.1], q.draws + [groups[key].draws], q.passes + [scopes], q.submits + [key.0]);
    }
    assert keys[..|keys|] == keys;
  }

  /** The parallel lists, from the groups in key order. */
  method MakeLists(m: map<nat, Placement>, order: seq<nat>) returns (q: Request)
    requires Elements(order) == m.Keys && Ascends(order, NatLess) && Holds(m, order)
    ensures q.Parallel() && SortedRequest(q) && MadeFrom(q, m)
  {
    var groups := MakeGroups(m, order);
    var keys := Sorted(groups.Keys, KeyLess);
    GroupsCover(m, order, groups);
    forall key | key in groups
      ensures groups[key].draws == DrawsIn(m, order, key) && groups[key].scopes == PassesIn(m, DrawsIn(m, order, key))
    {
      assert GroupAt(groups, key) == groups[key];
    }
    q := ListGroups(m, order, groups, keys);
    forall d | d in m
      ensures m[d].Group() in keys
    {
      assert m[d].Group() in Elements(keys);
    }
    ListsMadeFrom(q, m, order, keys);
  }

  lemma {:induction false} ListsMadeFrom(q: Request, m: map<nat, Placement>, order: seq<nat>, keys: seq<Key>)
    requires Elements(order) == m.Keys && Ascends(order, NatLess) && Holds(m, order)
    requires Ascends(keys, KeyLess) && forall d :: d in m ==> m[d].Group() in keys
    requires ListsFor(q, m, order, keys)
    ensures SortedRequest(q) && MadeFrom(q, m)
  {
    forall i | 0 <= i < |keys|
      ensures Ascends(q.draws[i], NatLess)
      ensures forall d :: d in q.draws[i] <==> d in m && m[d].Group() == (q.submits[i], q.begins[i])
    {
      DrawsAscend(m, order, keys[i]);
      assert forall d :: d in m <==> d in order by {
        assert forall d :: d in m <==> d in Elements(order);
      }
    }
    forall d | d in m
      ensures exists i :: 0 <= i < |q.begins| && (q.submits[i], q.begins[i]) == m[d].Group()
    {
      var i :| 0 <= i < |keys| && keys[i] == m[d].Group();
      assert (q.submits[i], q.begins[i]) == m[d].Group();
    }
  }

  // ---------------------------------------------------------------------------
  // Executions, by their places in the reports

  /** A place in the reports: of a report, of a scope in it, and of a draw in that. */
  datatype Spot = Spot(report: nat, scope: nat, draw: nat)

  predicate SpotLess(a: Spot, b: Spot) {
    || a.report < b.report
    || (a.report == b.report && (a.scope < b.scope || (a.scope == b.scope && a.draw < b.draw)))
  }

  /** There is a draw at the spot, in a submission that was asked for. */
  predicate IsSpot(reports: seq<BatchReport>, submit: Option<nat>, x: Spot) {
    && x.report < |reports| && (submit.None? || reports[x.report].submit == submit)
    && x.scope < |reports[x.report].renderings|
    && x.draw < |reports[x.report].renderings[x.scope].draws|
  }

  function ScopeOf(reports: seq<BatchReport>, submit: Option<nat>, x: Spot): Scope
    requires IsSpot(reports, submit, x)
  {
    reports[x.report].renderings[x.scope]
  }

  /** The draw d is executed at the spot. */
  predicate Executes(reports: seq<BatchReport>, submit: Option<nat>, x: Spot, d: nat) {
    IsSpot(reports, submit, x) && ScopeOf(reports, submit, x).draws[x.draw].index == d
  }

  /** The batch was seen whole, and the scope has an end. */
  predicate SeenWhole(reports: seq<BatchReport>, submit: Option<nat>, x: Spot)
    requires IsSpot(reports, submit, x)
  {
    reports[x.report].uncovered == [] && ScopeOf(reports, submit, x).end.Some?
  }

  /** The draw is executed at one spot only, which was seen whole. */
  ghost predicate ExecutedOnce(reports: seq<BatchReport>, submit: Option<nat>, d: nat) {
    exists x: Spot :: Executes(reports, submit, x, d) && SeenWhole(reports, submit, x) &&
                      forall y: Spot | Executes(reports, submit, y, d) :: y == x
  }

  function ScopeSpots(i: nat, j: nat, n: nat): (r: seq<Spot>)
    ensures |r| == n && forall k | 0 <= k < n :: r[k] == Spot(i, j, k)
  {
    seq(n, k requires 0 <= k < n => Spot(i, j, k))
  }

  predicate SpotsRise(spots: seq<Spot>) { forall a, b | 0 <= a < b < |spots| :: SpotLess(spots[a], spots[b]) }

  function ReportSpots(r: BatchReport, i: nat, n: nat): (spots: seq<Spot>)
    requires n <= |r.renderings|
    ensures SpotsRise(spots)
    ensures forall a | 0 <= a < |spots| ::
              spots[a].report == i && spots[a].scope < n && spots[a].draw < |r.renderings[spots[a].scope].draws|
    ensures forall j: nat, k: nat | j < n && k < |r.renderings[j].draws| :: Spot(i, j, k) in spots
  {
    if n == 0 then []
    else
      var before, last := ReportSpots(r, i, n - 1), ScopeSpots(i, n - 1, |r.renderings[n - 1].draws|);
      assert forall j: nat, k: nat | j < n && k < |r.renderings[j].draws| :: Spot(i, j, k) in before + last by {
        forall j: nat, k: nat | j < n && k < |r.renderings[j].draws|
          ensures Spot(i, j, k) in before + last
        {
          if j == n - 1 { assert (before + last)[|before| + k] == Spot(i, j, k); }
        }
      }
      before + last
  }

  lemma {:induction false} ReportSpotsMatch(r: BatchReport, i: nat, n: nat)
    requires n <= |r.renderings|
    ensures |ReportSpots(r, i, n)| == |ReportPlacements(r, n)|
    ensures forall a | 0 <= a < |ReportSpots(r, i, n)| ::
              var x := ReportSpots(r, i, n)[a];
              ReportPlacements(r, n)[a] == Place(r, r.renderings[x.scope], r.renderings[x.scope].draws[x.draw])
  {
    if n > 0 { ReportSpotsMatch(r, i, n - 1); }
  }

  /** Every spot, in the order in which the loops come to it. */
  function Spots(reports: seq<BatchReport>, submit: Option<nat>, n: nat): (spots: seq<Spot>)
    requires n <= |reports|
    ensures SpotsRise(spots)
    ensures forall a | 0 <= a < |spots| :: spots[a].report < n && IsSpot(reports, submit, spots[a])
    ensures forall x: Spot | x.report < n && IsSpot(reports, submit, x) :: x in spots
  {
    if n == 0 then []
    else
      var r := reports[n - 1];
      Spots(reports, submit, n - 1)
      + if submit.None? || r.submit == submit then ReportSpots(r, n - 1, |r.renderings|) else []
  }

  /** The execution that a spot stands for. */
  ghost predicate StandsFor(reports: seq<BatchReport>, submit: Option<nat>, x: Spot, p: Placement) {
    && IsSpot(reports, submit, x)
    && var r, scope := reports[x.report], ScopeOf(reports, submit, x);
       p == Place(r, scope, scope.draws[x.draw])
  }

  ghost predicate AllStandFor(reports: seq<BatchReport>, submit: Option<nat>, spots: seq<Spot>, ps: seq<Placement>) {
    |spots| == |ps| && forall a | 0 <= a < |spots| :: StandsFor(reports, submit, spots[a], ps[a])
  }

  lemma {:induction false} BothStandFor(reports: seq<BatchReport>, submit: Option<nat>, s: seq<Spot>, ps: seq<Placement>,
                                        t: seq<Spot>, qs: seq<Placement>)
    requires AllStandFor(reports, submit, s, ps) && AllStandFor(reports, submit, t, qs)
    ensures AllStandFor(reports, submit, s + t, ps + qs)
  {
  }

  lemma {:induction false} SpotsMatch(reports: seq<BatchReport>, submit: Option<nat>, n: nat)
    requires n <= |reports|
    ensures AllStandFor(reports, submit, Spots(reports, submit, n), Placements(reports[..n], submit))
  {
    if n > 0 {
      SpotsMatch(reports, submit, n - 1);
      assert reports[..n][..n - 1] == reports[..n - 1];
      var r := reports[n - 1];
      ReportSpotsMatch(r, n - 1, |r.renderings|);
      if Chosen(r, submit) {
        BothStandFor(reports, submit, Spots(reports, submit, n - 1), Placements(reports[..n - 1], submit),
                     ReportSpots(r, n - 1, |r.renderings|), ReportPlacements(r, |r.renderings|));
      }
    }
  }

  lemma {:induction false} AllSpots(reports: seq<BatchReport>, submit: Option<nat>)
    ensures AllStandFor(reports, submit, Spots(reports, submit, |reports|), Placements(reports, submit))
  {
    SpotsMatch(reports, submit, |reports|);
    assert reports[..|reports|] == reports;
  }

  lemma {:induction false} SpotsDiffer(spots: seq<Spot>)
    requires SpotsRise(spots)
    ensures forall a, b | 0 <= a < |spots| && 0 <= b < |spots| && spots[a] == spots[b] :: a == b
  {
    assert forall a, b | 0 <= a < b < |spots| :: spots[a] != spots[b];
  }

  lemma {:induction false} PlacementSpot(reports: seq<BatchReport>, submit: Option<nat>, p: Placement) returns (x: Spot)
    requires p in Placements(reports, submit)
    ensures StandsFor(reports, submit, x, p)
  {
    var spots, ps := Spots(reports, submit, |reports|), Placements(reports, submit);
    AllSpots(reports, submit);
    var a :| 0 <= a < |ps| && ps[a] == p;
    x := spots[a];
  }

  /** What is executed at a spot is the placement that stands for it. */
  lemma {:induction false} SpotIsPlaced(reports: seq<BatchReport>, submit: Option<nat>, y: Spot, d: nat) returns (b: nat)
    requires Executes(reports, submit, y, d)
    ensures b < |Spots(reports, submit, |reports|)| == |Placements(reports, submit)|
    ensures Spots(reports, submit, |reports|)[b] == y && Placements(reports, submit)[b].draw == d
  {
    var spots := Spots(reports, submit, |reports|);
    AllSpots(reports, submit);
    b :| 0 <= b < |spots| && spots[b] == y;
    assert StandsFor(reports, submit, spots[b], Placements(reports, submit)[b]);
  }

  /** Position a is the only one at which the draw is placed. */
  ghost predicate OnlyAt(ps: seq<Placement>, d: nat, a: nat) {
    && a < |ps| && ps[a].draw == d && ps[a].evidenced
    && forall b :: 0 <= b < |ps| && ps[b].draw == d ==> b == a
  }

  lemma {:induction false} OnlyPlaced(reports: seq<BatchReport>, submit: Option<nat>, d: nat, a: nat)
    requires OnlyAt(Placements(reports, submit), d, a)
    ensures ExecutedOnce(reports, submit, d)
  {
    AllSpots(reports, submit);
    var x := Spots(reports, submit, |reports|)[a];
    assert StandsFor(reports, submit, x, Placements(reports, submit)[a]);
    assert Executes(reports, submit, x, d) && SeenWhole(reports, submit, x);
    forall y: Spot | Executes(reports, submit, y, d)
      ensures y == x
    {
      var b := SpotIsPlaced(reports, submit, y, d);
    }
  }

  lemma {:induction false} PlacedOnceIsExecuted(reports: seq<BatchReport>, submit: Option<nat>, d: nat)
    requires Once(Placements(reports, submit), d)
    ensures ExecutedOnce(reports, submit, d)
  {
    var ps := Placements(reports, submit);
    var a :| 0 <= a < |ps| && ps[a].draw == d && ps[a].evidenced && forall b :: 0 <= b < |ps| && ps[b].draw == d ==> b == a;
    OnlyPlaced(reports, submit, d, a);
  }

  lemma {:induction false} ExecutedOnceIsPlaced(reports: seq<BatchReport>, submit: Option<nat>, d: nat)
    requires ExecutedOnce(reports, submit, d)
    ensures Once(Placements(reports, submit), d)
  {
    var spots, ps := Spots(reports, submit, |reports|), Placements(reports, submit);
    AllSpots(reports, submit);
    var x: Spot :| Executes(reports, submit, x, d) && SeenWhole(reports, submit, x) &&
                   forall y: Spot | Executes(reports, submit, y, d) :: y == x;
    var a :| 0 <= a < |spots| && spots[a] == x;
    assert StandsFor(reports, submit, spots[a], ps[a]);
    SpotsDiffer(spots);
    forall b | 0 <= b < |ps| && ps[b].draw == d
      ensures b == a
    {
      assert StandsFor(reports, submit, spots[b], ps[b]);
      assert Executes(reports, submit, spots[b], d);
    }
  }

  /** The loops meet a draw once, with evidence, exactly if it is executed at one spot, seen whole. */
  lemma {:induction false} OnceIff(reports: seq<BatchReport>, submit: Option<nat>, d: nat)
    ensures Once(Placements(reports, submit), d) <==> ExecutedOnce(reports, submit, d)
  {
    if Once(Placements(reports, submit), d) { PlacedOnceIsExecuted(reports, submit, d); }
    if ExecutedOnce(reports, submit, d) { ExecutedOnceIsPlaced(reports, submit, d); }
  }

  /** begin is that of the first listed recording of a buffer. */
  ghost predicate FirstRecording(refs: seq<RecordingRef>, buffer: Handle, begin: nat) {
    exists k | 0 <= k < |refs| ::
      refs[k].buffer == buffer && refs[k].begin == begin && forall j | 0 <= j < k :: refs[j].buffer != buffer
  }

  lemma {:induction false} BeginOfIsFirst(refs: seq<RecordingRef>, buffer: Handle)
    requires Listed(refs, buffer)
    ensures FirstRecording(refs, buffer, BeginOf(refs, buffer))
  {
    if refs[0].buffer != buffer {
      var rest := refs[1..];
      assert forall j | 0 <= j < |rest| :: rest[j] == refs[j + 1];
      var k :| 0 <= k < |refs| && refs[k].buffer == buffer;
      assert rest[k - 1].buffer == buffer;
      BeginOfIsFirst(rest, buffer);
      var m :| 0 <= m < |rest| && rest[m].buffer == buffer && rest[m].begin == BeginOf(rest, buffer) &&
               forall j | 0 <= j < m :: rest[j].buffer != buffer;
      assert refs[m + 1].buffer == buffer && refs[m + 1].begin == BeginOf(refs, buffer);
      forall j | 0 <= j < m + 1
        ensures refs[j].buffer != buffer
      {
        if j > 0 { assert rest[j - 1].buffer != buffer; }
      }
    }
  }

  lemma {:induction false} FirstRecordingIsOne(refs: seq<RecordingRef>, buffer: Handle, a: nat, b: nat)
    requires FirstRecording(refs, buffer, a) && FirstRecording(refs, buffer, b)
    ensures a == b
  {
  }

  /** The buffer of a reported scope is among the recordings of the report. */
  lemma {:induction false} ScopeIsListed(r: BatchReport, t: Tracker, registry: Registry, j: nat)
    requires Sound(r, t, registry) && j < |r.renderings|
    ensures Listed(r.recordings, r.renderings[j].buffer)
  {
    var handles :| r == BatchSpec(r.submit, Lookups(t, handles), registry);
    var batch := Lookups(t, handles);
    ScopesAreLocal(batch);
    var m, k := ScopeOrigin(batch, j);
    RefersTo(batch, m);
  }

  /** The spot belongs to a submit and to the recording with a begin. */
  ghost predicate InGroup(reports: seq<BatchReport>, submit: Option<nat>, x: Spot, submitted: nat, begin: nat)
    requires IsSpot(reports, submit, x)
  {
    && reports[x.report].submit == Some(submitted)
    && FirstRecording(reports[x.report].recordings, ScopeOf(reports, submit, x).buffer, begin)
  }

  lemma {:induction false} SpotInGroup(reports: seq<BatchReport>, submit: Option<nat>, x: Spot, p: Placement,
                                       rows: seq<Row>, registry: Registry, key: Key)
    requires Increasing(rows) && AllSoundIn(reports, rows, registry) && StandsFor(reports, submit, x, p)
    ensures p.Group() == key <==> InGroup(reports, submit, x, key.0, key.1)
  {
    var r := reports[x.report];
    assert SoundIn(r, rows, registry);
    ScopeIsListed(r, TrackerBefore(rows, r.submit.value), registry, x.scope);
    var buffer := ScopeOf(reports, submit, x).buffer;
    BeginOfIsFirst(r.recordings, buffer);
    if FirstRecording(r.recordings, buffer, key.1) {
      FirstRecordingIsOne(r.recordings, buffer, key.1, BeginOf(r.recordings, buffer));
    }
  }

  /** m holds for every requested draw an evidenced execution of it in the chosen submissions. */
  ghost predicate Picked(m: map<nat, Placement>, reports: seq<BatchReport>, submit: Option<nat>, requested: set<nat>) {
    && m.Keys == requested
    && forall d <- m :: m[d] in Placements(reports, submit) && m[d].draw == d && m[d].evidenced
  }

  /** The request lists the executions that were chosen, and nothing else. */
  ghost predicate ListsPicked(q: Request, reports: seq<BatchReport>, submit: Option<nat>, requested: set<nat>) {
    q.Parallel() && exists m :: Picked(m, reports, submit, requested) && MadeFrom(q, m)
  }

  /** The draw is executed for a submit, in the recording with a begin. */
  ghost predicate ExecutedFor(reports: seq<BatchReport>, submit: Option<nat>, d: nat, submitted: nat, begin: nat) {
    exists x: Spot :: Executes(reports, submit, x, d) && InGroup(reports, submit, x, submitted, begin)
  }

  /** One of the draws is executed in the scope with a begin and an end. */
  ghost predicate ExecutedIn(reports: seq<BatchReport>, submit: Option<nat>, draws: seq<nat>, pass: Key) {
    exists d: nat, x: Spot ::
      && d in draws && Executes(reports, submit, x, d)
      && pass.0 == ScopeOf(reports, submit, x).begin && ScopeOf(reports, submit, x).end == Some(pass.1)
  }

  ghost predicate DrawsExecuted(q: Request, reports: seq<BatchReport>, submit: Option<nat>, requested: set<nat>)
    requires q.Parallel()
  {
    forall g, d: nat | 0 <= g < |q.draws| ::
      d in q.draws[g] <==> d in requested && ExecutedFor(reports, submit, d, q.submits[g], q.begins[g])
  }

  ghost predicate PassesExecuted(q: Request, reports: seq<BatchReport>, submit: Option<nat>)
    requires q.Parallel()
  {
    forall g, pass: Key | 0 <= g < |q.passes| ::
      pass in q.passes[g] <==> ExecutedIn(reports, submit, q.draws[g], pass)
  }

  /** The groups hold the requested draws by submit and recording, and the scopes they are executed in. */
  ghost predicate ListsExecutions(q: Request, reports: seq<BatchReport>, submit: Option<nat>, requested: set<nat>) {
    && q.Parallel() && DrawsExecuted(q, reports, submit, requested) && PassesExecuted(q, reports, submit)
    && (forall g | 0 <= g < |q.draws| :: q.draws[g] != [])
  }

  /** Each picked execution is the one spot of its draw. */
  ghost predicate SpotFor(reports: seq<BatchReport>, submit: Option<nat>, m: map<nat, Placement>, d: nat, x: Spot)
    requires d in m
  {
    && StandsFor(reports, submit, x, m[d]) && Executes(reports, submit, x, d) && SeenWhole(reports, submit, x)
    && forall y: Spot | Executes(reports, submit, y, d) :: y == x
  }

  lemma {:induction false} PickedSpot(reports: seq<BatchReport>, submit: Option<nat>, requested: set<nat>,
                                      m: map<nat, Placement>, d: nat) returns (x: Spot)
    requires Picked(m, reports, submit, requested) && d in m && ExecutedOnce(reports, submit, d)
    ensures SpotFor(reports, submit, m, d, x)
  {
    x := PlacementSpot(reports, submit, m[d]);
    OnlySpot(reports, submit, d, x);
  }

  lemma {:induction false} OnlySpot(reports: seq<BatchReport>, submit: Option<nat>, d: nat, x: Spot)
    requires ExecutedOnce(reports, submit, d) && Executes(reports, submit, x, d)
    ensures SeenWhole(reports, submit, x) && forall y: Spot | Executes(reports, submit, y, d) :: y == x
  {
  }

  lemma {:induction false} DrawsListed(q: Request, reports: seq<BatchReport>, submit: Option<nat>, requested: set<nat>,
                                       m: map<nat, Placement>, rows: seq<Row>, registry: Registry, g: nat, d: nat)
    requires Increasing(rows) && AllSoundIn(reports, rows, registry)
    requires q.Parallel() && Picked(m, reports, submit, requested) && MadeFrom(q, m) && g < |q.draws|
    requires forall c <- requested :: ExecutedOnce(reports, submit, c)
    ensures d in q.draws[g] <==> d in requested && ExecutedFor(reports, submit, d, q.submits[g], q.begins[g])
  {
    if d in requested {
      var x := PickedSpot(reports, submit, requested, m, d);
      SpotInGroup(reports, submit, x, m[d], rows, registry, (q.submits[g], q.begins[g]));
    }
  }

  lemma {:induction false} PassIn(q: Request, m: map<nat, Placement>, g: nat, pass: Key)
    requires q.Parallel() && MadeFrom(q, m) && g < |q.passes|
    ensures pass in q.passes[g] <==> exists d :: d in q.draws[g] && d in m && m[d].pass == pass
  {
    assert pass in Elements(q.passes[g]) <==> pass in q.passes[g];
  }

  lemma {:induction false} PassesListed(q: Request, reports: seq<BatchReport>, submit: Option<nat>, requested: set<nat>,
                                        m: map<nat, Placement>, g: nat, pass: Key)
    requires q.Parallel() && Picked(m, reports, submit, requested) && MadeFrom(q, m) && g < |q.passes|
    requires forall c <- requested :: ExecutedOnce(reports, submit, c)
    ensures pass in q.passes[g] <==> ExecutedIn(reports, submit, q.draws[g], pass)
  {
    PassIn(q, m, g, pass);
    if pass in q.passes[g] {
      var d :| d in q.draws[g] && d in m && m[d].pass == pass;
      var x := PickedSpot(reports, submit, requested, m, d);
    }
    if d: nat, x: Spot :| d in q.draws[g] && Executes(reports, submit, x, d) &&
                          pass.0 == ScopeOf(reports, submit, x).begin &&
                          ScopeOf(reports, submit, x).end == Some(pass.1) {
      var y := PickedSpot(reports, submit, requested, m, d);
      assert x == y && m[d].pass == pass;
    }
  }

  lemma {:induction false} AllDrawsListed(q: Request, reports: seq<BatchReport>, submit: Option<nat>, requested: set<nat>,
                                          m: map<nat, Placement>, rows: seq<Row>, registry: Registry)
    requires Increasing(rows) && AllSoundIn(reports, rows, registry)
    requires q.Parallel() && Picked(m, reports, submit, requested) && MadeFrom(q, m)
    requires forall c <- requested :: ExecutedOnce(reports, submit, c)
    ensures DrawsExecuted(q, reports, submit, requested)
  {
    forall g, d: nat | 0 <= g < |q.draws|
      ensures d in q.draws[g] <==> d in requested && ExecutedFor(reports, submit, d, q.submits[g], q.begins[g])
    {
      DrawsListed(q, reports, submit, requested, m, rows, registry, g, d);
    }
  }

  lemma {:induction false} AllPassesListed(q: Request, reports: seq<BatchReport>, submit: Option<nat>,
                                           requested: set<nat>, m: map<nat, Placement>)
    requires q.Parallel() && Picked(m, reports, submit, requested) && MadeFrom(q, m)
    requires forall c <- requested :: ExecutedOnce(reports, submit, c)
    ensures PassesExecuted(q, reports, submit)
  {
    forall g, pass: Key | 0 <= g < |q.passes|
      ensures pass in q.passes[g] <==> ExecutedIn(reports, submit, q.draws[g], pass)
    {
      PassesListed(q, reports, submit, requested, m, g, pass);
    }
  }

  /** A request comes out exactly when every requested draw has one evidenced execution in
      the chosen submissions, and it lists those executions. */
  method MakeRequest(reports: seq<BatchReport>, requested: set<nat>, submit: Option<nat>,
                     ghost rows: seq<Row>, ghost registry: Registry)
    returns (q: Option<Request>)
    requires Increasing(rows) && AllSoundIn(reports, rows, registry)
    ensures q.Some? <==> forall d <- requested :: ExecutedOnce(reports, submit, d)
    ensures q.Some? ==> q.value.Parallel() && SortedRequest(q.value)
    ensures q.Some? ==> PlacesOnce(q.value, requested)
    ensures q.Some? ==> NestedRequest(q.value)
    ensures q.Some? ==> ListsPicked(q.value, reports, submit, requested)
    ensures q.Some? ==> ListsExecutions(q.value, reports, submit, requested)
  {
    var ps := Placements(reports, submit);
    var selected := Select(ps, requested);
    forall d: nat {
      OnceIff(reports, submit, d);
    }
    if selected.None? {
      return None;
    }
    var m := selected.value;
    var order := Sorted(m.Keys, NatLess);
    assert forall i :: 0 <= i < |order| ==> order[i] in Elements(order);
    var request := MakeLists(m, order);
    PlacementsRooted(reports, submit, rows, registry);
    assert AllGood(m, rows);
    MadeFromPlacesOnce(request, m);
    assert Picked(m, reports, submit, requested);
    AllDrawsListed(request, reports, submit, requested, m, rows, registry);
    AllPassesListed(request, reports, submit, requested, m);
    forall i | 0 <= i < |request.begins|
      ensures NestedGroup(request.begins[i], request.draws[i], request.passes[i], request.submits[i])
    {
      MadeFromNests(request, m, rows, i);
    }
    return Some(request);
  }
}
