/**
 Scopes never cross recordings: the scopes reported for a batch are the scopes of its
 recordings, one recording after the other.  With call indices that increase inside a
 recording this orders every reported scope and its draws.
 */
module RenderingLocality {
  import opened Options
  import opened RenderingStream
  import opened RenderingBatch
  import opened RenderingLanguage

  // ---------------------------------------------------------------------------
  // Locality

  function Shift(active: Option<nat>, n: nat): Option<nat> {
    if active.Some? then Some(active.value + n) else None
  }

  /** v is w with earlier scopes in front. */
  ghost predicate Behind(v: Scan, w: Scan, front: seq<Scope>) {
    && v.Valid() && w.Valid()
    && v.renderings == front + w.renderings
    && v.active == Shift(w.active, |front|)
    && v.bindings == w.bindings
  }

  lemma {:induction false} BehindAdvances(v: Scan, w: Scan, front: seq<Scope>, e: Event, registry: Registry)
    requires Behind(v, w, front)
    ensures Behind(Advance(v, e, registry), Advance(w, e, registry), front)
  {
  }

  lemma {:induction false} BehindRuns(s: Stream, r: Stream, n: nat, registry: Registry)
    requires 0 < n <= |r| && r[0].Open? && Run(s, registry).active.None?
    ensures Behind(Run(s + r[..n], registry), Run(r[..n], registry), Run(s, registry).renderings)
  {
    PrefixSnoc(r, n);
    PrefixParts(s, r, n);
    RunSnoc(r[..n - 1], r[n - 1], registry);
    RunSnoc(s + r[..n - 1], r[n - 1], registry);
    if n == 1 {
      OpenBehind(Run(s, registry), r[0], registry);
    } else {
      BehindRuns(s, r, n - 1, registry);
      BehindAdvances(Run(s + r[..n - 1], registry), Run(r[..n - 1], registry), Run(s, registry).renderings,
                     r[n - 1], registry);
    }
  }

  lemma {:induction false} OpenBehind(v: Scan, e: Event, registry: Registry)
    requires v.Valid() && v.active.None? && e.Open?
    ensures Behind(Advance(v, e, registry), Advance(START, e, registry), v.renderings)
  {
  }

  /** The scopes of each recording, one recording after the other. */
  function ScopesByRecording(batch: Batch): seq<Scope> {
    if batch == [] then []
    else
      var (handle, recording) := batch[|batch| - 1];
      ScopesByRecording(batch[..|batch| - 1]) + Scopes(RecordingStream(handle, recording))
  }

  lemma {:induction false} MissingAddsNoScope(s: Stream, handle: Handle)
    requires ActiveScope(s).None?
    ensures Scopes(s + [Missing(handle)]) == Scopes(s)
    ensures Scopes([Missing(handle)]) == []
  {
    ScopesSnoc(s, Missing(handle));
    ScopesSnoc([], Missing(handle));
    assert [] + [Missing(handle)] == [Missing(handle)];
  }

  lemma {:induction false} RecordingAppendsItsScopes(s: Stream, handle: Handle, recording: Option<Recording>)
    requires ActiveScope(s).None? && Complete(recording)
    ensures Scopes(s + RecordingStream(handle, recording)) == Scopes(s) + Scopes(RecordingStream(handle, recording))
  {
    var r := RecordingStream(handle, recording);
    RunReferences(s, map[]);
    assert r[..|r|] == r;
    BehindRuns(s, r, |r|, map[]);
    RunReferences(s + r, map[]);
    RunReferences(r, map[]);
  }

  lemma {:induction false} ScopesAreLocal(batch: Batch)
    ensures Scopes(BatchStream(batch)) == ScopesByRecording(batch)
  {
    if batch != [] {
      var before := batch[..|batch| - 1];
      var (handle, recording) := batch[|batch| - 1];
      ScopesAreLocal(before);
      BatchEndsClosed(before, map[]);
      if Complete(recording) {
        RecordingAppendsItsScopes(BatchStream(before), handle, recording);
      } else {
        MissingAddsNoScope(BatchStream(before), handle);
      }
    }
  }

  // ---------------------------------------------------------------------------
  // Order inside a recording

  /** Call indices increase: first the begin of the recording, then its commands. */
  ghost predicate Ascending(r: Recording, limit: int) {
    && r.begin < limit
    && (forall i :: 0 <= i < |r.commands| ==> r.begin < r.commands[i].index < limit)
    && (forall i, j :: 0 <= i < j < |r.commands| ==> r.commands[i].index < r.commands[j].index)
    && (r.end.Some? ==> r.begin < r.end.value < limit)
  }

  /** The draws lie between the begin and the end of their scope. */
  ghost predicate ScopeInOrder(scope: Scope, low: nat, high: int) {
    && low < scope.begin < high
    && (scope.end.Some? ==> scope.begin < scope.end.value < high)
    && forall d :: d in scope.draws ==>
         scope.begin < d.index < high && (scope.end.Some? ==> d.index < scope.end.value)
  }

  /** No two ended scopes overlap. */
  ghost predicate ScopesInOrder(scopes: seq<Scope>, low: nat, high: int) {
    && (forall i :: 0 <= i < |scopes| ==> ScopeInOrder(scopes[i], low, high))
    && (forall i, j :: 0 <= i < j < |scopes| && scopes[i].end.Some? ==> scopes[i].end.value < scopes[j].begin)
  }

  /** The events of a recording in order of their call indices. */
  ghost predicate IssuesAscend(s: Stream, low: nat, high: int) {
    && (forall p :: 0 <= p < |s| && s[p].Issue? ==> low < s[p].command.index < high)
    && (forall p, q :: 0 <= p < q < |s| && s[p].Issue? && s[q].Issue? ==> s[p].command.index < s[q].command.index)
  }

  lemma {:induction false} RecordingAscends(handle: Handle, r: Recording, limit: int)
    requires Ascending(r, limit) && r.end.Some?
    ensures IssuesAscend(RecordingStream(handle, Some(r)), r.begin, limit)
  {
    var s := RecordingStream(handle, Some(r));
    forall p | 0 <= p < |s| && s[p].Issue?
      ensures 1 <= p <= |r.commands| && s[p].command == r.commands[p - 1]
    {
    }
  }

  lemma {:induction false} DrawsInOrder(s: Stream, low: nat, high: int, lo: nat, hi: nat, d: DrawRecord)
    requires lo <= hi <= |s| && IssuesAscend(s, low, high)
    requires d in DrawRecords(s, lo, hi)
    ensures exists p :: lo <= p < hi && IsDraw(s[p]) && s[p].command.index == d.index
    decreases hi
  {
    if d in DrawRecords(s, lo, hi - 1) {
      DrawsInOrder(s, low, high, lo, hi - 1, d);
    } else {
      assert IsDraw(s[hi - 1]) && s[hi - 1].command.index == d.index;
    }
  }

  lemma {:induction false} ScopeAtInOrder(s: Stream, low: nat, high: int, j: nat)
    requires IssuesAscend(s, low, high) && j < |s| && IsBegin(s[j])
    ensures ScopeInOrder(ScopeAt(s, j), low, high)
  {
    var b := Boundary(s, j + 1);
    forall d | d in ScopeAt(s, j).draws
      ensures s[j].command.index < d.index < high && (b < |s| && IsEnd(s[b]) ==> d.index < s[b].command.index)
    {
      DrawsInOrder(s, low, high, j + 1, b, d);
    }
  }

  /** The scope of an earlier begin ends before a later begin. */
  lemma {:induction false} EndsBefore(s: Stream, low: nat, high: int, j: nat, k: nat)
    requires IssuesAscend(s, low, high) && j < k < |s| && IsBegin(s[j]) && IsBegin(s[k])
    ensures ScopeAt(s, j).end.Some? ==> ScopeAt(s, j).end.value < ScopeAt(s, k).begin
  {
    BoundaryIsFirst(s, j + 1, k);
  }

  lemma {:induction false} BegunInOrder(s: Stream, low: nat, high: int, n: nat)
    requires IssuesAscend(s, low, high) && n <= |s|
    ensures ScopesInOrder(ScopesBegun(s, n), low, high)
    ensures forall i, k ::
              0 <= i < |ScopesBegun(s, n)| && ScopesBegun(s, n)[i].end.Some? && n <= k < |s| && IsBegin(s[k])
              ==> ScopesBegun(s, n)[i].end.value < ScopeAt(s, k).begin
  {
    if n > 0 {
      BegunInOrder(s, low, high, n - 1);
      if IsBegin(s[n - 1]) {
        ScopeAtInOrder(s, low, high, n - 1);
        forall k | n <= k < |s| && IsBegin(s[k])
          ensures ScopeAt(s, n - 1).end.Some? ==> ScopeAt(s, n - 1).end.value < ScopeAt(s, k).begin
        {
          EndsBefore(s, low, high, n - 1, k);
        }
      }
    }
  }

  lemma {:induction false} RecordingScopesInOrder(handle: Handle, r: Recording, limit: int)
    requires Ascending(r, limit) && r.end.Some?
    ensures ScopesInOrder(Scopes(RecordingStream(handle, Some(r))), r.begin, limit)
  {
    var s := RecordingStream(handle, Some(r));
    RecordingAscends(handle, r, limit);
    BegunInOrder(s, r.begin, limit, |s|);
  }

  lemma {:induction false} ScopesHaveOwner(handle: Handle, r: Recording, n: nat)
    requires r.end.Some? && n <= |RecordingStream(handle, Some(r))|
    ensures forall scope :: scope in ScopesBegun(RecordingStream(handle, Some(r)), n) ==> scope.buffer == handle
  {
    if n > 0 {
      ScopesHaveOwner(handle, r, n - 1);
    }
  }
}
