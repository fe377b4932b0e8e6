/**
 inspect_batch of tools/inspect-rendering-capture.py: one pass over a submitted batch
 with a handful of running variables, proved to report exactly what module
 RenderingStream says of the whole stream.
 */
module RenderingBatch {
  import opened Options
  import opened RenderingStream
  import opened RenderingFindings

  // ---------------------------------------------------------------------------
  // How each question about a prefix changes when one event is appended

  lemma {:induction false} BoundarySnoc(s: Stream, e: Event, k: nat)
    requires k <= |s|
    ensures Boundary(s + [e], k)
         == if Boundary(s, k) < |s| || IsBoundary(e) then Boundary(s, k) else |s| + 1
    decreases |s| - k
  {
    if k < |s| && !IsBoundary(s[k]) {
      BoundarySnoc(s, e, k + 1);
    } else if k == |s| {
      assert (s + [e])[k] == e;
    }
  }

  lemma {:induction false} LastBeginSnoc(s: Stream, e: Event)
    ensures LastBegin(s + [e]) == if IsBegin(e) then Some(|s|) else LastBegin(s)
  {
    assert (s + [e])[..|s|] == s;
  }

  lemma {:induction false} ActiveSnoc(s: Stream, e: Event)
    ensures ActiveScope(s + [e])
         == if IsBegin(e) then Some(|s|) else if IsBoundary(e) then None else ActiveScope(s)
  {
    LastBeginSnoc(s, e);
    if !IsBegin(e) && LastBegin(s).Some? {
      BoundarySnoc(s, e, LastBegin(s).value + 1);
    }
  }

  lemma {:induction false} SuspendedSnoc(s: Stream, e: Event)
    ensures SuspendedScope(s + [e])
         == if IsBegin(e) || e.Missing? then None
            else if IsEnd(e) && ActiveScope(s).Some? then
              if Suspends(s[ActiveScope(s).value].command.action.info) then ActiveScope(s) else None
            else SuspendedScope(s)
  {
    LastBeginSnoc(s, e);
    if !IsBegin(e) && LastBegin(s).Some? {
      var j := LastBegin(s).value;
      BoundarySnoc(s, e, j + 1);
      var t := s + [e];
      assert forall k :: 0 <= k < |s| ==> t[k] == s[k];
      assert t[|s|] == e;
      if Boundary(s, j + 1) < |s| {
        var b := Boundary(s, j + 1);
        assert (forall k :: b < k < |t| ==> !t[k].Missing?)
           <==> (forall k :: b < k < |s| ==> !s[k].Missing?) && !e.Missing?;
      }
    }
  }

  lemma {:induction false} WorkSnoc(s: Stream, e: Event, from: nat, registry: Registry)
    requires from <= |s|
    ensures Work(s + [e], from, registry)
         == Work(s, from, registry) + if IsWork(e, registry) then [e.command] else []
  {
    assert (s + [e])[..|s|] == s;
  }

  lemma {:induction false} InterveningSnoc(s: Stream, e: Event, registry: Registry)
    ensures Intervening(s + [e], registry)
         == if IsBegin(e) || e.Missing? || (IsEnd(e) && ActiveScope(s).Some?) then []
            else if SuspendedScope(s).Some? && IsWork(e, registry) then Intervening(s, registry) + [e.command]
            else Intervening(s, registry)
  {
    SuspendedSnoc(s, e);
    if SuspendedScope(s + [e]).Some? {
      var j := SuspendedScope(s + [e]).value;
      BoundarySnoc(s, e, j + 1);
      WorkSnoc(s, e, Boundary(s, j + 1), registry);
      if IsEnd(e) && ActiveScope(s).Some? {
        assert Work(s, |s|, registry) == [];
      }
    }
  }

  lemma {:induction false} FoldsSnoc(s: Stream, e: Event, registry: Registry)
    ensures Verdicts(s + [e], registry) == Verdicts(s, registry) + Verdict(s, e, registry)
    ensures Notes(s + [e], registry) == Notes(s, registry) + NotesOn(e, registry)
    ensures BindingsAt(s + [e]) == Rebound(BindingsAt(s), e)
  {
    assert (s + [e])[..|s|] == s;
  }

  lemma {:induction false} DrawRecordsPrefix(s: Stream, e: Event, lo: nat, hi: nat)
    requires lo <= hi <= |s|
    ensures DrawRecords(s + [e], lo, hi) == DrawRecords(s, lo, hi)
    decreases hi
  {
    if lo < hi {
      DrawRecordsPrefix(s, e, lo, hi - 1);
      assert (s + [e])[hi - 1] == s[hi - 1];
      assert (s + [e])[..hi - 1] == s[..hi - 1];
    }
  }

  /** A scope with one more draw. */
  function WithDraw(scope: Scope, c: Command, b: Bindings): Scope
    requires c.action.Draw?
  {
    scope.(draws := scope.draws + [DrawRecord(c.index, c.action.arguments, b)])
  }

  /** A closed scope is final; the open one is extended by an end or a draw. */
  lemma {:induction false} ScopeSnoc(s: Stream, e: Event, j: nat)
    requires j < |s| && IsBegin(s[j])
    ensures IsBegin((s + [e])[j])
    ensures ScopeAt(s + [e], j)
         == if Boundary(s, j + 1) < |s| then ScopeAt(s, j)
            else if IsEnd(e) then ScopeAt(s, j).(end := Some(e.command.index))
            else if IsDraw(e) then WithDraw(ScopeAt(s, j), e.command, BindingsAt(s))
            else ScopeAt(s, j)
  {
    var t, b := s + [e], Boundary(s, j + 1);
    assert t[j] == s[j] && t[|s|] == e && t[..|s|] == s;
    assert b < |s| ==> t[b] == s[b];
    BoundarySnoc(s, e, j + 1);
    DrawRecordsPrefix(s, e, j + 1, b);
  }

  lemma {:induction false} FinalScope(s: Stream, e: Event, j: nat, last: nat)
    requires j < last < |s| && IsBegin(s[last])
    ensures (s + [e])[j] == s[j]
    ensures IsBegin(s[j]) ==> ScopeAt(s + [e], j) == ScopeAt(s, j)
  {
    if IsBegin(s[j]) {
      BoundaryIsFirst(s, j + 1, last);
      ScopeSnoc(s, e, j);
    }
  }

  /** Scopes begun before the latest begin are final. */
  lemma {:induction false} EarlierScopesSnoc(s: Stream, e: Event, n: nat, last: nat)
    requires n <= last < |s| && IsBegin(s[last])
    ensures ScopesBegun(s + [e], n) == ScopesBegun(s, n)
  {
    if n > 0 {
      EarlierScopesSnoc(s, e, n - 1, last);
      FinalScope(s, e, n - 1, last);
    }
  }

  /** Positions without a begin add no scope. */
  lemma {:induction false} NoScopesBetween(s: Stream, k: nat, n: nat)
    requires k <= n <= |s| && forall i :: k <= i < n ==> !IsBegin(s[i])
    ensures ScopesBegun(s, n) == ScopesBegun(s, k)
  {
    if k < n {
      NoScopesBetween(s, k, n - 1);
    }
  }

  /** No position after the latest begin is a begin. */
  lemma {:induction false} NoBeginAfter(s: Stream)
    ensures LastBegin(s).None? ==> forall i :: 0 <= i < |s| ==> !IsBegin(s[i])
    ensures LastBegin(s).Some? ==> forall i :: LastBegin(s).value < i < |s| ==> !IsBegin(s[i])
  {
    forall i | 0 <= i < |s| && IsBegin(s[i])
      ensures LastBegin(s).Some? && i <= LastBegin(s).value
    {
      LastBeginIsLast(s, i);
    }
  }

  /** No scope begins after the latest begin. */
  lemma {:induction false} ScopesEndAtLast(s: Stream, n: nat)
    requires n <= |s|
    requires LastBegin(s).Some? ==> LastBegin(s).value < n
    ensures LastBegin(s).None? ==> ScopesBegun(s, n) == []
    ensures LastBegin(s).Some? ==>
              ScopesBegun(s, n) == ScopesBegun(s, LastBegin(s).value) + [ScopeAt(s, LastBegin(s).value)]
  {
    NoBeginAfter(s);
    NoScopesBetween(s, if LastBegin(s).None? then 0 else LastBegin(s).value + 1, n);
  }

  /** The reported scopes after e: the open one is extended, and a begin adds one. */
  lemma {:induction false} ScopesSnoc(s: Stream, e: Event)
    ensures ActiveScope(s).Some? ==>
              Scopes(s) != [] && Scopes(s)[|Scopes(s)| - 1] == ScopeAt(s, ActiveScope(s).value)
    ensures SuspendedScope(s).Some? ==>
              Scopes(s) != [] && Scopes(s)[|Scopes(s)| - 1] == ScopeAt(s, SuspendedScope(s).value)
    ensures var scopes, last := Scopes(s), |Scopes(s)| - 1;
            Scopes(s + [e])
            == if IsBegin(e) then scopes + [Scope(e.command.index, e.owner, e.command.action.info, None, [])]
               else if ActiveScope(s).Some? && IsEnd(e)
               then scopes[last := scopes[last].(end := Some(e.command.index))]
               else if ActiveScope(s).Some? && IsDraw(e)
               then scopes[last := WithDraw(scopes[last], e.command, BindingsAt(s))]
               else scopes
  {
    var t := s + [e];
    assert t[|s|] == e;
    ScopesEndAtLast(s, |s|);
    var begun := ScopesBegun(t, |s|);
    assert Scopes(t) == begun + if IsBegin(e) then [ScopeAt(t, |s|)] else [];
    LastBeginSnoc(s, e);
    if LastBegin(s).Some? {
      var j := LastBegin(s).value;
      EarlierScopesSnoc(s, e, j, j);
      ScopeSnoc(s, e, j);
      LatestScopeSnoc(s, e, |s|);
    } else {
      NoScopesSnoc(s, e, |s|);
    }
  }

  lemma {:induction false} LatestScopeSnoc(s: Stream, e: Event, n: nat)
    requires LastBegin(s).Some? && LastBegin(s).value < n <= |s|
    ensures IsBegin((s + [e])[LastBegin(s).value])
    ensures ScopesBegun(s + [e], n)
         == ScopesBegun(s + [e], LastBegin(s).value) + [ScopeAt(s + [e], LastBegin(s).value)]
  {
    var j := LastBegin(s).value;
    assert (s + [e])[j] == s[j];
    if n - 1 > j {
      assert (s + [e])[n - 1] == s[n - 1];
      if IsBegin(s[n - 1]) {
        LastBeginIsLast(s, n - 1);
      }
      LatestScopeSnoc(s, e, n - 1);
    }
  }

  lemma {:induction false} NoScopesSnoc(s: Stream, e: Event, n: nat)
    requires LastBegin(s).None? && n <= |s|
    ensures ScopesBegun(s + [e], n) == []
  {
    if n > 0 {
      assert (s + [e])[n - 1] == s[n - 1];
      if IsBegin(s[n - 1]) {
        LastBeginIsLast(s, n - 1);
      }
      NoScopesSnoc(s, e, n - 1);
    }
  }

  // ---------------------------------------------------------------------------
  // The running binding state is the last-write state

  lemma {:induction false} StrideOfVertex(s: Stream, slot: nat)
    ensures StrideAt(s, slot) == if VertexAt(s, slot).Some? then VertexAt(s, slot).value.stride else None
  {
    if s != [] && !Forgets(s[|s| - 1]) && !Covers(s[|s| - 1], slot) {
      StrideOfVertex(s[..|s| - 1], slot);
    }
  }

  lemma {:induction false} VertexIsLastWrite(s: Stream, slot: nat)
    ensures Lookup(BindingsAt(s).vertices, slot) == VertexAt(s, slot)
  {
    if s != [] {
      var before, e := s[..|s| - 1], s[|s| - 1];
      VertexIsLastWrite(before, slot);
      StrideOfVertex(before, slot);
      if !Forgets(e) && !Covers(e, slot) {
        assert StrideAt(s, slot) == StrideAt(before, slot);
        assert Lookup(BindingsAt(s).vertices, slot) == Lookup(BindingsAt(before).vertices, slot);
      }
    }
  }

  lemma {:induction false} DescriptorIsLastWrite(s: Stream, slot: nat)
    ensures Lookup(BindingsAt(s).descriptors, slot) == DescriptorAt(s, slot)
  {
    if s != [] {
      DescriptorIsLastWrite(s[..|s| - 1], slot);
    }
  }

  lemma {:induction false} OthersAreLastWrites(s: Stream)
    ensures BindingsAt(s).pipeline == PipelineAt(s)
    ensures BindingsAt(s).indices == IndexAt(s)
    ensures BindingsAt(s).pushes == PushesAt(s)
  {
    if s != [] {
      OthersAreLastWrites(s[..|s| - 1]);
    }
  }

  /** Every slot holds what the last command to write it wrote, since the recording started or
      an unreconstructed bind invalidated everything. */
  lemma {:induction false} BindingsAreLastWrites(s: Stream)
    ensures InForce(s, BindingsAt(s))
  {
    OthersAreLastWrites(s);
    forall slot: nat
      ensures Lookup(BindingsAt(s).descriptors, slot) == DescriptorAt(s, slot)
    {
      DescriptorIsLastWrite(s, slot);
    }
    forall slot: nat
      ensures Lookup(BindingsAt(s).vertices, slot) == VertexAt(s, slot)
    {
      VertexIsLastWrite(s, slot);
    }
  }

  // ---------------------------------------------------------------------------
  // The pass

  /** for offset, descriptor in enumerate(pDescriptorSets). */
  method WriteSets(binds: map<nat, DescriptorBind>, c: Command) returns (r: map<nat, DescriptorBind>)
    requires c.action.BindDescriptors?
    ensures r == binds + SetsWritten(c)
  {
    r := binds;
    var first := c.action.firstSet;
    for offset := 0 to |c.action.sets|
      invariant r == binds + map k: nat | first <= k < first + offset :: SetBind(c, k)
    {
      r := r[first + offset := DescriptorBind(c.index, c.action.sets[offset], c.action.layout, c.action.dynamicOffsets)];
    }
  }

  /** for offset, buffer in enumerate(pBuffers). */
  method WriteVertices(binds: map<nat, VertexBind>, c: Command) returns (r: map<nat, VertexBind>)
    requires c.action.BindVertices?
    ensures r == binds + VerticesWritten(c, |c.action.slots|, binds)
  {
    r := binds;
    for offset := 0 to |c.action.slots|
      invariant r == binds + VerticesWritten(c, offset, binds)
    {
      var binding := c.action.firstBinding + offset;
      var v := c.action.slots[offset];
      var written := VertexBind(c.index, v.buffer, v.offset, v.size, None);
      if v.stride.Some? {
        written := written.(stride := v.stride);
      } else if binding in r {
        written := written.(stride := r[binding].stride);
      }
      r := r[binding := written];
    }
  }

  /** The binding commands of the inspector's elif chain. */
  method Bind(b: Bindings, e: Event) returns (r: Bindings)
    requires e.Issue?
    ensures r == Rebound(b, e)
  {
    var c := e.command;
    r := b;
    if c.action.BindOther? {
      r := NO_BINDINGS.(pushes := b.pushes);
    }
    if c.action.BindPipeline? && c.action.graphics {
      r := r.(pipeline := Some(PipelineBind(c.index, c.action.pipeline)));
    } else if c.action.BindDescriptors? && c.action.graphicsSets {
      var written := WriteSets(r.descriptors, c);
      r := r.(descriptors := written);
    } else if c.action.BindVertices? {
      var written := WriteVertices(r.vertices, c);
      r := r.(vertices := written);
    } else if c.action.BindIndex? {
      r := r.(indices := Some(IndexBind(c.index, c.action.buffer, c.action.offset, c.action.indexType)));
    } else if c.action.Push? {
      r := r.(pushes := r.pushes + [(c.index, c.action.range)]);
    }
  }

  /** The running variables of inspect_batch. active and suspended refer to entries of
      renderings, the list that the report shares with them. */
  datatype Scan = Scan(
    active: Option<nat>,
    suspended: Option<nat>,
    intervening: seq<Command>,
    bindings: Bindings,
    renderings: seq<Scope>,
    findings: seq<Finding>,
    uncovered: seq<Note>)
  {
    predicate Valid() {
      && (active.Some? ==> active.value < |renderings|)
      && (suspended.Some? ==> suspended.value < |renderings|)
      && (active.None? || suspended.None?)
      && (suspended.None? ==> intervening == [])
    }
  }

  const START := Scan(None, None, [], NO_BINDINGS, [], [], [])

  function ActiveRef(v: Scan): Option<nat>
    requires v.Valid()
  {
    if v.active.Some? then Some(v.renderings[v.active.value].begin) else None
  }

  function SuspendedRef(v: Scan): Option<(nat, RenderingInfo)>
    requires v.Valid()
  {
    if v.suspended.Some?
    then Some((v.renderings[v.suspended.value].begin, v.renderings[v.suspended.value].info)) else None
  }

  /** One event of the pass. */
  function Advance(v: Scan, e: Event, registry: Registry): (w: Scan)
    requires v.Valid()
    ensures w.Valid()
  {
    match e
    case Open(_, _, _) => v.(bindings := NO_BINDINGS)
    case Missing(h) =>
      v.(active := None, suspended := None, intervening := [], uncovered := v.uncovered + [Unavailable(h)])
    case Close(end) =>
      if v.active.None? then v
      else v.(active := None,
              findings := v.findings + [Finding(NotEndedInCommandBuffer, Some(end), ActiveRef(v), [])])
    case Issue(owner, c) =>
      if c.action.Begin? then
        v.(active := Some(|v.renderings|), suspended := None, intervening := [],
           renderings := v.renderings + [Scope(c.index, owner, c.action.info, None, [])],
           findings := v.findings + BeginFindings(c, ActiveRef(v), SuspendedRef(v), v.intervening))
      else if c.action.End? then
        if v.active.None?
        then v.(findings := v.findings + [Finding(EndWithoutBegin, Some(c.index), None, [])])
        else
          var scope := v.renderings[v.active.value];
          v.(active := None,
             suspended := if Suspends(scope.info) then v.active else None,
             renderings := v.renderings[v.active.value := scope.(end := Some(c.index))])
      else
        v.(intervening := if v.suspended.Some? && IsWork(e, registry) then v.intervening + [c] else v.intervening,
           uncovered := v.uncovered + NotesOn(e, registry),
           bindings := Rebound(v.bindings, e),
           renderings := if v.active.Some? && c.action.Draw?
                         then v.renderings[v.active.value := WithDraw(v.renderings[v.active.value], c, v.bindings)]
                         else v.renderings)
  }

  function Run(s: Stream, registry: Registry): (v: Scan)
    ensures v.Valid()
  {
    if s == [] then START else Advance(Run(s[..|s| - 1], registry), s[|s| - 1], registry)
  }

  lemma {:induction false} RunSnoc(s: Stream, e: Event, registry: Registry)
    ensures Run(s + [e], registry) == Advance(Run(s, registry), e, registry)
  {
    assert (s + [e])[..|s|] == s;
  }

  /** A reference to the latest of n reported scopes, when at says there is one. */
  function Latest(at: Option<nat>, n: nat): Option<nat> {
    if at.Some? && n > 0 then Some(n - 1) else None
  }

  lemma {:induction false} RunBindings(s: Stream, registry: Registry)
    ensures Run(s, registry).bindings == BindingsAt(s)
  {
    if s != [] {
      RunBindings(s[..|s| - 1], registry);
    }
  }

  lemma {:induction false} LastEvent(s: Stream)
    requires s != []
    ensures s == s[..|s| - 1] + [s[|s| - 1]]
  {
  }

  lemma {:induction false} AdvanceReferences(v: Scan, s: Stream, e: Event, registry: Registry)
    requires v.Valid() && v.renderings == Scopes(s) && v.bindings == BindingsAt(s)
    requires v.active == Latest(ActiveScope(s), |Scopes(s)|)
    requires v.suspended == Latest(SuspendedScope(s), |Scopes(s)|)
    ensures var w := Advance(v, e, registry);
            && w.renderings == Scopes(s + [e])
            && w.active == Latest(ActiveScope(s + [e]), |Scopes(s + [e])|)
            && w.suspended == Latest(SuspendedScope(s + [e]), |Scopes(s + [e])|)
  {
    ScopesSnoc(s, e);
    ActiveSnoc(s, e);
    SuspendedSnoc(s, e);
  }

  /** The scopes that the variables refer to are those of the stream. */
  lemma {:induction false} RunReferences(s: Stream, registry: Registry)
    ensures Run(s, registry).renderings == Scopes(s)
    ensures Run(s, registry).active == Latest(ActiveScope(s), |Scopes(s)|)
    ensures Run(s, registry).suspended == Latest(SuspendedScope(s), |Scopes(s)|)
  {
    if s != [] {
      var before := s[..|s| - 1];
      RunReferences(before, registry);
      RunBindings(before, registry);
      LastEvent(s);
      AdvanceReferences(Run(before, registry), before, s[|s| - 1], registry);
    }
  }

  lemma {:induction false} RunRefs(s: Stream, registry: Registry)
    ensures ActiveRef(Run(s, registry)) == ActiveBegin(s)
    ensures SuspendedRef(Run(s, registry)) == SuspendedBegin(s)
    ensures Run(s, registry).active.Some? <==> ActiveScope(s).Some?
    ensures Run(s, registry).suspended.Some? <==> SuspendedScope(s).Some?
  {
    RunReferences(s, registry);
    ScopesSnoc(s, Missing(0));
  }

  lemma {:induction false} AdvanceIntervening(v: Scan, s: Stream, e: Event, registry: Registry)
    requires v.Valid() && v.intervening == Intervening(s, registry)
    requires v.active.Some? <==> ActiveScope(s).Some?
    requires v.suspended.Some? <==> SuspendedScope(s).Some?
    ensures Advance(v, e, registry).intervening == Intervening(s + [e], registry)
  {
    InterveningSnoc(s, e, registry);
  }

  /** The pass collects exactly the work since the last suspension. */
  lemma {:induction false} RunIntervening(s: Stream, registry: Registry)
    ensures Run(s, registry).intervening == Intervening(s, registry)
  {
    if s != [] {
      var before := s[..|s| - 1];
      RunIntervening(before, registry);
      RunRefs(before, registry);
      LastEvent(s);
      AdvanceIntervening(Run(before, registry), before, s[|s| - 1], registry);
    }
  }

  lemma {:induction false} RunNotes(s: Stream, registry: Registry)
    ensures Run(s, registry).uncovered == Notes(s, registry)
  {
    if s != [] {
      RunNotes(s[..|s| - 1], registry);
    }
  }

  /** The pass reports exactly the verdicts that the stream deserves. */
  lemma {:induction false} RunFindings(s: Stream, registry: Registry)
    ensures Run(s, registry).findings == Verdicts(s, registry)
  {
    if s != [] {
      var before, e := s[..|s| - 1], s[|s| - 1];
      RunFindings(before, registry);
      RunRefs(before, registry);
      RunIntervening(before, registry);
    }
  }

  datatype RecordingRef = RecordingRef(buffer: Handle, begin: nat, end: nat)

  /** The complete recordings of a batch. */
  function Recordings(batch: Batch): seq<RecordingRef> {
    if batch == [] then []
    else
      var (handle, recording) := batch[|batch| - 1];
      Recordings(batch[..|batch| - 1])
      + if Complete(recording)
        then [RecordingRef(handle, recording.value.begin, recording.value.end.value)] else []
  }

  datatype BatchReport = BatchReport(
    submit: Option<nat>,
    recordings: seq<RecordingRef>,
    renderings: seq<Scope>,
    findings: seq<Finding>,
    uncovered: seq<Note>)

  lemma {:induction false} RecordsAreDraws(s: Stream, lo: nat, hi: nat, d: DrawRecord) returns (p: nat)
    requires lo <= hi <= |s| && d in DrawRecords(s, lo, hi)
    ensures lo <= p < hi && DrawnAt(s, d, p)
  {
    if d in DrawRecords(s, lo, hi - 1) {
      p := RecordsAreDraws(s, lo, hi - 1, d);
    } else {
      p := hi - 1;
      BindingsAreLastWrites(s[..p]);
    }
  }

  lemma {:induction false} ScopeBegun(s: Stream, n: nat, scope: Scope) returns (j: nat)
    requires n <= |s| && scope in ScopesBegun(s, n)
    ensures j < n && IsBegin(s[j]) && scope == ScopeAt(s, j)
  {
    if scope in ScopesBegun(s, n - 1) {
      j := ScopeBegun(s, n - 1, scope);
    } else {
      j := n - 1;
    }
  }

  /** Every draw of a reported scope was made inside it, and is reported with what the last commands to
      write each slot had bound there. */
  lemma {:induction false} DrawsInForce(s: Stream, scope: Scope, d: DrawRecord)
    requires scope in Scopes(s) && d in scope.draws
    ensures exists j: nat, p: nat ::
              j < p < |s| && IsBegin(s[j]) && scope == ScopeAt(s, j) && p < Boundary(s, j + 1) && DrawnAt(s, d, p)
  {
    var j := ScopeBegun(s, |s|, scope);
    var p := RecordsAreDraws(s, j + 1, Boundary(s, j + 1), d);
    assert j < p < |s| && p < Boundary(s, j + 1) && DrawnAt(s, d, p);
  }

  ghost predicate AllDrawn(s: Stream, draws: seq<DrawRecord>, at: seq<nat>) {
    |draws| == |at| && forall i | 0 <= i < |draws| :: DrawnAt(s, draws[i], at[i])
  }

  lemma {:induction false} AllDrawnSnoc(s: Stream, draws: seq<DrawRecord>, at: seq<nat>, d: DrawRecord, p: nat)
    requires AllDrawn(s, draws, at) && DrawnAt(s, d, p)
    ensures AllDrawn(s, draws + [d], at + [p])
  {
  }

  lemma {:induction false} DrawsMatch(s: Stream, lo: nat, hi: nat)
    requires lo <= hi <= |s|
    ensures AllDrawn(s, DrawRecords(s, lo, hi), DrawsAt(s, lo, hi))
  {
    if lo < hi {
      var p := hi - 1;
      DrawsMatch(s, lo, p);
      if IsDraw(s[p]) {
        BindingsAreLastWrites(s[..p]);
        var d := DrawRecord(s[p].command.index, s[p].command.action.arguments, BindingsAt(s[..p]));
        AllDrawnSnoc(s, DrawRecords(s, lo, p), DrawsAt(s, lo, p), d, p);
      }
    }
  }

  lemma {:induction false} ScopeIsFrom(s: Stream, j: nat)
    requires j < |s| && IsBegin(s[j])
    ensures ScopeFrom(s, j, ScopeAt(s, j))
  {
    var b := Boundary(s, j + 1);
    forall k | j < k < b
      ensures !IsBoundary(s[k])
    {
      if IsBoundary(s[k]) { BoundaryIsFirst(s, j + 1, k); }
    }
    DrawsMatch(s, j + 1, b);
    assert RunsTo(s, j, b);
  }

  ghost predicate AllFrom(s: Stream, scopes: seq<Scope>, at: seq<nat>) {
    |scopes| == |at| && forall i | 0 <= i < |scopes| :: ScopeFrom(s, at[i], scopes[i])
  }

  lemma {:induction false} AllFromSnoc(s: Stream, scopes: seq<Scope>, at: seq<nat>, scope: Scope, j: nat)
    requires AllFrom(s, scopes, at) && ScopeFrom(s, j, scope)
    ensures AllFrom(s, scopes + [scope], at + [j])
  {
  }

  lemma {:induction false} ScopesMatch(s: Stream, n: nat)
    requires n <= |s|
    ensures AllFrom(s, ScopesBegun(s, n), BeginsAt(s, n))
  {
    if n > 0 {
      ScopesMatch(s, n - 1);
      if IsBegin(s[n - 1]) {
        ScopeIsFrom(s, n - 1);
        AllFromSnoc(s, ScopesBegun(s, n - 1), BeginsAt(s, n - 1), ScopeAt(s, n - 1), n - 1);
      }
    }
  }

  /** The positions of the complete recordings of a batch. */
  function CompleteAt(batch: Batch): (at: seq<nat>)
    ensures Rising(at) && forall i | 0 <= i < |at| :: at[i] < |batch| && Complete(batch[at[i]].1)
    ensures forall k | 0 <= k < |batch| && Complete(batch[k].1) :: k in at
  {
    if batch == [] then []
    else CompleteAt(batch[..|batch| - 1]) + if Complete(batch[|batch| - 1].1) then [|batch| - 1] else []
  }

  /** The complete recordings of a batch are listed, in order. */
  ghost predicate RecordingsOf(recordings: seq<RecordingRef>, batch: Batch) {
    RefersTo(recordings, batch, CompleteAt(batch))
  }

  predicate RefersTo(recordings: seq<RecordingRef>, batch: Batch, at: seq<nat>) {
    && |recordings| == |at|
    && forall i | 0 <= i < |recordings| :: at[i] < |batch| && IsRef(recordings[i], batch[at[i]].0, batch[at[i]].1)
  }

  predicate IsRef(ref: RecordingRef, handle: Handle, recording: Option<Recording>) {
    Complete(recording) && ref == RecordingRef(handle, recording.value.begin, recording.value.end.value)
  }

  lemma {:induction false} RefersBefore(recordings: seq<RecordingRef>, batch: Batch, n: nat, at: seq<nat>)
    requires n <= |batch| && RefersTo(recordings, batch[..n], at)
    ensures RefersTo(recordings, batch, at)
  {
    forall i | 0 <= i < |recordings|
      ensures at[i] < |batch| && IsRef(recordings[i], batch[at[i]].0, batch[at[i]].1)
    {
      assert batch[..n][at[i]] == batch[at[i]];
    }
  }

  lemma {:induction false} RecordingsListed(batch: Batch)
    ensures RecordingsOf(Recordings(batch), batch)
  {
    if batch != [] {
      var n := |batch| - 1;
      RecordingsListed(batch[..n]);
      RefersBefore(Recordings(batch[..n]), batch, n, CompleteAt(batch[..n]));
      if Complete(batch[n].1) {
        var ref := RecordingRef(batch[n].0, batch[n].1.value.begin, batch[n].1.value.end.value);
        RefersMore(Recordings(batch[..n]), batch, CompleteAt(batch[..n]), ref, n);
      }
    }
  }

  lemma {:induction false} RefersMore(recordings: seq<RecordingRef>, batch: Batch, at: seq<nat>, ref: RecordingRef, n: nat)
    requires RefersTo(recordings, batch, at) && n < |batch| && IsRef(ref, batch[n].0, batch[n].1)
    ensures RefersTo(recordings + [ref], batch, at + [n])
  {
  }

  /** What a report on a batch has to be, read off the stream of the batch position by position. */
  ghost predicate Reports(report: BatchReport, submit: Option<nat>, batch: Batch, registry: Registry) {
    var s := BatchStream(batch);
    && report.submit == submit && RecordingsOf(report.recordings, batch)
    && ScopesOf(report.renderings, s)
    && FindingsOf(report.findings, s, submit, registry)
    && NotesOf(report.uncovered, s, registry)
  }

  lemma {:induction false} SpecReports(submit: Option<nat>, batch: Batch, registry: Registry)
    ensures Reports(BatchSpec(submit, batch, registry), submit, batch, registry)
  {
    var s := BatchStream(batch);
    RecordingsListed(batch);
    ScopesMatch(s, |s|);
    VerdictsAreDeserved(s, submit, registry);
    NotesAreDeserved(s, registry);
  }

  /** What the whole stream of a batch says. Only the bindings at a draw are a fold over the stream;
      DrawsInForce says what they are without it. */
  function BatchSpec(submit: Option<nat>, batch: Batch, registry: Registry): BatchReport {
    var s := BatchStream(batch);
    BatchReport(submit, Recordings(batch), Scopes(s), Verdicts(s, registry) + Closing(s, registry, submit),
                Notes(s, registry))
  }

  /** What a command leaves uncovered. */
  method NoteCommand(before: seq<Note>, handle: Handle, c: Command, registry: Registry) returns (uncovered: seq<Note>)
    requires !c.action.Begin? && !c.action.End?
    ensures uncovered == before + NotesOn(Issue(handle, c), registry)
  {
    uncovered := before;
    if c.name !in registry {
      uncovered := uncovered + [Unregistered(c.index)];
    }
    if c.action.Execute? {
      uncovered := uncovered + [SecondaryNotExpanded(c.index)];
    }
    if c.action.BindOther? {
      uncovered := uncovered + [BindNotReconstructed(c.index)];
    }
  }

  /** One command of a recording: the body of the inner loop. */
  method Observe(v: Scan, handle: Handle, c: Command, registry: Registry) returns (w: Scan)
    requires v.Valid()
    ensures w == Advance(v, Issue(handle, c), registry)
  {
    var active, suspended, intervening, bindings := v.active, v.suspended, v.intervening, v.bindings;
    var renderings, findings, uncovered := v.renderings, v.findings, v.uncovered;
    if c.action.Begin? {
      findings := JudgeBegin(v, c);
      renderings := renderings + [Scope(c.index, handle, c.action.info, None, [])];
      active, suspended, intervening := Some(|renderings| - 1), None, [];
    } else if c.action.End? {
      if active.None? {
        findings := findings + [Finding(EndWithoutBegin, Some(c.index), None, [])];
      } else {
        var scope := renderings[active.value];
        renderings := renderings[active.value := scope.(end := Some(c.index))];
        suspended := if Suspends(scope.info) then active else None;
      }
      active := None;
    } else {
      if c.name in registry && suspended.Some? && registry[c.name] * {"action", "synchronization"} != {} {
        intervening := intervening + [c];
      }
      uncovered := NoteCommand(uncovered, handle, c, registry);
      bindings := Bind(bindings, Issue(handle, c));
      if active.Some? && c.action.Draw? {
        var scope := renderings[active.value];
        renderings := renderings[active.value :=
          scope.(draws := scope.draws + [DrawRecord(c.index, c.action.arguments, bindings)])];
      }
    }
    w := Scan(active, suspended, intervening, bindings, renderings, findings, uncovered);
  }

  /** The end of a recording. */
  method Conclude(v: Scan, end: nat, ghost registry: Registry) returns (w: Scan)
    requires v.Valid()
    ensures w == Advance(v, Close(end), registry)
  {
    w := v;
    if w.active.Some? {
      w := w.(findings := w.findings + [Finding(NotEndedInCommandBuffer, Some(end),
                                                Some(w.renderings[w.active.value].begin), [])],
              active := None);
    }
  }

  /** The scan after the first k commands of a recording. */
  function Issued(v: Scan, handle: Handle, commands: seq<Command>, k: nat, registry: Registry): (w: Scan)
    requires v.Valid() && k <= |commands|
    ensures w.Valid()
  {
    if k == 0 then v
    else Advance(Issued(v, handle, commands, k - 1, registry), Issue(handle, commands[k - 1]), registry)
  }

  /** The scan after one recording. */
  function Replayed(v: Scan, handle: Handle, recording: Option<Recording>, registry: Registry): Scan
    requires v.Valid()
  {
    if !Complete(recording) then Advance(v, Missing(handle), registry)
    else
      var r := recording.value;
      var start := Advance(v, Open(handle, r.begin, r.end.value), registry);
      Advance(Issued(start, handle, r.commands, |r.commands|, registry), Close(r.end.value), registry)
  }

  lemma {:induction false} IssuedIsRun(s: Stream, handle: Handle, commands: seq<Command>, k: nat, registry: Registry)
    requires k <= |commands|
    ensures Issued(Run(s, registry), handle, commands, k, registry)
         == Run(s + Issues(handle, commands)[..k], registry)
  {
    PrefixParts(s, Issues(handle, commands), k);
    if k > 0 {
      IssuedIsRun(s, handle, commands, k - 1, registry);
      RunSnoc(s + Issues(handle, commands)[..k - 1], Issue(handle, commands[k - 1]), registry);
    }
  }

  lemma {:induction false} PrefixParts(s: Stream, t: Stream, k: nat)
    requires k <= |t|
    ensures s + t[..0] == s
    ensures k > 0 ==> s + t[..k] == s + t[..k - 1] + [t[k - 1]]
  {
  }

  lemma {:induction false} RecordingParts(s: Stream, handle: Handle, r: Recording)
    requires r.end.Some?
    ensures s + RecordingStream(handle, Some(r))
         == s + [Open(handle, r.begin, r.end.value)] + Issues(handle, r.commands) + [Close(r.end.value)]
    ensures Issues(handle, r.commands)[..|r.commands|] == Issues(handle, r.commands)
  {
  }

  lemma {:induction false} ReplayedIsRun(s: Stream, handle: Handle, recording: Option<Recording>, registry: Registry)
    ensures Replayed(Run(s, registry), handle, recording, registry)
         == Run(s + RecordingStream(handle, recording), registry)
  {
    if Complete(recording) {
      var r := recording.value;
      var first := Open(handle, r.begin, r.end.value);
      RecordingParts(s, handle, r);
      RunSnoc(s, first, registry);
      IssuedIsRun(s + [first], handle, r.commands, |r.commands|, registry);
      RunSnoc(s + [first] + Issues(handle, r.commands), Close(r.end.value), registry);
    } else {
      RunSnoc(s, Missing(handle), registry);
    }
  }

  /** One recording of the batch: the body of the outer loop. */
  method Replay(v: Scan, handle: Handle, recording: Option<Recording>, registry: Registry) returns (w: Scan)
    requires v.Valid()
    ensures w == Replayed(v, handle, recording, registry)
  {
    w := v;
    if recording.None? || recording.value.end.None? {
      w := w.(uncovered := w.uncovered + [Unavailable(handle)], active := None, suspended := None, intervening := []);
      return;
    }
    var commands := recording.value.commands;
    w := w.(bindings := NO_BINDINGS);
    ghost var start := w;
    for k := 0 to |commands|
      invariant w == Issued(start, handle, commands, k, registry)
    {
      w := Observe(w, handle, commands[k], registry);
    }
    w := Conclude(w, recording.value.end.value, registry);
  }

  method InspectBatch(submit: Option<nat>, batch: Batch, registry: Registry) returns (report: BatchReport)
    ensures Reports(report, submit, batch, registry)
    ensures report == BatchSpec(submit, batch, registry)
  {
    SpecReports(submit, batch, registry);
    var v := START;
    var recordings: seq<RecordingRef> := [];
    for i := 0 to |batch|
      invariant v == Run(BatchStream(batch[..i]), registry)
      invariant recordings == Recordings(batch[..i])
    {
      BatchSnoc(batch, i);
      var handle, recording := batch[i].0, batch[i].1;
      if recording.Some? && recording.value.end.Some? {
        recordings := recordings + [RecordingRef(handle, recording.value.begin, recording.value.end.value)];
      }
      ReplayedIsRun(BatchStream(batch[..i]), handle, recording, registry);
      v := Replay(v, handle, recording, registry);
    }
    assert batch[..|batch|] == batch;
    ghost var s := BatchStream(batch);
    RunReferences(s, registry);
    RunRefs(s, registry);
    RunIntervening(s, registry);
    RunNotes(s, registry);
    RunFindings(s, registry);
    var findings := v.findings;
    if v.suspended.Some? {
      findings := findings
        + [Finding(SuspendedNotResumed, submit, Some(v.renderings[v.suspended.value].begin), v.intervening)];
    }
    report := BatchReport(submit, recordings, v.renderings, findings, v.uncovered);
  }

  /** The checks made when a scope begins. */
  method JudgeBegin(v: Scan, c: Command) returns (findings: seq<Finding>)
    requires v.Valid() && c.action.Begin?
    ensures findings == v.findings + BeginFindings(c, ActiveRef(v), SuspendedRef(v), v.intervening)
  {
    findings := v.findings;
    if v.active.Some? {
      findings := findings
        + [Finding(BeginWhileRendering, Some(c.index), Some(v.renderings[v.active.value].begin), [])];
    }
    if Resumes(c.action.info) {
      if v.suspended.None? {
        findings := findings + [Finding(ResumeWithoutSuspend, Some(c.index), None, [])];
      } else {
        var scope := v.renderings[v.suspended.value];
        if v.intervening != [] {
          findings := findings
            + [Finding(CommandsBetweenSuspendAndResume, Some(c.index), Some(scope.begin), v.intervening)];
        }
        if RenderingKey(scope.info) != RenderingKey(c.action.info) {
          findings := findings + [Finding(ResumeParametersDiffer, Some(c.index), Some(scope.begin), [])];
        }
      }
    } else if v.suspended.Some? {
      findings := findings
        + [Finding(RenderingBeforeResume, Some(c.index), Some(v.renderings[v.suspended.value].begin), v.intervening)];
    }
  }

  lemma {:induction false} BatchSnoc(batch: Batch, i: nat)
    requires i < |batch|
    ensures BatchStream(batch[..i + 1]) == BatchStream(batch[..i]) + RecordingStream(batch[i].0, batch[i].1)
    ensures Recordings(batch[..i + 1])
         == Recordings(batch[..i])
            + if Complete(batch[i].1)
              then [RecordingRef(batch[i].0, batch[i].1.value.begin, batch[i].1.value.end.value)] else []
  {
    assert batch[..i + 1][..i] == batch[..i];
  }
}
