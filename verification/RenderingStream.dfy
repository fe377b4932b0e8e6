/**
 The command streams that tools/inspect-rendering-capture.py replays, and what a
 prefix of such a stream says about rendering scopes and bound resources.

 Everything here is stated on whole prefixes, by searching back (or forward) for
 the command that decides a question.  The inspector keeps running variables
 instead; module RenderingBatch proves that the two agree.
 */
module RenderingStream {
  import opened Options

  type Handle = nat
  type Registry = map<string, set<string>>

  /** pRenderingInfo: the flag word and the text of every other field. */
  datatype RenderingInfo = RenderingInfo(flags: nat, params: string)

  predicate Suspends(info: RenderingInfo) { info.flags / 2 % 2 == 1 }
  predicate Resumes(info: RenderingInfo) { info.flags / 4 % 2 == 1 }

  /** The parameters that a resume must repeat: the three low flag bits may differ. */
  function RenderingKey(info: RenderingInfo): RenderingInfo {
    info.(flags := info.flags / 8 * 8)
  }

  /** The low bits of the flag word: contents of secondary buffers, suspending, resuming. */
  lemma {:induction false} FlagBits(secondary: nat, suspending: nat, resuming: nat, rest: nat, params: string)
    requires secondary < 2 && suspending < 2 && resuming < 2
    ensures var info := RenderingInfo(secondary + 2 * suspending + 4 * resuming + 8 * rest, params);
            && (Suspends(info) <==> suspending == 1) && (Resumes(info) <==> resuming == 1)
            && RenderingKey(info) == RenderingInfo(8 * rest, params)
  {
  }

  datatype VertexSlot = VertexSlot(buffer: Handle, offset: nat, size: Option<nat>, stride: Option<nat>)

  /** What a vkCmd* call does, as far as the inspector distinguishes calls.
      BindOther is every vkCmdBind* that the inspector does not reconstruct. */
  datatype Action =
    | Begin(info: RenderingInfo)
    | End
    | BindPipeline(graphics: bool, pipeline: Handle)
    | BindDescriptors(graphicsSets: bool, firstSet: nat, sets: seq<Handle>, layout: Handle, dynamicOffsets: seq<nat>)
    | BindVertices(firstBinding: nat, slots: seq<VertexSlot>)
    | BindIndex(buffer: Handle, offset: nat, indexType: string)
    | BindOther
    | Push(range: string)
    | Draw(arguments: string)
    | Execute
    | Plain

  datatype Command = Command(index: nat, name: string, action: Action)

  datatype Recording = Recording(begin: nat, end: Option<nat>, commands: seq<Command>)

  predicate Complete(recording: Option<Recording>) {
    recording.Some? && recording.value.end.Some?
  }

  /** One submitted batch, laid out flat. */
  datatype Event =
    | Open(handle: Handle, begin: nat, end: nat)
    | Issue(owner: Handle, command: Command)
    | Close(endIndex: nat)
    | Missing(absent: Handle)

  type Stream = seq<Event>
  type Batch = seq<(Handle, Option<Recording>)>

  function Issues(owner: Handle, commands: seq<Command>): (s: Stream)
    ensures |s| == |commands|
    ensures forall i :: 0 <= i < |s| ==> s[i] == Issue(owner, commands[i])
  {
    seq(|commands|, i requires 0 <= i < |commands| => Issue(owner, commands[i]))
  }

  function RecordingStream(handle: Handle, recording: Option<Recording>): Stream {
    if Complete(recording)
    then [Open(handle, recording.value.begin, recording.value.end.value)]
         + Issues(handle, recording.value.commands) + [Close(recording.value.end.value)]
    else [Missing(handle)]
  }

  function BatchStream(batch: Batch): Stream {
    if batch == [] then []
    else BatchStream(batch[..|batch| - 1])
         + RecordingStream(batch[|batch| - 1].0, batch[|batch| - 1].1)
  }

  // ---------------------------------------------------------------------------
  // Rendering scopes

  predicate IsBegin(e: Event) { e.Issue? && e.command.action.Begin? }
  predicate IsEnd(e: Event) { e.Issue? && e.command.action.End? }
  predicate IsDraw(e: Event) { e.Issue? && e.command.action.Draw? }

  /** An event after which no earlier scope is active. */
  predicate IsBoundary(e: Event) { IsBegin(e) || IsEnd(e) || e.Close? || e.Missing? }

  /** A command the registry lists as an action or a synchronization command. */
  predicate IsWork(e: Event, registry: Registry) {
    && e.Issue? && !IsBegin(e) && !IsEnd(e)
    && e.command.name in registry
    && registry[e.command.name] * {"action", "synchronization"} != {}
  }

  function LastBegin(s: Stream): (r: Option<nat>)
    ensures r.Some? ==> r.value < |s| && IsBegin(s[r.value])
  {
    if s == [] then None
    else if IsBegin(s[|s| - 1]) then Some(|s| - 1)
    else LastBegin(s[..|s| - 1])
  }

  /** The first boundary at or after k, or the end of the stream. */
  function Boundary(s: Stream, k: nat): (b: nat)
    requires k <= |s|
    ensures k <= b <= |s|
    ensures b < |s| ==> IsBoundary(s[b])
    decreases |s| - k
  {
    if k == |s| || IsBoundary(s[k]) then k else Boundary(s, k + 1)
  }

  lemma {:induction false} BoundaryIsFirst(s: Stream, k: nat, i: nat)
    requires k <= i < |s|
    requires IsBoundary(s[i])
    ensures Boundary(s, k) <= i
    decreases i - k
  {
    if !IsBoundary(s[k]) {
      BoundaryIsFirst(s, k + 1, i);
    }
  }

  lemma {:induction false} LastBeginIsLast(s: Stream, i: nat)
    requires i < |s| && IsBegin(s[i])
    ensures LastBegin(s).Some? && i <= LastBegin(s).value
  {
    if !IsBegin(s[|s| - 1]) {
      LastBeginIsLast(s[..|s| - 1], i);
    }
  }

  /** The scope that is still being recorded at the end of s. */
  function ActiveScope(s: Stream): (r: Option<nat>)
    ensures r.Some? ==> r.value < |s| && IsBegin(s[r.value])
  {
    var last := LastBegin(s);
    if last.Some? && Boundary(s, last.value + 1) == |s| then last else None
  }

  /** The latest scope, when it was ended in suspended form, nothing has begun since,
      and no unavailable recording lies in between. */
  function SuspendedScope(s: Stream): (r: Option<nat>)
    ensures r.Some? ==> r.value < |s| && IsBegin(s[r.value]) && Boundary(s, r.value + 1) < |s|
                        && IsEnd(s[Boundary(s, r.value + 1)]) && Suspends(s[r.value].command.action.info)
  {
    var last := LastBegin(s);
    if last.None? then None
    else
      var b := Boundary(s, last.value + 1);
      if b < |s| && IsEnd(s[b]) && Suspends(s[last.value].command.action.info)
         && (forall k :: b < k < |s| ==> !s[k].Missing?)
      then last else None
  }

  /** The work commands of s[from..], in order. */
  function Work(s: Stream, from: nat, registry: Registry): seq<Command>
    requires from <= |s|
  {
    if from == |s| then []
    else
      var e := s[|s| - 1];
      Work(s[..|s| - 1], from, registry) + if IsWork(e, registry) then [e.command] else []
  }

  /** Work recorded since the suspended scope ended. */
  function Intervening(s: Stream, registry: Registry): seq<Command> {
    var scope := SuspendedScope(s);
    if scope.Some? then Work(s, Boundary(s, scope.value + 1), registry) else []
  }

  // ---------------------------------------------------------------------------
  // Findings

  datatype Kind =
    | BeginWhileRendering
    | ResumeWithoutSuspend
    | CommandsBetweenSuspendAndResume
    | ResumeParametersDiffer
    | RenderingBeforeResume
    | EndWithoutBegin
    | NotEndedInCommandBuffer
    | SuspendedNotResumed

  /** related is the begin index of the other scope involved, if there is one. */
  datatype Finding = Finding(kind: Kind, index: Option<nat>, related: Option<nat>, commands: seq<Command>)

  /** The findings of a begin command, given the begin of the active scope, the begin of the
      suspended scope and the work in between. */
  function BeginFindings(c: Command, active: Option<nat>, suspended: Option<(nat, RenderingInfo)>,
                         intervening: seq<Command>): seq<Finding>
    requires c.action.Begin?
  {
    (if active.Some? then [Finding(BeginWhileRendering, Some(c.index), active, [])] else [])
    + (if Resumes(c.action.info) then
         if suspended.None? then [Finding(ResumeWithoutSuspend, Some(c.index), None, [])]
         else
           (if intervening != []
            then [Finding(CommandsBetweenSuspendAndResume, Some(c.index), Some(suspended.value.0), intervening)]
            else [])
           + (if RenderingKey(suspended.value.1) != RenderingKey(c.action.info)
              then [Finding(ResumeParametersDiffer, Some(c.index), Some(suspended.value.0), [])] else [])
       else if suspended.Some?
       then [Finding(RenderingBeforeResume, Some(c.index), Some(suspended.value.0), intervening)]
       else [])
  }

  /** The begin index of the active scope of s. */
  function ActiveBegin(s: Stream): Option<nat> {
    var j := ActiveScope(s);
    if j.Some? then Some(s[j.value].command.index) else None
  }

  /** The begin index and parameters of the suspended scope of s. */
  function SuspendedBegin(s: Stream): Option<(nat, RenderingInfo)> {
    var j := SuspendedScope(s);
    if j.Some? then Some((s[j.value].command.index, s[j.value].command.action.info)) else None
  }

  /** The findings that event e deserves after the prefix s. */
  function Verdict(s: Stream, e: Event, registry: Registry): seq<Finding> {
    if IsBegin(e) then BeginFindings(e.command, ActiveBegin(s), SuspendedBegin(s), Intervening(s, registry))
    else if IsEnd(e) && ActiveScope(s).None? then [Finding(EndWithoutBegin, Some(e.command.index), None, [])]
    else if e.Close? && ActiveScope(s).Some?
    then [Finding(NotEndedInCommandBuffer, Some(e.endIndex), ActiveBegin(s), [])]
    else []
  }

  /** The findings of a whole stream, event by event. */
  function Verdicts(s: Stream, registry: Registry): seq<Finding> {
    if s == [] then []
    else Verdicts(s[..|s| - 1], registry) + Verdict(s[..|s| - 1], s[|s| - 1], registry)
  }

  /** What the end of the batch adds. */
  function Closing(s: Stream, registry: Registry, submit: Option<nat>): seq<Finding> {
    var scope := SuspendedScope(s);
    if scope.Some?
    then [Finding(SuspendedNotResumed, submit, Some(s[scope.value].command.index), Intervening(s, registry))]
    else []
  }

  // ---------------------------------------------------------------------------
  // What the inspector could not see

  datatype Note =
    | Unavailable(buffer: Handle)
    | Unregistered(at: nat)
    | SecondaryNotExpanded(at: nat)
    | BindNotReconstructed(at: nat)
    | ContextUnknown(buffer: Handle)

  function NotesOn(e: Event, registry: Registry): seq<Note> {
    match e
    case Missing(h) => [Unavailable(h)]
    case Issue(_, c) =>
      if c.action.Begin? || c.action.End? then []
      else
        (if c.name in registry then [] else [Unregistered(c.index)])
        + (if c.action.Execute? then [SecondaryNotExpanded(c.index)] else [])
        + (if c.action.BindOther? then [BindNotReconstructed(c.index)] else [])
    case _ => []
  }

  function Notes(s: Stream, registry: Registry): seq<Note> {
    if s == [] then [] else Notes(s[..|s| - 1], registry) + NotesOn(s[|s| - 1], registry)
  }

  // ---------------------------------------------------------------------------
  // Bindings in force at the end of a prefix: the last command that wrote the slot
  // since the recording was opened or an unreconstructed bind invalidated everything

  datatype PipelineBind = PipelineBind(index: nat, pipeline: Handle)
  datatype DescriptorBind = DescriptorBind(index: nat, descriptors: Handle, layout: Handle, dynamicOffsets: seq<nat>)
  datatype VertexBind = VertexBind(index: nat, buffer: Handle, offset: nat, size: Option<nat>, stride: Option<nat>)
  datatype IndexBind = IndexBind(index: nat, buffer: Handle, offset: nat, indexType: string)

  predicate Forgets(e: Event) {
    e.Open? || (e.Issue? && e.command.action.BindOther?)
  }

  predicate Covers(e: Event, slot: nat) {
    && e.Issue? && e.command.action.BindVertices?
    && e.command.action.firstBinding <= slot < e.command.action.firstBinding + |e.command.action.slots|
  }

  function SlotOf(e: Event, slot: nat): VertexSlot
    requires Covers(e, slot)
  {
    e.command.action.slots[slot - e.command.action.firstBinding]
  }

  function PipelineAt(s: Stream): Option<PipelineBind> {
    if s == [] then None
    else
      var e := s[|s| - 1];
      if Forgets(e) then None
      else if e.Issue? && e.command.action.BindPipeline? && e.command.action.graphics
      then Some(PipelineBind(e.command.index, e.command.action.pipeline))
      else PipelineAt(s[..|s| - 1])
  }

  predicate CoversSet(e: Event, slot: nat) {
    && e.Issue? && e.command.action.BindDescriptors? && e.command.action.graphicsSets
    && e.command.action.firstSet <= slot < e.command.action.firstSet + |e.command.action.sets|
  }

  function SetBind(c: Command, slot: nat): DescriptorBind
    requires c.action.BindDescriptors?
    requires c.action.firstSet <= slot < c.action.firstSet + |c.action.sets|
  {
    DescriptorBind(c.index, c.action.sets[slot - c.action.firstSet], c.action.layout, c.action.dynamicOffsets)
  }

  function DescriptorAt(s: Stream, slot: nat): Option<DescriptorBind> {
    if s == [] then None
    else
      var e := s[|s| - 1];
      if Forgets(e) then None
      else if CoversSet(e, slot) then
        var a := e.command.action;
        Some(DescriptorBind(e.command.index, a.sets[slot - a.firstSet], a.layout, a.dynamicOffsets))
      else DescriptorAt(s[..|s| - 1], slot)
  }

  /** The stride in force: from the latest covering command that supplied one. */
  function StrideAt(s: Stream, slot: nat): Option<nat> {
    if s == [] || Forgets(s[|s| - 1]) then None
    else if Covers(s[|s| - 1], slot) && SlotOf(s[|s| - 1], slot).stride.Some?
    then SlotOf(s[|s| - 1], slot).stride
    else StrideAt(s[..|s| - 1], slot)
  }

  /** The buffer in force: from the latest covering command, whatever it says of strides. */
  function VertexAt(s: Stream, slot: nat): Option<VertexBind> {
    if s == [] || Forgets(s[|s| - 1]) then None
    else if Covers(s[|s| - 1], slot) then
      var v := SlotOf(s[|s| - 1], slot);
      Some(VertexBind(s[|s| - 1].command.index, v.buffer, v.offset, v.size, StrideAt(s, slot)))
    else
      var before := VertexAt(s[..|s| - 1], slot);
      if before.Some? then Some(before.value.(stride := StrideAt(s, slot))) else None
  }

  function IndexAt(s: Stream): Option<IndexBind> {
    if s == [] then None
    else
      var e := s[|s| - 1];
      if Forgets(e) then None
      else if e.Issue? && e.command.action.BindIndex?
      then Some(IndexBind(e.command.index, e.command.action.buffer, e.command.action.offset, e.command.action.indexType))
      else IndexAt(s[..|s| - 1])
  }

  /** Push-constant writes since the recording was opened; no bind discards them. */
  function PushesAt(s: Stream): seq<(nat, string)> {
    if s == [] then []
    else
      var e := s[|s| - 1];
      if e.Open? then []
      else PushesAt(s[..|s| - 1])
           + if e.Issue? && e.command.action.Push? then [(e.command.index, e.command.action.range)] else []
  }

  datatype Bindings = Bindings(
    pipeline: Option<PipelineBind>,
    descriptors: map<nat, DescriptorBind>,
    vertices: map<nat, VertexBind>,
    indices: Option<IndexBind>,
    pushes: seq<(nat, string)>)

  const NO_BINDINGS := Bindings(None, map[], map[], None, [])

  function Lookup<V>(m: map<nat, V>, k: nat): Option<V> {
    if k in m then Some(m[k]) else None
  }

  /** b is exactly the last-write state of s. */
  ghost predicate InForce(s: Stream, b: Bindings) {
    && b.pipeline == PipelineAt(s)
    && (forall slot: nat :: Lookup(b.descriptors, slot) == DescriptorAt(s, slot))
    && (forall slot: nat :: Lookup(b.vertices, slot) == VertexAt(s, slot))
    && b.indices == IndexAt(s)
    && b.pushes == PushesAt(s)
  }

  // ---------------------------------------------------------------------------
  // Reported scopes

  /** What a vertex bind leaves in a slot: without a stride of its own it keeps the old one. */
  function VertexWrite(index: nat, v: VertexSlot, previous: Option<VertexBind>): VertexBind {
    VertexBind(index, v.buffer, v.offset, v.size,
               if v.stride.Some? then v.stride
               else if previous.Some? then previous.value.stride else None)
  }

  function SetsWritten(c: Command): map<nat, DescriptorBind>
    requires c.action.BindDescriptors?
  {
    map k: nat | c.action.firstSet <= k < c.action.firstSet + |c.action.sets| :: SetBind(c, k)
  }

  function VerticesWritten(c: Command, n: nat, before: map<nat, VertexBind>): map<nat, VertexBind>
    requires c.action.BindVertices? && n <= |c.action.slots|
  {
    map k: nat | c.action.firstBinding <= k < c.action.firstBinding + n ::
      VertexWrite(c.index, c.action.slots[k - c.action.firstBinding], Lookup(before, k))
  }

  /** The binding state after one more event, as a running update. */
  function Rebound(b: Bindings, e: Event): Bindings {
    match e
    case Open(_, _, _) => NO_BINDINGS
    case Issue(_, c) => (
      match c.action
      case BindOther => NO_BINDINGS.(pushes := b.pushes)
      case BindPipeline(graphics, p) => if graphics then b.(pipeline := Some(PipelineBind(c.index, p))) else b
      case BindDescriptors(graphics, _, _, _, _) =>
        if graphics then b.(descriptors := b.descriptors + SetsWritten(c)) else b
      case BindVertices(_, slots) =>
        b.(vertices := b.vertices + VerticesWritten(c, |slots|, b.vertices))
      case BindIndex(buffer, offset, indexType) => b.(indices := Some(IndexBind(c.index, buffer, offset, indexType)))
      case Push(range) => b.(pushes := b.pushes + [(c.index, range)])
      case _ => b)
    case _ => b
  }

  function BindingsAt(s: Stream): Bindings {
    if s == [] then NO_BINDINGS else Rebound(BindingsAt(s[..|s| - 1]), s[|s| - 1])
  }

  datatype DrawRecord = DrawRecord(index: nat, arguments: string, bindings: Bindings)

  datatype Scope = Scope(begin: nat, buffer: Handle, info: RenderingInfo, end: Option<nat>, draws: seq<DrawRecord>)

  /** The draws of s[lo..hi], each with what was bound there. */
  function DrawRecords(s: Stream, lo: nat, hi: nat): seq<DrawRecord>
    requires lo <= hi <= |s|
  {
    if lo == hi then []
    else
      DrawRecords(s, lo, hi - 1)
      + if IsDraw(s[hi - 1])
        then [DrawRecord(s[hi - 1].command.index, s[hi - 1].command.action.arguments, BindingsAt(s[..hi - 1]))]
        else []
  }

  /** The scope begun at position j: it runs to the next boundary, has an end exactly when
      that boundary is an end command, and holds exactly the draws in between. */
  function ScopeAt(s: Stream, j: nat): Scope
    requires j < |s| && IsBegin(s[j])
  {
    var b := Boundary(s, j + 1);
    Scope(s[j].command.index, s[j].owner, s[j].command.action.info,
          if b < |s| && IsEnd(s[b]) then Some(s[b].command.index) else None,
          DrawRecords(s, j + 1, b))
  }

  /** The scopes begun in s[..n], in order. */
  function ScopesBegun(s: Stream, n: nat): seq<Scope>
    requires n <= |s|
  {
    if n == 0 then []
    else ScopesBegun(s, n - 1) + if IsBegin(s[n - 1]) then [ScopeAt(s, n - 1)] else []
  }

  function Scopes(s: Stream): seq<Scope> { ScopesBegun(s, |s|) }
}
