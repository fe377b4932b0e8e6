/**
 What a report on a command stream has to contain, position by position: which findings and notes each
 event deserves, and which scopes there are. Nothing here follows a running state.
 */
module RenderingFindings {
  import opened Options
  import opened RenderingStream

  // ---------------------------------------------------------------------------
  // Scopes around a position

  /** The scope begun at j is still being recorded at the end of s. */
  ghost predicate ActiveIn(s: Stream, j: nat) {
    j < |s| && IsBegin(s[j]) && forall k | j < k < |s| :: !IsBoundary(s[k])
  }

  /** The scope begun at j was ended at b in suspended form, and since then nothing has begun and no
      recording was unavailable. */
  ghost predicate SuspendedIn(s: Stream, j: nat, b: nat) {
    && j < b < |s| && IsBegin(s[j]) && Suspends(s[j].command.action.info) && IsEnd(s[b])
    && (forall k | j < k < b :: !IsBoundary(s[k]))
    && (forall k | b < k < |s| :: !IsBegin(s[k]) && !s[k].Missing?)
  }

  ghost predicate AnyActive(s: Stream) { exists j: nat :: ActiveIn(s, j) }
  ghost predicate AnySuspended(s: Stream) { exists j: nat, b: nat :: SuspendedIn(s, j, b) }

  predicate Rising(at: seq<nat>) { forall i, j | 0 <= i < j < |at| :: at[i] < at[j] }

  /** The positions of the work in s[lo..hi]. */
  function WorkAt(s: Stream, lo: nat, hi: nat, registry: Registry): (at: seq<nat>)
    requires lo <= hi <= |s|
    ensures Rising(at) && forall i | 0 <= i < |at| :: lo <= at[i] < hi && IsWork(s[at[i]], registry)
    ensures forall k | lo <= k < hi && IsWork(s[k], registry) :: k in at
  {
    if lo == hi then []
    else WorkAt(s, lo, hi - 1, registry) + if IsWork(s[hi - 1], registry) then [hi - 1] else []
  }

  /** The commands at some positions. */
  function CommandsAt(s: Stream, at: seq<nat>): (r: seq<Command>)
    requires forall i | 0 <= i < |at| :: at[i] < |s| && s[at[i]].Issue?
    ensures |r| == |at| && forall i :: 0 <= i < |r| ==> r[i] == s[at[i]].command
  {
    seq(|at|, i requires 0 <= i < |at| => s[at[i]].command)
  }

  /** The action and synchronization commands since position b. */
  function WorkSince(s: Stream, b: nat, registry: Registry): seq<Command>
    requires b < |s|
  {
    CommandsAt(s, WorkAt(s, b + 1, |s|, registry))
  }

  /** Apart from the three low flag bits the parameters are the same. */
  predicate SameParameters(a: RenderingInfo, b: RenderingInfo) { a.params == b.params && a.flags / 8 == b.flags / 8 }

  // ---------------------------------------------------------------------------
  // Findings

  /** f names the begin of the suspended scope and the work since its end. */
  ghost predicate FollowsSuspension(s: Stream, f: Finding, registry: Registry) {
    exists j: nat, b: nat :: SuspendedIn(s, j, b) && f.related == Some(s[j].command.index) &&
                             f.commands == WorkSince(s, b, registry)
  }

  /** The stream s and then the event e deserve the finding f. */
  ghost predicate Deserves(s: Stream, e: Event, f: Finding, registry: Registry) {
    match f.kind
    case BeginWhileRendering =>
      IsBegin(e) && f.index == Some(e.command.index) && f.commands == [] &&
      exists j: nat :: ActiveIn(s, j) && f.related == Some(s[j].command.index)
    case ResumeWithoutSuspend =>
      IsBegin(e) && Resumes(e.command.action.info) && !AnySuspended(s) &&
      f.index == Some(e.command.index) && f.related == None && f.commands == []
    case CommandsBetweenSuspendAndResume =>
      IsBegin(e) && Resumes(e.command.action.info) && f.index == Some(e.command.index) &&
      f.commands != [] && FollowsSuspension(s, f, registry)
    case ResumeParametersDiffer =>
      IsBegin(e) && Resumes(e.command.action.info) && f.index == Some(e.command.index) && f.commands == [] &&
      exists j: nat, b: nat :: SuspendedIn(s, j, b) && f.related == Some(s[j].command.index) &&
                               !SameParameters(s[j].command.action.info, e.command.action.info)
    case RenderingBeforeResume =>
      IsBegin(e) && !Resumes(e.command.action.info) && f.index == Some(e.command.index) &&
      FollowsSuspension(s, f, registry)
    case EndWithoutBegin =>
      IsEnd(e) && !AnyActive(s) && f.index == Some(e.command.index) && f.related == None && f.commands == []
    case NotEndedInCommandBuffer =>
      e.Close? && f.index == Some(e.endIndex) && f.commands == [] &&
      exists j: nat :: ActiveIn(s, j) && f.related == Some(s[j].command.index)
    case SuspendedNotResumed => false
  }

  /** The stream deserves the finding f at its end. */
  ghost predicate DeservesAtEnd(s: Stream, submit: Option<nat>, f: Finding, registry: Registry) {
    f.kind.SuspendedNotResumed? && f.index == submit && FollowsSuspension(s, f, registry)
  }

  /** The findings of one event come in this order. */
  function Rank(kind: Kind): nat {
    match kind
    case BeginWhileRendering => 0
    case ResumeWithoutSuspend => 1
    case CommandsBetweenSuspendAndResume => 2
    case ResumeParametersDiffer => 3
    case _ => 4
  }

  function Concat<T>(groups: seq<seq<T>>): seq<T> {
    if groups == [] then [] else Concat(groups[..|groups| - 1]) + groups[|groups| - 1]
  }

  ghost predicate Ranked(group: seq<Finding>) {
    forall i, j | 0 <= i < j < |group| :: Rank(group[i].kind) < Rank(group[j].kind)
  }

  /** group has exactly the findings that e deserves after s, each once and in order. */
  ghost predicate FindingsFor(group: seq<Finding>, s: Stream, e: Event, registry: Registry) {
    Ranked(group) && forall f: Finding :: f in group <==> Deserves(s, e, f, registry)
  }

  ghost predicate FindingsAtEnd(group: seq<Finding>, s: Stream, submit: Option<nat>, registry: Registry) {
    Ranked(group) && forall f: Finding :: f in group <==> DeservesAtEnd(s, submit, f, registry)
  }

  /** Each group has the findings of its event. */
  ghost predicate GroupsFor(groups: seq<seq<Finding>>, s: Stream, registry: Registry) {
    |groups| == |s| && forall p | 0 <= p < |s| :: FindingsFor(groups[p], s[..p], s[p], registry)
  }

  /** findings has those of each event in turn, and then those of the end. */
  ghost predicate FindingsOf(findings: seq<Finding>, s: Stream, submit: Option<nat>, registry: Registry) {
    exists groups: seq<seq<Finding>>, last: seq<Finding> ::
      GroupsFor(groups, s, registry) && FindingsAtEnd(last, s, submit, registry) && findings == Concat(groups) + last
  }

  // ---------------------------------------------------------------------------
  // Notes

  /** The event e deserves the note n. */
  predicate DeservesNote(e: Event, n: Note, registry: Registry) {
    match n
    case Unavailable(h) => e == Missing(h)
    case Unregistered(at) =>
      e.Issue? && !IsBegin(e) && !IsEnd(e) && e.command.name !in registry && at == e.command.index
    case SecondaryNotExpanded(at) => e.Issue? && e.command.action.Execute? && at == e.command.index
    case BindNotReconstructed(at) => e.Issue? && e.command.action.BindOther? && at == e.command.index
    case ContextUnknown(_) => false
  }

  function NoteRank(n: Note): nat {
    match n
    case Unregistered(_) => 0
    case SecondaryNotExpanded(_) => 1
    case BindNotReconstructed(_) => 2
    case _ => 3
  }

  ghost predicate NotesFor(group: seq<Note>, e: Event, registry: Registry) {
    && (forall i, j | 0 <= i < j < |group| :: NoteRank(group[i]) < NoteRank(group[j]))
    && forall n: Note :: n in group <==> DeservesNote(e, n, registry)
  }

  ghost predicate NotesOf(notes: seq<Note>, s: Stream, registry: Registry) {
    exists groups: seq<seq<Note>> :: NoteGroupsFor(groups, s, registry) && notes == Concat(groups)
  }

  ghost predicate NoteGroupsFor(groups: seq<seq<Note>>, s: Stream, registry: Registry) {
    |groups| == |s| && forall p | 0 <= p < |s| :: NotesFor(groups[p], s[p], registry)
  }

  // ---------------------------------------------------------------------------
  // Scopes

  function BeginsAt(s: Stream, n: nat): (at: seq<nat>)
    requires n <= |s|
    ensures Rising(at) && forall i | 0 <= i < |at| :: at[i] < n && IsBegin(s[at[i]])
    ensures forall k | 0 <= k < n && IsBegin(s[k]) :: k in at
  {
    if n == 0 then [] else BeginsAt(s, n - 1) + if IsBegin(s[n - 1]) then [n - 1] else []
  }

  function DrawsAt(s: Stream, lo: nat, hi: nat): (at: seq<nat>)
    requires lo <= hi <= |s|
    ensures Rising(at) && forall i | 0 <= i < |at| :: lo <= at[i] < hi && IsDraw(s[at[i]])
    ensures forall k | lo <= k < hi && IsDraw(s[k]) :: k in at
  {
    if lo == hi then [] else DrawsAt(s, lo, hi - 1) + if IsDraw(s[hi - 1]) then [hi - 1] else []
  }

  /** The draw d was made at position p, with the bindings that were in force there. */
  ghost predicate DrawnAt(s: Stream, d: DrawRecord, p: nat) {
    && p < |s| && IsDraw(s[p])
    && d.index == s[p].command.index && d.arguments == s[p].command.action.arguments
    && InForce(s[..p], d.bindings)
  }

  /** The scope begun at j runs up to b: to the first boundary, or the end of the stream. */
  ghost predicate RunsTo(s: Stream, j: nat, b: nat) {
    j < b <= |s| && (forall k | j < k < b :: !IsBoundary(s[k])) && (b < |s| ==> IsBoundary(s[b]))
  }

  /** scope is the one begun at j, with its end if it has one, and with the draws inside it. */
  ghost predicate ScopeFrom(s: Stream, j: nat, scope: Scope) {
    && j < |s| && IsBegin(s[j])
    && scope.begin == s[j].command.index && scope.buffer == s[j].owner && scope.info == s[j].command.action.info
    && exists b: nat ::
         && RunsTo(s, j, b)
         && scope.end == (if b < |s| && IsEnd(s[b]) then Some(s[b].command.index) else None)
         && |scope.draws| == |DrawsAt(s, j + 1, b)|
         && forall i | 0 <= i < |scope.draws| :: DrawnAt(s, scope.draws[i], DrawsAt(s, j + 1, b)[i])
  }

  /** There is one scope for each begin, in order. */
  ghost predicate ScopesOf(scopes: seq<Scope>, s: Stream) {
    && |scopes| == |BeginsAt(s, |s|)|
    && forall i | 0 <= i < |scopes| :: ScopeFrom(s, BeginsAt(s, |s|)[i], scopes[i])
  }

  // ---------------------------------------------------------------------------
  // The verdicts of RenderingStream are what is deserved

  lemma {:induction false} ActiveIff(s: Stream, j: nat)
    ensures ActiveScope(s) == Some(j) <==> ActiveIn(s, j)
  {
    if ActiveScope(s) == Some(j) {
      forall k | j < k < |s|
        ensures !IsBoundary(s[k])
      {
        if IsBoundary(s[k]) { BoundaryIsFirst(s, j + 1, k); }
      }
    }
    if ActiveIn(s, j) {
      LastBeginIsLast(s, j);
      assert LastBegin(s) == Some(j);
      assert Boundary(s, j + 1) == |s|;
    }
  }

  lemma {:induction false} SuspendedIff(s: Stream, j: nat, b: nat)
    ensures SuspendedIn(s, j, b) <==> SuspendedScope(s) == Some(j) && b == Boundary(s, j + 1)
  {
    if SuspendedIn(s, j, b) {
      LastBeginIsLast(s, j);
      var last := LastBegin(s).value;
      assert IsBoundary(s[last]);
      assert last == j;
      BoundaryIsFirst(s, j + 1, b);
    }
    if SuspendedScope(s) == Some(j) && b == Boundary(s, j + 1) {
      forall k | j < k < b
        ensures !IsBoundary(s[k])
      {
        if IsBoundary(s[k]) { BoundaryIsFirst(s, j + 1, k); }
      }
      forall k | b < k < |s|
        ensures !IsBegin(s[k])
      {
        if IsBegin(s[k]) { LastBeginIsLast(s, k); }
      }
    }
  }

  lemma {:induction false} WorkIsPicked(s: Stream, from: nat, registry: Registry)
    requires from <= |s|
    ensures Work(s, from, registry) == CommandsAt(s, WorkAt(s, from, |s|, registry))
    decreases |s|
  {
    if from < |s| {
      var n := |s| - 1;
      WorkIsPicked(s[..n], from, registry);
      WorkAtPrefix(s, from, n, registry);
      assert WorkAt(s[..n], from, n, registry) == WorkAt(s, from, n, registry);
      SameCommands(s, n, WorkAt(s, from, n, registry));
      if IsWork(s[n], registry) { OneMoreCommand(s, WorkAt(s, from, n, registry), n); }
    }
  }

  lemma {:induction false} SameCommands(s: Stream, n: nat, at: seq<nat>)
    requires n <= |s| && forall i | 0 <= i < |at| :: at[i] < n && s[at[i]].Issue?
    ensures CommandsAt(s[..n], at) == CommandsAt(s, at)
  {
  }

  lemma {:induction false} OneMoreCommand(s: Stream, at: seq<nat>, k: nat)
    requires forall i | 0 <= i < |at| :: at[i] < |s| && s[at[i]].Issue?
    requires k < |s| && s[k].Issue?
    ensures CommandsAt(s, at + [k]) == CommandsAt(s, at) + [s[k].command]
  {
  }

  lemma {:induction false} WorkAtPrefix(s: Stream, lo: nat, hi: nat, registry: Registry)
    requires lo <= hi <= |s|
    ensures forall n | hi <= n <= |s| :: WorkAt(s[..n], lo, hi, registry) == WorkAt(s, lo, hi, registry)
  {
    if lo < hi { WorkAtPrefix(s, lo, hi - 1, registry); }
  }

  /** What the inspector collects is the work since the suspended scope ended. */
  lemma {:induction false} InterveningIsWork(s: Stream, j: nat, b: nat, registry: Registry)
    requires SuspendedIn(s, j, b)
    ensures Intervening(s, registry) == WorkSince(s, b, registry)
  {
    SuspendedIff(s, j, b);
    WorkIsPicked(s, b, registry);
    WorkAtFirst(s, b, |s|, registry);
  }

  lemma {:induction false} WorkAtFirst(s: Stream, lo: nat, hi: nat, registry: Registry)
    requires lo < hi <= |s| && !IsWork(s[lo], registry)
    ensures WorkAt(s, lo, hi, registry) == WorkAt(s, lo + 1, hi, registry)
  {
    if lo + 1 < hi { WorkAtFirst(s, lo, hi - 1, registry); }
  }

  /** What the verdict on an event depends on, without the searches. */
  lemma {:induction false} Context(s: Stream, registry: Registry)
    ensures ActiveBegin(s).Some? <==> AnyActive(s)
    ensures SuspendedBegin(s).Some? <==> AnySuspended(s)
    ensures forall j: nat | ActiveIn(s, j) :: ActiveBegin(s) == Some(s[j].command.index)
    ensures forall j: nat, b: nat | SuspendedIn(s, j, b) ::
              && SuspendedBegin(s) == Some((s[j].command.index, s[j].command.action.info))
              && Intervening(s, registry) == WorkSince(s, b, registry)
  {
    forall j: nat
      ensures ActiveIn(s, j) <==> ActiveScope(s) == Some(j)
    {
      ActiveIff(s, j);
    }
    forall j: nat, b: nat
      ensures SuspendedIn(s, j, b) <==> SuspendedScope(s) == Some(j) && b == Boundary(s, j + 1)
    {
      SuspendedIff(s, j, b);
    }
    forall j: nat, b: nat | SuspendedIn(s, j, b)
      ensures Intervening(s, registry) == WorkSince(s, b, registry)
    {
      InterveningIsWork(s, j, b, registry);
    }
    if SuspendedScope(s).Some? {
      var j := SuspendedScope(s).value;
      assert SuspendedIn(s, j, Boundary(s, j + 1));
    }
  }

  lemma {:induction false} KeysDiffer(a: RenderingInfo, b: RenderingInfo)
    ensures RenderingKey(a) == RenderingKey(b) <==> SameParameters(a, b)
  {
  }

  /** What a begin deserves, given the active scope, the suspended scope and the work since. */
  predicate BeginDeserves(c: Command, active: Option<nat>, suspended: Option<(nat, RenderingInfo)>, work: seq<Command>,
                          f: Finding)
    requires c.action.Begin?
  {
    var resumes := Resumes(c.action.info);
    f.index == Some(c.index) &&
    match f.kind
    case BeginWhileRendering => active.Some? && f.related == active && f.commands == []
    case ResumeWithoutSuspend => resumes && suspended.None? && f.related == None && f.commands == []
    case CommandsBetweenSuspendAndResume =>
      resumes && suspended.Some? && work != [] && f.related == Some(suspended.value.0) && f.commands == work
    case ResumeParametersDiffer =>
      resumes && suspended.Some? && !SameParameters(suspended.value.1, c.action.info)
      && f.related == Some(suspended.value.0) && f.commands == []
    case RenderingBeforeResume =>
      !resumes && suspended.Some? && f.related == Some(suspended.value.0) && f.commands == work
    case _ => false
  }

  /** The scope that a finding relates to is the active one. */
  lemma {:induction false} ActiveRelated(s: Stream, related: Option<nat>)
    ensures (exists j: nat :: ActiveIn(s, j) && related == Some(s[j].command.index)) <==>
            ActiveBegin(s).Some? && related == ActiveBegin(s)
  {
    if ActiveScope(s).Some? { ActiveIff(s, ActiveScope(s).value); }
    if j: nat :| ActiveIn(s, j) && related == Some(s[j].command.index) { ActiveIff(s, j); }
  }

  /** j and b are the begin and the end of the suspended scope. */
  lemma {:induction false} SuspendedContext(s: Stream, j: nat, b: nat, registry: Registry)
    requires SuspendedIn(s, j, b)
    ensures SuspendedBegin(s) == Some((s[j].command.index, s[j].command.action.info))
    ensures Intervening(s, registry) == WorkSince(s, b, registry)
  {
    SuspendedIff(s, j, b);
    InterveningIsWork(s, j, b, registry);
  }

  lemma {:induction false} SuspendedExists(s: Stream)
    ensures SuspendedBegin(s).Some? <==> AnySuspended(s)
  {
    if SuspendedScope(s).Some? {
      var j := SuspendedScope(s).value;
      SuspendedIff(s, j, Boundary(s, j + 1));
    }
    if j: nat, b: nat :| SuspendedIn(s, j, b) { SuspendedIff(s, j, b); }
  }

  lemma {:induction false} DeservesActive(s: Stream, e: Event, f: Finding, registry: Registry)
    requires IsBegin(e) && f.kind.BeginWhileRendering?
    ensures Deserves(s, e, f, registry) <==>
            BeginDeserves(e.command, ActiveBegin(s), SuspendedBegin(s), Intervening(s, registry), f)
  {
    ActiveRelated(s, f.related);
  }

  lemma {:induction false} SuspendedThere(s: Stream, registry: Registry) returns (j: nat, b: nat)
    requires SuspendedBegin(s).Some?
    ensures SuspendedIn(s, j, b) && SuspendedBegin(s).value == (s[j].command.index, s[j].command.action.info)
    ensures Intervening(s, registry) == WorkSince(s, b, registry)
  {
    SuspendedExists(s);
    j, b :| SuspendedIn(s, j, b);
    SuspendedContext(s, j, b, registry);
  }

  lemma {:induction false} DeservesWithout(s: Stream, e: Event, f: Finding, registry: Registry)
    requires IsBegin(e) && f.kind.ResumeWithoutSuspend?
    ensures Deserves(s, e, f, registry) <==>
            BeginDeserves(e.command, ActiveBegin(s), SuspendedBegin(s), Intervening(s, registry), f)
  {
    SuspendedExists(s);
  }

  lemma {:induction false} FollowsIff(s: Stream, f: Finding, registry: Registry)
    ensures FollowsSuspension(s, f, registry) <==>
            && SuspendedBegin(s).Some?
            && f.related == Some(SuspendedBegin(s).value.0) && f.commands == Intervening(s, registry)
  {
    if SuspendedBegin(s).Some? {
      var j, b := SuspendedThere(s, registry);
    }
    if j: nat, b: nat :| SuspendedIn(s, j, b) && f.related == Some(s[j].command.index) &&
                         f.commands == WorkSince(s, b, registry) {
      SuspendedContext(s, j, b, registry);
    }
  }

  lemma {:induction false} DeservesWork(s: Stream, e: Event, f: Finding, registry: Registry)
    requires IsBegin(e) && (f.kind.CommandsBetweenSuspendAndResume? || f.kind.RenderingBeforeResume?)
    ensures Deserves(s, e, f, registry) <==>
            BeginDeserves(e.command, ActiveBegin(s), SuspendedBegin(s), Intervening(s, registry), f)
  {
    FollowsIff(s, f, registry);
  }

  lemma {:induction false} DeservesDiffering(s: Stream, e: Event, f: Finding, registry: Registry)
    requires IsBegin(e) && f.kind.ResumeParametersDiffer?
    ensures Deserves(s, e, f, registry) <==>
            BeginDeserves(e.command, ActiveBegin(s), SuspendedBegin(s), Intervening(s, registry), f)
  {
    if SuspendedBegin(s).Some? {
      var j, b := SuspendedThere(s, registry);
    }
    if j: nat, b: nat :| SuspendedIn(s, j, b) && f.related == Some(s[j].command.index) &&
                         !SameParameters(s[j].command.action.info, e.command.action.info) {
      SuspendedContext(s, j, b, registry);
    }
  }

  lemma {:induction false} BeginDeservesIff(s: Stream, e: Event, f: Finding, registry: Registry)
    requires IsBegin(e)
    ensures Deserves(s, e, f, registry) <==>
            BeginDeserves(e.command, ActiveBegin(s), SuspendedBegin(s), Intervening(s, registry), f)
  {
    match f.kind
    case BeginWhileRendering => DeservesActive(s, e, f, registry);
    case ResumeWithoutSuspend => DeservesWithout(s, e, f, registry);
    case CommandsBetweenSuspendAndResume => DeservesWork(s, e, f, registry);
    case RenderingBeforeResume => DeservesWork(s, e, f, registry);
    case ResumeParametersDiffer => DeservesDiffering(s, e, f, registry);
    case _ =>
  }

  lemma {:induction false} BeginGroup(c: Command, active: Option<nat>, suspended: Option<(nat, RenderingInfo)>,
                                      work: seq<Command>)
    requires c.action.Begin?
    ensures Ranked(BeginFindings(c, active, suspended, work))
    ensures forall f: Finding ::
              f in BeginFindings(c, active, suspended, work) <==> BeginDeserves(c, active, suspended, work, f)
  {
    if suspended.Some? { KeysDiffer(suspended.value.1, c.action.info); }
    BeginRanked(c, active, suspended, work);
    forall f: Finding
      ensures f in BeginFindings(c, active, suspended, work) <==> BeginDeserves(c, active, suspended, work, f)
    {
    }
  }

  lemma {:induction false} BeginRanked(c: Command, active: Option<nat>, suspended: Option<(nat, RenderingInfo)>,
                                       work: seq<Command>)
    requires c.action.Begin?
    ensures Ranked(BeginFindings(c, active, suspended, work))
  {
  }

  lemma {:induction false} BeginVerdict(s: Stream, e: Event, registry: Registry)
    requires IsBegin(e)
    ensures FindingsFor(Verdict(s, e, registry), s, e, registry)
  {
    BeginGroup(e.command, ActiveBegin(s), SuspendedBegin(s), Intervening(s, registry));
    forall f: Finding
      ensures f in Verdict(s, e, registry) <==> Deserves(s, e, f, registry)
    {
      BeginDeservesIff(s, e, f, registry);
    }
  }

  lemma {:induction false} OtherVerdict(s: Stream, e: Event, registry: Registry)
    requires !IsBegin(e)
    ensures FindingsFor(Verdict(s, e, registry), s, e, registry)
  {
    Context(s, registry);
  }

  /** What the end deserves, given the suspended scope and the work since. */
  predicate EndDeserves(submit: Option<nat>, suspended: Option<(nat, RenderingInfo)>, work: seq<Command>, f: Finding) {
    suspended.Some? && f == Finding(SuspendedNotResumed, submit, Some(suspended.value.0), work)
  }

  lemma {:induction false} EndDeservesIff(s: Stream, submit: Option<nat>, f: Finding, registry: Registry)
    ensures DeservesAtEnd(s, submit, f, registry) <==>
            EndDeserves(submit, SuspendedBegin(s), Intervening(s, registry), f)
  {
    FollowsIff(s, f, registry);
  }

  lemma {:induction false} ClosingVerdict(s: Stream, submit: Option<nat>, registry: Registry)
    ensures FindingsAtEnd(Closing(s, registry, submit), s, submit, registry)
  {
    forall f: Finding
      ensures f in Closing(s, registry, submit) <==> DeservesAtEnd(s, submit, f, registry)
    {
      EndDeservesIff(s, submit, f, registry);
    }
  }

  lemma {:induction false} ConcatSnoc<T>(groups: seq<seq<T>>, group: seq<T>)
    ensures Concat(groups + [group]) == Concat(groups) + group
  {
    assert (groups + [group])[..|groups|] == groups;
  }

  lemma {:induction false} GroupsSnoc(groups: seq<seq<Finding>>, group: seq<Finding>, s: Stream, registry: Registry)
    requires s != [] && GroupsFor(groups, s[..|s| - 1], registry)
    requires FindingsFor(group, s[..|s| - 1], s[|s| - 1], registry)
    ensures GroupsFor(groups + [group], s, registry)
  {
    var n, t := |s| - 1, s[..|s| - 1];
    forall p | 0 <= p < |s|
      ensures FindingsFor((groups + [group])[p], s[..p], s[p], registry)
    {
      if p < n {
        assert FindingsFor(groups[p], t[..p], t[p], registry);
        assert t[..p] == s[..p] && t[p] == s[p] && (groups + [group])[p] == groups[p];
      }
    }
  }

  lemma {:induction false} EventVerdict(s: Stream, e: Event, registry: Registry)
    ensures FindingsFor(Verdict(s, e, registry), s, e, registry)
  {
    if IsBegin(e) { BeginVerdict(s, e, registry); } else { OtherVerdict(s, e, registry); }
  }

  lemma {:induction false} VerdictGroups(s: Stream, registry: Registry) returns (groups: seq<seq<Finding>>)
    ensures GroupsFor(groups, s, registry) && Concat(groups) == Verdicts(s, registry)
  {
    if s == [] {
      groups := [];
    } else {
      var n := |s| - 1;
      var before := VerdictGroups(s[..n], registry);
      var group := Verdict(s[..n], s[n], registry);
      ConcatSnoc(before, group);
      EventVerdict(s[..n], s[n], registry);
      GroupsSnoc(before, group, s, registry);
      groups := before + [group];
    }
  }

  /** The verdicts of a stream are the findings that its events and its end deserve, in order. */
  lemma {:induction false} VerdictsAreDeserved(s: Stream, submit: Option<nat>, registry: Registry)
    ensures FindingsOf(Verdicts(s, registry) + Closing(s, registry, submit), s, submit, registry)
  {
    var groups := VerdictGroups(s, registry);
    ClosingVerdict(s, submit, registry);
  }

  lemma {:induction false} NoteGroup(e: Event, registry: Registry)
    ensures NotesFor(NotesOn(e, registry), e, registry)
  {
  }

  lemma {:induction false} NoteGroupsSnoc(groups: seq<seq<Note>>, group: seq<Note>, s: Stream, registry: Registry)
    requires s != [] && NoteGroupsFor(groups, s[..|s| - 1], registry) && NotesFor(group, s[|s| - 1], registry)
    ensures NoteGroupsFor(groups + [group], s, registry)
  {
    var n, t := |s| - 1, s[..|s| - 1];
    forall p | 0 <= p < |s|
      ensures NotesFor((groups + [group])[p], s[p], registry)
    {
      if p < n { assert NotesFor(groups[p], t[p], registry); }
    }
  }

  lemma {:induction false} NoteGroups(s: Stream, registry: Registry) returns (groups: seq<seq<Note>>)
    ensures NoteGroupsFor(groups, s, registry) && Concat(groups) == Notes(s, registry)
  {
    if s == [] {
      groups := [];
    } else {
      var n := |s| - 1;
      var before := NoteGroups(s[..n], registry);
      var group := NotesOn(s[n], registry);
      ConcatSnoc(before, group);
      NoteGroup(s[n], registry);
      NoteGroupsSnoc(before, group, s, registry);
      groups := before + [group];
    }
  }

  /** The notes of a stream are those that its events deserve, in order. */
  lemma {:induction false} NotesAreDeserved(s: Stream, registry: Registry)
    ensures NotesOf(Notes(s, registry), s, registry)
  {
    var groups := NoteGroups(s, registry);
  }
}
