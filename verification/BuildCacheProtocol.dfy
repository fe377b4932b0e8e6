/**
 The files that prepare and finish of tools/prepare-build.py leave behind, as a state
 machine in which the process may die after any step and a file that is being written may be
 torn: whatever happened before, a build-cache.json that is there describes the inputs in
 the work tree.
 */
module BuildCacheProtocol {
  import opened Options
  import opened PrepareBuild
  import opened WorkTree

  /** A JSON file on disk: not there, torn, or whole. */
  datatype Doc<T> = Absent | Torn | Whole(value: T)

  /** build-report.json: of a running build (it still has its start time) or a completed one. */
  datatype Status = Building | Complete

  datatype Disk = Disk(cache: Doc<Record>, pending: Doc<Record>, report: Doc<Status>, work: Tree)

  /** Where the running process is. record is what it is preparing. */
  datatype Process =
    | Idle
    | Started(record: Record)          // build-cache.json was read
    | Unpublished(record: Record)      // build-cache.json is gone
    | Changing(record: Record)         // the report is gone too; trees are being changed
    | Settled(record: Record)          // the work tree holds the inputs
    | WritingPending(record: Record)
    | PendingWritten(record: Record)
    | WritingReport(record: Record)
    | ReportRead                       // finish has read a running build's report
    | WritingComplete
    | CompleteWritten

  datatype State = State(disk: Disk, process: Process)

  datatype Step =
    | Begin(record: Record)
    | DropCache
    | DropReport
    | ChangeTree(tree: Tree)
    | TreeDone
    | OpenPending
    | ClosePending
    | OpenReport
    | CloseReport
    | Build(tree: Tree)
    | ReadReport
    | OpenComplete
    | CloseComplete
    | Publish
    | Die

  /** What a build may do to the work tree: anything but touch inputs on record. */
  ghost predicate LeavesInputsAlone(d: Disk, tree: Tree) {
    && (d.cache.Whole? ==> forall p :: p in d.cache.value.files ==> At(tree, p) == At(d.work, p))
    && (d.pending.Whole? ==> forall p :: p in d.pending.value.files ==> At(tree, p) == At(d.work, p))
  }

  /** The steps of prepare (tools/prepare-build.py:24-116), of a build, and of finish
      (tools/prepare-build.py:120-126), each from where the process stands. A step that the
      program would answer with an exception is not enabled; the process can Die instead. */
  ghost predicate Takes(s: State, step: Step, t: State) {
    match step
    case Begin(record) => s.process == Idle && t == s.(process := Started(record))
    case DropCache =>
      s.process.Started? && t == State(s.disk.(cache := Absent), Unpublished(s.process.record))
    case DropReport =>
      s.process.Unpublished? && t == State(s.disk.(report := Absent), Changing(s.process.record))
    case ChangeTree(tree) =>
      s.process.Changing? && t == s.(disk := s.disk.(work := tree))
    case TreeDone =>
      s.process.Changing? && Agrees(s.disk.work, s.process.record.files)
      && t == s.(process := Settled(s.process.record))
    case OpenPending =>
      s.process.Settled? && t == State(s.disk.(pending := Torn), WritingPending(s.process.record))
    case ClosePending =>
      s.process.WritingPending?
      && t == State(s.disk.(pending := Whole(s.process.record)), PendingWritten(s.process.record))
    case OpenReport =>
      s.process.PendingWritten? && t == State(s.disk.(report := Torn), WritingReport(s.process.record))
    case CloseReport =>
      s.process.WritingReport? && t == State(s.disk.(report := Whole(Building)), Idle)
    case Build(tree) =>
      s.process == Idle && LeavesInputsAlone(s.disk, tree) && t == s.(disk := s.disk.(work := tree))
    case ReadReport =>
      s.process == Idle && s.disk.report == Whole(Building) && t == s.(process := ReportRead)
    case OpenComplete =>
      s.process == ReportRead && t == State(s.disk.(report := Torn), WritingComplete)
    case CloseComplete =>
      s.process == WritingComplete && t == State(s.disk.(report := Whole(Complete)), CompleteWritten)
    case Publish =>
      s.process == CompleteWritten && !s.disk.pending.Absent?
      && t == State(s.disk.(cache := s.disk.pending, pending := Absent), Idle)
    case Die => t == s.(process := Idle)
  }

  /** A whole record of the inputs that are in the work tree. */
  ghost predicate Describes(doc: Doc<Record>, work: Tree) {
    doc.Whole? && Agrees(work, doc.value.files)
  }

  ghost predicate Invariant(s: State) {
    // a published record describes the work tree
    && (!s.disk.cache.Absent? ==> Describes(s.disk.cache, s.disk.work))
    // a record that finish would publish describes the work tree
    && (s.disk.report == Whole(Building) ==> Describes(s.disk.pending, s.disk.work))
    && (s.process in {ReportRead, WritingComplete, CompleteWritten} ==> Describes(s.disk.pending, s.disk.work))
    // nothing is published, and nothing can be, while the tree changes
    && (s.process.Unpublished? || InTree(s.process) || s.process.WritingReport? ==> s.disk.cache.Absent?)
    && (InTree(s.process) ==> s.disk.report.Absent?)
    && (s.process.WritingReport? || s.process.WritingComplete? ==> s.disk.report.Torn?)
    && (s.process.CompleteWritten? ==> s.disk.report == Whole(Complete))
    // the record being prepared is in the tree once the tree is done
    && (TreeIsDone(s.process) ==> Agrees(s.disk.work, s.process.record.files))
    && (s.process.PendingWritten? || s.process.WritingReport? ==> s.disk.pending == Whole(s.process.record))
  }

  /** Between the removal of the report and the writing of the new one. */
  predicate InTree(p: Process) { p.Changing? || p.Settled? || p.WritingPending? || p.PendingWritten? }

  predicate TreeIsDone(p: Process) { p.Settled? || p.WritingPending? || p.PendingWritten? || p.WritingReport? }

  lemma {:induction false} AgreesStays(work: Tree, tree: Tree, files: Inputs)
    requires Agrees(work, files)
    requires forall p :: p in files ==> At(tree, p) == At(work, p)
    ensures Agrees(tree, files)
  {
    forall p | p in files
      ensures Matches(tree, p, files[p])
    {
      assert At(tree, p) == At(work, p) && Matches(work, p, files[p]);
    }
  }

  lemma {:induction false} StepKeeps(s: State, step: Step, t: State)
    requires Invariant(s) && Takes(s, step, t)
    ensures Invariant(t)
  {
    if step.Build? {
      if s.disk.cache.Whole? {
        AgreesStays(s.disk.work, step.tree, s.disk.cache.value.files);
      }
      if Describes(s.disk.pending, s.disk.work) {
        AgreesStays(s.disk.work, step.tree, s.disk.pending.value.files);
      }
    }
  }

  /** A run from an empty output directory. */
  ghost predicate IsRun(states: seq<State>, steps: seq<Step>) {
    && |states| == |steps| + 1
    && states[0].process == Idle && states[0].disk.cache.Absent? && states[0].disk.pending.Absent?
    && states[0].disk.report.Absent?
    && forall i :: 0 <= i < |steps| ==> Takes(states[i], steps[i], states[i + 1])
  }

  lemma {:induction false} RunKeeps(states: seq<State>, steps: seq<Step>, n: nat)
    requires IsRun(states, steps) && n < |states|
    ensures Invariant(states[n])
  {
    if n > 0 {
      RunKeeps(states, steps, n - 1);
      StepKeeps(states[n - 1], steps[n - 1], states[n]);
    }
  }

  /** In every state of every run, with deaths and torn writes anywhere, a build cache that is
      there is whole and records the inputs of the work tree. */
  lemma {:induction false} PublishedDescribesWork(states: seq<State>, steps: seq<Step>, n: nat)
    requires IsRun(states, steps) && n < |states|
    ensures !states[n].disk.cache.Absent? ==> Describes(states[n].disk.cache, states[n].disk.work)
  {
    RunKeeps(states, steps, n);
  }

  /** finish could get, or has got, as far as publishing the pending record. */
  predicate Publishable(s: State) {
    s.disk.report == Whole(Building) || s.process in {ReportRead, WritingComplete, CompleteWritten}
    || s.process.PendingWritten? || s.process.WritingReport?
  }

  /** Step k closed the record that is pending in state n, and only builds touched the tree
      between the two. */
  ghost predicate ClosedAt(states: seq<State>, steps: seq<Step>, k: nat, n: nat)
    requires |states| == |steps| + 1
  {
    && k < n < |states| && steps[k] == ClosePending
    && states[n].disk.pending.Whole? && states[k].process == WritingPending(states[n].disk.pending.value)
    && forall i :: k <= i < n ==> !steps[i].ChangeTree?
  }

  lemma {:induction false} StaysPublishable(s: State, step: Step, t: State)
    requires Invariant(s) && Takes(s, step, t) && Publishable(t) && step != ClosePending
    ensures Publishable(s) && t.disk.pending == s.disk.pending && !step.ChangeTree?
  {
  }

  lemma {:induction false} PendingOrigin(states: seq<State>, steps: seq<Step>, n: nat) returns (k: nat)
    requires IsRun(states, steps) && n < |states| && Publishable(states[n])
    ensures ClosedAt(states, steps, k, n)
  {
    RunKeeps(states, steps, n - 1);
    assert Takes(states[n - 1], steps[n - 1], states[n]);
    if steps[n - 1] == ClosePending {
      k := n - 1;
    } else {
      StaysPublishable(states[n - 1], steps[n - 1], states[n]);
      k := PendingOrigin(states, steps, n - 1);
    }
  }

  /** The record that finish publishes is one that a prepare wrote when its tree was done, and
      no prepare has touched the tree since. */
  lemma {:induction false} PublishedWasPrepared(states: seq<State>, steps: seq<Step>, n: nat)
    requires IsRun(states, steps) && n < |steps| && steps[n] == Publish
    ensures states[n + 1].disk.cache == states[n].disk.pending
    ensures exists k :: ClosedAt(states, steps, k, n)
  {
    assert Takes(states[n], steps[n], states[n + 1]);
    var k := PendingOrigin(states, steps, n);
  }
}
