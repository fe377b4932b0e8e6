/**
 inspect of tools/inspect-rendering-capture.py: it follows command-buffer recordings
 through a capture and inspects every submitted batch, and at the end every surviving
 recording that no captured submit mentions.
 */
module RenderingCapture {
  import opened Options
  import opened RenderingStream
  import opened RenderingBatch
  import opened RenderingTracker
  import opened Sorting

  /** The reports of the first n batches of a submit. */
  function SubmitReports(t: Tracker, index: nat, batches: seq<seq<Handle>>, n: nat, registry: Registry):
      (r: seq<BatchReport>)
    requires n <= |batches|
    ensures |r| == n
    ensures forall i | 0 <= i < n :: r[i] == BatchSpec(Some(index), Lookups(t, batches[i]), registry)
  {
    seq(n, i requires 0 <= i < n => BatchSpec(Some(index), Lookups(t, batches[i]), registry))
  }

  /** The reports that one call adds. */
  function RowReports(t: Tracker, row: Row, registry: Registry): seq<BatchReport>
    requires row.index >= 0
  {
    if row.call.Submit? then SubmitReports(t, row.index, row.call.batches, |row.call.batches|, registry) else []
  }

  function Submissions(rows: seq<Row>, registry: Registry): seq<BatchReport>
    requires Increasing(rows)
  {
    if rows == [] then []
    else Submissions(rows[..|rows| - 1], registry)
         + RowReports(TrackerAfter(rows[..|rows| - 1]), rows[|rows| - 1], registry)
  }

  /** A complete recording that no captured submit mentions. */
  predicate Survives(t: Tracker, h: Handle) {
    h in t.recordings && h !in t.submitted && t.recordings[h].end.Some?
  }

  function SurvivorReport(t: Tracker, h: Handle, registry: Registry): BatchReport {
    var report := BatchSpec(None, [(h, Find(t, h))], registry);
    report.(uncovered := report.uncovered + [ContextUnknown(h)])
  }

  /** The reports on the survivors among some keys, in order. */
  function SurvivorReports(t: Tracker, order: seq<Handle>, registry: Registry): seq<BatchReport> {
    if order == [] then []
    else
      var before, last := SurvivorReports(t, order[..|order| - 1], registry), order[|order| - 1];
      if Survives(t, last) then before + [SurvivorReport(t, last, registry)] else before
  }

  /** The top-level notes: a command whose recording is not tracked, and a recording that has neither
      an end nor a captured submit. */
  datatype Uncovered = StartUnavailable(index: int, command: string) | NoEndOrSubmit(buffer: Handle, begin: nat)

  function RowUncovered(t: Tracker, row: Row): seq<Uncovered> {
    if row.call.Record? && row.call.buffer !in t.recordings then [StartUnavailable(row.index, row.call.name)] else []
  }

  function StartsUncovered(rows: seq<Row>): seq<Uncovered>
    requires Increasing(rows)
  {
    if rows == [] then []
    else StartsUncovered(rows[..|rows| - 1]) + RowUncovered(TrackerAfter(rows[..|rows| - 1]), rows[|rows| - 1])
  }

  function EndsUncovered(t: Tracker, order: seq<Handle>): seq<Uncovered> {
    if order == [] then []
    else
      var before, last := EndsUncovered(t, order[..|order| - 1]), order[|order| - 1];
      if last in t.recordings && last !in t.submitted && t.recordings[last].end.None?
      then before + [NoEndOrSubmit(last, t.recordings[last].begin)]
      else before
  }

  datatype Outcome =
    | Inspected(submissions: seq<BatchReport>, survivors: seq<BatchReport>, uncovered: seq<Uncovered>)
    | IndicesMustIncrease
    | NothingToInspect

  /** There is one report for each survivor. */
  lemma {:induction false} SurvivorReported(t: Tracker, order: seq<Handle>, registry: Registry, h: Handle)
    requires h in order && Survives(t, h)
    ensures SurvivorReport(t, h, registry) in SurvivorReports(t, order, registry)
  {
    if h != order[|order| - 1] {
      SurvivorReported(t, order[..|order| - 1], registry, h);
    }
  }

  /** The recordings as they stood just before the call with the given index. */
  function TrackerBefore(rows: seq<Row>, index: int): Tracker
    requires Increasing(rows)
  {
    if rows == [] then NOTHING
    else if rows[|rows| - 1].index == index then TrackerAfter(rows[..|rows| - 1])
    else TrackerBefore(rows[..|rows| - 1], index)
  }

  /** A report on a batch of recordings of t, all of them in call order and recorded
      before the submit. */
  ghost predicate Sound(report: BatchReport, t: Tracker, registry: Registry) {
    && report.submit.Some?
    && Ordered(t, report.submit.value)
    && exists handles :: report == BatchSpec(report.submit, Lookups(t, handles), registry)
  }

  lemma {:induction false} SubmitReportSound(t: Tracker, index: nat, batches: seq<seq<Handle>>, n: nat, i: nat,
                                             registry: Registry)
    requires i < n <= |batches| && Ordered(t, index)
    ensures SubmitReports(t, index, batches, n, registry)[i].submit == Some(index)
    ensures Sound(SubmitReports(t, index, batches, n, registry)[i], t, registry)
  {
    BatchReportSound(t, index, batches[i], registry);
  }

  lemma {:induction false} BatchReportSound(t: Tracker, index: nat, handles: seq<Handle>, registry: Registry)
    requires Ordered(t, index)
    ensures Sound(BatchSpec(Some(index), Lookups(t, handles), registry), t, registry)
  {
  }

  lemma {:induction false} TrackerBeforeLast(rows: seq<Row>, index: int)
    requires rows != [] && Increasing(rows)
    ensures TrackerBefore(rows, rows[|rows| - 1].index) == TrackerAfter(rows[..|rows| - 1])
    ensures index < NextIndex(rows[..|rows| - 1]) ==>
              TrackerBefore(rows, index) == TrackerBefore(rows[..|rows| - 1], index) && index < NextIndex(rows)
  {
  }

  ghost predicate SoundIn(r: BatchReport, rows: seq<Row>, registry: Registry)
    requires Increasing(rows)
  {
    r.submit.Some? && r.submit.value < NextIndex(rows) && Sound(r, TrackerBefore(rows, r.submit.value), registry)
  }

  ghost predicate AllSoundIn(reports: seq<BatchReport>, rows: seq<Row>, registry: Registry)
    requires Increasing(rows)
  {
    forall i :: 0 <= i < |reports| ==> SoundIn(reports[i], rows, registry)
  }

  lemma {:induction false} LastSubmitSound(rows: seq<Row>, registry: Registry)
    requires rows != [] && Increasing(rows)
    ensures AllSoundIn(RowReports(TrackerAfter(rows[..|rows| - 1]), rows[|rows| - 1], registry), rows, registry)
  {
    var before, last := rows[..|rows| - 1], rows[|rows| - 1];
    TrackerOrdered(before);
    OrderedGrows(TrackerAfter(before), NextIndex(before), last.index);
    TrackerBeforeLast(rows, 0);
    var reports := RowReports(TrackerAfter(before), last, registry);
    forall k | 0 <= k < |reports|
      ensures SoundIn(reports[k], rows, registry)
    {
      SubmitReportSound(TrackerAfter(before), last.index, last.call.batches, |last.call.batches|, k, registry);
    }
  }

  lemma {:induction false} StaysSound(reports: seq<BatchReport>, rows: seq<Row>, registry: Registry)
    requires rows != [] && Increasing(rows)
    requires AllSoundIn(reports, rows[..|rows| - 1], registry)
    ensures AllSoundIn(reports, rows, registry)
  {
    forall i | 0 <= i < |reports|
      ensures SoundIn(reports[i], rows, registry)
    {
      assert SoundIn(reports[i], rows[..|rows| - 1], registry);
      TrackerBeforeLast(rows, reports[i].submit.value);
    }
  }

  lemma {:induction false} BothSound(a: seq<BatchReport>, b: seq<BatchReport>, rows: seq<Row>, registry: Registry)
    requires Increasing(rows) && AllSoundIn(a, rows, registry) && AllSoundIn(b, rows, registry)
    ensures AllSoundIn(a + b, rows, registry)
  {
  }

  /** Every batch report of a capture is about the recordings as they stood before its
      submit, each in call order. */
  lemma {:induction false} SubmissionsSound(rows: seq<Row>, registry: Registry)
    requires Increasing(rows)
    ensures AllSoundIn(Submissions(rows, registry), rows, registry)
  {
    if rows != [] {
      var before := rows[..|rows| - 1];
      SubmissionsSound(before, registry);
      StaysSound(Submissions(before, registry), rows, registry);
      LastSubmitSound(rows, registry);
      BothSound(Submissions(before, registry), RowReports(TrackerAfter(before), rows[|rows| - 1], registry),
                rows, registry);
    }
  }

  // ---------------------------------------------------------------------------
  // What the reports are about, read off the calls

  /** The recording of h after some calls, if it has one. */
  ghost predicate RecordingAt(rows: seq<Row>, h: Handle, r: Option<Recording>) {
    if r.None? then forall k: nat :: !BegunAt(rows, h, k)
    else exists k: nat :: BegunAt(rows, h, k) && RecordingIs(rows, h, k, r.value)
  }

  lemma {:induction false} FindIsRecording(rows: seq<Row>, h: Handle)
    requires Increasing(rows)
    ensures RecordingAt(rows, h, Find(TrackerAfter(rows), h))
  {
    TrackedIsHistory(rows);
    assert HoldsFor(rows, TrackerAfter(rows), h);
  }

  /** The buffers of a batch, each with its recording at the time. */
  ghost predicate BatchAt(rows: seq<Row>, handles: seq<Handle>, batch: Batch) {
    && |batch| == |handles|
    && forall i | 0 <= i < |batch| :: batch[i].0 == handles[i] && RecordingAt(rows, handles[i], batch[i].1)
  }

  lemma {:induction false} LookupsAreBatch(rows: seq<Row>, handles: seq<Handle>)
    requires Increasing(rows)
    ensures BatchAt(rows, handles, Lookups(TrackerAfter(rows), handles))
  {
    forall i | 0 <= i < |handles|
      ensures RecordingAt(rows, handles[i], Lookups(TrackerAfter(rows), handles)[i].1)
    {
      FindIsRecording(rows, handles[i]);
    }
  }

  ghost predicate BatchReported(report: BatchReport, rows: seq<Row>, index: int, handles: seq<Handle>, registry: Registry) {
    index >= 0 &&
    exists batch: Batch :: BatchAt(rows, handles, batch) && report == BatchSpec(Some(index), batch, registry)
  }

  predicate SlotsRise(slots: seq<(nat, nat)>) {
    forall i, j | 0 <= i < j < |slots| ::
      slots[i].0 < slots[j].0 || (slots[i].0 == slots[j].0 && slots[i].1 < slots[j].1)
  }

  predicate IsSlot(rows: seq<Row>, n: nat, b: nat) {
    n < |rows| && rows[n].call.Submit? && b < |rows[n].call.batches|
  }

  function RowSlots(n: nat, count: nat): (r: seq<(nat, nat)>)
    ensures |r| == count && forall i | 0 <= i < count :: r[i] == (n, i)
  {
    seq(count, i requires 0 <= i < count => (n, i as nat))
  }

  /** Every batch of every submit, in order: the row and the number of the batch. */
  function Slots(rows: seq<Row>): seq<(nat, nat)> {
    if rows == [] then []
    else
      var n := |rows| - 1;
      Slots(rows[..n]) + RowSlots(n, if rows[n].call.Submit? then |rows[n].call.batches| else 0)
  }

  ghost predicate ListsSlots(slots: seq<(nat, nat)>, rows: seq<Row>) {
    && SlotsRise(slots) && (forall i | 0 <= i < |slots| :: IsSlot(rows, slots[i].0, slots[i].1))
    && forall n: nat, b: nat | IsSlot(rows, n, b) :: (n, b) in slots
  }

  lemma {:induction false} SlotsListed(rows: seq<Row>)
    ensures ListsSlots(Slots(rows), rows)
  {
    if rows != [] {
      var n := |rows| - 1;
      SlotsListed(rows[..n]);
      MoreSlots(rows, Slots(rows[..n]), if rows[n].call.Submit? then |rows[n].call.batches| else 0);
    }
  }

  lemma {:induction false} MoreSlots(rows: seq<Row>, slots: seq<(nat, nat)>, count: nat)
    requires rows != [] && ListsSlots(slots, rows[..|rows| - 1])
    requires var last := rows[|rows| - 1].call; count == if last.Submit? then |last.batches| else 0
    ensures ListsSlots(slots + RowSlots(|rows| - 1, count), rows)
  {
    var n := |rows| - 1;
    var all := slots + RowSlots(n, count);
    forall m: nat, b: nat | IsSlot(rows, m, b)
      ensures (m, b) in all
    {
      if m < n {
        assert IsSlot(rows[..n], m, b);
      } else {
        assert all[|slots| + b] == (m, b);
      }
    }
    forall i | 0 <= i < |all|
      ensures IsSlot(rows, all[i].0, all[i].1)
    {
      if i < |slots| { assert IsSlot(rows[..n], slots[i].0, slots[i].1); }
    }
  }

  /** There is one report for each batch of each submit, on the recordings as they stood before it. */
  ghost predicate SubmissionsReported(reports: seq<BatchReport>, rows: seq<Row>, registry: Registry) {
    && ListsSlots(Slots(rows), rows) && |reports| == |Slots(rows)|
    && forall i | 0 <= i < |reports| :: SlotReported(reports[i], rows, Slots(rows)[i], registry)
  }

  ghost predicate SlotReported(report: BatchReport, rows: seq<Row>, slot: (nat, nat), registry: Registry) {
    var (n, b) := slot;
    IsSlot(rows, n, b) && BatchReported(report, rows[..n], rows[n].index, rows[n].call.batches[b], registry)
  }

  /** The report of a slot, from what is tracked before its row. */
  predicate SlotIs(report: BatchReport, rows: seq<Row>, slot: (nat, nat), registry: Registry) {
    var (n, b) := slot;
    && IsSlot(rows, n, b) && Increasing(rows[..n]) && rows[n].index >= 0
    && report == BatchSpec(Some(rows[n].index), Lookups(TrackerAfter(rows[..n]), rows[n].call.batches[b]), registry)
  }

  lemma {:induction false} SlotIsReported(report: BatchReport, rows: seq<Row>, slot: (nat, nat), registry: Registry)
    requires SlotIs(report, rows, slot, registry)
    ensures SlotReported(report, rows, slot, registry)
  {
    LookupsAreBatch(rows[..slot.0], rows[slot.0].call.batches[slot.1]);
  }

  predicate AllSlots(reports: seq<BatchReport>, rows: seq<Row>, slots: seq<(nat, nat)>, registry: Registry) {
    |reports| == |slots| && forall i | 0 <= i < |reports| :: SlotIs(reports[i], rows, slots[i], registry)
  }

  lemma {:induction false} EarlierSlots(rows: seq<Row>, n: nat, reports: seq<BatchReport>, slots: seq<(nat, nat)>,
                                        registry: Registry)
    requires n <= |rows| && AllSlots(reports, rows[..n], slots, registry)
    ensures AllSlots(reports, rows, slots, registry)
  {
    forall i | 0 <= i < |reports|
      ensures SlotIs(reports[i], rows, slots[i], registry)
    {
      assert SlotIs(reports[i], rows[..n], slots[i], registry);
      assert rows[..n][..slots[i].0] == rows[..slots[i].0] && rows[..n][slots[i].0] == rows[slots[i].0];
    }
  }

  lemma {:induction false} LastSlots(rows: seq<Row>, registry: Registry)
    requires rows != [] && Increasing(rows) && rows[|rows| - 1].call.Submit?
    ensures var n := |rows| - 1;
            AllSlots(RowReports(TrackerAfter(rows[..n]), rows[n], registry), rows,
                     RowSlots(n, |rows[n].call.batches|), registry)
  {
  }

  lemma {:induction false} BothSlots(rows: seq<Row>, a: seq<BatchReport>, sa: seq<(nat, nat)>, b: seq<BatchReport>,
                                     sb: seq<(nat, nat)>, registry: Registry)
    requires AllSlots(a, rows, sa, registry) && AllSlots(b, rows, sb, registry)
    ensures AllSlots(a + b, rows, sa + sb, registry)
  {
    var p := (report: BatchReport, slot: (nat, nat)) => SlotIs(report, rows, slot, registry);
    BothPaired(p, a, sa, b, sb);
    assert forall i | 0 <= i < |a + b| :: p((a + b)[i], (sa + sb)[i]);
  }

  lemma {:induction false} BothPaired<T(!new), U(!new)>(p: (T, U) -> bool, a: seq<T>, sa: seq<U>, b: seq<T>, sb: seq<U>)
    requires |a| == |sa| && |b| == |sb|
    requires forall i | 0 <= i < |a| :: p(a[i], sa[i])
    requires forall i | 0 <= i < |b| :: p(b[i], sb[i])
    ensures forall i | 0 <= i < |a + b| :: p((a + b)[i], (sa + sb)[i])
  {
  }

  lemma {:induction false} SubmissionSlots(rows: seq<Row>, registry: Registry)
    requires Increasing(rows)
    ensures AllSlots(Submissions(rows, registry), rows, Slots(rows), registry)
  {
    if rows != [] {
      var n := |rows| - 1;
      var before := Submissions(rows[..n], registry);
      SubmissionSlots(rows[..n], registry);
      EarlierSlots(rows, n, before, Slots(rows[..n]), registry);
      var reports := RowReports(TrackerAfter(rows[..n]), rows[n], registry);
      var slots := RowSlots(n, if rows[n].call.Submit? then |rows[n].call.batches| else 0);
      if rows[n].call.Submit? { LastSlots(rows, registry); }
      BothSlots(rows, before, Slots(rows[..n]), reports, slots, registry);
    }
  }

  lemma {:induction false} AllSubmissions(rows: seq<Row>, registry: Registry)
    requires Increasing(rows)
    ensures SubmissionsReported(Submissions(rows, registry), rows, registry)
  {
    SlotsListed(rows);
    SubmissionSlots(rows, registry);
    var reports, slots := Submissions(rows, registry), Slots(rows);
    forall i | 0 <= i < |reports|
      ensures SlotReported(reports[i], rows, slots[i], registry)
    {
      SlotIsReported(reports[i], rows, slots[i], registry);
    }
  }

  /** h has a recording, no submit has mentioned it, and it has an end, or none. */
  ghost predicate Unsubmitted(rows: seq<Row>, h: Handle, ended: bool) {
    exists k: nat :: BegunAt(rows, h, k) && !SubmittedSince(rows, h, k) &&
                     (ended <==> exists j | k < j < |rows| :: rows[j].call == EndBuffer(h))
  }

  lemma {:induction false} EndedIff(rows: seq<Row>, h: Handle, k: nat, end: Option<nat>)
    requires EndSince(rows, h, k, end)
    ensures end.Some? <==> exists j | k < j < |rows| :: rows[j].call == EndBuffer(h)
  {
  }

  lemma {:induction false} UnsubmittedIff(rows: seq<Row>, h: Handle, ended: bool)
    requires Increasing(rows)
    ensures var t := TrackerAfter(rows);
            Unsubmitted(rows, h, ended) <==>
            h in t.recordings && h !in t.submitted && (ended <==> t.recordings[h].end.Some?)
  {
    var t := TrackerAfter(rows);
    TrackedIsHistory(rows);
    assert HoldsFor(rows, t, h);
    forall k: nat | BegunAt(rows, h, k)
      ensures h in t.recordings
      ensures t.recordings[h].end.Some? <==> exists j | k < j < |rows| :: rows[j].call == EndBuffer(h)
    {
      EndedIff(rows, h, k, t.recordings[h].end);
    }
  }

  /** hs has exactly the buffers with such recordings, each once, in the order of the begins that made
      their keys. */
  ghost predicate ListsUnsubmitted(hs: seq<Handle>, rows: seq<Row>, ended: bool) {
    && (forall i, j | 0 <= i < j < |hs| :: hs[i] != hs[j])
    && (forall h: Handle :: h in hs <==> Unsubmitted(rows, h, ended))
    && OrderHolds(rows, hs)
  }

  /** The report on a recording alone says that its context is unknown. */
  ghost predicate AloneReported(report: BatchReport, rows: seq<Row>, h: Handle, registry: Registry) {
    exists r: Option<Recording> ::
      && RecordingAt(rows, h, r)
      && var alone := BatchSpec(None, [(h, r)], registry);
         report == alone.(uncovered := alone.uncovered + [ContextUnknown(h)])
  }

  ghost predicate SurvivorsReported(reports: seq<BatchReport>, rows: seq<Row>, registry: Registry) {
    exists hs: seq<Handle> ::
      && ListsUnsubmitted(hs, rows, true) && |hs| == |reports|
      && forall i | 0 <= i < |hs| :: AloneReported(reports[i], rows, hs[i], registry)
  }

  /** The keys that are passed over. */
  function Passed(t: Tracker, ended: bool): set<Handle> {
    set h | h in t.recordings && !(h !in t.submitted && (ended <==> t.recordings[h].end.Some?))
  }

  lemma {:induction false} KeptUnsubmitted(rows: seq<Row>, ended: bool)
    requires Increasing(rows)
    ensures ListsUnsubmitted(Kept(TrackerAfter(rows).order, Passed(TrackerAfter(rows), ended)), rows, ended)
  {
    var t := TrackerAfter(rows);
    OrderedKeys(rows);
    OrderIsHistory(rows);
    var gone := Passed(t, ended);
    KeptLists(t.order, gone);
    var hs := Kept(t.order, gone);
    forall h: Handle
      ensures h in hs <==> Unsubmitted(rows, h, ended)
    {
      UnsubmittedIff(rows, h, ended);
    }
    forall x: Handle, y: Handle | Before(hs, x, y)
      ensures Before(t.order, x, y)
    {
      KeptBefore(t.order, gone, x, y);
    }
  }

  lemma {:induction false} SurvivorsAreKept(t: Tracker, order: seq<Handle>, registry: Registry)
    requires forall h <- order :: h in t.recordings
    ensures var hs := Kept(order, Passed(t, true));
            var reports := SurvivorReports(t, order, registry);
            |reports| == |hs| && forall i | 0 <= i < |hs| :: reports[i] == SurvivorReport(t, hs[i], registry)
  {
    if order != [] { SurvivorsAreKept(t, order[..|order| - 1], registry); }
  }

  lemma {:induction false} AllSurvivors(rows: seq<Row>, registry: Registry)
    requires Increasing(rows)
    ensures SurvivorsReported(SurvivorReports(TrackerAfter(rows), TrackerAfter(rows).order, registry), rows, registry)
  {
    var t := TrackerAfter(rows);
    OrderedKeys(rows);
    var hs := Kept(t.order, Passed(t, true));
    KeptUnsubmitted(rows, true);
    SurvivorsAreKept(t, t.order, registry);
    forall i | 0 <= i < |hs|
      ensures AloneReported(SurvivorReport(t, hs[i], registry), rows, hs[i], registry)
    {
      FindIsRecording(rows, hs[i]);
    }
  }

  /** The rows that record for a buffer without a recording. */
  ghost function LostAt(rows: seq<Row>, n: nat): (at: seq<nat>)
    requires n <= |rows|
    ensures forall i, j | 0 <= i < j < |at| :: at[i] < at[j]
    ensures forall i | 0 <= i < |at| :: at[i] < n && IsLost(rows, at[i])
    ensures forall k: nat | k < n && IsLost(rows, k) :: k in at
  {
    if n == 0 then [] else LostAt(rows, n - 1) + if IsLost(rows, n - 1) then [n - 1] else []
  }

  ghost predicate IsLost(rows: seq<Row>, n: nat) {
    n < |rows| && rows[n].call.Record? && forall k: nat :: !BegunAt(rows[..n], rows[n].call.buffer, k)
  }

  ghost predicate StartsNoted(notes: seq<Uncovered>, rows: seq<Row>) {
    NotedAt(notes, rows, LostAt(rows, |rows|))
  }

  lemma {:induction false} LostPrefix(rows: seq<Row>, n: nat, m: nat)
    requires n <= m <= |rows|
    ensures LostAt(rows[..m], n) == LostAt(rows, n)
  {
    if n > 0 {
      LostPrefix(rows, n - 1, m);
      assert rows[..m][..n - 1] == rows[..n - 1] && rows[..m][n - 1] == rows[n - 1];
    }
  }

  lemma {:induction false} LostIff(rows: seq<Row>, n: nat)
    requires n < |rows| && Increasing(rows[..n]) && rows[n].call.Record?
    ensures IsLost(rows, n) <==> rows[n].call.buffer !in TrackerAfter(rows[..n]).recordings
  {
    FindIsRecording(rows[..n], rows[n].call.buffer);
  }

  ghost predicate NotedAt(notes: seq<Uncovered>, rows: seq<Row>, at: seq<nat>) {
    |notes| == |at| &&
    forall i | 0 <= i < |at| ::
      at[i] < |rows| && rows[at[i]].call.Record? && notes[i] == StartUnavailable(rows[at[i]].index, rows[at[i]].call.name)
  }

  lemma {:induction false} NotedBefore(notes: seq<Uncovered>, rows: seq<Row>, n: nat, at: seq<nat>)
    requires n <= |rows| && NotedAt(notes, rows[..n], at)
    ensures NotedAt(notes, rows, at)
  {
  }

  lemma {:induction false} NotedOne(notes: seq<Uncovered>, rows: seq<Row>, at: seq<nat>, n: nat)
    requires NotedAt(notes, rows, at) && n < |rows| && rows[n].call.Record?
    ensures NotedAt(notes + [StartUnavailable(rows[n].index, rows[n].call.name)], rows, at + [n])
  {
  }

  lemma {:induction false} StartsSnoc(rows: seq<Row>, notes: seq<Uncovered>)
    requires rows != [] && StartsNoted(notes, rows[..|rows| - 1])
    ensures var n := |rows| - 1;
            && (!IsLost(rows, n) ==> StartsNoted(notes, rows))
            && (IsLost(rows, n) ==> StartsNoted(notes + [StartUnavailable(rows[n].index, rows[n].call.name)], rows))
  {
    var n := |rows| - 1;
    LostPrefix(rows, n, n);
    NotedBefore(notes, rows, n, LostAt(rows, n));
    if IsLost(rows, n) { NotedOne(notes, rows, LostAt(rows, n), n); }
  }

  lemma {:induction false} AllStarts(rows: seq<Row>)
    requires Increasing(rows)
    ensures StartsNoted(StartsUncovered(rows), rows)
  {
    if rows != [] {
      var n := |rows| - 1;
      AllStarts(rows[..n]);
      StartsSnoc(rows, StartsUncovered(rows[..n]));
      if rows[n].call.Record? { LostIff(rows, n); }
    }
  }

  ghost predicate EndNoted(note: Uncovered, rows: seq<Row>, h: Handle) {
    exists k: nat :: BegunAt(rows, h, k) && note.NoEndOrSubmit? && note.buffer == h && note.begin == rows[k].index
  }

  ghost predicate EndsNoted(notes: seq<Uncovered>, rows: seq<Row>) {
    exists hs: seq<Handle> ::
      && ListsUnsubmitted(hs, rows, false) && |hs| == |notes|
      && forall i | 0 <= i < |hs| :: EndNoted(notes[i], rows, hs[i])
  }

  lemma {:induction false} EndsAreKept(t: Tracker, order: seq<Handle>)
    requires forall h <- order :: h in t.recordings
    ensures var hs := Kept(order, Passed(t, false));
            var notes := EndsUncovered(t, order);
            && |notes| == |hs| && (forall h <- hs :: h in t.recordings)
            && forall i | 0 <= i < |hs| :: notes[i] == NoEndOrSubmit(hs[i], t.recordings[hs[i]].begin)
  {
    if order != [] { EndsAreKept(t, order[..|order| - 1]); }
  }

  lemma {:induction false} AllEnds(rows: seq<Row>)
    requires Increasing(rows)
    ensures EndsNoted(EndsUncovered(TrackerAfter(rows), TrackerAfter(rows).order), rows)
  {
    var t := TrackerAfter(rows);
    OrderedKeys(rows);
    TrackedIsHistory(rows);
    var hs := Kept(t.order, Passed(t, false));
    KeptUnsubmitted(rows, false);
    EndsAreKept(t, t.order);
    forall i | 0 <= i < |hs|
      ensures EndNoted(NoEndOrSubmit(hs[i], t.recordings[hs[i]].begin), rows, hs[i])
    {
      assert HoldsFor(rows, t, hs[i]);
    }
  }

  /** What the result of a capture has to be, read off its calls. */
  ghost predicate InspectedSo(r: Outcome, rows: seq<Row>, registry: Registry) {
    if r.Inspected? then
      && (r.submissions != [] || r.survivors != [])
      && SubmissionsReported(r.submissions, rows, registry) && SurvivorsReported(r.survivors, rows, registry)
      && exists starts: seq<Uncovered>, ends: seq<Uncovered> ::
           r.uncovered == starts + ends && StartsNoted(starts, rows) && EndsNoted(ends, rows)
    else
      r == NothingToInspect && SubmissionsReported([], rows, registry) && SurvivorsReported([], rows, registry)
  }

  /** The report on one batch of recordings, or on one recording alone. */
  method InspectOne(submit: Option<nat>, batch: Batch, registry: Registry) returns (report: BatchReport)
    ensures report == BatchSpec(submit, batch, registry)
  {
    report := InspectBatch(submit, batch, registry);
  }

  /** for batch_index, batch in enumerate(pSubmits). */
  method InspectSubmit(t: Tracker, index: nat, batches: seq<seq<Handle>>, registry: Registry)
    returns (reports: seq<BatchReport>)
    ensures reports == SubmitReports(t, index, batches, |batches|, registry)
  {
    ghost var all := SubmitReports(t, index, batches, |batches|, registry);
    reports := [];
    for n := 0 to |batches|
      invariant reports == all[..n]
    {
      var report := InspectOne(Some(index), Lookups(t, batches[n]), registry);
      reports := reports + [report];
    }
  }

  /** The recordings that no captured submit mentions, in the order of the keys: each that is complete
      is inspected on its own, and each that has no end is noted. */
  method InspectSurvivors(t: Tracker, registry: Registry) returns (reports: seq<BatchReport>, notes: seq<Uncovered>)
    requires OrderLists(t)
    ensures reports == SurvivorReports(t, t.order, registry)
    ensures forall h: Handle :: Survives(t, h) ==> SurvivorReport(t, h, registry) in reports
    ensures notes == EndsUncovered(t, t.order)
  {
    reports, notes := [], [];
    for n := 0 to |t.order|
      invariant reports == SurvivorReports(t, t.order[..n], registry)
      invariant notes == EndsUncovered(t, t.order[..n])
    {
      var h := t.order[n];
      assert t.order[..n + 1][..n] == t.order[..n];
      assert h in t.order;
      if h in t.submitted { continue; }
      if t.recordings[h].end.None? {
        notes := notes + [NoEndOrSubmit(h, t.recordings[h].begin)];
        continue;
      }
      var report := InspectOne(None, [(h, Find(t, h))], registry);
      reports := reports + [report.(uncovered := report.uncovered + [ContextUnknown(h)])];
    }
    assert t.order[..|t.order|] == t.order;
    forall h: Handle | Survives(t, h) {
      SurvivorReported(t, t.order, registry, h);
    }
  }

  lemma {:induction false} IncreasingSnoc(rows: seq<Row>, i: nat)
    requires i < |rows| && Increasing(rows[..i])
    ensures Increasing(rows[..i + 1]) <==> rows[i].index >= NextIndex(rows[..i])
    ensures rows[..i + 1][..i] == rows[..i]
  {
    assert rows[..i + 1][..i] == rows[..i];
  }

  method Inspect(rows: seq<Row>, registry: Registry) returns (r: Outcome)
    ensures !Increasing(rows) ==> r == IndicesMustIncrease
    ensures Increasing(rows) ==> InspectedSo(r, rows, registry)
    ensures Increasing(rows) ==>
              var t := TrackerAfter(rows);
              var survivors := SurvivorReports(t, t.order, registry);
              r == if Submissions(rows, registry) == [] && survivors == [] then NothingToInspect
                   else Inspected(Submissions(rows, registry), survivors,
                                  StartsUncovered(rows) + EndsUncovered(t, t.order))
    ensures Increasing(rows) ==>
              forall h: Handle :: Survives(TrackerAfter(rows), h) ==>
                r.Inspected? && SurvivorReport(TrackerAfter(rows), h, registry) in r.survivors
  {
    var t, submissions, previous := NOTHING, [], -1;
    var uncovered: seq<Uncovered> := [];
    for i := 0 to |rows|
      invariant Increasing(rows[..i])
      invariant previous == NextIndex(rows[..i]) - 1
      invariant t == TrackerAfter(rows[..i])
      invariant submissions == Submissions(rows[..i], registry)
      invariant uncovered == StartsUncovered(rows[..i])
    {
      IncreasingSnoc(rows, i);
      if rows[i].index <= previous {
        PrefixIncreasing(rows, i + 1);
        return IndicesMustIncrease;
      }
      previous := rows[i].index;
      if rows[i].call.Submit? {
        var reports := InspectSubmit(t, previous, rows[i].call.batches, registry);
        submissions := submissions + reports;
      }
      uncovered := uncovered + RowUncovered(t, rows[i]);
      t := Track(t, previous, rows[i].call);
    }
    assert rows[..|rows|] == rows;
    OrderedKeys(rows);
    AllSubmissions(rows, registry);
    AllSurvivors(rows, registry);
    AllStarts(rows);
    AllEnds(rows);
    var survivors, notes := InspectSurvivors(t, registry);
    if submissions == [] && survivors == [] {
      return NothingToInspect;
    }
    return Inspected(submissions, survivors, uncovered + notes);
  }

  lemma {:induction false} PrefixIncreasing(rows: seq<Row>, n: nat)
    requires n <= |rows| && !Increasing(rows[..n])
    ensures !Increasing(rows)
  {
    if n < |rows| {
      assert rows[..|rows| - 1][..n] == rows[..n];
      PrefixIncreasing(rows[..|rows| - 1], n);
    } else {
      assert rows[..n] == rows;
    }
  }
}
