/**
 The recordings that inspect of tools/inspect-rendering-capture.py tracks through a capture: what one
 call does to its dictionaries, and what they hold after any calls, read off the calls themselves.
 */
module RenderingTracker {
  import opened Options
  import opened RenderingStream
  import opened RenderingLocality
  import opened Sorting

  /** The calls of a capture that inspect acts on.  A call that had to succeed and did not
      is Irrelevant. */
  datatype Call =
    | Allocate(buffers: seq<Handle>, pool: Handle)
    | ResetPool(reset: Handle)
    | DestroyPool(destroyed: Handle)
    | Free(freed: seq<Handle>)
    | ResetBuffer(buffer: Handle)
    | BeginBuffer(buffer: Handle)
    | EndBuffer(buffer: Handle)
    | Record(buffer: Handle, name: string, action: Action)
    | Submit(batches: seq<seq<Handle>>)
    | Irrelevant

  datatype Row = Row(index: int, call: Call)

  /** The dictionaries of inspect. order is the order of the keys of recordings: a key keeps its
      place until it is removed. submitted holds the buffers whose current recording has a captured
      submit. */
  datatype Tracker = Tracker(
    recordings: map<Handle, Recording>, order: seq<Handle>, pools: map<Handle, Handle>, submitted: set<Handle>)

  const NOTHING := Tracker(map[], [], map[], {})

  /** The keys that are not removed, in order. */
  function Kept(order: seq<Handle>, gone: set<Handle>): seq<Handle> {
    if order == [] then []
    else
      var before, last := Kept(order[..|order| - 1], gone), order[|order| - 1];
      if last in gone then before else before + [last]
  }

  /** recordings.pop for each of the handles. */
  function Drop(t: Tracker, gone: set<Handle>): Tracker {
    t.(recordings := t.recordings - gone, order := Kept(t.order, gone))
  }

  function Find(t: Tracker, h: Handle): Option<Recording> {
    if h in t.recordings then Some(t.recordings[h]) else None
  }

  function Lookups(t: Tracker, handles: seq<Handle>): (batch: Batch)
    ensures |batch| == |handles|
    ensures forall i :: 0 <= i < |batch| ==> batch[i] == (handles[i], Find(t, handles[i]))
  {
    seq(|handles|, i requires 0 <= i < |handles| => (handles[i], Find(t, handles[i])))
  }

  function InPool(t: Tracker, pool: Handle): set<Handle> {
    set h | h in t.pools && t.pools[h] == pool
  }

  /** What one call does to the dictionaries. */
  function Track(t: Tracker, index: nat, call: Call): Tracker {
    match call
    case Allocate(buffers, pool) => t.(pools := t.pools + map h | h in buffers :: pool)
    case ResetPool(pool) => Drop(t, InPool(t, pool))
    case DestroyPool(pool) => Drop(t, InPool(t, pool)).(pools := t.pools - InPool(t, pool))
    case Free(buffers) => Drop(t, Elements(buffers)).(pools := t.pools - Elements(buffers))
    case ResetBuffer(b) => Drop(t, {b})
    case BeginBuffer(b) =>
      t.(recordings := t.recordings[b := Recording(index, None, [])],
         order := if b in t.recordings then t.order else t.order + [b],
         submitted := t.submitted - {b})
    case EndBuffer(b) =>
      if b in t.recordings then t.(recordings := t.recordings[b := t.recordings[b].(end := Some(index))]) else t
    case Record(b, name, action) =>
      if b in t.recordings
      then t.(recordings := t.recordings[b :=
             t.recordings[b].(commands := t.recordings[b].commands + [Command(index, name, action)])])
      else t
    case Submit(batches) => t.(submitted := t.submitted + Mentioned(batches))
    case Irrelevant => t
  }

  function Mentioned(batches: seq<seq<Handle>>): set<Handle> {
    if batches == [] then {} else Mentioned(batches[..|batches| - 1]) + Elements(batches[|batches| - 1])
  }

  function TrackerAfter(rows: seq<Row>): Tracker
    requires Increasing(rows)
  {
    if rows == [] then NOTHING
    else Track(TrackerAfter(rows[..|rows| - 1]), rows[|rows| - 1].index, rows[|rows| - 1].call)
  }

  function NextIndex(rows: seq<Row>): int {
    if rows == [] then 0 else rows[|rows| - 1].index + 1
  }

  /** Call indices are natural numbers that strictly increase. */
  predicate Increasing(rows: seq<Row>)
    ensures Increasing(rows) ==> NextIndex(rows) >= 0
  {
    rows == [] || (Increasing(rows[..|rows| - 1]) && rows[|rows| - 1].index >= NextIndex(rows[..|rows| - 1]))
  }

  // ---------------------------------------------------------------------------
  // The order of the keys

  /** The order lists every key once. */
  ghost predicate OrderLists(t: Tracker) {
    && (forall h :: h in t.order <==> h in t.recordings)
    && (forall i, j :: 0 <= i < j < |t.order| ==> t.order[i] != t.order[j])
  }

  lemma {:induction false} KeptLists(order: seq<Handle>, gone: set<Handle>)
    requires forall i, j :: 0 <= i < j < |order| ==> order[i] != order[j]
    ensures forall h :: h in Kept(order, gone) <==> h in order && h !in gone
    ensures forall i, j :: 0 <= i < j < |Kept(order, gone)| ==> Kept(order, gone)[i] != Kept(order, gone)[j]
  {
    if order != [] {
      var before, last := order[..|order| - 1], order[|order| - 1];
      KeptLists(before, gone);
      assert last !in before;
      assert order == before + [last];
    }
  }

  lemma {:induction false} DropLists(t: Tracker, gone: set<Handle>)
    requires OrderLists(t)
    ensures OrderLists(Drop(t, gone))
  {
    KeptLists(t.order, gone);
  }

  lemma {:induction false} TrackLists(t: Tracker, index: nat, call: Call)
    requires OrderLists(t)
    ensures OrderLists(Track(t, index, call))
  {
    match call
    case ResetPool(pool) => DropLists(t, InPool(t, pool));
    case DestroyPool(pool) => DropLists(t, InPool(t, pool));
    case Free(buffers) => DropLists(t, Elements(buffers));
    case ResetBuffer(b) => DropLists(t, {b});
    case BeginBuffer(b) =>
      var r := Track(t, index, call);
      if b !in t.recordings { assert r.order == t.order + [b]; }
    case _ =>
  }

  /** At any time the order lists the tracked recordings, each once. */
  lemma {:induction false} OrderedKeys(rows: seq<Row>)
    requires Increasing(rows)
    ensures OrderLists(TrackerAfter(rows))
  {
    if rows != [] {
      OrderedKeys(rows[..|rows| - 1]);
      TrackLists(TrackerAfter(rows[..|rows| - 1]), rows[|rows| - 1].index, rows[|rows| - 1].call);
    }
  }

  // ---------------------------------------------------------------------------
  // Every recording is in call order

  ghost predicate Ordered(t: Tracker, limit: int) {
    && (forall h :: h in t.recordings ==> Ascending(t.recordings[h], limit))
    && (forall h, k :: h in t.recordings && k in t.recordings && h != k ==>
          t.recordings[h].begin != t.recordings[k].begin)
  }

  /** A recording that starts now, or goes on with its begin, keeps the order. */
  lemma {:induction false} PutOrdered(t: Tracker, index: nat, b: Handle, r: Recording)
    requires Ordered(t, index) && Ascending(r, index + 1)
    requires r.begin == index || (b in t.recordings && r.begin == t.recordings[b].begin)
    ensures Ordered(t.(recordings := t.recordings[b := r]), index + 1)
  {
    forall h | h in t.recordings
      ensures t.recordings[h].begin < index && Ascending(t.recordings[h], index + 1)
    {
      assert Ascending(t.recordings[h], index);
    }
  }

  lemma {:induction false} TrackOrdered(t: Tracker, index: nat, call: Call)
    requires Ordered(t, index)
    ensures Ordered(Track(t, index, call), index + 1)
  {
    OrderedGrows(t, index, index + 1);
    match call
    case BeginBuffer(b) => PutOrdered(t, index, b, Recording(index, None, []));
    case EndBuffer(b) =>
      if b in t.recordings { PutOrdered(t, index, b, t.recordings[b].(end := Some(index))); }
    case Record(b, name, action) =>
      if b in t.recordings {
        var r := t.recordings[b];
        PutOrdered(t, index, b, r.(commands := r.commands + [Command(index, name, action)]));
      }
    case _ =>
  }

  lemma {:induction false} OrderedGrows(t: Tracker, low: int, high: int)
    requires Ordered(t, low) && low <= high
    ensures Ordered(t, high)
  {
  }

  lemma {:induction false} TrackerOrdered(rows: seq<Row>)
    requires Increasing(rows)
    ensures Ordered(TrackerAfter(rows), NextIndex(rows))
  {
    if rows != [] {
      var before, last := rows[..|rows| - 1], rows[|rows| - 1];
      TrackerOrdered(before);
      OrderedGrows(TrackerAfter(before), NextIndex(before), last.index);
      TrackOrdered(TrackerAfter(before), last.index, last.call);
    }
  }

  // ---------------------------------------------------------------------------
  // What is tracked, read off the calls

  /** Indices are natural numbers, and increase. */
  lemma {:induction false} IncreasingIff(rows: seq<Row>)
    ensures Increasing(rows) <==>
            && (forall i | 0 <= i < |rows| :: rows[i].index >= 0)
            && (forall i, j | 0 <= i < j < |rows| :: rows[i].index < rows[j].index)
  {
    if rows != [] {
      var n := |rows| - 1;
      IncreasingIff(rows[..n]);
      assert forall i | 0 <= i < n :: rows[..n][i] == rows[i];
      assert NextIndex(rows[..n]) == if n == 0 then 0 else rows[n - 1].index + 1;
      if Increasing(rows) {
        forall i | 0 <= i < n
          ensures rows[i].index < rows[n].index
        {
          assert rows[i].index <= rows[n - 1].index;
        }
      }
    }
  }

  /** The call allocates h from a pool. */
  predicate Allocates(call: Call, h: Handle, pool: Handle) {
    call.Allocate? && h in call.buffers && call.pool == pool
  }

  /** The call takes h out of a pool. */
  predicate Withdraws(call: Call, h: Handle, pool: Handle) {
    match call
    case Allocate(buffers, _) => h in buffers
    case Free(freed) => h in freed
    case DestroyPool(destroyed) => destroyed == pool
    case _ => false
  }

  /** h was allocated from a pool, and nothing has taken it out since. */
  ghost predicate PoolIs(rows: seq<Row>, h: Handle, pool: Handle) {
    exists a | 0 <= a < |rows| ::
      Allocates(rows[a].call, h, pool) && forall i | a < i < |rows| :: !Withdraws(rows[i].call, h, pool)
  }

  /** A call that comes after rows drops the recording of h: it resets or frees h, or resets or destroys
      the pool that h is from. */
  ghost predicate Drops(rows: seq<Row>, call: Call, h: Handle) {
    match call
    case ResetBuffer(b) => b == h
    case Free(freed) => h in freed
    case ResetPool(pool) => PoolIs(rows, h, pool)
    case DestroyPool(pool) => PoolIs(rows, h, pool)
    case _ => false
  }

  /** Row k begins h, and no later row drops it. */
  ghost predicate KeptSince(rows: seq<Row>, h: Handle, k: nat) {
    k < |rows| && rows[k].call == BeginBuffer(h) && forall j | k < j < |rows| :: !Drops(rows[..j], rows[j].call, h)
  }

  /** Row k is the last to begin h, and no later row drops it. */
  ghost predicate BegunAt(rows: seq<Row>, h: Handle, k: nat) {
    KeptSince(rows, h, k) && forall j | k < j < |rows| :: rows[j].call != BeginBuffer(h)
  }

  /** Row k begins h, nothing has dropped h since, and an earlier row that did so too was followed by a drop. */
  ghost predicate ListedAt(rows: seq<Row>, h: Handle, k: nat) {
    KeptSince(rows, h, k) && forall j: nat | j < k :: !KeptSince(rows, h, j)
  }

  /** The commands recorded for h after row k. */
  ghost predicate CommandsSince(rows: seq<Row>, h: Handle, k: nat, commands: seq<Command>) {
    && (forall i, j | 0 <= i < j < |commands| :: commands[i].index < commands[j].index)
    && forall c: Command ::
         c in commands <==> exists j | k < j < |rows| :: rows[j] == Row(c.index, Record(h, c.name, c.action))
  }

  /** The index of the last row after k that ends h. */
  ghost predicate EndSince(rows: seq<Row>, h: Handle, k: nat, end: Option<nat>) {
    if end.None? then forall j | k < j < |rows| :: rows[j].call != EndBuffer(h)
    else exists j | k < j < |rows| :: rows[j] == Row(end.value, EndBuffer(h)) &&
                                      forall i | j < i < |rows| :: rows[i].call != EndBuffer(h)
  }

  predicate Mentions(call: Call, h: Handle) { call.Submit? && exists batch <- call.batches :: h in batch }

  ghost predicate SubmittedSince(rows: seq<Row>, h: Handle, k: nat) {
    exists j | k < j < |rows| :: Mentions(rows[j].call, h)
  }

  ghost predicate RecordingIs(rows: seq<Row>, h: Handle, k: nat, r: Recording)
    requires k < |rows|
  {
    r.begin == rows[k].index && CommandsSince(rows, h, k, r.commands) && EndSince(rows, h, k, r.end)
  }

  predicate Before(order: seq<Handle>, x: Handle, y: Handle) {
    exists i, j | 0 <= i < j < |order| :: order[i] == x && order[j] == y
  }

  /** The order of the keys is that of the rows that made them. */
  ghost predicate OrderHolds(rows: seq<Row>, order: seq<Handle>) {
    forall x: Handle, y: Handle, a: nat, b: nat | Before(order, x, y) && ListedAt(rows, x, a) && ListedAt(rows, y, b) ::
      a < b
  }

  // One more call

  lemma {:induction false} PoolSnoc(rows: seq<Row>, row: Row, h: Handle, pool: Handle)
    ensures PoolIs(rows + [row], h, pool) <==>
            Allocates(row.call, h, pool) || (PoolIs(rows, h, pool) && !Withdraws(row.call, h, pool))
  {
    var all := rows + [row];
    assert all[|rows|] == row && forall i | 0 <= i < |rows| :: all[i] == rows[i];
    if a :| 0 <= a < |all| && Allocates(all[a].call, h, pool) &&
            forall i | a < i < |all| :: !Withdraws(all[i].call, h, pool) {
      if a < |rows| {
        assert Allocates(rows[a].call, h, pool);
        assert !Withdraws(all[|rows|].call, h, pool);
      }
    }
    if a :| 0 <= a < |rows| && Allocates(rows[a].call, h, pool) &&
            forall i | a < i < |rows| :: !Withdraws(rows[i].call, h, pool) {
      if !Withdraws(row.call, h, pool) { assert Allocates(all[a].call, h, pool); }
    }
    if Allocates(row.call, h, pool) { assert Allocates(all[|rows|].call, h, pool); }
  }

  lemma {:induction false} KeptSnoc(rows: seq<Row>, row: Row, h: Handle, k: nat)
    ensures KeptSince(rows + [row], h, k) <==>
            (KeptSince(rows, h, k) && !Drops(rows, row.call, h)) || (k == |rows| && row.call == BeginBuffer(h))
  {
    var all := rows + [row];
    assert all[..|rows|] == rows;
    forall i | 0 <= i < |rows|
      ensures all[i] == rows[i] && all[..i] == rows[..i]
    {
    }
    if KeptSince(all, h, k) && k < |rows| {
      assert !Drops(all[..|rows|], all[|rows|].call, h);
      forall j | k < j < |rows|
        ensures !Drops(rows[..j], rows[j].call, h)
      {
        assert !Drops(all[..j], all[j].call, h);
      }
    }
  }

  lemma {:induction false} BegunSnoc(rows: seq<Row>, row: Row, h: Handle, k: nat)
    ensures BegunAt(rows + [row], h, k) <==>
            if row.call == BeginBuffer(h) then k == |rows| else BegunAt(rows, h, k) && !Drops(rows, row.call, h)
  {
    KeptSnoc(rows, row, h, k);
    var all := rows + [row];
    assert all[|rows|] == row && forall i | 0 <= i < |rows| :: all[i] == rows[i];
  }

  lemma {:induction false} CommandsGoOn(rows: seq<Row>, row: Row, h: Handle, k: nat, commands: seq<Command>)
    requires k < |rows| && CommandsSince(rows, h, k, commands) && !(row.call.Record? && row.call.buffer == h)
    ensures CommandsSince(rows + [row], h, k, commands)
  {
    var all := rows + [row];
    assert all[|rows|] == row && forall i | 0 <= i < |rows| :: all[i] == rows[i];
    forall c: Command
      ensures (exists j | k < j < |all| :: all[j] == Row(c.index, Record(h, c.name, c.action))) <==>
              exists j | k < j < |rows| :: rows[j] == Row(c.index, Record(h, c.name, c.action))
    {
      if j :| k < j < |rows| && rows[j] == Row(c.index, Record(h, c.name, c.action)) {
        assert all[j] == Row(c.index, Record(h, c.name, c.action));
      }
      if j :| k < j < |all| && all[j] == Row(c.index, Record(h, c.name, c.action)) {
        assert rows[j] == Row(c.index, Record(h, c.name, c.action));
      }
    }
  }

  lemma {:induction false} OneMoreCommand(rows: seq<Row>, row: Row, h: Handle, k: nat, commands: seq<Command>, c: Command)
    requires k < |rows| && CommandsSince(rows, h, k, commands)
    requires row == Row(c.index, Record(h, c.name, c.action)) && forall i | 0 <= i < |rows| :: rows[i].index < row.index
    ensures CommandsSince(rows + [row], h, k, commands + [c])
  {
    var all, more := rows + [row], commands + [c];
    assert all[|rows|] == row && forall i | 0 <= i < |rows| :: all[i] == rows[i];
    forall i | 0 <= i < |commands|
      ensures commands[i].index < c.index
    {
      assert commands[i] in commands;
    }
    forall d: Command
      ensures d in more <==> exists j | k < j < |all| :: all[j] == Row(d.index, Record(h, d.name, d.action))
    {
      if d in commands {
        var j :| k < j < |rows| && rows[j] == Row(d.index, Record(h, d.name, d.action));
        assert all[j] == rows[j];
      }
      if d == c { assert all[|rows|] == Row(d.index, Record(h, d.name, d.action)); }
      if j :| k < j < |all| && all[j] == Row(d.index, Record(h, d.name, d.action)) {
        if j < |rows| {
          assert rows[j] == Row(d.index, Record(h, d.name, d.action));
          assert d in commands;
        } else {
          assert d == c;
        }
      }
    }
  }

  lemma {:induction false} EndGoesOn(rows: seq<Row>, row: Row, h: Handle, k: nat, end: Option<nat>)
    requires k < |rows| && EndSince(rows, h, k, end) && row.call != EndBuffer(h)
    ensures EndSince(rows + [row], h, k, end)
  {
    var all := rows + [row];
    assert all[|rows|] == row && forall i | 0 <= i < |rows| :: all[i] == rows[i];
    if end.Some? {
      var j :| k < j < |rows| && rows[j] == Row(end.value, EndBuffer(h)) &&
               forall i | j < i < |rows| :: rows[i].call != EndBuffer(h);
      assert all[j] == Row(end.value, EndBuffer(h));
    }
  }

  lemma {:induction false} EndIsNew(rows: seq<Row>, row: Row, h: Handle, k: nat)
    requires k < |rows| && row.call == EndBuffer(h) && row.index >= 0
    ensures EndSince(rows + [row], h, k, Some(row.index))
  {
    assert (rows + [row])[|rows|] == Row(row.index, EndBuffer(h));
  }

  lemma {:induction false} SubmittedGoesOn(rows: seq<Row>, row: Row, h: Handle, k: nat)
    requires k < |rows|
    ensures SubmittedSince(rows + [row], h, k) <==> SubmittedSince(rows, h, k) || Mentions(row.call, h)
  {
    var all := rows + [row];
    assert all[|rows|] == row && forall i | 0 <= i < |rows| :: all[i] == rows[i];
    if j :| k < j < |rows| && Mentions(rows[j].call, h) { assert Mentions(all[j].call, h); }
    if Mentions(row.call, h) { assert Mentions(all[|rows|].call, h); }
    if j :| k < j < |all| && Mentions(all[j].call, h) {
      if j < |rows| { assert Mentions(rows[j].call, h); }
    }
  }

  lemma {:induction false} MentionedIff(batches: seq<seq<Handle>>, h: Handle)
    ensures h in Mentioned(batches) <==> exists batch <- batches :: h in batch
  {
    if batches != [] {
      var n := |batches| - 1;
      MentionedIff(batches[..n], h);
      assert batches == batches[..n] + [batches[n]];
      assert batches[n] in batches;
    }
  }

  /** What holds of the recording of h after one more call. */
  ghost predicate HoldsFor(rows: seq<Row>, t: Tracker, h: Handle) {
    && (h in t.recordings ==> exists k: nat :: BegunAt(rows, h, k))
    && forall k: nat | BegunAt(rows, h, k) ::
         && h in t.recordings && RecordingIs(rows, h, k, t.recordings[h])
         && (h in t.submitted <==> SubmittedSince(rows, h, k))
  }

  ghost predicate PoolsHold(rows: seq<Row>, t: Tracker) {
    forall h: Handle, pool: Handle :: PoolIs(rows, h, pool) <==> h in t.pools && t.pools[h] == pool
  }

  lemma {:induction false} PoolsSnoc(rows: seq<Row>, row: Row, t: Tracker, index: nat)
    requires PoolsHold(rows, t)
    ensures PoolsHold(rows + [row], Track(t, index, row.call))
  {
    var r := Track(t, index, row.call);
    forall h: Handle, pool: Handle
      ensures PoolIs(rows + [row], h, pool) <==> h in r.pools && r.pools[h] == pool
    {
      PoolSnoc(rows, row, h, pool);
    }
  }

  /** A call other than a begin drops exactly the recordings that it should. */
  lemma {:induction false} DropsIff(rows: seq<Row>, t: Tracker, index: nat, call: Call, h: Handle)
    requires PoolsHold(rows, t) && h in t.recordings
    ensures Drops(rows, call, h) <==> h !in Track(t, index, call).recordings
  {
  }

  lemma {:induction false} BeginHolds(rows: seq<Row>, row: Row, t: Tracker, h: Handle)
    requires row.index >= 0 && row.call == BeginBuffer(h)
    ensures HoldsFor(rows + [row], Track(t, row.index, row.call), h)
  {
    var all := rows + [row];
    assert all[|rows|] == row;
    forall k: nat
      ensures BegunAt(all, h, k) <==> k == |rows|
    {
      BegunSnoc(rows, row, h, k);
    }
    assert BegunAt(all, h, |rows|);
    assert CommandsSince(all, h, |rows|, []) && EndSince(all, h, |rows|, None);
  }

  /** The recording of h after a call that keeps it. */
  lemma {:induction false} RecordingGoesOn(rows: seq<Row>, row: Row, t: Tracker, h: Handle, k: nat)
    requires k < |rows| && h in t.recordings && RecordingIs(rows, h, k, t.recordings[h])
    requires row.index >= 0 && forall i | 0 <= i < |rows| :: rows[i].index < row.index
    requires row.call != BeginBuffer(h) && h in Track(t, row.index, row.call).recordings
    ensures RecordingIs(rows + [row], h, k, Track(t, row.index, row.call).recordings[h])
  {
    var r := t.recordings[h];
    assert (rows + [row])[k] == rows[k];
    if row.call.Record? && row.call.buffer == h {
      var c := Command(row.index, row.call.name, row.call.action);
      OneMoreCommand(rows, row, h, k, r.commands, c);
      EndGoesOn(rows, row, h, k, r.end);
    } else if row.call == EndBuffer(h) {
      CommandsGoOn(rows, row, h, k, r.commands);
      EndIsNew(rows, row, h, k);
    } else {
      CommandsGoOn(rows, row, h, k, r.commands);
      EndGoesOn(rows, row, h, k, r.end);
    }
  }

  lemma {:induction false} SubmittedSnoc(rows: seq<Row>, row: Row, t: Tracker, h: Handle, k: nat)
    requires k < |rows| && row.index >= 0 && row.call != BeginBuffer(h)
    requires h in t.submitted <==> SubmittedSince(rows, h, k)
    ensures h in Track(t, row.index, row.call).submitted <==> SubmittedSince(rows + [row], h, k)
  {
    SubmittedGoesOn(rows, row, h, k);
    if row.call.Submit? { MentionedIff(row.call.batches, h); }
  }

  lemma {:induction false} OtherHolds(rows: seq<Row>, row: Row, t: Tracker, h: Handle)
    requires PoolsHold(rows, t) && HoldsFor(rows, t, h) && row.call != BeginBuffer(h)
    requires row.index >= 0 && forall i | 0 <= i < |rows| :: rows[i].index < row.index
    ensures HoldsFor(rows + [row], Track(t, row.index, row.call), h)
  {
    var r := Track(t, row.index, row.call);
    forall k: nat
      ensures BegunAt(rows + [row], h, k) <==> BegunAt(rows, h, k) && !Drops(rows, row.call, h)
    {
      BegunSnoc(rows, row, h, k);
    }
    if h in t.recordings { DropsIff(rows, t, row.index, row.call, h); }
    if h in r.recordings {
      var k: nat :| BegunAt(rows, h, k);
      assert BegunAt(rows + [row], h, k);
    }
    forall k: nat | BegunAt(rows + [row], h, k)
      ensures h in r.recordings && RecordingIs(rows + [row], h, k, r.recordings[h])
      ensures h in r.submitted <==> SubmittedSince(rows + [row], h, k)
    {
      RecordingGoesOn(rows, row, t, h, k);
      SubmittedSnoc(rows, row, t, h, k);
    }
  }

  /** After any calls, a recording is tracked exactly if its buffer was begun and not dropped since; it has
      the commands since the last begin in order, the index of the last end, and counts as submitted
      exactly if a submit has mentioned it. */
  lemma {:induction false} TrackedIsHistory(rows: seq<Row>)
    requires Increasing(rows)
    ensures PoolsHold(rows, TrackerAfter(rows)) && forall h: Handle :: HoldsFor(rows, TrackerAfter(rows), h)
  {
    if rows != [] {
      var n := |rows| - 1;
      var before, row := rows[..n], rows[n];
      assert rows == before + [row];
      TrackedIsHistory(before);
      IncreasingIff(rows);
      var t := TrackerAfter(before);
      PoolsSnoc(before, row, t, row.index);
      forall h: Handle
        ensures HoldsFor(rows, TrackerAfter(rows), h)
      {
        assert HoldsFor(before, t, h);
        if row.call == BeginBuffer(h) { BeginHolds(before, row, t, h); } else { OtherHolds(before, row, t, h); }
      }
    }
  }

  // The order of the keys

  lemma {:induction false} KeptBefore(order: seq<Handle>, gone: set<Handle>, x: Handle, y: Handle)
    requires Before(Kept(order, gone), x, y)
    ensures Before(order, x, y) && x !in gone && y !in gone
  {
    var n := |order| - 1;
    var before, kept := Kept(order[..n], gone), Kept(order, gone);
    assert order == order[..n] + [order[n]];
    var i, j :| 0 <= i < j < |kept| && kept[i] == x && kept[j] == y;
    if j < |before| {
      assert before[i] == x && before[j] == y;
      KeptBefore(order[..n], gone, x, y);
      var a, b :| 0 <= a < b < n && order[..n][a] == x && order[..n][b] == y;
      assert order[a] == x && order[b] == y;
    } else {
      assert before[i] == x;
      KeptIn(order[..n], gone, x);
      var a :| 0 <= a < n && order[..n][a] == x;
      assert order[a] == x && order[n] == y;
    }
  }

  lemma {:induction false} KeptIn(order: seq<Handle>, gone: set<Handle>, x: Handle)
    requires x in Kept(order, gone)
    ensures x in order && x !in gone
  {
    var n := |order| - 1;
    if x in Kept(order[..n], gone) { KeptIn(order[..n], gone, x); }
  }

  lemma {:induction false} ListedSnoc(rows: seq<Row>, row: Row, h: Handle, k: nat)
    requires ListedAt(rows + [row], h, k) && k < |rows|
    ensures ListedAt(rows, h, k)
  {
    KeptSnoc(rows, row, h, k);
    forall j: nat | j < k
      ensures !KeptSince(rows, h, j)
    {
      KeptSnoc(rows, row, h, j);
    }
  }

  lemma {:induction false} ListedLast(rows: seq<Row>, row: Row, h: Handle)
    requires ListedAt(rows + [row], h, |rows|)
    ensures row.call == BeginBuffer(h) && forall j: nat :: !BegunAt(rows, h, j)
  {
    KeptSnoc(rows, row, h, |rows|);
    forall j: nat
      ensures !BegunAt(rows, h, j)
    {
      KeptSnoc(rows, row, h, j);
    }
  }

  /** A buffer that was begun and not dropped is tracked. */
  lemma {:induction false} KeptIsTracked(rows: seq<Row>, t: Tracker, h: Handle, k: nat)
    requires KeptSince(rows, h, k) && HoldsFor(rows, t, h)
    ensures h in t.recordings
    decreases |rows| - k
  {
    if j :| k < j < |rows| && rows[j].call == BeginBuffer(h) {
      assert KeptSince(rows, h, j);
      KeptIsTracked(rows, t, h, j);
    } else {
      assert BegunAt(rows, h, k);
    }
  }

  lemma {:induction false} OrderSnoc(rows: seq<Row>, row: Row, t: Tracker)
    requires OrderLists(t) && OrderHolds(rows, t.order) && row.index >= 0
    requires forall h: Handle :: HoldsFor(rows, t, h)
    ensures OrderHolds(rows + [row], Track(t, row.index, row.call).order)
  {
    var order := Track(t, row.index, row.call).order;
    forall x: Handle, y: Handle, a: nat, b: nat |
      Before(order, x, y) && ListedAt(rows + [row], x, a) && ListedAt(rows + [row], y, b)
      ensures a < b
    {
      BeforeEarlier(t, row, x, y);
      assert HoldsFor(rows, t, x);
      if a < |rows| {
        ListedSnoc(rows, row, x, a);
        if b < |rows| {
          ListedSnoc(rows, row, y, b);
          KeptIsTracked(rows, t, y, b);
        }
      } else {
        ListedLast(rows, row, x);
        assert false;
      }
    }
  }

  /** What stands before another key did so before the call, or the other key is new. */
  lemma {:induction false} BeforeEarlier(t: Tracker, row: Row, x: Handle, y: Handle)
    requires OrderLists(t) && row.index >= 0 && Before(Track(t, row.index, row.call).order, x, y)
    ensures x in t.recordings
    ensures Before(t.order, x, y) || (row.call == BeginBuffer(y) && y !in t.recordings)
  {
    var order := Track(t, row.index, row.call).order;
    match row.call
    case ResetPool(pool) => KeptBefore(t.order, InPool(t, pool), x, y);
    case DestroyPool(pool) => KeptBefore(t.order, InPool(t, pool), x, y);
    case Free(freed) => KeptBefore(t.order, Elements(freed), x, y);
    case ResetBuffer(b) => KeptBefore(t.order, {b}, x, y);
    case BeginBuffer(b) => if b !in t.recordings { BeforeAppended(t.order, b, x, y); }
    case _ =>
  }

  lemma {:induction false} BeforeAppended(order: seq<Handle>, added: Handle, x: Handle, y: Handle)
    requires Before(order + [added], x, y)
    ensures x in order && (Before(order, x, y) || added == y)
  {
    var all := order + [added];
    var i, j :| 0 <= i < j < |all| && all[i] == x && all[j] == y;
    assert order[i] == x;
    if j < |order| { assert order[j] == y; }
  }

  /** After any calls the keys are in the order of the begins that made them. */
  lemma {:induction false} OrderIsHistory(rows: seq<Row>)
    requires Increasing(rows)
    ensures OrderHolds(rows, TrackerAfter(rows).order)
  {
    if rows != [] {
      var n := |rows| - 1;
      assert rows == rows[..n] + [rows[n]];
      OrderIsHistory(rows[..n]);
      OrderedKeys(rows[..n]);
      TrackedIsHistory(rows[..n]);
      OrderSnoc(rows[..n], rows[n], TrackerAfter(rows[..n]));
    }
  }
}
