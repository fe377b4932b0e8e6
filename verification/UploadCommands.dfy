/**
 What the command buffers hold that inspect of tools/inspect-upload-capture.py tracks, read off the
 rows of a capture, and what everything it tracks says about the rows.
 */
module UploadCommands {
  import opened Options
  import opened CommandGraph
  import opened FlushCoverage
  import opened UploadWorld
  import opened UploadHistory

  // ---------------------------------------------------------------------------
  // Command buffers

  predicate ResetsCommand(e: Event, c: Handle) { e == StartCommands(c) || (e.FreeCommands? && c in e.commands) }

  /** The usage flags of a buffer that count for a kind of consumption. */
  predicate UsageFits(kind: Kind, usage: nat) {
    match kind
    case TextureStaging => usage == 1
    case BufferStaging => usage == 1
    case ImmediateVertex => usage == 0x82
    case IndirectParameters => usage == 0x100
  }

  /** Just before row k, a handle denotes a buffer whose usage counts. */
  ghost predicate Usable(rows: seq<Row>, k: nat, h: Handle, kind: Kind) {
    exists b: nat :: BufferLive(rows, b, k) && rows[b].event.buffer == h && UsageFits(kind, rows[b].event.usage)
  }

  /** The i-th item of row k is recorded in command buffer c. */
  ghost predicate RecordsAt(rows: seq<Row>, c: Handle, k: nat, i: nat) {
    k < |rows| &&
    match rows[k].event
    case Execute(d, secondaries) => d == c && i < |secondaries|
    case Consume(d, buffers, kind) => d == c && i < |buffers| && Usable(rows, k, buffers[i], kind)
    case _ => false
  }

  /** What is recorded for the i-th item of row k. */
  ghost predicate EntryIs(rows: seq<Row>, k: nat, i: nat, e: Entry) {
    k < |rows| &&
    match rows[k].event
    case Execute(_, secondaries) => i < |secondaries| && e == Secondary(secondaries[i])
    case Consume(_, buffers, kind) =>
      && i < |buffers| && e.Use? && e.kind == kind && e.call == rows[k].index && e.buffer < |Creations(rows)|
      && BufferLive(rows, Creations(rows)[e.buffer], k)
      && rows[Creations(rows)[e.buffer]].event.buffer == buffers[i]
    case _ => false
  }

  predicate SpotsRise(spots: seq<(nat, nat)>) {
    forall i, j | 0 <= i < j < |spots| ::
      spots[i].0 < spots[j].0 || (spots[i].0 == spots[j].0 && spots[i].1 < spots[j].1)
  }

  ghost function RowSpots(rows: seq<Row>, c: Handle, k: nat, n: nat): seq<(nat, nat)> {
    if n == 0 then [] else RowSpots(rows, c, k, n - 1) + if RecordsAt(rows, c, k, n - 1) then [(k, n - 1)] else []
  }

  lemma {:induction false} RowSpotsListed(rows: seq<Row>, c: Handle, k: nat, n: nat)
    ensures var spots := RowSpots(rows, c, k, n);
            && SpotsRise(spots)
            && (forall j | 0 <= j < |spots| :: spots[j].0 == k && spots[j].1 < n && RecordsAt(rows, c, k, spots[j].1))
            && (forall i: nat | i < n && RecordsAt(rows, c, k, i) :: (k, i) in spots)
  {
    if n > 0 { RowSpotsListed(rows, c, k, n - 1); }
  }

  function Items(e: Event): nat {
    match e
    case Execute(_, secondaries) => |secondaries|
    case Consume(_, buffers, _) => |buffers|
    case _ => 0
  }

  ghost predicate NoReset(rows: seq<Row>, c: Handle, k: nat, n: nat)
    requires n <= |rows|
  {
    forall j | k < j < n :: !ResetsCommand(rows[j].event, c)
  }

  /** The items of the first n rows that are recorded in c since it was last started or freed. */
  ghost function CommandSpots(rows: seq<Row>, c: Handle, n: nat): seq<(nat, nat)>
    requires n <= |rows|
  {
    if n == 0 || ResetsCommand(rows[n - 1].event, c) then []
    else CommandSpots(rows, c, n - 1) + RowSpots(rows, c, n - 1, Items(rows[n - 1].event))
  }

  /** spots are exactly the items recorded in c since then, in order. */
  ghost predicate ListsRecorded(rows: seq<Row>, c: Handle, n: nat, spots: seq<(nat, nat)>)
    requires n <= |rows|
  {
    && SpotsRise(spots)
    && (forall j | 0 <= j < |spots| ::
          spots[j].0 < n && RecordsAt(rows, c, spots[j].0, spots[j].1) && NoReset(rows, c, spots[j].0, n))
    && forall k: nat, i: nat | k < n && RecordsAt(rows, c, k, i) && NoReset(rows, c, k, n) :: (k, i) in spots
  }

  lemma {:induction false} MoreRecorded(rows: seq<Row>, c: Handle, n: nat, spots: seq<(nat, nat)>)
    requires n < |rows| && ListsRecorded(rows, c, n, spots) && !ResetsCommand(rows[n].event, c)
    ensures ListsRecorded(rows, c, n + 1, spots + RowSpots(rows, c, n, Items(rows[n].event)))
  {
    var last := RowSpots(rows, c, n, Items(rows[n].event));
    RowSpotsListed(rows, c, n, Items(rows[n].event));
    forall k: nat
      ensures k < n ==> (NoReset(rows, c, k, n + 1) <==> NoReset(rows, c, k, n))
      ensures NoReset(rows, c, n, n + 1)
    {
    }
    forall k: nat, i: nat | k < n + 1 && RecordsAt(rows, c, k, i) && NoReset(rows, c, k, n + 1)
      ensures (k, i) in spots + last
    {
      assert k < n ==> NoReset(rows, c, k, n);
    }
  }

  lemma {:induction false} SpotsAreRecorded(rows: seq<Row>, c: Handle, n: nat)
    requires n <= |rows|
    ensures ListsRecorded(rows, c, n, CommandSpots(rows, c, n))
  {
    if n > 0 && ResetsCommand(rows[n - 1].event, c) {
      NoneRecorded(rows, c, n);
    } else if n > 0 {
      SpotsAreRecorded(rows, c, n - 1);
      MoreRecorded(rows, c, n - 1, CommandSpots(rows, c, n - 1));
    }
  }

  lemma {:induction false} NoneRecorded(rows: seq<Row>, c: Handle, n: nat)
    requires 0 < n <= |rows| && ResetsCommand(rows[n - 1].event, c)
    ensures ListsRecorded(rows, c, n, [])
  {
    forall k: nat, i: nat | k < n && RecordsAt(rows, c, k, i)
      ensures !NoReset(rows, c, k, n)
    {
      assert k != n - 1;
    }
  }

  /** entries are those of the spots, in order. */
  ghost predicate EntriesAre(rows: seq<Row>, spots: seq<(nat, nat)>, entries: seq<Entry>) {
    |entries| == |spots| && forall j | 0 <= j < |spots| :: EntryIs(rows, spots[j].0, spots[j].1, entries[j])
  }

  /** A command buffer holds what was recorded in it since it was last started or freed, in order. */
  ghost predicate CommandsAre(rows: seq<Row>, w: World) {
    forall c: Handle :: EntriesAre(rows, CommandSpots(rows, c, |rows|), Recorded(w.commands, c))
  }

  // One more row

  lemma {:induction false} UsableSnoc(rows: seq<Row>, row: Row, k: nat, h: Handle, kind: Kind)
    requires k <= |rows|
    ensures Usable(rows + [row], k, h, kind) <==> Usable(rows, k, h, kind)
  {
    var all := rows + [row];
    forall b: nat
      ensures BufferLive(all, b, k) <==> BufferLive(rows, b, k)
      ensures b < |rows| ==> all[b] == rows[b]
    {
      BufferLiveSnoc(rows, row, b, k);
    }
    if b: nat :| BufferLive(rows, b, k) && rows[b].event.buffer == h && UsageFits(kind, rows[b].event.usage) {
      assert BufferLive(all, b, k) && all[b].event.buffer == h && UsageFits(kind, all[b].event.usage);
    }
    if b: nat :| BufferLive(all, b, k) && all[b].event.buffer == h && UsageFits(kind, all[b].event.usage) {
      assert BufferLive(rows, b, k);
    }
  }

  lemma {:induction false} RecordsSnoc(rows: seq<Row>, row: Row, c: Handle, k: nat, i: nat)
    requires k < |rows|
    ensures RecordsAt(rows + [row], c, k, i) <==> RecordsAt(rows, c, k, i)
  {
    assert (rows + [row])[k] == rows[k];
    if rows[k].event.Consume? && i < |rows[k].event.buffers| {
      UsableSnoc(rows, row, k, rows[k].event.buffers[i], rows[k].event.kind);
    }
  }

  lemma {:induction false} RowSpotsSnoc(rows: seq<Row>, row: Row, c: Handle, k: nat, n: nat)
    requires k < |rows|
    ensures RowSpots(rows + [row], c, k, n) == RowSpots(rows, c, k, n)
  {
    if n > 0 {
      RowSpotsSnoc(rows, row, c, k, n - 1);
      RecordsSnoc(rows, row, c, k, n - 1);
    }
  }

  lemma {:induction false} CommandSpotsSnoc(rows: seq<Row>, row: Row, c: Handle, n: nat)
    requires n <= |rows|
    ensures CommandSpots(rows + [row], c, n) == CommandSpots(rows, c, n)
  {
    if n > 0 {
      CommandSpotsSnoc(rows, row, c, n - 1);
      RowSpotsSnoc(rows, row, c, n - 1, Items(rows[n - 1].event));
      assert (rows + [row])[n - 1] == rows[n - 1];
    }
  }

  lemma {:induction false} EntrySnoc(rows: seq<Row>, row: Row, k: nat, i: nat, e: Entry)
    requires EntryIs(rows, k, i, e)
    ensures EntryIs(rows + [row], k, i, e)
  {
    var all := rows + [row];
    assert all[k] == rows[k];
    CreationsSnoc(rows, row);
    if e.Use? && e.buffer < |Creations(rows)| {
      var b := Creations(rows)[e.buffer];
      assert IsCreation(rows, b) && all[b] == rows[b];
      BufferLiveSnoc(rows, row, b, k);
    }
  }

  lemma {:induction false} EntriesSnoc(rows: seq<Row>, row: Row, spots: seq<(nat, nat)>, entries: seq<Entry>)
    requires EntriesAre(rows, spots, entries)
    ensures EntriesAre(rows + [row], spots, entries)
  {
    forall j | 0 <= j < |spots|
      ensures EntryIs(rows + [row], spots[j].0, spots[j].1, entries[j])
    {
      EntrySnoc(rows, row, spots[j].0, spots[j].1, entries[j]);
    }
  }

  lemma {:induction false} BothAre(rows: seq<Row>, s: seq<(nat, nat)>, es: seq<Entry>, t: seq<(nat, nat)>, fs: seq<Entry>)
    requires EntriesAre(rows, s, es) && EntriesAre(rows, t, fs)
    ensures EntriesAre(rows, s + t, es + fs)
  {
  }

  lemma {:induction false} FitsIff(kind: Kind, usage: nat)
    ensures UsageFits(kind, usage) <==> usage == Required(kind)
  {
  }

  /** The buffer that a handle is looked up as is usable exactly if the row may use it. */
  lemma {:induction false} UsableIff(rows: seq<Row>, row: Row, w: World, h: Handle, kind: Kind)
    requires BuffersAre(rows, w)
    ensures Usable(rows + [row], |rows|, h, kind) <==>
            BufferOf(w, h).Some? && w.bufs[BufferOf(w, h).value].usage == Required(kind)
  {
    UsableSnoc(rows, row, |rows|, h, kind);
    var at := Creations(rows);
    if BufferOf(w, h).Some? {
      var i := BufferOf(w, h).value;
      BufferNamedIff(rows, w, h, i);
      assert BufferIs(rows, at[i], w.bufs[i]);
      FitsIff(kind, w.bufs[i].usage);
    }
    if b: nat :| BufferLive(rows, b, |rows|) && rows[b].event.buffer == h && UsageFits(kind, rows[b].event.usage) {
      assert IsCreation(rows, b);
      var i :| 0 <= i < |at| && at[i] == b;
      assert BufferNamed(rows, h, at[i]);
      BufferNamedIff(rows, w, h, i);
      assert BufferIs(rows, at[i], w.bufs[i]);
      FitsIff(kind, w.bufs[i].usage);
    }
  }

  lemma {:induction false} UseIs(rows: seq<Row>, row: Row, w: World, i: nat)
    requires BuffersAre(rows, w) && row.event.Consume? && i < |row.event.buffers|
    requires BufferOf(w, row.event.buffers[i]).Some?
    ensures EntryIs(rows + [row], |rows|, i, Use(BufferOf(w, row.event.buffers[i]).value, row.event.kind, row.index))
  {
    var all, h := rows + [row], row.event.buffers[i];
    var m := BufferOf(w, h).value;
    assert all[|rows|] == row;
    CreationsSnoc(rows, row);
    BufferNamedIff(rows, w, h, m);
    var b := Creations(rows)[m];
    assert IsCreation(rows, b) && all[b] == rows[b];
    BufferLiveSnoc(rows, row, b, |rows|);
  }

  lemma {:induction false} OneEntry(rows: seq<Row>, k: nat, i: nat, e: Entry)
    requires EntryIs(rows, k, i, e)
    ensures EntriesAre(rows, [(k, i)], [e])
  {
  }

  /** Command buffer c holds more entries, and the others what they held. */
  ghost predicate GrewBy(g: Graph, h: Graph, c: Handle, more: seq<Entry>) {
    && Recorded(h, c) == Recorded(g, c) + more
    && forall d: Handle | d != c :: Recorded(h, d) == Recorded(g, d)
  }

  lemma {:induction false} GrewByOne(g: Graph, h: Graph, c: Handle, more: seq<Entry>, e: Entry)
    requires GrewBy(g, h, c, more)
    ensures GrewBy(g, h[c := Recorded(h, c) + [e]], c, more + [e])
  {
    assert Recorded(g, c) + more + [e] == Recorded(g, c) + (more + [e]);
  }

  lemma {:induction false} GrewByNone(g: Graph, c: Handle)
    ensures GrewBy(g, g, c, [])
  {
  }

  lemma {:induction false} MoreEntries(rows: seq<Row>, c: Handle, k: nat, n: nat, entries: seq<Entry>, e: Entry)
    requires EntriesAre(rows, RowSpots(rows, c, k, n), entries) && RecordsAt(rows, c, k, n) && EntryIs(rows, k, n, e)
    ensures EntriesAre(rows, RowSpots(rows, c, k, n + 1), entries + [e])
  {
    OneEntry(rows, k, n, e);
    BothAre(rows, RowSpots(rows, c, k, n), entries, [(k, n)], [e]);
  }

  lemma {:induction false} ConsumeStep(rows: seq<Row>, row: Row, w: World, v: World, n: nat, more: seq<Entry>)
    returns (after: seq<Entry>)
    requires BuffersAre(rows, w) && row.event.Consume? && n < |row.event.buffers|
    requires v.buffers == w.buffers && v.bufs == w.bufs && GrewBy(w.commands, v.commands, row.event.command, more)
    requires EntriesAre(rows + [row], RowSpots(rows + [row], row.event.command, |rows|, n), more)
    ensures var c := row.event.command;
            var next := ConsumeOne(v, c, row.event.buffers[n], row.event.kind, row.index);
            && GrewBy(w.commands, next.commands, c, after)
            && EntriesAre(rows + [row], RowSpots(rows + [row], c, |rows|, n + 1), after)
  {
    var all, c, h, kind := rows + [row], row.event.command, row.event.buffers[n], row.event.kind;
    assert all[|rows|] == row;
    UsableIff(rows, row, w, h, kind);
    assert BufferOf(v, h) == BufferOf(w, h);
    if Usable(all, |rows|, h, kind) {
      var use := Use(BufferOf(w, h).value, kind, row.index);
      UseIs(rows, row, w, n);
      MoreEntries(all, c, |rows|, n, more, use);
      GrewByOne(w.commands, v.commands, c, more, use);
      after := more + [use];
    } else {
      assert !RecordsAt(all, c, |rows|, n);
      after := more;
    }
  }

  lemma {:induction false} ConsumeEntries(rows: seq<Row>, row: Row, w: World, n: nat) returns (more: seq<Entry>)
    requires BuffersAre(rows, w) && row.event.Consume? && n <= |row.event.buffers|
    ensures var c := row.event.command;
            var v := ConsumeAll(w, c, row.event.buffers[..n], row.event.kind, row.index);
            && GrewBy(w.commands, v.commands, c, more)
            && EntriesAre(rows + [row], RowSpots(rows + [row], c, |rows|, n), more)
  {
    var c, hs := row.event.command, row.event.buffers;
    if n == 0 {
      more := [];
      GrewByNone(w.commands, c);
    } else {
      assert hs[..n][..n - 1] == hs[..n - 1];
      var before := ConsumeEntries(rows, row, w, n - 1);
      RecordingKeepsObjects(w, c, hs[..n - 1], row.event.kind, row.index);
      more := ConsumeStep(rows, row, w, ConsumeAll(w, c, hs[..n - 1], row.event.kind, row.index), n - 1, before);
    }
  }

  lemma {:induction false} ExecuteEntries(rows: seq<Row>, row: Row, w: World, n: nat) returns (more: seq<Entry>)
    requires row.event.Execute? && n <= |row.event.secondaries|
    ensures var c := row.event.command;
            && GrewBy(w.commands, ExecuteAll(w, c, row.event.secondaries[..n]).commands, c, more)
            && EntriesAre(rows + [row], RowSpots(rows + [row], c, |rows|, n), more)
  {
    var c, ds := row.event.command, row.event.secondaries;
    if n == 0 {
      more := [];
      GrewByNone(w.commands, c);
    } else {
      assert ds[..n][..n - 1] == ds[..n - 1] && (rows + [row])[|rows|] == row;
      var before := ExecuteEntries(rows, row, w, n - 1);
      var entry := Secondary(ds[n - 1]);
      GrewByOne(w.commands, ExecuteAll(w, c, ds[..n - 1]).commands, c, before, entry);
      MoreEntries(rows + [row], c, |rows|, n - 1, before, entry);
      more := before + [entry];
    }
  }

  lemma {:induction false} TrackCommands(w: World, row: Row, c: Handle)
    requires !row.event.Consume? && !row.event.Execute?
    ensures Recorded(Track(w, row).commands, c) ==
            if ResetsCommand(row.event, c) then [] else Recorded(w.commands, c)
  {
    match row.event
    case Flush(ss) => FlushKeeps(w, ss);
    case BindMemory(bs) => BindKeepsNames(w, bs);
    case _ =>
  }

  /** Rows that record nothing in c leave it as it is, or empty it. */
  lemma {:induction false} NoSpots(rows: seq<Row>, row: Row, c: Handle)
    requires (row.event.Consume? || row.event.Execute?) ==> row.event.command != c
    ensures RowSpots(rows + [row], c, |rows|, Items(row.event)) == []
  {
    assert (rows + [row])[|rows|] == row;
    var spots := RowSpots(rows + [row], c, |rows|, Items(row.event));
    RowSpotsListed(rows + [row], c, |rows|, Items(row.event));
    assert spots != [] ==> RecordsAt(rows + [row], c, |rows|, spots[0].1);
  }

  /** What a row adds to a command buffer, if it does not reset it. */
  lemma {:induction false} RowEntries(rows: seq<Row>, row: Row, w: World, c: Handle) returns (more: seq<Entry>)
    requires BuffersAre(rows, w) && !ResetsCommand(row.event, c)
    ensures EntriesAre(rows + [row], RowSpots(rows + [row], c, |rows|, Items(row.event)), more)
    ensures Recorded(Track(w, row).commands, c) == Recorded(w.commands, c) + more
  {
    more := [];
    if row.event.Consume? {
      var all := ConsumeEntries(rows, row, w, |row.event.buffers|);
      assert row.event.buffers[..|row.event.buffers|] == row.event.buffers;
      if row.event.command == c { more := all; } else { NoSpots(rows, row, c); }
    } else if row.event.Execute? {
      var all := ExecuteEntries(rows, row, w, |row.event.secondaries|);
      assert row.event.secondaries[..|row.event.secondaries|] == row.event.secondaries;
      if row.event.command == c { more := all; } else { NoSpots(rows, row, c); }
    } else {
      TrackCommands(w, row, c);
      NoSpots(rows, row, c);
    }
  }

  lemma {:induction false} CommandSnoc(rows: seq<Row>, row: Row, w: World, c: Handle)
    requires BuffersAre(rows, w) && EntriesAre(rows, CommandSpots(rows, c, |rows|), Recorded(w.commands, c))
    ensures EntriesAre(rows + [row], CommandSpots(rows + [row], c, |rows + [row]|), Recorded(Track(w, row).commands, c))
  {
    var all := rows + [row];
    assert all[|rows|] == row;
    if ResetsCommand(row.event, c) {
      TrackCommands(w, row, c);
    } else {
      CommandSpotsSnoc(rows, row, c, |rows|);
      EntriesSnoc(rows, row, CommandSpots(rows, c, |rows|), Recorded(w.commands, c));
      var more := RowEntries(rows, row, w, c);
      BothAre(all, CommandSpots(rows, c, |rows|), Recorded(w.commands, c), RowSpots(all, c, |rows|, Items(row.event)), more);
    }
  }

  // ---------------------------------------------------------------------------
  // Whole captures

  /** After any rows, what is tracked is what the rows say. */
  lemma {:induction false} WorldIsHistory(rows: seq<Row>)
    ensures MemoriesAre(rows, WorldAfter(rows)) && BuffersAre(rows, WorldAfter(rows)) && CommandsAre(rows, WorldAfter(rows))
  {
    if rows != [] {
      var n := |rows| - 1;
      var before, row := rows[..n], rows[n];
      assert rows == before + [row];
      WorldIsHistory(before);
      var w := WorldAfter(before);
      MemoriesSnoc(before, row, w);
      BuffersSnoc(before, row, w);
      forall c: Handle
        ensures EntriesAre(rows, CommandSpots(rows, c, |rows|), Recorded(WorldAfter(rows).commands, c))
      {
        CommandSnoc(before, row, w, c);
      }
    }
  }

  // ---------------------------------------------------------------------------
  // What a submit uses, and where

  /** Command buffer c executes d. */
  ghost predicate Refers(rows: seq<Row>, c: Handle, d: Handle) {
    exists k: nat, i: nat ::
      && RecordsAt(rows, c, k, i) && NoReset(rows, c, k, |rows|)
      && rows[k].event.Execute? && rows[k].event.secondaries[i] == d
  }

  /** Command buffer c consumes the buffer created at row b, by the given call. */
  ghost predicate Uses(rows: seq<Row>, c: Handle, b: nat, kind: Kind, call: int) {
    exists k: nat, i: nat ::
      && RecordsAt(rows, c, k, i) && NoReset(rows, c, k, |rows|)
      && rows[k].event.Consume? && rows[k].event.kind == kind && rows[k].index == call
      && BufferLive(rows, b, k) && rows[b].event.buffer == rows[k].event.buffers[i]
  }

  /** A chain of command buffers, each executing the next. */
  ghost predicate Chain(rows: seq<Row>, path: seq<Handle>) {
    path != [] && forall i | 0 < i < |path| :: Refers(rows, path[i - 1], path[i])
  }

  /** A submit of roots comes to a consumption of the buffer created at row b. */
  ghost predicate Submits(rows: seq<Row>, roots: seq<Handle>, b: nat, kind: Kind, call: int) {
    exists path: seq<Handle> :: Chain(rows, path) && path[0] in roots && Uses(rows, path[|path| - 1], b, kind, call)
  }

  /** The buffer created at row b lies at an offset in the allocation made at row a. */
  ghost predicate LiesIn(rows: seq<Row>, b: nat, a: nat, offset: nat) {
    exists k: nat, i: nat ::
      && LastBind(rows, b, k, i) && offset == rows[k].event.bindings[i].offset
      && Live(rows, a, k) && rows[a].event.memory == rows[k].event.bindings[i].memory
  }

  /** The allocation is mapped, host-visible (bit 1) and not coherent (bit 2). */
  ghost predicate AtRisk(rows: seq<Row>, a: nat)
    requires IsAllocation(rows, a)
  {
    Mapped(rows, a) && rows[a].event.flags.Some? && rows[a].event.flags.value % 8 in {2, 3}
  }

  lemma {:induction false} EntryOfSpot(rows: seq<Row>, w: World, c: Handle, e: Entry)
    requires CommandsAre(rows, w)
    ensures e in Recorded(w.commands, c) ==>
              exists k: nat, i: nat :: RecordsAt(rows, c, k, i) && NoReset(rows, c, k, |rows|) && EntryIs(rows, k, i, e)
  {
    var spots := CommandSpots(rows, c, |rows|);
    SpotsAreRecorded(rows, c, |rows|);
    assert EntriesAre(rows, spots, Recorded(w.commands, c));
    if e in Recorded(w.commands, c) {
      var j :| 0 <= j < |spots| && Recorded(w.commands, c)[j] == e;
      assert EntryIs(rows, spots[j].0, spots[j].1, e);
    }
  }

  lemma {:induction false} SpotHasEntry(rows: seq<Row>, w: World, c: Handle, k: nat, i: nat) returns (e: Entry)
    requires CommandsAre(rows, w) && RecordsAt(rows, c, k, i) && NoReset(rows, c, k, |rows|)
    ensures e in Recorded(w.commands, c) && EntryIs(rows, k, i, e)
  {
    var spots := CommandSpots(rows, c, |rows|);
    SpotsAreRecorded(rows, c, |rows|);
    assert EntriesAre(rows, spots, Recorded(w.commands, c));
    assert (k, i) in spots;
    var j :| 0 <= j < |spots| && spots[j] == (k, i);
    e := Recorded(w.commands, c)[j];
  }

  lemma {:induction false} EdgeIff(rows: seq<Row>, w: World, c: Handle, d: Handle)
    requires CommandsAre(rows, w)
    ensures Edge(w.commands, c, d) <==> Refers(rows, c, d)
  {
    EntryOfSpot(rows, w, c, Secondary(d));
    if k: nat, i: nat :| RecordsAt(rows, c, k, i) && NoReset(rows, c, k, |rows|) &&
                         rows[k].event.Execute? && rows[k].event.secondaries[i] == d {
      var e := SpotHasEntry(rows, w, c, k, i);
    }
  }

  lemma {:induction false} SameLive(rows: seq<Row>, a: nat, b: nat, k: nat)
    requires BufferLive(rows, a, k) && BufferLive(rows, b, k) && rows[a].event.buffer == rows[b].event.buffer
    ensures a == b
  {
    assert EndsBuffer(rows[b].event, rows[a].event.buffer) && EndsBuffer(rows[a].event, rows[b].event.buffer);
  }

  lemma {:induction false} UseIff(rows: seq<Row>, w: World, c: Handle, j: nat, kind: Kind, call: int)
    requires CommandsAre(rows, w) && j < |Creations(rows)|
    ensures Use(j, kind, call) in Recorded(w.commands, c) <==> Uses(rows, c, Creations(rows)[j], kind, call)
  {
    EntryOfSpot(rows, w, c, Use(j, kind, call));
    if Uses(rows, c, Creations(rows)[j], kind, call) { UsedIsRecorded(rows, w, c, j, kind, call); }
  }

  lemma {:induction false} UsedIsRecorded(rows: seq<Row>, w: World, c: Handle, j: nat, kind: Kind, call: int)
    requires CommandsAre(rows, w) && j < |Creations(rows)| && Uses(rows, c, Creations(rows)[j], kind, call)
    ensures Use(j, kind, call) in Recorded(w.commands, c)
  {
    var at := Creations(rows);
    var k: nat, i: nat :| RecordsAt(rows, c, k, i) && NoReset(rows, c, k, |rows|) &&
                          rows[k].event.Consume? && rows[k].event.kind == kind && rows[k].index == call &&
                          BufferLive(rows, at[j], k) && rows[at[j]].event.buffer == rows[k].event.buffers[i];
    var e := SpotHasEntry(rows, w, c, k, i);
    SameLive(rows, at[j], at[e.buffer], k);
    RisingIsInjective(at, j, e.buffer);
  }

  lemma {:induction false} RisingIsInjective(at: seq<nat>, i: nat, j: nat)
    requires Rising(at) && i < |at| && j < |at| && at[i] == at[j]
    ensures i == j
  {
  }

  /** Every recorded use is of a buffer that was created. */
  lemma {:induction false} UsedExists(rows: seq<Row>, w: World, c: Handle, u: Entry)
    requires CommandsAre(rows, w) && u.Use? && u in Recorded(w.commands, c)
    ensures u.buffer < |Creations(rows)|
  {
    EntryOfSpot(rows, w, c, u);
  }

  lemma {:induction false} ChainIff(rows: seq<Row>, w: World, path: seq<Handle>)
    requires CommandsAre(rows, w)
    ensures IsWalk(w.commands, path) <==> Chain(rows, path)
  {
    forall i | 0 < i < |path|
      ensures Edge(w.commands, path[i - 1], path[i]) <==> Refers(rows, path[i - 1], path[i])
    {
      EdgeIff(rows, w, path[i - 1], path[i]);
    }
  }

  /** Where a tracked buffer lies. */
  lemma {:induction false} LiesIff(rows: seq<Row>, w: World, j: nat, i: nat, offset: nat)
    requires BuffersAre(rows, w) && j < |w.bufs| && i < |Allocations(rows)|
    ensures w.bufs[j].binding == Some(i) && w.bufs[j].offset == offset <==>
            LiesIn(rows, Creations(rows)[j], Allocations(rows)[i], offset)
  {
    var b, at := Creations(rows)[j], Allocations(rows);
    var u := w.bufs[j];
    assert BufferIs(rows, b, u);
    if LiesIn(rows, b, at[i], offset) {
      var k: nat, n: nat :| LastBind(rows, b, k, n) && offset == rows[k].event.bindings[n].offset &&
                            Live(rows, at[i], k) && rows[at[i]].event.memory == rows[k].event.bindings[n].memory;
      assert BindsAt(rows, b, k, n);
      var l: nat, m: nat :| LastBind(rows, b, l, m) && u.offset == rows[l].event.bindings[m].offset &&
                            MemoryAt(rows, l, rows[l].event.bindings[m].memory, u.binding);
      assert BindsAt(rows, b, l, m) && l == k && m == n;
      SameMemory(rows, k, rows[k].event.bindings[n].memory, u.binding, i);
    }
  }

  lemma {:induction false} SameMemory(rows: seq<Row>, k: nat, h: Handle, m: Option<nat>, i: nat)
    requires MemoryAt(rows, k, h, m) && i < |Allocations(rows)|
    requires Live(rows, Allocations(rows)[i], k) && rows[Allocations(rows)[i]].event.memory == h
    ensures m == Some(i)
  {
    var at := Allocations(rows);
    if m.Some? {
      assert EndsMemory(rows[at[i]].event, h) && EndsMemory(rows[at[m.value]].event, h);
      RisingIsInjective(at, i, m.value);
    }
  }
}
