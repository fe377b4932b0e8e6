/**
 What inspect of tools/inspect-upload-capture.py knows after some rows of a capture, read off the rows:
 an object is the row that made it, and what it is like is told by the rows that named it since.
 */
module UploadHistory {
  import opened Options
  import opened CommandGraph
  import opened FlushCoverage
  import opened UploadWorld

  predicate Rising(at: seq<nat>) { forall i, j | 0 <= i < j < |at| :: at[i] < at[j] }

  // ---------------------------------------------------------------------------
  // Memory

  predicate IsAllocation(rows: seq<Row>, a: nat) { a < |rows| && rows[a].event.Allocate? }

  /** The handle no longer denotes the allocation that it did. */
  predicate EndsMemory(e: Event, h: Handle) { e == FreeMemory(h) || (e.Allocate? && e.memory == h) }

  /** Just before row k, the handle of the allocation made at row a denotes it. */
  ghost predicate Live(rows: seq<Row>, a: nat, k: nat) {
    && a < k <= |rows| && rows[a].event.Allocate?
    && forall j | a < j < k :: !EndsMemory(rows[j].event, rows[a].event.memory)
  }

  /** The handle denotes the allocation made at row a. */
  ghost predicate Denotes(rows: seq<Row>, h: Handle, a: nat) {
    Live(rows, a, |rows|) && rows[a].event.memory == h
  }

  /** The row unmaps or frees the handle of the allocation. */
  predicate Unmaps(e: Event, h: Handle) { e == UnmapMemory(h) || e == FreeMemory(h) }

  /** Row k mapped the allocation, and no later row unmapped it. */
  ghost predicate MappedBy(rows: seq<Row>, a: nat, k: nat)
    requires IsAllocation(rows, a)
  {
    && a < k < |rows| && rows[k].event == MapMemory(rows[a].event.memory) && Live(rows, a, k)
    && forall j | k < j < |rows| && Unmaps(rows[j].event, rows[a].event.memory) :: !Live(rows, a, j)
  }

  /** It was mapped, and not unmapped or freed since. */
  ghost predicate Mapped(rows: seq<Row>, a: nat)
    requires IsAllocation(rows, a)
  {
    exists k: nat :: MappedBy(rows, a, k)
  }

  /** A fill of the allocation was captured. */
  ghost predicate Wrote(rows: seq<Row>, a: nat, x: Write)
    requires IsAllocation(rows, a)
  {
    exists k | a < k < |rows| ::
      rows[k] == Row(x.index, Fill(rows[a].event.memory, x.begin, x.length)) && Live(rows, a, k)
  }

  /** The span flushes these bytes of memory with a handle and a size. */
  predicate SpanIs(span: Span, h: Handle, size: nat, r: Range) {
    && span.memory == h
    && r == (span.offset, if span.size == WHOLE then size else span.offset + span.size)
  }

  predicate FlushesRange(e: Event, h: Handle, size: nat, r: Range) {
    e.Flush? && exists span <- e.spans :: SpanIs(span, h, size, r)
  }

  /** A range of the allocation was flushed. */
  ghost predicate Flushed(rows: seq<Row>, a: nat, r: Range)
    requires IsAllocation(rows, a)
  {
    exists k | a < k < |rows| ::
      FlushesRange(rows[k].event, rows[a].event.memory, rows[a].event.size, r) && Live(rows, a, k)
  }

  ghost predicate MemoryIs(rows: seq<Row>, a: nat, m: Memory) {
    && IsAllocation(rows, a) && m.flags == rows[a].event.flags && m.size == rows[a].event.size
    && (m.mapped <==> Mapped(rows, a))
    && (forall x: Write :: x in m.writes <==> Wrote(rows, a, x))
    && (forall r: Range :: r in m.flushes <==> Flushed(rows, a, r))
  }

  /** The rows that allocate, in order. */
  function Allocations(rows: seq<Row>): (at: seq<nat>)
    ensures Rising(at) && forall i | 0 <= i < |at| :: IsAllocation(rows, at[i])
    ensures forall k: nat | IsAllocation(rows, k) :: k in at
  {
    if rows == [] then []
    else
      var n := |rows| - 1;
      var before := Allocations(rows[..n]);
      assert forall k: nat | IsAllocation(rows, k) && k < n :: IsAllocation(rows[..n], k);
      assert forall i | 0 <= i < |before| :: IsAllocation(rows[..n], before[i]);
      before + if rows[n].event.Allocate? then [n] else []
  }

  /** The memory that is tracked is that of the allocations, and handles denote the right ones. */
  ghost predicate MemoriesAre(rows: seq<Row>, w: World) {
    var at := Allocations(rows);
    && |w.mems| == |at|
    && (forall i | 0 <= i < |at| :: MemoryIs(rows, at[i], w.mems[i]))
    && HandlesAre(rows, w.memories)
  }

  ghost predicate HandlesAre(rows: seq<Row>, memories: map<Handle, nat>) {
    HandlesDenote(rows, memories) && DenotedAreKnown(rows, memories)
  }

  ghost predicate HandlesDenote(rows: seq<Row>, memories: map<Handle, nat>) {
    forall h <- memories :: memories[h] < |Allocations(rows)| && Denotes(rows, h, Allocations(rows)[memories[h]])
  }

  ghost predicate DenotedAreKnown(rows: seq<Row>, memories: map<Handle, nat>) {
    forall h: Handle, i | 0 <= i < |Allocations(rows)| && Denotes(rows, h, Allocations(rows)[i]) ::
      h in memories && memories[h] == i
  }

  // One more row

  lemma {:induction false} LiveSnoc(rows: seq<Row>, row: Row, a: nat, k: nat)
    ensures k <= |rows| ==> (Live(rows + [row], a, k) <==> Live(rows, a, k))
    ensures k == |rows| + 1 ==>
              (Live(rows + [row], a, k) <==>
               (a == |rows| && row.event.Allocate?) ||
               (Live(rows, a, |rows|) && !EndsMemory(row.event, rows[a].event.memory)))
  {
    var all := rows + [row];
    assert all[|rows|] == row && forall j | 0 <= j < |rows| :: all[j] == rows[j];
    if Live(rows, a, |rows|) && !EndsMemory(row.event, rows[a].event.memory) {
      forall j | a < j < |all|
        ensures !EndsMemory(all[j].event, all[a].event.memory)
      {
      }
    }
    if a < |rows| && Live(all, a, |rows| + 1) {
      assert !EndsMemory(all[|rows|].event, all[a].event.memory);
      forall j | a < j < |rows|
        ensures !EndsMemory(rows[j].event, rows[a].event.memory)
      {
        assert !EndsMemory(all[j].event, all[a].event.memory);
      }
    }
  }

  /** The new row names the allocation. */
  ghost predicate Names(rows: seq<Row>, a: nat) { Live(rows, a, |rows|) }

  lemma {:induction false} MappedSnoc(rows: seq<Row>, row: Row, a: nat)
    requires IsAllocation(rows, a)
    ensures IsAllocation(rows + [row], a)
    ensures var h := rows[a].event.memory;
            Mapped(rows + [row], a) <==>
            if Names(rows, a) && row.event == MapMemory(h) then true
            else if Names(rows, a) && Unmaps(row.event, h) then false
            else Mapped(rows, a)
  {
    var all, h := rows + [row], rows[a].event.memory;
    assert all[|rows|] == row && forall j | 0 <= j < |rows| :: all[j] == rows[j];
    forall k: nat | k <= |rows|
      ensures Live(all, a, k) <==> Live(rows, a, k)
    {
      LiveSnoc(rows, row, a, k);
    }
    if Names(rows, a) && row.event == MapMemory(h) {
      assert MappedBy(all, a, |rows|);
    } else if Names(rows, a) && Unmaps(row.event, h) {
      assert Unmaps(all[|rows|].event, h) && Live(all, a, |rows|);
    } else {
      MappedStays(rows, row, a);
    }
  }

  lemma {:induction false} MappedByStays(rows: seq<Row>, row: Row, a: nat, k: nat)
    requires IsAllocation(rows, a) && IsAllocation(rows + [row], a) && k < |rows|
    requires Names(rows, a) ==> !Unmaps(row.event, rows[a].event.memory)
    ensures MappedBy(rows + [row], a, k) <==> MappedBy(rows, a, k)
  {
    var all := rows + [row];
    assert all[|rows|] == row && forall j | 0 <= j < |rows| :: all[j] == rows[j];
    forall j: nat | j <= |rows|
      ensures Live(all, a, j) <==> Live(rows, a, j)
    {
      LiveSnoc(rows, row, a, j);
    }
    if MappedBy(all, a, k) {
      forall j | k < j < |rows| && Unmaps(rows[j].event, rows[a].event.memory)
        ensures !Live(rows, a, j)
      {
        assert Unmaps(all[j].event, rows[a].event.memory);
      }
    }
  }

  lemma {:induction false} MappedStays(rows: seq<Row>, row: Row, a: nat)
    requires IsAllocation(rows, a) && IsAllocation(rows + [row], a)
    requires Names(rows, a) ==> row.event != MapMemory(rows[a].event.memory) && !Unmaps(row.event, rows[a].event.memory)
    ensures Mapped(rows + [row], a) <==> Mapped(rows, a)
  {
    var all := rows + [row];
    LiveSnoc(rows, row, a, |rows|);
    assert all[|rows|] == row && all[a] == rows[a];
    forall k: nat | k < |rows|
      ensures MappedBy(all, a, k) <==> MappedBy(rows, a, k)
    {
      MappedByStays(rows, row, a, k);
    }
    if k: nat :| MappedBy(all, a, k) { assert k < |rows|; }
  }

  lemma {:induction false} WroteSnoc(rows: seq<Row>, row: Row, a: nat, x: Write)
    requires IsAllocation(rows, a)
    ensures IsAllocation(rows + [row], a)
    ensures Wrote(rows + [row], a, x) <==>
            Wrote(rows, a, x) ||
            (Names(rows, a) && row == Row(x.index, Fill(rows[a].event.memory, x.begin, x.length)))
  {
    var all, fill := rows + [row], Row(x.index, Fill(rows[a].event.memory, x.begin, x.length));
    assert all[|rows|] == row && forall j | 0 <= j < |rows| :: all[j] == rows[j];
    forall k: nat | k <= |rows|
      ensures Live(all, a, k) <==> Live(rows, a, k)
    {
      LiveSnoc(rows, row, a, k);
    }
    if k :| a < k < |rows| && rows[k] == fill && Live(rows, a, k) { assert all[k] == fill && Live(all, a, k); }
    if Names(rows, a) && row == fill { assert all[|rows|] == fill && Live(all, a, |rows|); }
  }

  lemma {:induction false} FlushedSnoc(rows: seq<Row>, row: Row, a: nat, r: Range)
    requires IsAllocation(rows, a)
    ensures IsAllocation(rows + [row], a)
    ensures Flushed(rows + [row], a, r) <==>
            Flushed(rows, a, r) ||
            (Names(rows, a) && FlushesRange(row.event, rows[a].event.memory, rows[a].event.size, r))
  {
    var all, h, size := rows + [row], rows[a].event.memory, rows[a].event.size;
    assert all[|rows|] == row && forall j | 0 <= j < |rows| :: all[j] == rows[j];
    forall k: nat | k <= |rows|
      ensures Live(all, a, k) <==> Live(rows, a, k)
    {
      LiveSnoc(rows, row, a, k);
    }
    if k :| a < k < |rows| && FlushesRange(rows[k].event, h, size, r) && Live(rows, a, k) {
      assert FlushesRange(all[k].event, h, size, r) && Live(all, a, k);
    }
    if Names(rows, a) && FlushesRange(row.event, h, size, r) {
      assert FlushesRange(all[|rows|].event, h, size, r) && Live(all, a, |rows|);
    }
  }

  lemma {:induction false} AllocationsSnoc(rows: seq<Row>, row: Row)
    ensures Allocations(rows + [row]) == Allocations(rows) + if row.event.Allocate? then [|rows|] else []
  {
    assert (rows + [row])[..|rows|] == rows;
  }

  lemma {:induction false} DenotesSnoc(rows: seq<Row>, row: Row, h: Handle, a: nat)
    ensures Denotes(rows + [row], h, a) <==>
            (a == |rows| && row.event.Allocate? && row.event.memory == h) ||
            (Denotes(rows, h, a) && !EndsMemory(row.event, h))
  {
    LiveSnoc(rows, row, a, |rows| + 1);
    if a <= |rows| { assert (rows + [row])[a] == if a < |rows| then rows[a] else row; }
  }

  /** A handle is looked up as the i-th allocation exactly if it denotes it. */
  lemma {:induction false} NamedIff(rows: seq<Row>, w: World, h: Handle, i: nat)
    requires MemoriesAre(rows, w) && i < |w.mems|
    ensures MemoryOf(w, h) == Some(i) <==> Denotes(rows, h, Allocations(rows)[i])
  {
    var at := Allocations(rows);
    assert IsAllocation(rows, at[i]);
    if MemoryOf(w, h) == Some(i) { assert Denotes(rows, h, at[w.memories[h]]); }
  }

  lemma {:induction false} FlushOneIs(w: World, s: Span, i: nat)
    requires i < |w.mems|
    ensures var v := FlushOne(w, s);
            && v.memories == w.memories && |v.mems| == |w.mems|
            && v.mems[i].(flushes := []) == w.mems[i].(flushes := [])
            && forall r: Range :: r in v.mems[i].flushes <==>
                 r in w.mems[i].flushes || (MemoryOf(w, s.memory) == Some(i) && SpanIs(s, s.memory, w.mems[i].size, r))
  {
  }

  lemma {:induction false} FlushAllIs(w: World, ss: seq<Span>, i: nat)
    requires i < |w.mems|
    ensures var v := FlushAll(w, ss);
            && v.memories == w.memories && |v.mems| == |w.mems|
            && v.mems[i].(flushes := []) == w.mems[i].(flushes := [])
            && forall r: Range :: r in v.mems[i].flushes <==>
                 || r in w.mems[i].flushes
                 || exists s <- ss :: MemoryOf(w, s.memory) == Some(i) && SpanIs(s, s.memory, w.mems[i].size, r)
  {
    if ss != [] {
      var n := |ss| - 1;
      FlushAllIs(w, ss[..n], i);
      FlushOneIs(FlushAll(w, ss[..n]), ss[n], i);
      assert ss == ss[..n] + [ss[n]];
      SameSize(w.mems[i], FlushAll(w, ss[..n]).mems[i]);
    }
  }

  lemma {:induction false} SameSize(m: Memory, n: Memory)
    requires m.(flushes := []) == n.(flushes := [])
    ensures m.size == n.size && m.flags == n.flags && m.mapped == n.mapped && m.writes == n.writes
  {
    assert m.(flushes := []).size == n.(flushes := []).size && m.(flushes := []).flags == n.(flushes := []).flags;
    assert m.(flushes := []).mapped == n.(flushes := []).mapped && m.(flushes := []).writes == n.(flushes := []).writes;
  }

  lemma {:induction false} OthersKeepMemory(w: World, row: Row)
    requires row.event.BindMemory? || row.event.Execute? || row.event.Consume?
    ensures Track(w, row).memories == w.memories && Track(w, row).mems == w.mems
  {
    match row.event
    case BindMemory(bs) => BindKeepsMemory(w, bs);
    case Execute(c, ds) => RecordingKeepsObjects(w, c, ds, TextureStaging, 0);
    case Consume(c, hs, kind) => RecordingKeepsObjects(w, c, hs, kind, row.index);
  }

  lemma {:induction false} BindKeepsMemory(w: World, bs: seq<Binding>)
    ensures BindAll(w, bs).memories == w.memories && BindAll(w, bs).mems == w.mems
  {
    if bs != [] { BindKeepsMemory(w, bs[..|bs| - 1]); }
  }

  lemma {:induction false} RecordingKeepsObjects(w: World, c: Handle, hs: seq<Handle>, kind: Kind, index: int)
    ensures ConsumeAll(w, c, hs, kind, index).(commands := map[]) == w.(commands := map[])
    ensures ExecuteAll(w, c, hs).(commands := map[]) == w.(commands := map[])
    ensures ConsumeAll(w, c, hs, kind, index).memories == w.memories && ConsumeAll(w, c, hs, kind, index).mems == w.mems
    ensures ConsumeAll(w, c, hs, kind, index).buffers == w.buffers && ConsumeAll(w, c, hs, kind, index).bufs == w.bufs
    ensures ExecuteAll(w, c, hs).memories == w.memories && ExecuteAll(w, c, hs).mems == w.mems
    ensures ExecuteAll(w, c, hs).buffers == w.buffers && ExecuteAll(w, c, hs).bufs == w.bufs
  {
    if hs != [] { RecordingKeepsObjects(w, c, hs[..|hs| - 1], kind, index); }
  }

  /** What a row does to the memory that it names, or does not. */
  lemma {:induction false} MemoryAfter(w: World, row: Row, i: nat, h: Handle)
    requires i < |w.mems| && forall g: Handle :: MemoryOf(w, g) == Some(i) ==> g == h
    ensures |Track(w, row).mems| >= |w.mems|
    ensures var m, v := w.mems[i], Track(w, row).mems[i];
            var named := MemoryOf(w, h) == Some(i);
            && v.flags == m.flags && v.size == m.size
            && v.mapped == (if named && row.event == MapMemory(h) then true
                            else if named && Unmaps(row.event, h) then false else m.mapped)
            && (forall x: Write :: x in v.writes <==>
                  x in m.writes || (named && row == Row(x.index, Fill(h, x.begin, x.length))))
            && (forall r: Range :: r in v.flushes <==>
                  r in m.flushes || (named && FlushesRange(row.event, h, m.size, r)))
  {
    match row.event
    case Flush(ss) =>
      FlushAllIs(w, ss, i);
      SameSize(w.mems[i], FlushAll(w, ss).mems[i]);
    case BindMemory(_) => OthersKeepMemory(w, row);
    case Execute(_, _) => OthersKeepMemory(w, row);
    case Consume(_, _, _) => OthersKeepMemory(w, row);
    case _ =>
  }

  lemma {:induction false} MemorySnoc(rows: seq<Row>, row: Row, w: World, i: nat)
    requires MemoriesAre(rows, w) && i < |w.mems|
    ensures i < |Track(w, row).mems| && MemoryIs(rows + [row], Allocations(rows)[i], Track(w, row).mems[i])
  {
    var a := Allocations(rows)[i];
    assert MemoryIs(rows, a, w.mems[i]) && (rows + [row])[a] == rows[a];
    var h := rows[a].event.memory;
    forall g: Handle
      ensures MemoryOf(w, g) == Some(i) <==> g == h && Names(rows, a)
    {
      NamedIff(rows, w, g, i);
    }
    MemoryAfter(w, row, i, h);
    MappedSnoc(rows, row, a);
    forall x: Write
      ensures Wrote(rows + [row], a, x) <==>
              Wrote(rows, a, x) || (Names(rows, a) && row == Row(x.index, Fill(h, x.begin, x.length)))
    {
      WroteSnoc(rows, row, a, x);
    }
    forall r: Range
      ensures Flushed(rows + [row], a, r) <==>
              Flushed(rows, a, r) || (Names(rows, a) && FlushesRange(row.event, h, rows[a].event.size, r))
    {
      FlushedSnoc(rows, row, a, r);
    }
  }

  lemma {:induction false} NewMemory(rows: seq<Row>, row: Row)
    requires row.event.Allocate?
    ensures MemoryIs(rows + [row], |rows|, Memory(row.event.flags, row.event.size, false, [], []))
  {
    assert (rows + [row])[|rows|] == row;
  }

  lemma {:induction false} TrackMemories(w: World, row: Row)
    ensures var v := Track(w, row);
            && |v.mems| == |w.mems| + (if row.event.Allocate? then 1 else 0)
            && v.memories == HandlesAfter(w.memories, |w.mems|, row.event)
            && (row.event.Allocate? ==> v.mems[|w.mems|] == Memory(row.event.flags, row.event.size, false, [], []))
  {
    match row.event
    case Flush(ss) => FlushKeeps(w, ss);
    case BindMemory(_) => OthersKeepMemory(w, row);
    case Execute(_, _) => OthersKeepMemory(w, row);
    case Consume(_, _, _) => OthersKeepMemory(w, row);
    case _ =>
  }

  lemma {:induction false} FlushKeeps(w: World, ss: seq<Span>)
    ensures var v := FlushAll(w, ss);
            && v.memories == w.memories && |v.mems| == |w.mems|
            && v.buffers == w.buffers && v.bufs == w.bufs && v.commands == w.commands
  {
    if ss != [] { FlushKeeps(w, ss[..|ss| - 1]); }
  }

  /** What a row does to the handles, given the number of allocations so far. */
  function HandlesAfter(memories: map<Handle, nat>, n: nat, e: Event): map<Handle, nat> {
    match e
    case Allocate(h, _, _) => memories[h := n]
    case FreeMemory(h) => memories - {h}
    case _ => memories
  }

  lemma {:induction false} HandleSnoc(rows: seq<Row>, row: Row, memories: map<Handle, nat>, h: Handle)
    requires HandlesAre(rows, memories) && h in HandlesAfter(memories, |Allocations(rows)|, row.event)
    ensures var i, at := HandlesAfter(memories, |Allocations(rows)|, row.event)[h], Allocations(rows + [row]);
            i < |at| && Denotes(rows + [row], h, at[i])
  {
    AllocationsSnoc(rows, row);
    if row.event.Allocate? && row.event.memory == h {
      DenotesSnoc(rows, row, h, |rows|);
    } else {
      var a := Allocations(rows)[memories[h]];
      assert Denotes(rows, h, a);
      DenotesSnoc(rows, row, h, a);
    }
  }

  lemma {:induction false} DenotedBefore(rows: seq<Row>, row: Row, memories: map<Handle, nat>, h: Handle, i: nat)
    requires HandlesAre(rows, memories) && i < |Allocations(rows)| && Denotes(rows + [row], h, Allocations(rows)[i])
    ensures var after := HandlesAfter(memories, |Allocations(rows)|, row.event);
            h in after && after[h] == i
  {
    var a := Allocations(rows)[i];
    assert IsAllocation(rows, a);
    DenotesSnoc(rows, row, h, a);
    assert Denotes(rows, h, a) && !EndsMemory(row.event, h);
  }

  lemma {:induction false} DenotedNow(rows: seq<Row>, row: Row, memories: map<Handle, nat>, h: Handle)
    requires Denotes(rows + [row], h, |rows|)
    ensures var after := HandlesAfter(memories, |Allocations(rows)|, row.event);
            h in after && after[h] == |Allocations(rows)|
  {
    DenotesSnoc(rows, row, h, |rows|);
  }

  lemma {:induction false} HandlesDenoteSnoc(rows: seq<Row>, row: Row, memories: map<Handle, nat>)
    requires HandlesAre(rows, memories)
    ensures HandlesDenote(rows + [row], HandlesAfter(memories, |Allocations(rows)|, row.event))
  {
    forall h | h in HandlesAfter(memories, |Allocations(rows)|, row.event) {
      HandleSnoc(rows, row, memories, h);
    }
  }

  lemma {:induction false} DenotedKnownSnoc(rows: seq<Row>, row: Row, memories: map<Handle, nat>)
    requires HandlesAre(rows, memories)
    ensures DenotedAreKnown(rows + [row], HandlesAfter(memories, |Allocations(rows)|, row.event))
  {
    var was, at := Allocations(rows), Allocations(rows + [row]);
    forall h: Handle, i | 0 <= i < |at| && Denotes(rows + [row], h, at[i])
      ensures var after := HandlesAfter(memories, |was|, row.event); h in after && after[h] == i
    {
      DenotedKnown(rows, row, memories, h, i);
    }
  }

  lemma {:induction false} DenotedKnown(rows: seq<Row>, row: Row, memories: map<Handle, nat>, h: Handle, i: nat)
    requires HandlesAre(rows, memories) && i < |Allocations(rows + [row])|
    requires Denotes(rows + [row], h, Allocations(rows + [row])[i])
    ensures var after := HandlesAfter(memories, |Allocations(rows)|, row.event); h in after && after[h] == i
  {
    AllocationsSnoc(rows, row);
    if i < |Allocations(rows)| { DenotedBefore(rows, row, memories, h, i); } else { DenotedNow(rows, row, memories, h); }
  }

  lemma {:induction false} ObjectSnoc(rows: seq<Row>, row: Row, w: World, i: nat)
    requires MemoriesAre(rows, w) && i < |Allocations(rows + [row])|
    ensures |Track(w, row).mems| == |Allocations(rows + [row])|
    ensures MemoryIs(rows + [row], Allocations(rows + [row])[i], Track(w, row).mems[i])
  {
    AllocationsSnoc(rows, row);
    TrackMemories(w, row);
    if i < |w.mems| { MemorySnoc(rows, row, w, i); } else { NewMemory(rows, row); }
  }

  lemma {:induction false} MemoriesSnoc(rows: seq<Row>, row: Row, w: World)
    requires MemoriesAre(rows, w)
    ensures MemoriesAre(rows + [row], Track(w, row))
  {
    AllocationsSnoc(rows, row);
    TrackMemories(w, row);
    HandlesDenoteSnoc(rows, row, w.memories);
    DenotedKnownSnoc(rows, row, w.memories);
    forall i | 0 <= i < |Allocations(rows + [row])|
      ensures MemoryIs(rows + [row], Allocations(rows + [row])[i], Track(w, row).mems[i])
    {
      ObjectSnoc(rows, row, w, i);
    }
  }

  // ---------------------------------------------------------------------------
  // Buffers

  predicate IsCreation(rows: seq<Row>, b: nat) { b < |rows| && rows[b].event.CreateBuffer? }

  predicate EndsBuffer(e: Event, h: Handle) { e == DestroyBuffer(h) || (e.CreateBuffer? && e.buffer == h) }

  /** Just before row k, the handle of the buffer created at row b denotes it. */
  ghost predicate BufferLive(rows: seq<Row>, b: nat, k: nat) {
    && b < k <= |rows| && rows[b].event.CreateBuffer?
    && forall j | b < j < k :: !EndsBuffer(rows[j].event, rows[b].event.buffer)
  }

  /** Row k binds the buffer, by its i-th binding. */
  ghost predicate BindsAt(rows: seq<Row>, b: nat, k: nat, i: nat) {
    && IsCreation(rows, b) && b < k < |rows| && rows[k].event.BindMemory? && i < |rows[k].event.bindings|
    && rows[k].event.bindings[i].buffer == rows[b].event.buffer && BufferLive(rows, b, k)
  }

  ghost predicate LastBind(rows: seq<Row>, b: nat, k: nat, i: nat) {
    BindsAt(rows, b, k, i) && forall l: nat, j: nat | BindsAt(rows, b, l, j) :: l < k || (l == k && j <= i)
  }

  /** The memory that a handle denotes just before row k, as a number of an allocation. */
  ghost predicate MemoryAt(rows: seq<Row>, k: nat, h: Handle, m: Option<nat>) {
    if m.None? then forall a: nat :: !(Live(rows, a, k) && rows[a].event.memory == h)
    else
      m.value < |Allocations(rows)| && Live(rows, Allocations(rows)[m.value], k) &&
      rows[Allocations(rows)[m.value]].event.memory == h
  }

  /** A buffer that was bound is where the last binding put it. */
  ghost predicate BindingIs(rows: seq<Row>, b: nat, binding: Option<nat>, offset: nat) {
    || (binding == None && offset == 0 && forall k: nat, i: nat :: !BindsAt(rows, b, k, i))
    || exists k: nat, i: nat :: LastBind(rows, b, k, i) && offset == rows[k].event.bindings[i].offset &&
                                MemoryAt(rows, k, rows[k].event.bindings[i].memory, binding)
  }

  ghost predicate BufferIs(rows: seq<Row>, b: nat, u: Buffer) {
    && IsCreation(rows, b) && u.created == rows[b].index && u.size == rows[b].event.size
    && u.usage == rows[b].event.usage && BindingIs(rows, b, u.binding, u.offset)
  }

  function Creations(rows: seq<Row>): (at: seq<nat>)
    ensures Rising(at) && forall i | 0 <= i < |at| :: IsCreation(rows, at[i])
    ensures forall k: nat | IsCreation(rows, k) :: k in at
  {
    if rows == [] then []
    else
      var n := |rows| - 1;
      var before := Creations(rows[..n]);
      assert forall k: nat | IsCreation(rows, k) && k < n :: IsCreation(rows[..n], k);
      assert forall i | 0 <= i < |before| :: IsCreation(rows[..n], before[i]);
      before + if rows[n].event.CreateBuffer? then [n] else []
  }

  ghost predicate BufferNamed(rows: seq<Row>, h: Handle, b: nat) {
    BufferLive(rows, b, |rows|) && rows[b].event.buffer == h
  }

  ghost predicate NamesAre(rows: seq<Row>, buffers: map<Handle, nat>) {
    NamesDenote(rows, buffers) && NamedAreKnown(rows, buffers)
  }

  ghost predicate NamesDenote(rows: seq<Row>, buffers: map<Handle, nat>) {
    forall h <- buffers :: buffers[h] < |Creations(rows)| && BufferNamed(rows, h, Creations(rows)[buffers[h]])
  }

  ghost predicate NamedAreKnown(rows: seq<Row>, buffers: map<Handle, nat>) {
    forall h: Handle, i | 0 <= i < |Creations(rows)| && BufferNamed(rows, h, Creations(rows)[i]) ::
      h in buffers && buffers[h] == i
  }

  ghost predicate BuffersAre(rows: seq<Row>, w: World) {
    var at := Creations(rows);
    && |w.bufs| == |at|
    && (forall i | 0 <= i < |at| :: BufferIs(rows, at[i], w.bufs[i]))
    && NamesAre(rows, w.buffers)
  }

  lemma {:induction false} CreationsSnoc(rows: seq<Row>, row: Row)
    ensures Creations(rows + [row]) == Creations(rows) + if row.event.CreateBuffer? then [|rows|] else []
  {
    assert (rows + [row])[..|rows|] == rows;
  }

  lemma {:induction false} BufferLiveSnoc(rows: seq<Row>, row: Row, b: nat, k: nat)
    ensures k <= |rows| ==> (BufferLive(rows + [row], b, k) <==> BufferLive(rows, b, k))
    ensures k == |rows| + 1 ==>
              (BufferLive(rows + [row], b, k) <==>
               (b == |rows| && row.event.CreateBuffer?) ||
               (BufferLive(rows, b, |rows|) && !EndsBuffer(row.event, rows[b].event.buffer)))
  {
    var all := rows + [row];
    assert all[|rows|] == row && forall j | 0 <= j < |rows| :: all[j] == rows[j];
    if BufferLive(rows, b, |rows|) && !EndsBuffer(row.event, rows[b].event.buffer) {
      forall j | b < j < |all|
        ensures !EndsBuffer(all[j].event, all[b].event.buffer)
      {
      }
    }
    if b < |rows| && BufferLive(all, b, |rows| + 1) {
      assert !EndsBuffer(all[|rows|].event, all[b].event.buffer);
      forall j | b < j < |rows|
        ensures !EndsBuffer(rows[j].event, rows[b].event.buffer)
      {
        assert !EndsBuffer(all[j].event, all[b].event.buffer);
      }
    }
  }

  lemma {:induction false} BufferNamedSnoc(rows: seq<Row>, row: Row, h: Handle, b: nat)
    ensures BufferNamed(rows + [row], h, b) <==>
            (b == |rows| && row.event.CreateBuffer? && row.event.buffer == h) ||
            (BufferNamed(rows, h, b) && !EndsBuffer(row.event, h))
  {
    BufferLiveSnoc(rows, row, b, |rows| + 1);
    if b <= |rows| { assert (rows + [row])[b] == if b < |rows| then rows[b] else row; }
  }

  lemma {:induction false} BufferNamedIff(rows: seq<Row>, w: World, h: Handle, i: nat)
    requires BuffersAre(rows, w) && i < |w.bufs|
    ensures BufferOf(w, h) == Some(i) <==> BufferNamed(rows, h, Creations(rows)[i])
  {
    var at := Creations(rows);
    assert IsCreation(rows, at[i]);
    if BufferOf(w, h) == Some(i) { assert BufferNamed(rows, h, at[w.buffers[h]]); }
  }

  /** The last binding of a list that binds h. */
  function LastIn(bs: seq<Binding>, h: Handle): (r: Option<nat>)
    ensures r.Some? ==> r.value < |bs| && bs[r.value].buffer == h
    ensures forall j | 0 <= j < |bs| && bs[j].buffer == h :: r.Some? && j <= r.value
  {
    if bs == [] then None
    else if bs[|bs| - 1].buffer == h then Some(|bs| - 1)
    else LastIn(bs[..|bs| - 1], h)
  }

  lemma {:induction false} BindAllIs(w: World, bs: seq<Binding>, i: nat, h: Handle)
    requires i < |w.bufs| && forall g: Handle :: BufferOf(w, g) == Some(i) ==> g == h
    ensures var v := BindAll(w, bs);
            && v.buffers == w.buffers && |v.bufs| == |w.bufs| && v.memories == w.memories && v.mems == w.mems
            && v.bufs[i] ==
               if BufferOf(w, h) == Some(i) && LastIn(bs, h).Some?
               then w.bufs[i].(binding := MemoryOf(w, bs[LastIn(bs, h).value].memory),
                               offset := bs[LastIn(bs, h).value].offset)
               else w.bufs[i]
  {
    if bs != [] {
      var last := bs[|bs| - 1];
      BindAllIs(w, bs[..|bs| - 1], i, h);
      var v := BindAll(w, bs[..|bs| - 1]);
      assert BufferOf(v, last.buffer) == BufferOf(w, last.buffer) && MemoryOf(v, last.memory) == MemoryOf(w, last.memory);
    }
  }

  function NamesAfter(buffers: map<Handle, nat>, n: nat, e: Event): map<Handle, nat> {
    match e
    case CreateBuffer(h, _, _) => buffers[h := n]
    case DestroyBuffer(h) => buffers - {h}
    case _ => buffers
  }

  lemma {:induction false} NameSnoc(rows: seq<Row>, row: Row, buffers: map<Handle, nat>, h: Handle)
    requires NamesAre(rows, buffers) && h in NamesAfter(buffers, |Creations(rows)|, row.event)
    ensures var i, at := NamesAfter(buffers, |Creations(rows)|, row.event)[h], Creations(rows + [row]);
            i < |at| && BufferNamed(rows + [row], h, at[i])
  {
    CreationsSnoc(rows, row);
    if row.event.CreateBuffer? && row.event.buffer == h {
      BufferNamedSnoc(rows, row, h, |rows|);
    } else {
      var b := Creations(rows)[buffers[h]];
      assert BufferNamed(rows, h, b);
      BufferNamedSnoc(rows, row, h, b);
    }
  }

  lemma {:induction false} NamedBefore(rows: seq<Row>, row: Row, buffers: map<Handle, nat>, h: Handle, i: nat)
    requires NamesAre(rows, buffers) && i < |Creations(rows)| && BufferNamed(rows + [row], h, Creations(rows)[i])
    ensures var after := NamesAfter(buffers, |Creations(rows)|, row.event);
            h in after && after[h] == i
  {
    var b := Creations(rows)[i];
    assert IsCreation(rows, b);
    BufferNamedSnoc(rows, row, h, b);
    assert BufferNamed(rows, h, b) && !EndsBuffer(row.event, h);
  }

  lemma {:induction false} NamedNow(rows: seq<Row>, row: Row, buffers: map<Handle, nat>, h: Handle)
    requires BufferNamed(rows + [row], h, |rows|)
    ensures var after := NamesAfter(buffers, |Creations(rows)|, row.event);
            h in after && after[h] == |Creations(rows)|
  {
    BufferNamedSnoc(rows, row, h, |rows|);
  }

  lemma {:induction false} NamesDenoteSnoc(rows: seq<Row>, row: Row, buffers: map<Handle, nat>)
    requires NamesAre(rows, buffers)
    ensures NamesDenote(rows + [row], NamesAfter(buffers, |Creations(rows)|, row.event))
  {
    forall h | h in NamesAfter(buffers, |Creations(rows)|, row.event) {
      NameSnoc(rows, row, buffers, h);
    }
  }

  lemma {:induction false} NamedKnownSnoc(rows: seq<Row>, row: Row, buffers: map<Handle, nat>)
    requires NamesAre(rows, buffers)
    ensures NamedAreKnown(rows + [row], NamesAfter(buffers, |Creations(rows)|, row.event))
  {
    var was, at := Creations(rows), Creations(rows + [row]);
    forall h: Handle, i | 0 <= i < |at| && BufferNamed(rows + [row], h, at[i])
      ensures var after := NamesAfter(buffers, |was|, row.event); h in after && after[h] == i
    {
      NamedKnown(rows, row, buffers, h, i);
    }
  }

  lemma {:induction false} NamedKnown(rows: seq<Row>, row: Row, buffers: map<Handle, nat>, h: Handle, i: nat)
    requires NamesAre(rows, buffers) && i < |Creations(rows + [row])|
    requires BufferNamed(rows + [row], h, Creations(rows + [row])[i])
    ensures var after := NamesAfter(buffers, |Creations(rows)|, row.event); h in after && after[h] == i
  {
    CreationsSnoc(rows, row);
    if i < |Creations(rows)| { NamedBefore(rows, row, buffers, h, i); } else { NamedNow(rows, row, buffers, h); }
  }

  /** Row k, or the new row, binds the buffer. */
  lemma {:induction false} BindsSnoc(rows: seq<Row>, row: Row, b: nat, k: nat, i: nat)
    requires IsCreation(rows, b)
    ensures BindsAt(rows + [row], b, k, i) <==>
            BindsAt(rows, b, k, i) ||
            (k == |rows| && row.event.BindMemory? && i < |row.event.bindings| &&
             row.event.bindings[i].buffer == rows[b].event.buffer && BufferLive(rows, b, |rows|))
  {
    assert (rows + [row])[b] == rows[b];
    if k <= |rows| {
      BufferLiveSnoc(rows, row, b, k);
      assert (rows + [row])[k] == if k < |rows| then rows[k] else row;
    }
  }

  /** The place that a row gives to the buffer, if it binds it. */
  ghost predicate BindsNow(rows: seq<Row>, row: Row, b: nat, i: nat)
    requires IsCreation(rows, b)
  {
    row.event.BindMemory? && LastIn(row.event.bindings, rows[b].event.buffer) == Some(i) && BufferLive(rows, b, |rows|)
  }

  lemma {:induction false} LastBindNow(rows: seq<Row>, row: Row, b: nat, i: nat)
    requires IsCreation(rows, b) && BindsNow(rows, row, b, i)
    ensures LastBind(rows + [row], b, |rows|, i)
  {
    forall k: nat, j: nat
      ensures BindsAt(rows + [row], b, k, j) <==>
              BindsAt(rows, b, k, j) ||
              (k == |rows| && row.event.BindMemory? && j < |row.event.bindings| &&
               row.event.bindings[j].buffer == rows[b].event.buffer && BufferLive(rows, b, |rows|))
    {
      BindsSnoc(rows, row, b, k, j);
    }
  }

  lemma {:induction false} BindsStay(rows: seq<Row>, row: Row, b: nat)
    requires IsCreation(rows, b) && forall i: nat :: !BindsNow(rows, row, b, i)
    ensures forall k: nat, j: nat :: BindsAt(rows + [row], b, k, j) <==> BindsAt(rows, b, k, j)
  {
    forall k: nat, j: nat
      ensures BindsAt(rows + [row], b, k, j) <==> BindsAt(rows, b, k, j)
    {
      BindsSnoc(rows, row, b, k, j);
      if row.event.BindMemory? && LastIn(row.event.bindings, rows[b].event.buffer).Some? {
        assert BufferLive(rows, b, |rows|) ==>
                 BindsNow(rows, row, b, LastIn(row.event.bindings, rows[b].event.buffer).value);
      }
    }
  }

  lemma {:induction false} MemoryAtSnoc(rows: seq<Row>, row: Row, k: nat, h: Handle, m: Option<nat>)
    requires k <= |rows| && MemoryAt(rows, k, h, m)
    ensures MemoryAt(rows + [row], k, h, m)
  {
    var all := rows + [row];
    AllocationsSnoc(rows, row);
    forall a: nat
      ensures Live(all, a, k) <==> Live(rows, a, k)
      ensures a < |rows| ==> all[a] == rows[a]
    {
      LiveSnoc(rows, row, a, k);
    }
  }

  lemma {:induction false} MemoryAtNow(rows: seq<Row>, row: Row, w: World, h: Handle)
    requires MemoriesAre(rows, w)
    ensures MemoryAt(rows + [row], |rows|, h, MemoryOf(w, h))
  {
    var at := Allocations(rows);
    var m := MemoryOf(w, h);
    if m.Some? { assert Denotes(rows, h, at[w.memories[h]]); }
    forall a: nat | Live(rows, a, |rows|) && rows[a].event.memory == h
      ensures m.Some?
    {
      LiveIsFound(rows, w, a);
    }
    MemoryAtSnoc(rows, row, |rows|, h, m);
  }

  lemma {:induction false} LiveIsFound(rows: seq<Row>, w: World, a: nat)
    requires MemoriesAre(rows, w) && Live(rows, a, |rows|)
    ensures MemoryOf(w, rows[a].event.memory).Some?
  {
    var at := Allocations(rows);
    assert IsAllocation(rows, a);
    var i :| 0 <= i < |at| && at[i] == a;
    assert Denotes(rows, rows[a].event.memory, at[i]);
  }

  lemma {:induction false} BindingStays(rows: seq<Row>, row: Row, b: nat, binding: Option<nat>, offset: nat)
    requires IsCreation(rows, b) && BindingIs(rows, b, binding, offset) && forall i: nat :: !BindsNow(rows, row, b, i)
    ensures BindingIs(rows + [row], b, binding, offset)
  {
    BindsStay(rows, row, b);
    if k: nat, i: nat :| LastBind(rows, b, k, i) && offset == rows[k].event.bindings[i].offset &&
                         MemoryAt(rows, k, rows[k].event.bindings[i].memory, binding) {
      assert (rows + [row])[k] == rows[k];
      MemoryAtSnoc(rows, row, k, rows[k].event.bindings[i].memory, binding);
      assert LastBind(rows + [row], b, k, i);
    }
  }

  lemma {:induction false} BindingNow(rows: seq<Row>, row: Row, w: World, b: nat, i: nat)
    requires MemoriesAre(rows, w) && IsCreation(rows, b) && BindsNow(rows, row, b, i)
    ensures BindingIs(rows + [row], b, MemoryOf(w, row.event.bindings[i].memory), row.event.bindings[i].offset)
  {
    LastBindNow(rows, row, b, i);
    MemoryAtNow(rows, row, w, row.event.bindings[i].memory);
    assert (rows + [row])[|rows|] == row;
  }

  lemma {:induction false} TrackBuffers(w: World, row: Row)
    ensures var v := Track(w, row);
            && |v.bufs| == |w.bufs| + (if row.event.CreateBuffer? then 1 else 0)
            && v.buffers == NamesAfter(w.buffers, |w.bufs|, row.event)
            && (row.event.CreateBuffer? ==>
                  v.bufs[|w.bufs|] == Buffer(row.index, row.event.size, row.event.usage, None, 0))
            && (!row.event.BindMemory? ==> forall i | 0 <= i < |w.bufs| :: v.bufs[i] == w.bufs[i])
  {
    match row.event
    case Flush(ss) => FlushKeeps(w, ss);
    case BindMemory(bs) => BindKeepsNames(w, bs);
    case Execute(c, ds) => RecordingKeepsObjects(w, c, ds, TextureStaging, 0);
    case Consume(c, hs, kind) => RecordingKeepsObjects(w, c, hs, kind, row.index);
    case _ =>
  }

  lemma {:induction false} BindKeepsNames(w: World, bs: seq<Binding>)
    ensures BindAll(w, bs).buffers == w.buffers && |BindAll(w, bs).bufs| == |w.bufs|
    ensures BindAll(w, bs).commands == w.commands
  {
    if bs != [] { BindKeepsNames(w, bs[..|bs| - 1]); }
  }

  lemma {:induction false} BufferSnoc(rows: seq<Row>, row: Row, w: World, i: nat)
    requires MemoriesAre(rows, w) && BuffersAre(rows, w) && i < |w.bufs|
    ensures i < |Track(w, row).bufs| && BufferIs(rows + [row], Creations(rows)[i], Track(w, row).bufs[i])
  {
    var b := Creations(rows)[i];
    assert BufferIs(rows, b, w.bufs[i]) && (rows + [row])[b] == rows[b];
    var h := rows[b].event.buffer;
    forall g: Handle
      ensures BufferOf(w, g) == Some(i) <==> g == h && BufferLive(rows, b, |rows|)
    {
      BufferNamedIff(rows, w, g, i);
    }
    TrackBuffers(w, row);
    if row.event.BindMemory? { BindAllIs(w, row.event.bindings, i, h); }
    if row.event.BindMemory? && BufferLive(rows, b, |rows|) && LastIn(row.event.bindings, h).Some? {
      BindingNow(rows, row, w, b, LastIn(row.event.bindings, h).value);
    } else {
      BindingStays(rows, row, b, w.bufs[i].binding, w.bufs[i].offset);
    }
  }

  lemma {:induction false} NewBuffer(rows: seq<Row>, row: Row)
    requires row.event.CreateBuffer?
    ensures BufferIs(rows + [row], |rows|, Buffer(row.index, row.event.size, row.event.usage, None, 0))
  {
    assert (rows + [row])[|rows|] == row;
  }

  lemma {:induction false} BuffersSnoc(rows: seq<Row>, row: Row, w: World)
    requires MemoriesAre(rows, w) && BuffersAre(rows, w)
    ensures BuffersAre(rows + [row], Track(w, row))
  {
    CreationsSnoc(rows, row);
    TrackBuffers(w, row);
    NamesDenoteSnoc(rows, row, w.buffers);
    NamedKnownSnoc(rows, row, w.buffers);
    var at := Creations(rows + [row]);
    forall i | 0 <= i < |at|
      ensures BufferIs(rows + [row], at[i], Track(w, row).bufs[i])
    {
      if i < |w.bufs| { BufferSnoc(rows, row, w, i); } else { NewBuffer(rows, row); }
    }
  }
}
