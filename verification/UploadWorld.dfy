/**
 The memory, buffers and command buffers that inspect of tools/inspect-upload-capture.py tracks, and
 what one row of a capture does to them.

 Dictionaries that the program shares by reference are positions in mems and bufs here,
 so a buffer that was destroyed, or a handle that was reused, keeps its own state.
 */
module UploadWorld {
  import opened Options
  import opened CommandGraph
  import opened FlushCoverage

  const WHOLE := 0xFFFF_FFFF_FFFF_FFFF

  /** A FillMemoryCommand snapshot. */
  datatype Write = Write(begin: nat, length: nat, index: int) {
    function End(): nat { begin + length }
  }

  datatype Memory = Memory(flags: Option<nat>, size: nat, mapped: bool, writes: seq<Write>, flushes: seq<Range>)

  datatype Buffer = Buffer(created: int, size: nat, usage: nat, binding: Option<nat>, offset: nat)

  datatype Binding = Binding(buffer: Handle, memory: Handle, offset: nat)
  datatype Span = Span(memory: Handle, offset: nat, size: nat)

  /** The rows of a capture that inspect acts on. flags is the property word of the memory
      type, when the capture holds the physical memory properties. */
  datatype Event =
    | Fill(memory: Handle, offset: nat, length: nat)
    | Allocate(memory: Handle, flags: Option<nat>, size: nat)
    | FreeMemory(memory: Handle)
    | MapMemory(memory: Handle)
    | UnmapMemory(memory: Handle)
    | CreateBuffer(buffer: Handle, size: nat, usage: nat)
    | DestroyBuffer(buffer: Handle)
    | BindMemory(bindings: seq<Binding>)
    | Flush(spans: seq<Span>)
    | StartCommands(command: Handle)
    | FreeCommands(commands: seq<Handle>)
    | Execute(command: Handle, secondaries: seq<Handle>)
    | Consume(command: Handle, buffers: seq<Handle>, kind: Kind)
    | Submit(roots: seq<Handle>)
    | Irrelevant

  datatype Row = Row(index: int, event: Event)

  datatype World = World(
    memories: map<Handle, nat>, mems: seq<Memory>,
    buffers: map<Handle, nat>, bufs: seq<Buffer>,
    commands: Graph)

  const NOTHING := World(map[], [], map[], [], map[])

  /** The memory object behind a handle. */
  function MemoryOf(w: World, h: Handle): Option<nat> {
    if h in w.memories && w.memories[h] < |w.mems| then Some(w.memories[h]) else None
  }

  function BufferOf(w: World, h: Handle): Option<nat> {
    if h in w.buffers && w.buffers[h] < |w.bufs| then Some(w.buffers[h]) else None
  }

  function WithMemory(w: World, m: Option<nat>, f: Memory -> Memory): World {
    if m.Some? && m.value < |w.mems| then w.(mems := w.mems[m.value := f(w.mems[m.value])]) else w
  }

  function BindOne(w: World, b: Binding): World {
    var id := BufferOf(w, b.buffer);
    if id.None? then w
    else w.(bufs := w.bufs[id.value := w.bufs[id.value].(binding := MemoryOf(w, b.memory), offset := b.offset)])
  }

  function FlushOne(w: World, s: Span): World {
    WithMemory(w, MemoryOf(w, s.memory),
               (m: Memory) => m.(flushes := m.flushes
                                 + [(s.offset, if s.size == WHOLE then m.size else s.offset + s.size)]))
  }

  function Required(kind: Kind): nat {
    match kind
    case ImmediateVertex => 0x82
    case IndirectParameters => 0x100
    case _ => 1
  }

  function Recorded(g: Graph, c: Handle): seq<Entry> { if c in g then g[c] else [] }

  function ConsumeOne(w: World, command: Handle, h: Handle, kind: Kind, index: int): World {
    var id := BufferOf(w, h);
    if id.None? || w.bufs[id.value].usage != Required(kind) then w
    else w.(commands := w.commands[command := Recorded(w.commands, command) + [Use(id.value, kind, index)]])
  }

  function BindAll(w: World, bs: seq<Binding>): World {
    if bs == [] then w else BindOne(BindAll(w, bs[..|bs| - 1]), bs[|bs| - 1])
  }

  function FlushAll(w: World, ss: seq<Span>): World {
    if ss == [] then w else FlushOne(FlushAll(w, ss[..|ss| - 1]), ss[|ss| - 1])
  }

  function ConsumeAll(w: World, command: Handle, hs: seq<Handle>, kind: Kind, index: int): World {
    if hs == [] then w
    else ConsumeOne(ConsumeAll(w, command, hs[..|hs| - 1], kind, index), command, hs[|hs| - 1], kind, index)
  }

  function ExecuteAll(w: World, command: Handle, ds: seq<Handle>): World {
    if ds == [] then w
    else
      var v := ExecuteAll(w, command, ds[..|ds| - 1]);
      v.(commands := v.commands[command := Recorded(v.commands, command) + [Secondary(ds[|ds| - 1])]])
  }

  /** What a row does to the tracked objects. */
  function Track(w: World, row: Row): World {
    match row.event
    case Fill(h, offset, length) =>
      WithMemory(w, MemoryOf(w, h),
                 (m: Memory) => m.(writes := m.writes + [Write(offset, length, row.index)]))
    case Allocate(h, flags, size) =>
      w.(memories := w.memories[h := |w.mems|], mems := w.mems + [Memory(flags, size, false, [], [])])
    case FreeMemory(h) =>
      WithMemory(w, MemoryOf(w, h), (m: Memory) => m.(mapped := false)).(memories := w.memories - {h})
    case MapMemory(h) => WithMemory(w, MemoryOf(w, h), (m: Memory) => m.(mapped := true))
    case UnmapMemory(h) => WithMemory(w, MemoryOf(w, h), (m: Memory) => m.(mapped := false))
    case CreateBuffer(h, size, usage) =>
      w.(buffers := w.buffers[h := |w.bufs|], bufs := w.bufs + [Buffer(row.index, size, usage, None, 0)])
    case DestroyBuffer(h) => w.(buffers := w.buffers - {h})
    case BindMemory(bs) => BindAll(w, bs)
    case Flush(ss) => FlushAll(w, ss)
    case StartCommands(c) => w.(commands := w.commands[c := []])
    case FreeCommands(cs) => w.(commands := w.commands - set c | c in cs)
    case Execute(c, ds) => ExecuteAll(w, c, ds)
    case Consume(c, hs, kind) => ConsumeAll(w, c, hs, kind, row.index)
    case Submit(_) => w
    case Irrelevant => w
  }

  function WorldAfter(rows: seq<Row>): World {
    if rows == [] then NOTHING else Track(WorldAfter(rows[..|rows| - 1]), rows[|rows| - 1])
  }
}
