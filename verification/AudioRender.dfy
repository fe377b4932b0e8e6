/**
 renderAudio of compat/media/SimplePlayer.cpp: partial writes of output buffers to an audio track
 whose frame counters are 32 bits wide and wrap around.
 */
module AudioRender {

  const U32 := 0x1_0000_0000

  /** mNumFramesWritten of the track, and the mOffset and mSize of the buffer at hand. written is
      what the audio track has been given. */
  datatype Audio = Audio(counter: nat, offset: nat, size: nat, written: seq<int>)

  /** The audio track: its capacity in frames and the bytes of one frame. */
  datatype Device = Device(frameCount: nat, frameSize: nat)

  predicate ValidDevice(d: Device) { d.frameSize > 0 && d.frameCount < U32 }

  /** frameCount() - (mNumFramesWritten - numFramesPlayed), in unsigned 32-bit arithmetic. */
  function Available(d: Device, counter: nat, played: nat): nat {
    (d.frameCount - (counter - played) % U32) % U32
  }

  /** How many bytes a call writes. */
  function Copied(d: Device, a: Audio, played: nat): nat {
    var room := Available(d, a.counter, played) * d.frameSize;
    if a.size > room then room else a.size
  }

  /** The state after one call, whose getPosition answered played. */
  function Rendered(d: Device, buffer: seq<int>, a: Audio, played: nat): Audio
    requires d.frameSize > 0 && a.offset + a.size <= |buffer|
  {
    var copy := Copied(d, a, played);
    Audio((a.counter + copy / d.frameSize) % U32, a.offset + copy, a.size - copy,
          a.written + buffer[a.offset..a.offset + copy])
  }

  /** A call that has nothing to copy changes nothing. */
  lemma {:induction false} NothingRendered(d: Device, buffer: seq<int>, a: Audio, played: nat)
    requires d.frameSize > 0 && a.counter < U32 && a.offset + a.size <= |buffer| && Copied(d, a, played) == 0
    ensures Rendered(d, buffer, a, played) == a
  {
    assert a.written + buffer[a.offset..a.offset] == a.written;
  }

  class AudioState {
    var counter: nat
    var offset: nat
    var size: nat
    var written: seq<int>

    function View(): Audio
      reads this
    {
      Audio(counter, offset, size, written)
    }

    method RenderAudio(d: Device, buffer: seq<int>, played: nat)
      requires ValidDevice(d) && counter < U32 && played < U32 && offset + size <= |buffer|
      modifies this
      ensures View() == Rendered(d, buffer, old(View()), played)
    {
      var frames := Available(d, counter, played);
      var bytes := frames * d.frameSize;
      var copy := size;
      if copy > bytes {
        copy := bytes;
      }
      if copy == 0 {
        NothingRendered(d, buffer, View(), played);
        return;
      }
      written := written + buffer[offset..offset + copy];
      offset := offset + copy;
      size := size - copy;
      counter := (counter + copy / d.frameSize) % U32;
    }
  }

  // ---------------------------------------------------------------------------
  // Nothing is lost

  /** The state after calls whose positions were played. */
  function Calls(d: Device, buffer: seq<int>, a: Audio, played: seq<nat>): (r: Audio)
    requires d.frameSize > 0 && a.offset + a.size <= |buffer|
    ensures r.offset + r.size == a.offset + a.size && a.offset <= r.offset
  {
    if played == [] then a
    else Rendered(d, buffer, Calls(d, buffer, a, played[..|played| - 1]), played[|played| - 1])
  }

  lemma {:induction false} Adjoin(buffer: seq<int>, i: nat, j: nat, k: nat)
    requires i <= j <= k <= |buffer|
    ensures buffer[i..j] + buffer[j..k] == buffer[i..k]
    ensures buffer[i..i] == []
  {
  }

  lemma {:induction false} Extend(start: seq<int>, buffer: seq<int>, i: nat, j: nat, k: nat)
    requires i <= j <= k <= |buffer|
    ensures start + buffer[i..j] + buffer[j..k] == start + buffer[i..k]
    ensures start + buffer[i..i] == start
  {
    Adjoin(buffer, i, j, k);
  }

  lemma {:induction false} WrittenSoFar(d: Device, buffer: seq<int>, a: Audio, played: seq<nat>)
    requires d.frameSize > 0 && a.offset + a.size <= |buffer|
    ensures var r := Calls(d, buffer, a, played); r.written == a.written + buffer[a.offset..r.offset]
  {
    if played == [] {
      Extend(a.written, buffer, a.offset, a.offset, a.offset);
    } else {
      var before := Calls(d, buffer, a, played[..|played| - 1]);
      WrittenSoFar(d, buffer, a, played[..|played| - 1]);
      Extend(a.written, buffer, a.offset, before.offset, Calls(d, buffer, a, played).offset);
    }
  }

  /** Whatever positions the track reports, any number of calls has written a contiguous prefix of
      what the buffer held, in order, and the rest is still to be written. */
  lemma {:induction false} WritesArePrefix(d: Device, buffer: seq<int>, a: Audio, played: seq<nat>)
    requires d.frameSize > 0 && a.offset + a.size <= |buffer|
    ensures var r := Calls(d, buffer, a, played);
            && r.written == a.written + buffer[a.offset..r.offset]
            && r.written + buffer[r.offset..r.offset + r.size] == a.written + buffer[a.offset..a.offset + a.size]
  {
    var r := Calls(d, buffer, a, played);
    WrittenSoFar(d, buffer, a, played);
    Extend(a.written, buffer, a.offset, r.offset, r.offset + r.size);
  }

  // ---------------------------------------------------------------------------
  // Wrapping counters

  /** The 32-bit difference of two counters is the true backlog when that fits. */
  lemma {:induction false} DifferenceIsBacklog(frames: nat, played: nat)
    requires played <= frames < played + U32
    ensures (frames % U32 - played % U32) % U32 == frames - played
  {
    ModOfDifference(frames, played);
  }

  lemma {:induction false} ModOfDifference(x: int, y: int)
    ensures (x % U32 - y % U32) % U32 == (x - y) % U32
  {
    var p, q := x / U32, y / U32;
    assert x == p * U32 + x % U32 && y == q * U32 + y % U32;
    MultipleDrops(x % U32 - y % U32, p - q);
    assert x - y == (x % U32 - y % U32) + (p - q) * U32;
  }

  lemma {:induction false} MultipleDrops(x: int, k: int)
    ensures (x + k * U32) % U32 == x % U32
  {
  }

  lemma {:induction false} SumWraps(x: nat, y: nat)
    ensures (x % U32 + y) % U32 == (x + y) % U32
  {
    var p := x / U32;
    assert x == p * U32 + x % U32;
    MultipleDrops(x % U32 + y, p);
    assert x + y == (x % U32 + y) + p * U32;
  }

  /** While the played count has not passed the written count and the backlog fits the track, the
      room is exactly what the track has left. */
  lemma {:induction false} RoomIsExact(d: Device, frames: nat, played: nat)
    requires ValidDevice(d) && played <= frames <= played + d.frameCount
    ensures Available(d, frames % U32, played % U32) == d.frameCount - (frames - played)
  {
    DifferenceIsBacklog(frames, played);
  }

  // ---------------------------------------------------------------------------
  // One track over many buffers

  /** A track in use: the counters, the buffer at the head of the queue, and the last position that
      the track reported, in frames that were really played. */
  datatype Track = Track(audio: Audio, buffer: seq<int>, position: nat)

  const NEW_TRACK := Track(Audio(0, 0, 0, []), [], 0)

  /** A buffer becomes the head of the queue, whether or not the one before it was used up, or the
      head is rendered while the track reports a position. */
  datatype Event = Take(buffer: seq<int>, offset: nat, size: nat) | Call(played: nat)

  predicate InBuffer(t: Track) { t.audio.offset + t.audio.size <= |t.buffer| }

  /** Positions do not go back, and the track never plays a frame that it was not given in full. */
  predicate CanHappen(d: Device, t: Track, e: Event) {
    match e
    case Take(buffer, offset, size) => offset + size <= |buffer|
    case Call(played) => t.position <= played && played * d.frameSize <= |t.audio.written|
  }

  function Next(d: Device, t: Track, e: Event): (r: Track)
    requires d.frameSize > 0 && InBuffer(t) && CanHappen(d, t, e)
    ensures InBuffer(r)
  {
    match e
    case Take(buffer, offset, size) => t.(audio := t.audio.(offset := offset, size := size), buffer := buffer)
    case Call(played) => t.(audio := Rendered(d, t.buffer, t.audio, played % U32), position := played)
  }

  /** Every event of a run can happen where it does. */
  predicate IsRun(d: Device, t: Track, events: seq<Event>)
    requires d.frameSize > 0 && InBuffer(t)
    decreases events
  {
    events == [] || (CanHappen(d, t, events[0]) && IsRun(d, Next(d, t, events[0]), events[1..]))
  }

  function Run(d: Device, t: Track, events: seq<Event>): (r: Track)
    requires d.frameSize > 0 && InBuffer(t) && IsRun(d, t, events)
    ensures InBuffer(r)
    decreases events
  {
    if events == [] then t else Run(d, Next(d, t, events[0]), events[1..])
  }

  /** The bytes that the track was given are whole frames, the counter stands for their number, and
      what is not yet played fits the track. */
  ghost predicate Exact(d: Device, t: Track)
    requires d.frameSize > 0
  {
    var frames := |t.audio.written| / d.frameSize;
    && |t.audio.written| == frames * d.frameSize
    && t.audio.counter == frames % U32
    && t.position <= frames <= t.position + d.frameCount
  }

  /** The same with the number of frames at hand. */
  lemma {:induction false} ExactFrames(d: Device, t: Track, frames: nat)
    requires d.frameSize > 0 && |t.audio.written| == frames * d.frameSize && t.audio.counter == frames % U32
    requires t.position <= frames <= t.position + d.frameCount
    ensures Exact(d, t)
  {
    Quotient(frames, d.frameSize);
  }

  lemma {:induction false} Apart(p: nat, q: nat, k: nat)
    ensures p < q ==> p * k + k <= q * k
  {
    if p < q {
      Ordered(p + 1, q, k);
      Distribute(p, 1, k);
    }
  }

  /** Quotient and remainder are unique. */
  lemma {:induction false} DivisionIsUnique(x: nat, k: nat, q: nat, r: nat)
    requires k > 0 && x == q * k + r && r < k
    ensures x / k == q && x % k == r
  {
    var p := x / k;
    assert x == p * k + x % k;
    Apart(p, q, k);
    Apart(q, p, k);
  }

  lemma {:induction false} Quotient(x: nat, k: nat)
    requires k > 0
    ensures x * k / k == x && x * k % k == 0
  {
    DivisionIsUnique(x * k, k, x, 0);
  }

  lemma {:induction false} Cancel(x: nat, y: nat, k: nat)
    requires k > 0 && x * k <= y * k
    ensures x <= y
  {
  }

  lemma {:induction false} Ordered(x: nat, y: nat, k: nat)
    requires x <= y
    ensures x * k <= y * k
  {
  }

  /** A call copies all of the rest or all of the room, and the room is known. */
  lemma {:induction false} CopyIsKnown(d: Device, t: Track, played: nat)
    requires ValidDevice(d) && Exact(d, t) && CanHappen(d, t, Call(played))
    ensures var frames := |t.audio.written| / d.frameSize;
            && played <= frames <= played + d.frameCount
            && var room := (d.frameCount - (frames - played)) * d.frameSize;
               Copied(d, t.audio, played % U32) == if t.audio.size > room then room else t.audio.size
  {
    var frames := |t.audio.written| / d.frameSize;
    Cancel(played, frames, d.frameSize);
    RoomIsExact(d, frames, played);
  }

  lemma {:induction false} RenderedWhole(d: Device, t: Track, played: nat, frames: nat, copied: nat)
    requires d.frameSize > 0 && InBuffer(t) && CanHappen(d, t, Call(played))
    requires |t.audio.written| == frames * d.frameSize && t.audio.counter == frames % U32
    requires Copied(d, t.audio, played % U32) == copied * d.frameSize
    ensures var a := Next(d, t, Call(played)).audio;
            |a.written| == (frames + copied) * d.frameSize && a.counter == (frames + copied) % U32
  {
    Quotient(copied, d.frameSize);
    SumWraps(frames, copied);
    Distribute(frames, copied, d.frameSize);
  }

  lemma {:induction false} Distribute(x: nat, y: nat, k: nat)
    ensures (x + y) * k == x * k + y * k
  {
  }

  /** A call that copies whole frames keeps the track exact. */
  lemma {:induction false} WholeCopyKeepsExact(d: Device, t: Track, played: nat, copied: nat)
    requires ValidDevice(d) && InBuffer(t) && Exact(d, t) && CanHappen(d, t, Call(played))
    requires Copied(d, t.audio, played % U32) == copied * d.frameSize
    ensures Exact(d, Next(d, t, Call(played)))
  {
    var frames := |t.audio.written| / d.frameSize;
    var r := Next(d, t, Call(played));
    CopyIsKnown(d, t, played);
    Cancel(copied, d.frameCount - (frames - played), d.frameSize);
    RenderedWhole(d, t, played, frames, copied);
    ExactFrames(d, r, frames + copied);
  }

  /** A call on a rest of whole frames leaves a rest of whole frames and an exact track. */
  lemma {:induction false} WholeRestKeepsExact(d: Device, t: Track, played: nat)
    requires ValidDevice(d) && InBuffer(t) && Exact(d, t) && CanHappen(d, t, Call(played))
    requires t.audio.size % d.frameSize == 0
    ensures Exact(d, Next(d, t, Call(played))) && Next(d, t, Call(played)).audio.size % d.frameSize == 0
  {
    var k := d.frameSize;
    var frames := |t.audio.written| / k;
    CopyIsKnown(d, t, played);
    var copied := WholeCopy(t.audio.size, d.frameCount - (frames - played), k);
    WholeCopyKeepsExact(d, t, played, copied);
    assert Next(d, t, Call(played)).audio.size == t.audio.size - copied * k;
  }

  /** The lesser of two whole numbers of frames is one, and so is what remains. */
  lemma {:induction false} WholeCopy(size: nat, room: nat, k: nat) returns (copied: nat)
    requires k > 0 && size % k == 0
    ensures copied * k == if size > room * k then room * k else size
    ensures copied * k <= size && (size - copied * k) % k == 0
  {
    var rest := size / k;
    assert size == rest * k;
    copied := if size > room * k then room else rest;
    SameRemainder(size, copied, k);
  }

  /** Every buffer holds whole frames. */
  predicate WholeBuffers(d: Device, events: seq<Event>)
    requires d.frameSize > 0
  {
    forall e <- events :: e.Take? ==> e.size % d.frameSize == 0
  }

  lemma {:induction false} RunKeepsExact(d: Device, t: Track, events: seq<Event>)
    requires ValidDevice(d) && InBuffer(t) && IsRun(d, t, events) && WholeBuffers(d, events)
    requires Exact(d, t) && t.audio.size % d.frameSize == 0
    ensures Exact(d, Run(d, t, events))
    decreases events
  {
    if events != [] {
      var e := events[0];
      assert e in events;
      match e
      case Take(_, _, _) => RunKeepsExact(d, Next(d, t, e), events[1..]);
      case Call(played) =>
        WholeRestKeepsExact(d, t, played);
        RunKeepsExact(d, Next(d, t, e), events[1..]);
    }
  }

  /** Over any buffers of whole frames and any calls on each, the track was given whole frames, the
      32-bit counter stands for their number, and the backlog is between nothing and the capacity, in
      frames and in bytes. */
  lemma {:induction false} BacklogAlwaysFits(d: Device, events: seq<Event>)
    requires ValidDevice(d) && IsRun(d, NEW_TRACK, events) && WholeBuffers(d, events)
    ensures var r := Run(d, NEW_TRACK, events);
            && Exact(d, r)
            && r.position * d.frameSize <= |r.audio.written| <= (r.position + d.frameCount) * d.frameSize
  {
    var r := Run(d, NEW_TRACK, events);
    Quotient(0, d.frameSize);
    RunKeepsExact(d, NEW_TRACK, events);
    var frames := |r.audio.written| / d.frameSize;
    Ordered(r.position, frames, d.frameSize);
    Ordered(frames, r.position + d.frameCount, d.frameSize);
  }

  /** A call on an exact track makes progress: it copies nothing only if there is nothing to copy or
      the track is full. */
  lemma {:induction false} CallMakesProgress(d: Device, t: Track, played: nat)
    requires ValidDevice(d) && Exact(d, t) && CanHappen(d, t, Call(played))
    ensures Copied(d, t.audio, played % U32) == 0 <==>
            t.audio.size == 0 || |t.audio.written| == (played + d.frameCount) * d.frameSize
  {
    var frames := |t.audio.written| / d.frameSize;
    CopyIsKnown(d, t, played);
    var room := d.frameCount - (frames - played);
    if room > 0 {
      Ordered(1, room, d.frameSize);
      assert (played + d.frameCount) * d.frameSize == frames * d.frameSize + room * d.frameSize;
    }
  }

  // ---------------------------------------------------------------------------
  // Buffers that do not hold whole frames

  ghost predicate OnlyCalls(events: seq<Event>) { forall e <- events :: e.Call? }

  /** However often the head of the queue is rendered, the track stays exact. */
  ghost predicate StaysExact(d: Device, t: Track)
    requires d.frameSize > 0 && InBuffer(t)
  {
    forall events :: OnlyCalls(events) && IsRun(d, t, events) ==> Exact(d, Run(d, t, events))
  }

  /** A rest that is not whole frames can be rendered until the track is not exact. */
  lemma {:induction false} PartialRestBreaks(d: Device, t: Track) returns (events: seq<Event>)
    requires ValidDevice(d) && d.frameCount > 0 && InBuffer(t) && Exact(d, t)
    requires t.audio.size % d.frameSize != 0
    ensures OnlyCalls(events) && IsRun(d, t, events) && !Exact(d, Run(d, t, events))
    decreases t.audio.size
  {
    var frames := |t.audio.written| / d.frameSize;
    var call := Call(frames);
    var r := Next(d, t, call);
    CopyIsKnown(d, t, frames);
    var room := d.frameCount * d.frameSize;
    if t.audio.size > room {
      WholeCopyKeepsExact(d, t, frames, d.frameCount);
      Ordered(1, d.frameCount, d.frameSize);
      SameRemainder(t.audio.size, d.frameCount, d.frameSize);
      var rest := PartialRestBreaks(d, r);
      events := [call] + rest;
      assert events[1..] == rest;
    } else {
      events := [call];
      SameRemainder(frames * d.frameSize + t.audio.size, frames, d.frameSize);
      assert |r.audio.written| % d.frameSize != 0;
      NotWhole(d, r);
      assert Run(d, t, events) == r;
    }
  }

  lemma {:induction false} NotWhole(d: Device, t: Track)
    requires d.frameSize > 0 && |t.audio.written| % d.frameSize != 0
    ensures !Exact(d, t)
  {
    Quotient(|t.audio.written| / d.frameSize, d.frameSize);
  }

  lemma {:induction false} SameRemainder(x: nat, q: nat, k: nat)
    requires k > 0 && q * k <= x
    ensures (x - q * k) % k == x % k
  {
    var p := x / k;
    assert x == p * k + x % k;
    Apart(p, q, k);
    assert p * k - q * k == (p - q) * k;
    DivisionIsUnique(x - q * k, k, p - q, x % k);
  }

  /** Rendering the head of the queue keeps an exact track exact whatever positions it reports, if and
      only if what is left of that buffer is whole frames, or the track has no room at all. */
  lemma {:induction false} ExactIff(d: Device, t: Track)
    requires ValidDevice(d) && InBuffer(t) && Exact(d, t)
    ensures StaysExact(d, t) <==> t.audio.size % d.frameSize == 0 || d.frameCount == 0
  {
    if t.audio.size % d.frameSize == 0 {
      forall events | OnlyCalls(events) && IsRun(d, t, events)
        ensures Exact(d, Run(d, t, events))
      {
        RunKeepsExact(d, t, events);
      }
    } else if d.frameCount > 0 {
      var events := PartialRestBreaks(d, t);
    } else {
      forall events | OnlyCalls(events) && IsRun(d, t, events)
        ensures Exact(d, Run(d, t, events))
      {
        NoRoom(d, t, events);
      }
    }
  }

  /** A track without room is never given anything. */
  lemma {:induction false} NoRoom(d: Device, t: Track, events: seq<Event>)
    requires ValidDevice(d) && d.frameCount == 0 && InBuffer(t) && Exact(d, t)
    requires OnlyCalls(events) && IsRun(d, t, events)
    ensures Exact(d, Run(d, t, events))
    decreases events
  {
    if events != [] {
      assert events[0] in events;
      CopyIsKnown(d, t, events[0].played);
      WholeCopyKeepsExact(d, t, events[0].played, 0);
      NoRoom(d, Next(d, t, events[0]), events[1..]);
    }
  }

  /** Two buffers of three bytes, on a track of one frame of four bytes that has played nothing: the
      counter still says that nothing was written, and the track was given more than it holds. */
  lemma {:induction false} PartialFramesOverrun()
    ensures var d := Device(1, 4);
            var events := [Take([1, 2, 3], 0, 3), Call(0), Take([4, 5, 6], 0, 3), Call(0)];
            && IsRun(d, NEW_TRACK, events)
            && var r := Run(d, NEW_TRACK, events);
            && r.audio.written == [1, 2, 3, 4, 5, 6] && r.audio.counter == 0
            && |r.audio.written| > (r.position + d.frameCount) * d.frameSize
  {
    var d := Device(1, 4);
    var t1 := Next(d, NEW_TRACK, Take([1, 2, 3], 0, 3));
    var t2 := Next(d, t1, Call(0));
    assert t2.audio == Audio(0, 3, 0, [1, 2, 3]);
    var t3 := Next(d, t2, Take([4, 5, 6], 0, 3));
    var t4 := Next(d, t3, Call(0));
    assert t4.audio == Audio(0, 3, 0, [1, 2, 3, 4, 5, 6]);
    var e1, e2, e3, e4 := Take([1, 2, 3], 0, 3), Call(0), Take([4, 5, 6], 0, 3), Call(0);
    assert [e1, e2, e3, e4][1..] == [e2, e3, e4];
    assert [e2, e3, e4][1..] == [e3, e4];
    assert [e3, e4][1..] == [e4];
    assert [e4][1..] == [];
    assert Run(d, t3, [e4]) == t4;
    assert Run(d, t2, [e3, e4]) == t4;
    assert Run(d, t1, [e2, e3, e4]) == t4;
  }
}
