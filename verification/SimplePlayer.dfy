/**
 The message loop of compat/media/SimplePlayer.cpp and the input-buffer queue of
 compat/media/media_codec_layer.cpp: which pump messages are pending, and why the buffer that
 the codec layer submits is always the one that the player has just filled.
 */
module SimplePlayer {
  import opened Options

  datatype PlayerState = Uninitialized | Unprepared | Stopped | Started

  /** One selected track. layer is available_input_buffer_indices of the codec delegate and
      available is mAvailInputBufferIndices of the player; submitted pairs the buffer that the
      player filled with the one that the layer handed to the codec. */
  datatype Track = Track(layer: seq<nat>, available: seq<nat>, submitted: seq<(nat, nat)>)

  const NEW_TRACK := Track([], [], [])

  /** What the codec and the extractor do during one call: the indices that dequeue returns on
      each track before it fails, and the tracks of the samples before the end of the input. */
  datatype Pumping = Pumping(arrivals: seq<seq<nat>>, samples: seq<nat>)

  /** What onPrepare meets: a data source that fails, or for each selected track the indices
      that dequeue returns for its codec-specific data. */
  datatype Preparation = BadSource | Opened(configuration: seq<seq<nat>>)

  datatype Message =
    | SetDataSource
    | SetSurface
    | Prepare(preparation: Preparation)
    | Start(preparing: Preparation)
    | Stop
    | Reset
    | DoMoreStuff(posted: int, pumping: Pumping)

  // ---------------------------------------------------------------------------
  // The codec layer's queue

  /** media_codec_dequeue_input_buffer, when the codec returns a buffer. */
  function LayerDequeue(t: Track, index: nat): Track { t.(layer := t.layer + [index]) }

  /** media_codec_queue_input_buffer: it ignores the caller's index and takes its own oldest
      one; with none dequeued it refuses. */
  function LayerQueue(t: Track, filled: nat): Option<Track> {
    if t.layer == [] then None
    else Some(t.(layer := t.layer[1..], submitted := t.submitted + [(filled, t.layer[0])]))
  }

  /** The two queues agree, and every submitted buffer was the one just filled. */
  ghost predicate Mirrors(t: Track) {
    && t.layer == t.available
    && forall i :: 0 <= i < |t.submitted| ==> t.submitted[i].0 == t.submitted[i].1
  }

  /** The codec-specific data of onPrepare: dequeue, fill and queue one buffer after the other.
      No queue call is refused, and each submits the buffer that was filled. */
  method QueueConfiguration(indices: seq<nat>) returns (t: Track)
    ensures Mirrors(t) && t.layer == []
    ensures t.submitted == seq(|indices|, i requires 0 <= i < |indices| => (indices[i], indices[i]))
  {
    t := NEW_TRACK;
    for j := 0 to |indices|
      invariant t.layer == [] && t.available == []
      invariant t.submitted == seq(j, i requires 0 <= i < j => (indices[i], indices[i]))
    {
      t := LayerDequeue(t, indices[j]);
      var queued := LayerQueue(t, indices[j]);
      t := queued.value;
    }
  }

  /** The first loop of onDoMoreStuff on one track. */
  method DequeueAll(t0: Track, arrivals: seq<nat>) returns (t: Track)
    requires Mirrors(t0)
    ensures Mirrors(t)
    ensures t == Received(t0, arrivals)
  {
    t := t0;
    for j := 0 to |arrivals|
      invariant t == t0.(layer := t0.layer + arrivals[..j], available := t0.available + arrivals[..j])
    {
      assert arrivals[..j + 1] == arrivals[..j] + [arrivals[j]];
      t := LayerDequeue(t, arrivals[j]);
      t := t.(available := t.available + [arrivals[j]]);
    }
    assert arrivals[..|arrivals|] == arrivals;
  }

  ghost predicate AllMirror(tracks: seq<Track>) {
    forall i :: 0 <= i < |tracks| ==> Mirrors(tracks[i])
  }

  /** How many of the samples belong to track k. */
  function Count(samples: seq<nat>, k: nat): nat {
    if samples == [] then 0
    else Count(samples[..|samples| - 1], k) + if samples[|samples| - 1] == k then 1 else 0
  }

  /** t after its c oldest available buffers were filled and submitted. */
  ghost predicate Fed(t0: Track, t: Track, c: nat) {
    && c <= |t0.available|
    && t.available == t0.available[c..]
    && |t.submitted| == |t0.submitted| + c
    && t.submitted[..|t0.submitted|] == t0.submitted
    && forall i :: 0 <= i < c ==> t.submitted[|t0.submitted| + i] == (t0.available[i], t0.available[i])
  }

  lemma {:induction false} FeedOne(t0: Track, t: Track, c: nat)
    requires Mirrors(t) && Fed(t0, t, c) && t.available != []
    ensures var next := t.(layer := t.layer[1..], available := t.available[1..],
                           submitted := t.submitted + [(t.available[0], t.layer[0])]);
            Mirrors(next) && Fed(t0, next, c + 1)
  {
    var next := t.submitted + [(t.available[0], t.layer[0])];
    assert next[..|t0.submitted|] == t.submitted[..|t0.submitted|];
    assert t.available[0] == t0.available[c];
  }

  /** The sample loop of onDoMoreStuff: it stops at the end of the input or at a track with no
      available buffer. The samples before that fill the available buffers of their track in
      order, and the layer submits exactly those. */
  method FeedSamples(tracks0: seq<Track>, samples: seq<nat>) returns (tracks: seq<Track>, fed: nat)
    requires AllMirror(tracks0)
    requires forall i :: 0 <= i < |samples| ==> samples[i] < |tracks0|
    ensures |tracks| == |tracks0| && AllMirror(tracks)
    ensures fed <= |samples|
    ensures fed < |samples| ==> tracks[samples[fed]].available == []
    ensures forall k :: 0 <= k < |tracks| ==> Fed(tracks0[k], tracks[k], Count(samples[..fed], k))
  {
    tracks := tracks0;
    fed := 0;
    while fed < |samples|
      invariant 0 <= fed <= |samples| && |tracks| == |tracks0|
      invariant AllMirror(tracks)
      invariant forall k :: 0 <= k < |tracks| ==> Fed(tracks0[k], tracks[k], Count(samples[..fed], k))
    {
      var track := samples[fed];
      var t := tracks[track];
      if t.available == [] {
        return;
      }
      FeedOne(tracks0[track], t, Count(samples[..fed], track));
      assert samples[..fed + 1][..fed] == samples[..fed];
      var index := t.available[0];
      t := t.(available := t.available[1..]);
      var queued := LayerQueue(t, index);
      tracks := tracks[track := queued.value];
      fed := fed + 1;
    }
  }

  /** The tracks have submitted the buffers of their codec-specific data, each as it was filled, and
      hold no other. */
  ghost predicate Configured(tracks: seq<Track>, configuration: seq<seq<nat>>) {
    && |tracks| == |configuration|
    && forall k :: 0 <= k < |tracks| ==>
         && Mirrors(tracks[k]) && tracks[k].layer == []
         && |tracks[k].submitted| == |configuration[k]|
         && forall i :: 0 <= i < |configuration[k]| ==>
              tracks[k].submitted[i] == (configuration[k][i], configuration[k][i])
  }

  method Configure(configuration: seq<seq<nat>>) returns (tracks: seq<Track>)
    ensures Configured(tracks, configuration)
  {
    tracks := [];
    for n := 0 to |configuration|
      invariant Configured(tracks, configuration[..n])
    {
      var t := QueueConfiguration(configuration[n]);
      tracks := tracks + [t];
    }
  }

  /** A track with more buffers dequeued. */
  function Received(t: Track, arrivals: seq<nat>): Track {
    t.(layer := t.layer + arrivals, available := t.available + arrivals)
  }

  /** On every track the arrivals were dequeued and the first fed samples submitted, each in the
      oldest buffer that was there; the rest found a track without a buffer. */
  ghost predicate Pumped(before: seq<Track>, after: seq<Track>, pumping: Pumping, fed: nat) {
    && |after| == |before| == |pumping.arrivals| && AllMirror(after)
    && fed <= |pumping.samples|
    && (fed < |pumping.samples| ==>
          pumping.samples[fed] < |after| && after[pumping.samples[fed]].available == [])
    && forall k :: 0 <= k < |after| ==>
         Fed(Received(before[k], pumping.arrivals[k]), after[k], Count(pumping.samples[..fed], k))
  }

  /** onDoMoreStuff, as far as input buffers go. */
  method Pump(tracks0: seq<Track>, pumping: Pumping) returns (tracks: seq<Track>, fed: nat)
    requires AllMirror(tracks0)
    requires |pumping.arrivals| == |tracks0|
    requires forall i :: 0 <= i < |pumping.samples| ==> pumping.samples[i] < |tracks0|
    ensures Pumped(tracks0, tracks, pumping, fed)
  {
    tracks := tracks0;
    for n := 0 to |tracks0|
      invariant |tracks| == |tracks0| && AllMirror(tracks)
      invariant forall k :: 0 <= k < |tracks| ==>
                  tracks[k] == if k < n then Received(tracks0[k], pumping.arrivals[k]) else tracks0[k]
    {
      var t := DequeueAll(tracks[n], pumping.arrivals[n]);
      tracks := tracks[n := t];
    }
    tracks, fed := FeedSamples(tracks, pumping.samples);
  }

  // ---------------------------------------------------------------------------
  // The message loop

  /** The pump messages that are pending: exactly one of the current generation while the player
      is started, none otherwise, and never one of a generation to come. */
  ghost predicate OnePump(state: PlayerState, generation: int, pump: multiset<int>) {
    && pump[generation] == (if state == Started then 1 else 0)
    && forall g :: g in pump ==> g <= generation
  }

  /** What the pump depends on. */
  datatype Core = Core(state: PlayerState, generation: int, pump: multiset<int>)

  const NEW_PLAYER := Core(Uninitialized, 0, multiset{})

  /** onMessageReceived, as far as the pump goes. A pump message is taken off the queue when it
      is delivered; of an old generation it has no effect, of the current one it is posted
      again. */
  function Handle(c: Core, m: Message): Core {
    match m
    case SetDataSource => if c.state == Uninitialized then c.(state := Unprepared) else c
    case SetSurface => c
    case Prepare(p) => if c.state == Unprepared && p.Opened? then c.(state := Stopped) else c
    case Start(p) =>
      if c.state == Stopped || (c.state == Unprepared && p.Opened?)
      then Core(Started, c.generation + 1, c.pump + multiset{c.generation + 1})
      else c
    case Stop =>
      if c.state == Started then Core(Stopped, c.generation + 1, c.pump) else c
    case Reset =>
      if c.state == Started then Core(Uninitialized, c.generation + 1, c.pump)
      else if c.state == Stopped then c.(state := Uninitialized)
      else c
    case DoMoreStuff(posted, _) =>
      if posted == c.generation then c else c.(pump := c.pump - multiset{posted})
  }

  /** What a message does to the tracks of a player in state c. */
  ghost predicate TracksAfter(c: Core, m: Message, before: seq<Track>, after: seq<Track>) {
    match m
    case Prepare(p) => if c.state == Unprepared && p.Opened? then Configured(after, p.configuration) else after == before
    case Start(p) => if c.state == Unprepared && p.Opened? then Configured(after, p.configuration) else after == before
    case Reset => after == if c.state == Started || c.state == Stopped then [] else before
    case DoMoreStuff(posted, pumping) =>
      if posted == c.generation then exists fed: nat :: Pumped(before, after, pumping, fed) else after == before
    case _ => after == before
  }

  /** A message can arrive: a pump message only if it is pending. */
  predicate CanArrive(c: Core, m: Message) { m.DoMoreStuff? ==> m.posted in c.pump }

  lemma {:induction false} HandleKeepsOnePump(c: Core, m: Message)
    requires OnePump(c.state, c.generation, c.pump) && CanArrive(c, m)
    ensures var d := Handle(c, m); OnePump(d.state, d.generation, d.pump)
  {
    assert c.generation + 1 !in c.pump;
  }

  /** A run: the states between messages, and the messages. */
  ghost predicate IsRun(cores: seq<Core>, messages: seq<Message>) {
    && |cores| == |messages| + 1 && cores[0] == NEW_PLAYER
    && forall i :: 0 <= i < |messages| ==>
         CanArrive(cores[i], messages[i]) && cores[i + 1] == Handle(cores[i], messages[i])
  }

  /** Between any two messages of any run, exactly one pending pump message is current while the
      player is started, and none otherwise. */
  lemma {:induction false} RunHasOnePump(cores: seq<Core>, messages: seq<Message>, n: nat)
    requires IsRun(cores, messages) && n < |cores|
    ensures OnePump(cores[n].state, cores[n].generation, cores[n].pump)
  {
    if n > 0 {
      RunHasOnePump(cores, messages, n - 1);
      HandleKeepsOnePump(cores[n - 1], messages[n - 1]);
    }
  }

  /** So the pump only ever runs while the player is started, and a pump message of another
      generation changes nothing but its own absence from the queue. */
  lemma {:induction false} PumpRunsOnlyStarted(cores: seq<Core>, messages: seq<Message>, n: nat)
    requires IsRun(cores, messages) && n < |messages| && messages[n].DoMoreStuff?
    ensures messages[n].posted == cores[n].generation ==> cores[n].state == Started && cores[n + 1] == cores[n]
    ensures messages[n].posted != cores[n].generation ==>
              cores[n + 1] == cores[n].(pump := cores[n].pump - multiset{messages[n].posted})
  {
    RunHasOnePump(cores, messages, n);
  }

  // ---------------------------------------------------------------------------
  // The state, told by the messages

  /** The message prepares a player that has a source. */
  predicate Opens(m: Message) { (m.Prepare? && m.preparation.Opened?) || (m.Start? && m.preparing.Opened?) }

  /** A source was set, and no reset since then came to a prepared player. */
  ghost predicate HasSource(messages: seq<Message>, n: nat)
    requires n <= |messages|
    decreases n, 1
  {
    exists i: nat | i < n :: messages[i] == SetDataSource &&
      forall r: nat | i < r < n && messages[r] == Reset :: !IsPrepared(messages, r)
  }

  /** The player was prepared when it had a source, and not reset since. */
  ghost predicate IsPrepared(messages: seq<Message>, n: nat)
    requires n <= |messages|
    decreases n, 0
  {
    exists p: nat | p < n :: Opens(messages[p]) && HasSource(messages, p) &&
      forall r: nat | p < r < n :: messages[r] != Reset
  }

  /** The player was started when it was prepared, or while it was, and not stopped or reset since. */
  ghost predicate IsStarted(messages: seq<Message>, n: nat)
    requires n <= |messages|
  {
    exists s: nat | s < n ::
      && messages[s].Start? && (IsPrepared(messages, s) || (HasSource(messages, s) && Opens(messages[s])))
      && forall r: nat | s < r < n :: messages[r] != Stop && messages[r] != Reset
  }

  lemma {:induction false} SourceSnoc(messages: seq<Message>, n: nat)
    requires n < |messages|
    ensures HasSource(messages, n + 1) <==>
            messages[n] == SetDataSource ||
            (HasSource(messages, n) && !(messages[n] == Reset && IsPrepared(messages, n)))
  {
    if i: nat :| i < n && messages[i] == SetDataSource &&
                 forall r: nat | i < r < n && messages[r] == Reset :: !IsPrepared(messages, r) {
      if !(messages[n] == Reset && IsPrepared(messages, n)) {
        assert messages[i] == SetDataSource;
      }
    }
    if messages[n] == SetDataSource { assert messages[n] == SetDataSource; }
  }

  lemma {:induction false} PreparedSnoc(messages: seq<Message>, n: nat)
    requires n < |messages|
    ensures IsPrepared(messages, n + 1) <==>
            (Opens(messages[n]) && HasSource(messages, n)) || (IsPrepared(messages, n) && messages[n] != Reset)
  {
    if p: nat :| p < n && Opens(messages[p]) && HasSource(messages, p) && forall r: nat | p < r < n :: messages[r] != Reset {
      if messages[n] != Reset { assert Opens(messages[p]); }
    }
    if Opens(messages[n]) && HasSource(messages, n) { assert Opens(messages[n]); }
  }

  lemma {:induction false} StartedSnoc(messages: seq<Message>, n: nat)
    requires n < |messages|
    ensures IsStarted(messages, n + 1) <==>
            || (messages[n].Start? && (IsPrepared(messages, n) || (HasSource(messages, n) && Opens(messages[n]))))
            || (IsStarted(messages, n) && messages[n] != Stop && messages[n] != Reset)
  {
    if s: nat :| s < n && messages[s].Start? &&
                 (IsPrepared(messages, s) || (HasSource(messages, s) && Opens(messages[s]))) &&
                 forall r: nat | s < r < n :: messages[r] != Stop && messages[r] != Reset {
      if messages[n] != Stop && messages[n] != Reset { assert messages[s].Start?; }
    }
  }

  /** The state of a player that has a source or not, was prepared or not, and was started or not. */
  predicate StateIs(state: PlayerState, source: bool, prepared: bool, started: bool) {
    && (started ==> prepared) && (prepared ==> source)
    && state == if started then Started else if prepared then Stopped else if source then Unprepared else Uninitialized
  }

  lemma {:induction false} StateStep(c: Core, m: Message, source: bool, prepared: bool, started: bool)
    requires StateIs(c.state, source, prepared, started)
    ensures StateIs(Handle(c, m).state,
                    m == SetDataSource || (source && !(m == Reset && prepared)),
                    (Opens(m) && source) || (prepared && m != Reset),
                    (m.Start? && (prepared || (source && Opens(m)))) || (started && m != Stop && m != Reset))
  {
  }

  /** In every run the state is told by the messages so far: whether a source is set, whether it was
      prepared, and whether it was started, each since the last reset or stop that ended it. */
  lemma {:induction false} StateIsHistory(cores: seq<Core>, messages: seq<Message>, n: nat)
    requires IsRun(cores, messages) && n < |cores|
    ensures StateIs(cores[n].state, HasSource(messages, n), IsPrepared(messages, n), IsStarted(messages, n))
  {
    if n > 0 {
      StateIsHistory(cores, messages, n - 1);
      StateStep(cores[n - 1], messages[n - 1], HasSource(messages, n - 1), IsPrepared(messages, n - 1),
                IsStarted(messages, n - 1));
      SourceSnoc(messages, n - 1);
      PreparedSnoc(messages, n - 1);
      StartedSnoc(messages, n - 1);
    }
  }

  class SimplePlayer {
    var state: PlayerState
    var generation: int
    var pump: multiset<int>
    var tracks: seq<Track>

    function View(): Core
      reads this
    {
      Core(state, generation, pump)
    }

    ghost predicate Valid()
      reads this
    {
      && OnePump(state, generation, pump)
      && AllMirror(tracks)
      && (state == Uninitialized || state == Unprepared ==> tracks == [])
    }

    constructor ()
      ensures Valid() && View() == NEW_PLAYER && tracks == []
    {
      state, generation, pump, tracks := Uninitialized, 0, multiset{}, [];
    }

    method OnPrepare(preparation: Preparation) returns (ok: bool)
      requires Valid() && state == Unprepared
      modifies this`tracks
      ensures ok <==> preparation.Opened?
      ensures if ok then Configured(tracks, preparation.configuration) else tracks == old(tracks)
    {
      if preparation.BadSource? {
        return false;
      }
      tracks := Configure(preparation.configuration);
      return true;
    }

    method OnStart()
      modifies this`generation, this`pump
      ensures generation == old(generation) + 1 && pump == old(pump) + multiset{generation}
    {
      generation := generation + 1;
      pump := pump + multiset{generation};
    }

    method OnStop()
      modifies this`generation
      ensures generation == old(generation) + 1
    {
      generation := generation + 1;
    }

    method OnReset()
      modifies this`tracks
      ensures tracks == []
    {
      tracks := [];
    }

    /** onMessageReceived: between messages the pump is as Handle says, and the player's queue of
        input buffers equals the codec layer's on every track. */
    method OnMessageReceived(m: Message)
      requires Valid() && CanArrive(View(), m)
      requires m.DoMoreStuff? && m.posted == generation ==>
                 && |m.pumping.arrivals| == |tracks|
                 && forall i :: 0 <= i < |m.pumping.samples| ==> m.pumping.samples[i] < |tracks|
      modifies this
      ensures Valid()
      ensures View() == Handle(old(View()), m)
      ensures TracksAfter(old(View()), m, old(tracks), tracks)
    {
      HandleKeepsOnePump(View(), m);
      match m
      case SetDataSource =>
        if state == Uninitialized {
          state := Unprepared;
        }
      case SetSurface =>
      case Prepare(preparation) =>
        if state == Unprepared {
          var ok := OnPrepare(preparation);
          if ok {
            state := Stopped;
          }
        }
      case Start(preparation) =>
        var ok := true;
        if state == Unprepared {
          ok := OnPrepare(preparation);
          if ok {
            state := Stopped;
          }
        }
        if ok && state == Stopped {
          OnStart();
          state := Started;
        }
      case Stop =>
        if state == Started {
          OnStop();
          state := Stopped;
        }
      case Reset =>
        if state == Started {
          OnStop();
          state := Stopped;
        }
        if state == Stopped {
          OnReset();
          state := Uninitialized;
        }
      case DoMoreStuff(posted, pumping) =>
        OnDoMoreStuff(posted, pumping);
    }

    method OnDoMoreStuff(posted: int, pumping: Pumping)
      requires posted in pump && AllMirror(tracks)
      requires posted == generation ==>
                 && |pumping.arrivals| == |tracks|
                 && forall i :: 0 <= i < |pumping.samples| ==> pumping.samples[i] < |tracks|
      modifies this`pump, this`tracks
      ensures AllMirror(tracks)
      ensures pump == if posted == generation then old(pump) else old(pump) - multiset{posted}
      ensures if posted == generation then exists fed: nat :: Pumped(old(tracks), tracks, pumping, fed)
              else tracks == old(tracks)
    {
      pump := pump - multiset{posted};
      if posted == generation {
        var fed;
        tracks, fed := Pump(tracks, pumping);
        pump := pump + multiset{posted};
      }
    }
  }
}
