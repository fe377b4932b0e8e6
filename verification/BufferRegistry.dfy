/**
 The registry of native buffers in arlinux/bionic-vulkan/native.cpp. Any number of threads allocate,
 retain and release. What happens under the lock is one step; a thread that allocates has the native
 buffer before it takes the lock, and a thread that releases gives it back after the lock is dropped.

 Native buffers are numbered in the order of their allocation. Their handles come from the platform
 and may be used again, but not while their buffer is allocated.
 */
module BufferRegistry {
  import opened Options

  type Handle = nat
  type Buffer = nat
  type Thread = nat

  datatype Allocation = Allocation(buffer: Buffer, references: nat)
  type Allocations = map<Handle, Allocation>

  // ---------------------------------------------------------------------------
  // Under the lock

  /** emplace: an entry that is there stays. */
  function Inserted(m: Allocations, h: Handle, b: Buffer): Allocations {
    if h in m then m else m[h := Allocation(b, 1)]
  }

  function Retained(m: Allocations, h: Handle): Allocations {
    if h in m then m[h := Allocation(m[h].buffer, m[h].references + 1)] else m
  }

  /** The last reference erases the entry. */
  predicate LastReference(m: Allocations, h: Handle) { h in m && m[h].references <= 1 }

  function Released(m: Allocations, h: Handle): Allocations {
    if LastReference(m, h) then m - {h}
    else if h in m then m[h := Allocation(m[h].buffer, m[h].references - 1)] else m
  }

  class Registry {
    var allocations: Allocations

    method Insert(h: Handle, b: Buffer)
      modifies this
      ensures allocations == Inserted(old(allocations), h, b)
    {
      if h !in allocations { allocations := allocations[h := Allocation(b, 1)]; }
    }

    method GetHardwareBuffer(h: Handle) returns (b: Option<Buffer>)
      ensures b == if h in allocations then Some(allocations[h].buffer) else None
    {
      if h in allocations { return Some(allocations[h].buffer); }
      return None;
    }

    method Retain(h: Handle) returns (ok: bool)
      modifies this
      ensures ok <==> h in old(allocations)
      ensures allocations == Retained(old(allocations), h)
    {
      if h !in allocations { return false; }
      allocations := allocations[h := allocations[h].(references := allocations[h].references + 1)];
      return true;
    }

    /** The buffer is for the caller to give back once the lock is dropped. */
    method Release(h: Handle) returns (ok: bool, buffer: Option<Buffer>)
      requires h in allocations ==> allocations[h].references > 0
      modifies this
      ensures ok <==> h in old(allocations)
      ensures buffer == if LastReference(old(allocations), h) then Some(old(allocations)[h].buffer) else None
      ensures allocations == Released(old(allocations), h)
    {
      if h !in allocations { return false, None; }
      var entry := allocations[h];
      allocations := allocations[h := entry.(references := entry.references - 1)];
      if allocations[h].references == 0 {
        allocations := allocations - {h};
        return true, Some(entry.buffer);
      }
      return true, None;
    }
  }

  // ---------------------------------------------------------------------------
  // Threads

  /** What a thread holds outside the lock. */
  datatype Holding = Fresh(buffer: Buffer) | Dead(buffer: Buffer)

  /** Where a buffer is in its life: with the thread that allocated it, in the registry, with the
      thread that released it last, or given back. Kept for the proof; no step depends on it. */
  datatype Phase = New(thread: Thread) | Listed | Ending(thread: Thread) | Gone

  datatype State = State(
    allocations: Allocations,
    holding: map<Thread, Holding>,
    handles: seq<Handle>,
    freed: multiset<Buffer>,
    retains: seq<nat>,
    releases: seq<nat>,
    phases: seq<Phase>)

  const START := State(map[], map[], [], multiset{}, [], [], [])

  datatype Step =
    | Allocate(thread: Thread, handle: Handle)
    | Publish(thread: Thread)
    | Retain(handle: Handle)
    | Release(thread: Thread, handle: Handle)
    | Free(thread: Thread)

  ghost predicate Sized(s: State) { |s.retains| == |s.releases| == |s.phases| == |s.handles| }

  /** Every buffer that anything refers to was allocated. */
  ghost predicate Closed(s: State) {
    && Sized(s)
    && (forall h <- s.allocations :: s.allocations[h].buffer < |s.handles|)
    && (forall t <- s.holding :: s.holding[t].buffer < |s.handles|)
  }

  /** A thread does one thing at a time, and the platform hands out no handle of a buffer that it
      has not got back. */
  ghost predicate Enabled(s: State, step: Step) {
    match step
    case Allocate(t, h) => t !in s.holding && forall b | 0 <= b < |s.handles| :: s.handles[b] == h ==> s.freed[b] > 0
    case Publish(t) => t in s.holding && s.holding[t].Fresh?
    case Retain(h) => true
    case Release(t, h) => t !in s.holding
    case Free(t) => t in s.holding && s.holding[t].Dead?
  }

  ghost function Next(s: State, step: Step): State
    requires Closed(s) && Enabled(s, step)
  {
    match step
    case Allocate(t, h) =>
      s.(holding := s.holding[t := Fresh(|s.handles|)], handles := s.handles + [h],
         retains := s.retains + [0], releases := s.releases + [0], phases := s.phases + [New(t)])
    case Publish(t) =>
      var b := s.holding[t].buffer;
      s.(allocations := Inserted(s.allocations, s.handles[b], b), holding := s.holding - {t},
         phases := s.phases[b := Listed])
    case Retain(h) =>
      if h !in s.allocations then s
      else
        var b := s.allocations[h].buffer;
        s.(allocations := Retained(s.allocations, h), retains := s.retains[b := s.retains[b] + 1])
    case Release(t, h) =>
      if h !in s.allocations then s
      else
        var b := s.allocations[h].buffer;
        var counted := s.(allocations := Released(s.allocations, h), releases := s.releases[b := s.releases[b] + 1]);
        if LastReference(s.allocations, h) then
          counted.(holding := s.holding[t := Dead(b)], phases := s.phases[b := Ending(t)])
        else counted
    case Free(t) =>
      var b := s.holding[t].buffer;
      s.(freed := s.freed + multiset{b}, holding := s.holding - {t}, phases := s.phases[b := Gone])
  }

  // ---------------------------------------------------------------------------
  // What every state keeps

  /** The state of one buffer agrees with its phase. */
  ghost predicate Fits(s: State, b: nat)
    requires Sized(s) && b < |s.handles|
  {
    match s.phases[b]
    case New(t) =>
      t in s.holding && s.holding[t] == Fresh(b) && s.freed[b] == 0 && s.retains[b] == s.releases[b] == 0
    case Listed =>
      && s.handles[b] in s.allocations && s.allocations[s.handles[b]].buffer == b
      && s.allocations[s.handles[b]].references + s.releases[b] == 1 + s.retains[b]
      && s.allocations[s.handles[b]].references >= 1 && s.freed[b] == 0
    case Ending(t) =>
      t in s.holding && s.holding[t] == Dead(b) && s.freed[b] == 0 && s.releases[b] == 1 + s.retains[b]
    case Gone => s.freed[b] == 1 && s.releases[b] == 1 + s.retains[b]
  }

  ghost predicate AllFit(s: State) { Sized(s) && forall b | 0 <= b < |s.handles| :: Fits(s, b) }

  /** An entry is for a listed buffer, under its handle. */
  ghost predicate EntriesListed(s: State)
    requires Closed(s)
  {
    forall h <- s.allocations ::
      s.phases[s.allocations[h].buffer] == Listed && s.handles[s.allocations[h].buffer] == h
  }

  /** What a thread holds is new or ending, with that thread. */
  ghost predicate HoldersKnown(s: State)
    requires Closed(s)
  {
    forall t <- s.holding ::
      s.phases[s.holding[t].buffer] == if s.holding[t].Fresh? then New(t) else Ending(t)
  }

  /** Buffers that are not given back have different handles. */
  ghost predicate HandlesDiffer(s: State) {
    Sized(s) &&
    forall b, c | 0 <= b < c < |s.handles| :: s.phases[b] != Gone && s.phases[c] != Gone ==> s.handles[b] != s.handles[c]
  }

  ghost predicate Sound(s: State) {
    && Closed(s) && AllFit(s) && EntriesListed(s) && HoldersKnown(s) && HandlesDiffer(s)
    && (forall b <- s.freed :: b < |s.handles|)
  }

  /** The handle of a new buffer has no entry. */
  lemma {:induction false} NewNotListed(s: State, b: nat)
    requires Sound(s) && b < |s.handles| && s.phases[b].New?
    ensures s.handles[b] !in s.allocations
  {
    forall h | h in s.allocations
      ensures h != s.handles[b]
    {
      assert s.phases[s.allocations[h].buffer] == Listed && s.handles[s.allocations[h].buffer] == h;
    }
  }

  lemma {:induction false} AllocateKeeps(s: State, t: Thread, h: Handle)
    requires Sound(s) && Enabled(s, Allocate(t, h))
    ensures Sound(Next(s, Allocate(t, h)))
  {
    var r := Next(s, Allocate(t, h));
    forall b | 0 <= b < |r.handles|
      ensures Fits(r, b)
    {
      if b < |s.handles| { assert Fits(s, b); }
    }
    forall b | 0 <= b < |s.handles|
      ensures r.phases[b] != Gone ==> r.handles[b] != h
    {
      assert Fits(s, b);
    }
  }

  lemma {:induction false} PublishKeeps(s: State, t: Thread)
    requires Sound(s) && Enabled(s, Publish(t))
    ensures Sound(Next(s, Publish(t)))
  {
    NewNotListed(s, s.holding[t].buffer);
    var r := Next(s, Publish(t));
    forall b | 0 <= b < |r.handles|
      ensures Fits(r, b)
    {
      assert Fits(s, b);
    }
  }

  lemma {:induction false} RetainKeeps(s: State, h: Handle)
    requires Sound(s)
    ensures Sound(Next(s, Retain(h)))
  {
    var r := Next(s, Retain(h));
    forall b | 0 <= b < |r.handles|
      ensures Fits(r, b)
    {
      assert Fits(s, b);
    }
  }

  lemma {:induction false} LastReleaseKeeps(s: State, t: Thread, h: Handle)
    requires Sound(s) && Enabled(s, Release(t, h)) && LastReference(s.allocations, h)
    ensures Sound(Next(s, Release(t, h)))
  {
    var r := Next(s, Release(t, h));
    assert Fits(s, s.allocations[h].buffer);
    forall b | 0 <= b < |r.handles|
      ensures Fits(r, b)
    {
      assert Fits(s, b);
    }
  }

  lemma {:induction false} OtherReleaseKeeps(s: State, t: Thread, h: Handle)
    requires Sound(s) && Enabled(s, Release(t, h)) && !LastReference(s.allocations, h)
    ensures Sound(Next(s, Release(t, h)))
  {
    var r := Next(s, Release(t, h));
    forall b | 0 <= b < |r.handles|
      ensures Fits(r, b)
    {
      assert Fits(s, b);
    }
  }

  lemma {:induction false} FreeKeeps(s: State, t: Thread)
    requires Sound(s) && Enabled(s, Free(t))
    ensures Sound(Next(s, Free(t)))
  {
    var r := Next(s, Free(t));
    forall b | 0 <= b < |r.handles|
      ensures Fits(r, b)
    {
      assert Fits(s, b);
    }
  }

  // ---------------------------------------------------------------------------
  // Every interleaving

  /** A run is any sequence of steps of any threads, each possible where it is taken. */
  ghost predicate IsRun(steps: seq<Step>, s: State) {
    if steps == [] then s == START
    else exists p :: IsRun(steps[..|steps| - 1], p) && Closed(p) && Enabled(p, steps[|steps| - 1]) &&
                     s == Next(p, steps[|steps| - 1])
  }

  lemma {:induction false} RunSound(steps: seq<Step>, s: State)
    requires IsRun(steps, s)
    ensures Sound(s)
  {
    if steps != [] {
      var last := steps[|steps| - 1];
      var p :| IsRun(steps[..|steps| - 1], p) && Closed(p) && Enabled(p, last) && s == Next(p, last);
      RunSound(steps[..|steps| - 1], p);
      match last
      case Allocate(t, h) => AllocateKeeps(p, t, h);
      case Publish(t) => PublishKeeps(p, t);
      case Retain(h) => RetainKeeps(p, h);
      case Release(t, h) =>
        if LastReference(p.allocations, h) { LastReleaseKeeps(p, t, h); } else { OtherReleaseKeeps(p, t, h); }
      case Free(t) => FreeKeeps(p, t);
    }
  }

  /** In every interleaving, the entry that publishing inserts is not there already. */
  lemma {:induction false} InsertNeverCollides(steps: seq<Step>, s: State, t: Thread)
    requires IsRun(steps, s) && Closed(s) && Enabled(s, Publish(t))
    ensures s.handles[s.holding[t].buffer] !in s.allocations
  {
    RunSound(steps, s);
    NewNotListed(s, s.holding[t].buffer);
  }

  /** In every interleaving a buffer is given back at most once, and only when its releases are one
      more than its retains. When they are, it has been given back, or the thread that released it
      last is about to. */
  lemma {:induction false} FreedOnce(steps: seq<Step>, s: State, b: nat)
    requires IsRun(steps, s) && Sized(s) && b < |s.handles|
    ensures s.freed[b] <= 1 && s.releases[b] <= 1 + s.retains[b]
    ensures s.releases[b] == 1 + s.retains[b] <==>
            s.freed[b] == 1 || exists t <- s.holding :: s.holding[t] == Dead(b)
    ensures s.holding == map[] ==> (s.freed[b] == 1 <==> s.releases[b] == 1 + s.retains[b])
  {
    RunSound(steps, s);
    assert Fits(s, b);
  }

  /** From the time it is published until its last release, and at no other time, the lookup of a
      buffer's handle finds it. */
  lemma {:induction false} FoundUntilReleased(steps: seq<Step>, s: State, b: nat)
    requires IsRun(steps, s) && Sized(s) && b < |s.handles|
    ensures s.handles[b] in s.allocations && s.allocations[s.handles[b]].buffer == b <==>
            s.releases[b] < 1 + s.retains[b] && forall t <- s.holding :: s.holding[t] != Fresh(b)
  {
    RunSound(steps, s);
    assert Fits(s, b);
  }
}
