/**
 CommandReader of compat/hwc2/HidlComposerHal.cpp: parses a queue of return commands into data per
 display, and owns the fence descriptors in that data until a caller takes them.
 */
module CommandReader {
  import opened Options
  import opened ReturnCommands

  /** What parse does to a queue, from a position on: the state it ends in and where it stops. A
      frame that does not fit is left unread, a frame that is refused is skipped. */
  function ParseFrom(coding: nat -> Opcode, produces: nat -> bool, words: seq<nat>, at: nat, p: Parsed):
      (r: (Parsed, nat))
    requires at <= |words| && PointsIn(p)
    ensures PointsIn(r.0) && r.1 <= |words|
    decreases |words| - at
  {
    if at == |words| || Frame(coding, words, at).None? then (p, at)
    else
      var frame := Frame(coding, words, at).value;
      var next := Step(p, frame.0, frame.1, words, at + 1, produces);
      if next.None? then (p, After(coding, words, at))
      else ParseFrom(coding, produces, words, After(coding, words, at), next.value)
  }

  /** Where the first frame is that is not a command, or that needs a display before one is selected. */
  function FirstBad(coding: nat -> Opcode, produces: nat -> bool, words: seq<nat>, at: nat, p: Parsed):
      (r: Option<nat>)
    requires at <= |words| && PointsIn(p)
    ensures r.Some? ==> at <= r.value < |words|
    decreases |words| - at
  {
    if at == |words| then None
    else
      var c := CommandAt(coding, words, at);
      if c.None? || !Applicable(p, c.value) then Some(at)
      else FirstBad(coding, produces, words, After(coding, words, at), Apply(p, c.value, produces))
  }

  /** A queue of well-formed commands: every frame decodes and finds the display it needs. */
  predicate WellFormed(coding: nat -> Opcode, produces: nat -> bool, words: seq<nat>, at: nat, p: Parsed)
    requires at <= |words| && PointsIn(p)
  {
    var cs := Decode(coding, words, at);
    cs.Some? && AllApplicable(p, cs.value, produces)
  }

  /** A queue has no bad frame exactly when it is well-formed. */
  lemma {:induction false} NoBadFrame(
    coding: nat -> Opcode, produces: nat -> bool, words: seq<nat>, at: nat, p: Parsed)
    requires at <= |words| && PointsIn(p)
    ensures FirstBad(coding, produces, words, at, p).None? <==> WellFormed(coding, produces, words, at, p)
    decreases |words| - at
  {
    if at < |words| {
      var c := CommandAt(coding, words, at);
      if c.Some? && Applicable(p, c.value) {
        var next := After(coding, words, at);
        NoBadFrame(coding, produces, words, next, Apply(p, c.value, produces));
        var rest := Decode(coding, words, next);
        if rest.Some? {
          assert ([c.value] + rest.value)[1..] == rest.value;
        }
      }
    }
  }

  /** A well-formed queue is read to its end, and the data is the fold of its commands. */
  lemma {:induction false} ParseIsFold(
    coding: nat -> Opcode, produces: nat -> bool, words: seq<nat>, at: nat, p: Parsed)
    requires at <= |words| && PointsIn(p) && WellFormed(coding, produces, words, at, p)
    ensures ParseFrom(coding, produces, words, at, p)
         == (Fold(p, Decode(coding, words, at).value, produces), |words|)
    decreases |words| - at
  {
    if at < |words| {
      var c := CommandAt(coding, words, at).value;
      var next := After(coding, words, at);
      var rest := Decode(coding, words, next).value;
      assert ([c] + rest)[1..] == rest;
      ParseIsFold(coding, produces, words, next, Apply(p, c, produces));
    }
  }

  /** When parse reports success: no bad frame, or the first bad frame is the last of the queue and
      fits it. In the second case the bad frame goes unnoticed. */
  lemma {:induction false} SucceedsIff(
    coding: nat -> Opcode, produces: nat -> bool, words: seq<nat>, at: nat, p: Parsed)
    requires at <= |words| && PointsIn(p)
    ensures var bad := FirstBad(coding, produces, words, at, p);
            ParseFrom(coding, produces, words, at, p).1 == |words| <==>
            (bad.None? ||
             (Frame(coding, words, bad.value).Some? && After(coding, words, bad.value) == |words|))
    decreases |words| - at
  {
    if at < |words| {
      var c := CommandAt(coding, words, at);
      if c.Some? && Applicable(p, c.value) {
        SucceedsIff(coding, produces, words, After(coding, words, at), Apply(p, c.value, produces));
      }
    }
  }

  lemma {:induction false} FoldCons(p: Parsed, c: Command, rest: seq<Command>, produces: nat -> bool)
    requires PointsIn(p) && Applicable(p, c) && AllApplicable(Apply(p, c, produces), rest, produces)
    ensures AllApplicable(p, [c] + rest, produces)
    ensures Fold(p, [c] + rest, produces) == Fold(Apply(p, c, produces), rest, produces)
  {
    assert ([c] + rest)[1..] == rest;
  }

  /** Where the commands end that parse carries out: at the first bad frame, or with the queue. */
  function Stop(coding: nat -> Opcode, produces: nat -> bool, words: seq<nat>, at: nat, p: Parsed): (r: nat)
    requires at <= |words| && PointsIn(p)
    ensures at <= r <= |words|
  {
    var bad := FirstBad(coding, produces, words, at, p);
    if bad.None? then |words| else bad.value
  }

  /** A good frame is carried out, and parse goes on behind it. */
  lemma {:induction false} ParseCons(
    coding: nat -> Opcode, produces: nat -> bool, words: seq<nat>, at: nat, p: Parsed)
    requires at < |words| && PointsIn(p)
    requires CommandAt(coding, words, at).Some? && Applicable(p, CommandAt(coding, words, at).value)
    ensures var q := Apply(p, CommandAt(coding, words, at).value, produces);
            && ParseFrom(coding, produces, words, at, p)
               == ParseFrom(coding, produces, words, After(coding, words, at), q)
            && Stop(coding, produces, words, at, p) == Stop(coding, produces, words, After(coding, words, at), q)
  {
  }

  /** What parse leaves is in every case the fold of the commands before the first bad frame. */
  lemma {:induction false} ParseIsFoldBefore(
    coding: nat -> Opcode, produces: nat -> bool, words: seq<nat>, at: nat, p: Parsed)
    requires at <= |words| && PointsIn(p)
    ensures var cs := DecodeUntil(coding, words, at, Stop(coding, produces, words, at, p));
            && cs.Some? && AllApplicable(p, cs.value, produces)
            && ParseFrom(coding, produces, words, at, p).0 == Fold(p, cs.value, produces)
    decreases |words| - at
  {
    if at < |words| {
      var c := CommandAt(coding, words, at);
      if c.Some? && Applicable(p, c.value) {
        var next, q := After(coding, words, at), Apply(p, c.value, produces);
        ParseCons(coding, produces, words, at, p);
        ParseIsFoldBefore(coding, produces, words, next, q);
        FoldCons(p, c.value, DecodeUntil(coding, words, next, Stop(coding, produces, words, next, q)).value, produces);
      }
    }
  }

  /** A success report does not mean that the queue was well-formed: a lone select command whose
      length is zero is refused, and the queue is empty all the same. */
  lemma {:induction false} LastBadFrameUnnoticed(coding: nat -> Opcode, produces: nat -> bool, p: Parsed)
    requires PointsIn(p) && coding(0) == SelectDisplay
    ensures ParseFrom(coding, produces, [0], 0, p) == (p, 1)
    ensures !WellFormed(coding, produces, [0], 0, p)
  {
    assert Frame(coding, [0], 0) == Some((SelectDisplay, 0));
  }

  // ---------------------------------------------------------------------------
  // The lists of one display grow a pair at a time

  function PushChanged(d: ReturnData, layer: Layer, kind: int): ReturnData {
    d.(changedLayers := d.changedLayers + [layer], compositionTypes := d.compositionTypes + [kind])
  }

  function PushRequest(d: ReturnData, layer: Layer, mask: nat): ReturnData {
    d.(requestedLayers := d.requestedLayers + [layer], requestMasks := d.requestMasks + [mask])
  }

  function PushReleased(d: ReturnData, layer: Layer, fence: int): ReturnData {
    d.(releasedLayers := d.releasedLayers + [layer], releaseFences := d.releaseFences + [fence])
  }

  /** The display's data after n pairs of a changed-types command at a position. */
  function ChangedAfter(d: ReturnData, words: seq<nat>, at: nat, n: nat): ReturnData
    requires at + 3 * n <= |words|
  {
    var ps := SignedPairs(Pairs(words, at, n));
    d.(changedLayers := d.changedLayers + Firsts(ps), compositionTypes := d.compositionTypes + Seconds(ps))
  }

  /** The display's data after n pairs of a display-requests command at a position. */
  function RequestsAfter(d: ReturnData, words: seq<nat>, at: nat, n: nat): ReturnData
    requires at + 3 * n <= |words|
  {
    var ps := Pairs(words, at, n);
    d.(requestedLayers := d.requestedLayers + Firsts(ps), requestMasks := d.requestMasks + Seconds(ps))
  }

  /** The display's data after n pairs of a release-fences command at a position. */
  function ReleasedAfter(
    d: ReturnData, words: seq<nat>, at: nat, n: nat, fences: nat, produces: nat -> bool): ReturnData
    requires at + 3 * n <= |words|
  {
    d.(releasedLayers := d.releasedLayers + Firsts(Pairs(words, at, n)),
       releaseFences := d.releaseFences + FencesOf(produces, fences, n))
  }

  lemma {:induction false} PairSnoc<T>(ps: seq<(Layer, T)>, x: (Layer, T))
    ensures Firsts(ps + [x]) == Firsts(ps) + [x.0]
    ensures Seconds(ps + [x]) == Seconds(ps) + [x.1]
  {
  }

  lemma {:induction false} Assoc<T>(a: seq<T>, b: seq<T>, x: T)
    ensures a + (b + [x]) == a + b + [x]
  {
  }

  lemma {:induction false} ChangedSnoc(d: ReturnData, words: seq<nat>, at: nat, n: nat)
    requires at + 3 * (n + 1) <= |words|
    ensures ChangedAfter(d, words, at, n + 1)
         == PushChanged(ChangedAfter(d, words, at, n), Read64(words, at + 3 * n), Signed(words[at + 3 * n + 2]))
  {
    var ps := SignedPairs(Pairs(words, at, n));
    var x := (Read64(words, at + 3 * n), Signed(words[at + 3 * n + 2]));
    assert SignedPairs(Pairs(words, at, n + 1)) == ps + [x];
    PairSnoc(ps, x);
    Assoc(d.changedLayers, Firsts(ps), x.0);
    Assoc(d.compositionTypes, Seconds(ps), x.1);
  }

  lemma {:induction false} RequestsSnoc(d: ReturnData, words: seq<nat>, at: nat, n: nat)
    requires at + 3 * (n + 1) <= |words|
    ensures RequestsAfter(d, words, at, n + 1)
         == PushRequest(RequestsAfter(d, words, at, n), Read64(words, at + 3 * n), words[at + 3 * n + 2])
  {
    var ps := Pairs(words, at, n);
    var x := (Read64(words, at + 3 * n), words[at + 3 * n + 2]);
    PairSnoc(ps, x);
    Assoc(d.requestedLayers, Firsts(ps), x.0);
    Assoc(d.requestMasks, Seconds(ps), x.1);
  }

  lemma {:induction false} ReleasedSnoc(
    d: ReturnData, words: seq<nat>, at: nat, n: nat, fences: nat, produces: nat -> bool)
    requires at + 3 * (n + 1) <= |words|
    ensures ReleasedAfter(d, words, at, n + 1, fences, produces)
         == PushReleased(ReleasedAfter(d, words, at, n, fences, produces),
                         Read64(words, at + 3 * n), FenceOf(produces, fences + n))
  {
    var ps := Pairs(words, at, n);
    PairSnoc(ps, (Read64(words, at + 3 * n), words[at + 3 * n + 2]));
    Assoc(d.releasedLayers, Firsts(ps), Read64(words, at + 3 * n));
    assert FencesOf(produces, fences, n + 1) == FencesOf(produces, fences, n) + [FenceOf(produces, fences + n)];
    Assoc(d.releaseFences, FencesOf(produces, fences, n), FenceOf(produces, fences + n));
  }

  lemma {:induction false} NothingYet(d: ReturnData, words: seq<nat>, at: nat, fences: nat, produces: nat -> bool)
    requires at <= |words|
    ensures ChangedAfter(d, words, at, 0) == RequestsAfter(d, words, at, 0) == d
    ensures ReleasedAfter(d, words, at, 0, fences, produces) == d
  {
  }

  lemma {:induction false} UpdatedTwice(data: map<Display, ReturnData>, d: Display, v: ReturnData, w: ReturnData)
    ensures data[d := v][d := w] == data[d := w]
  {
  }

  // The effect of a whole command, for a selected display d.

  lemma {:induction false} ChangedStep(
    p: Parsed, d: Display, length: nat, words: seq<nat>, at: nat, produces: nat -> bool)
    requires PointsIn(p) && p.current == Some(d) && at + length <= |words| && length % 3 == 0
    ensures Step(p, SetChangedCompositionTypes, length, words, at, produces)
         == Some(p.(data := p.data[d := ChangedAfter(p.data[d], words, at, length / 3)]))
  {
  }

  lemma {:induction false} RequestsStep(
    p: Parsed, d: Display, length: nat, words: seq<nat>, at: nat, produces: nat -> bool)
    requires PointsIn(p) && p.current == Some(d) && at + length <= |words| && length % 3 == 1
    ensures var masked := p.data[d].(displayRequests := words[at]);
            Step(p, SetDisplayRequests, length, words, at, produces) ==
            Some(p.(data := p.data[d := RequestsAfter(masked, words, at + 1, (length - 1) / 3)]))
  {
  }

  lemma {:induction false} ReleasedStep(
    p: Parsed, d: Display, length: nat, words: seq<nat>, at: nat, produces: nat -> bool)
    requires PointsIn(p) && p.current == Some(d) && at + length <= |words| && length % 3 == 0
    ensures Step(p, SetReleaseFences, length, words, at, produces)
         == Some(p.(data := p.data[d := ReleasedAfter(p.data[d], words, at, length / 3, p.fences, produces)],
                    fences := p.fences + length / 3))
  {
  }

  /** What the reader's invariant survives: replacing the state a command at a time. */
  lemma {:induction false} StepKeeps(
    p: Parsed, opcode: Opcode, length: nat, words: seq<nat>, at: nat, produces: nat -> bool, taken: multiset<int>)
    requires PointsIn(p) && at + length <= |words| && AllPaired(p) && Conserved(p, taken, produces)
    requires Step(p, opcode, length, words, at, produces).Some?
    ensures AllPaired(Step(p, opcode, length, words, at, produces).value)
    ensures Conserved(Step(p, opcode, length, words, at, produces).value, taken, produces)
  {
    var c := Payload(opcode, length, words, at).value;
    ApplyConserves(p, c, taken, produces);
    ApplyKeepsPaired(p, c, produces);
  }

  lemma {:induction false} Emptied(p: Parsed, d: Display, v: ReturnData, taken: multiset<int>, produces: nat -> bool)
    requires d in p.data && Paired(v) && AllPaired(p) && Conserved(p, taken, produces)
    requires v.presentFence == p.data[d].presentFence && v.releaseFences == p.data[d].releaseFences
    ensures AllPaired(p.(data := p.data[d := v])) && Conserved(p.(data := p.data[d := v]), taken, produces)
  {
    HandOut(p, d, v, multiset{}, taken, produces);
    assert taken + multiset{} == taken;
  }

  class CommandReader {
    const coding: nat -> Opcode
    /** Whether the n-th call of readFence yields a descriptor; the descriptor is then called n. */
    const produces: nat -> bool

    var words: seq<nat>
    var position: nat
    var data: map<Display, ReturnData>
    var current: Option<Display>
    var errors: seq<(nat, int)>
    var fences: nat
    var closed: multiset<int>
    var taken: multiset<int>

    ghost function View(): Parsed
      reads this
    {
      Parsed(data, current, errors, fences, closed)
    }

    ghost predicate Valid()
      reads this
    {
      && position <= |words|
      && PointsIn(View())
      && AllPaired(View())
      && Conserved(View(), taken, produces)
    }

    constructor (coding: nat -> Opcode, produces: nat -> bool)
      ensures Valid() && data == map[] && closed == taken == multiset{} && fences == 0
    {
      this.coding, this.produces := coding, produces;
      words, position := [], 0;
      data, current, errors := map[], None, [];
      fences, closed, taken := 0, multiset{}, multiset{};
    }

    // The parsers of one command. Each reads exactly the frame's words when it accepts, and changes
    // nothing when it refuses.

    method ParseSelectDisplay(length: nat) returns (parsed: bool)
      requires PointsIn(View()) && position + length <= |words|
      modifies `position, `data, `current
      ensures ghost var next := Step(old(View()), SelectDisplay, length, words, old(position), produces);
              if parsed then next == Some(View()) && position == old(position) + length
              else next == None && View() == old(View()) && position == old(position)
    {
      if length != 2 { return false; }
      var d := Read64(words, position);
      position := position + 2;
      if d !in data { data := data[d := NO_DATA]; }
      current := Some(d);
      return true;
    }

    method ParseSetError(length: nat) returns (parsed: bool)
      requires PointsIn(View()) && position + length <= |words|
      modifies `position, `errors
      ensures ghost var next := Step(old(View()), SetError, length, words, old(position), produces);
              if parsed then next == Some(View()) && position == old(position) + length
              else next == None && View() == old(View()) && position == old(position)
    {
      if length != 2 { return false; }
      errors := errors + [(words[position], Signed(words[position + 1]))];
      position := position + 2;
      return true;
    }

    method ParseSetChangedCompositionTypes(length: nat) returns (parsed: bool)
      requires PointsIn(View()) && position + length <= |words|
      modifies `position, `data
      ensures ghost var next := Step(old(View()), SetChangedCompositionTypes, length, words, old(position), produces);
              if parsed then next == Some(View()) && position == old(position) + length
              else next == None && View() == old(View()) && position == old(position)
    {
      if length % 3 != 0 || current.None? { return false; }
      ChangedStep(View(), current.value, length, words, position, produces);
      ReadChanged(current.value, length / 3);
      return true;
    }

    /** The loop over (layer, type) pairs. */
    method ReadChanged(d: Display, n: nat)
      requires d in data && position + 3 * n <= |words|
      modifies `position, `data
      ensures position == old(position) + 3 * n
      ensures data == old(data)[d := ChangedAfter(old(data)[d], words, old(position), n)]
    {
      ghost var at, was := position, data;
      NothingYet(was[d], words, at, fences, produces);
      var count := n;
      while count > 0
        invariant 0 <= count <= n && position == at + 3 * (n - count)
        invariant data == was[d := ChangedAfter(was[d], words, at, n - count)]
      {
        ChangedSnoc(was[d], words, at, n - count);
        var layer, kind := Read64(words, position), Signed(words[position + 2]);
        position := position + 3;
        data := data[d := PushChanged(data[d], layer, kind)];
        count := count - 1;
      }
    }

    method ParseSetDisplayRequests(length: nat) returns (parsed: bool)
      requires PointsIn(View()) && position + length <= |words|
      modifies `position, `data
      ensures ghost var next := Step(old(View()), SetDisplayRequests, length, words, old(position), produces);
              if parsed then next == Some(View()) && position == old(position) + length
              else next == None && View() == old(View()) && position == old(position)
    {
      if length % 3 != 1 || current.None? { return false; }
      var d := current.value;
      RequestsStep(View(), d, length, words, position, produces);
      var masked := data[d].(displayRequests := words[position]);
      data := data[d := masked];
      position := position + 1;
      ReadRequests(d, (length - 1) / 3);
      UpdatedTwice(old(data), d, masked, data[d]);
      return true;
    }

    /** The loop over (layer, mask) pairs. */
    method ReadRequests(d: Display, n: nat)
      requires d in data && position + 3 * n <= |words|
      modifies `position, `data
      ensures position == old(position) + 3 * n
      ensures data == old(data)[d := RequestsAfter(old(data)[d], words, old(position), n)]
    {
      ghost var at, was := position, data;
      NothingYet(was[d], words, at, fences, produces);
      var count := n;
      while count > 0
        invariant 0 <= count <= n && position == at + 3 * (n - count)
        invariant data == was[d := RequestsAfter(was[d], words, at, n - count)]
      {
        RequestsSnoc(was[d], words, at, n - count);
        var layer, layerMask := Read64(words, position), words[position + 2];
        position := position + 3;
        data := data[d := PushRequest(data[d], layer, layerMask)];
        count := count - 1;
      }
    }

    method Close(fence: int)
      modifies `closed
      ensures closed == old(closed) + Descriptor(fence)
    {
      if fence >= 0 { closed := closed + multiset{fence}; }
    }

    method ReadFence() returns (fence: int)
      requires position < |words|
      modifies `position, `fences
      ensures position == old(position) + 1 && fences == old(fences) + 1
      ensures fence == FenceOf(produces, old(fences))
    {
      fence := if produces(fences) then fences else -1;
      position, fences := position + 1, fences + 1;
    }

    method ParseSetPresentFence(length: nat) returns (parsed: bool)
      requires PointsIn(View()) && position + length <= |words|
      modifies `position, `data, `fences, `closed
      ensures ghost var next := Step(old(View()), SetPresentFence, length, words, old(position), produces);
              if parsed then next == Some(View()) && position == old(position) + length
              else next == None && View() == old(View()) && position == old(position)
    {
      if length != 1 || current.None? { return false; }
      var d := current.value;
      Close(data[d].presentFence);
      var fence := ReadFence();
      data := data[d := data[d].(presentFence := fence)];
      return true;
    }

    method ParseSetReleaseFences(length: nat) returns (parsed: bool)
      requires PointsIn(View()) && position + length <= |words|
      modifies `position, `data, `fences
      ensures ghost var next := Step(old(View()), SetReleaseFences, length, words, old(position), produces);
              if parsed then next == Some(View()) && position == old(position) + length
              else next == None && View() == old(View()) && position == old(position)
    {
      if length % 3 != 0 || current.None? { return false; }
      ReleasedStep(View(), current.value, length, words, position, produces);
      ReadReleased(current.value, length / 3);
      return true;
    }

    /** The loop over (layer, fence) pairs. */
    method ReadReleased(d: Display, n: nat)
      requires d in data && position + 3 * n <= |words|
      modifies `position, `data, `fences
      ensures position == old(position) + 3 * n && fences == old(fences) + n
      ensures data == old(data)[d := ReleasedAfter(old(data)[d], words, old(position), n, old(fences), produces)]
    {
      ghost var at, was, first := position, data, fences;
      NothingYet(was[d], words, at, first, produces);
      var count := n;
      while count > 0
        invariant 0 <= count <= n && position == at + 3 * (n - count)
        invariant fences == first + (n - count)
        invariant data == was[d := ReleasedAfter(was[d], words, at, n - count, first, produces)]
      {
        ReleasedSnoc(was[d], words, at, n - count, first, produces);
        var layer := Read64(words, position);
        position := position + 2;
        var fence := ReadFence();
        data := data[d := PushReleased(data[d], layer, fence)];
        count := count - 1;
      }
    }

    method ParseSetPresentOrValidateDisplayResult(length: nat) returns (parsed: bool)
      requires PointsIn(View()) && position + length <= |words|
      modifies `position, `data
      ensures ghost var next :=
                Step(old(View()), SetPresentOrValidateDisplayResult, length, words, old(position), produces);
              if parsed then next == Some(View()) && position == old(position) + length
              else next == None && View() == old(View()) && position == old(position)
    {
      if length != 1 || current.None? { return false; }
      var d := current.value;
      data := data[d := data[d].(stage := Some(words[position]))];
      position := position + 1;
      return true;
    }

    method ParseSetClientTargetProperty(length: nat) returns (parsed: bool)
      requires PointsIn(View()) && position + length <= |words|
      modifies `position, `data
      ensures ghost var next := Step(old(View()), SetClientTargetProperty, length, words, old(position), produces);
              if parsed then next == Some(View()) && position == old(position) + length
              else next == None && View() == old(View()) && position == old(position)
    {
      if length != 2 || current.None? { return false; }
      var d := current.value;
      data := data[d := data[d].(clientTarget := Some((Signed(words[position]), Signed(words[position + 1]))))];
      position := position + 2;
      return true;
    }

    /** The switch over opcodes. */
    method ParseCommand(opcode: Opcode, length: nat) returns (parsed: bool)
      requires PointsIn(View()) && position + length <= |words|
      modifies `position, `data, `current, `errors, `fences, `closed
      ensures ghost var next := Step(old(View()), opcode, length, words, old(position), produces);
              if parsed then next == Some(View()) && position == old(position) + length
              else next == None && View() == old(View()) && position == old(position)
    {
      match opcode
      case SelectDisplay => parsed := ParseSelectDisplay(length);
      case SetError => parsed := ParseSetError(length);
      case SetChangedCompositionTypes => parsed := ParseSetChangedCompositionTypes(length);
      case SetDisplayRequests => parsed := ParseSetDisplayRequests(length);
      case SetPresentFence => parsed := ParseSetPresentFence(length);
      case SetReleaseFences => parsed := ParseSetReleaseFences(length);
      case SetPresentOrValidateDisplayResult => parsed := ParseSetPresentOrValidateDisplayResult(length);
      case SetClientTargetProperty => parsed := ParseSetClientTargetProperty(length);
      case Unknown => parsed := false;
    }

    method CloseAll(list: seq<int>)
      modifies `closed
      ensures forall t: nat :: closed[t] == old(closed[t]) + Count(list, t)
    {
      for i := 0 to |list|
        invariant forall t: nat :: closed[t] == old(closed[t]) + Count(list[..i], t)
      {
        assert list[..i + 1][..i] == list[..i];
        Close(list[i]);
      }
      assert list[..|list|] == list;
    }

    /** Closes every descriptor in the data once. */
    method CloseData()
      modifies `closed
      ensures forall t: nat :: closed[t] == old(closed[t]) + Held(data, t)
    {
      var rest := data;
      while rest != map[]
        invariant forall t: nat :: closed[t] + Held(rest, t) == old(closed[t]) + Held(data, t)
        decreases |rest|
      {
        var d :| d in rest;
        label Before:
        Close(rest[d].presentFence);
        CloseAll(rest[d].releaseFences);
        forall t: nat
          ensures closed[t] + Held(rest - {d}, t) == old@Before(closed[t]) + Held(rest, t)
        {
          HeldWithout(rest, d, t);
        }
        rest := rest - {d};
      }
    }

    /** Drops all data, and closes every descriptor in it once. Also the destructor. */
    method ResetData()
      requires Valid()
      modifies `data, `current, `errors, `closed
      ensures Valid() && data == map[] && current == None && errors == []
      ensures forall t: nat :: closed[t] == old(closed[t]) + Held(old(data), t)
    {
      errors := [];
      CloseData();
      data := map[];
      current := None;
    }

    /** One round of the parse loop: a frame that does not fit is left unread, any other is skipped
        to its end whether or not it was accepted. */
    method ParseFrame() returns (going: bool)
      requires Valid() && position < |words|
      modifies `position, `data, `current, `errors, `fences, `closed
      ensures Valid() && (going ==> old(position) < position)
      ensures ParseFrom(coding, produces, words, old(position), old(View()))
           == if going then ParseFrom(coding, produces, words, position, View()) else (View(), position)
    {
      var length := words[position] % 0x1_0000;
      if position + 1 + length > |words| { return false; }
      ghost var p, at := View(), position + 1;
      var opcode := coding(words[position] / 0x1_0000);
      position := position + 1;
      var end := position + length;
      going := ParseCommand(opcode, length);
      position := end;
      if going { StepKeeps(p, opcode, length, words, at, produces, taken); }
    }

    /** Reads a queue. The result is what ParseFrom says of it from an empty state; the descriptors of
        the previous queue that nobody took are closed. */
    method Parse(queue: seq<nat>) returns (ok: bool, ghost start: Parsed)
      requires Valid()
      modifies this
      ensures Valid() && words == queue && taken == old(taken)
      ensures start.data == map[] && start.current == None && start.errors == [] && start.fences == old(fences)
      ensures forall t: nat :: start.closed[t] == old(closed[t]) + Held(old(data), t)
      ensures (View(), position) == ParseFrom(coding, produces, queue, 0, start)
      ensures ok <==> position == |queue|
      ensures WellFormed(coding, produces, queue, 0, start) ==>
                ok && View() == Fold(start, Decode(coding, queue, 0).value, produces)
      ensures var bad := FirstBad(coding, produces, queue, 0, start);
              var cs := DecodeUntil(coding, queue, 0, Stop(coding, produces, queue, 0, start));
              && (ok <==>
                    bad.None? || (Frame(coding, queue, bad.value).Some? && After(coding, queue, bad.value) == |queue|))
              && cs.Some? && AllApplicable(start, cs.value, produces) && View() == Fold(start, cs.value, produces)
    {
      ResetData();
      words, position := queue, 0;
      start := View();
      var going := true;
      while going && position < |words|
        invariant Valid() && words == queue && taken == old(taken)
        invariant ParseFrom(coding, produces, queue, 0, start)
               == if going then ParseFrom(coding, produces, queue, position, View()) else (View(), position)
        decreases going, |words| - position
      {
        going := ParseFrame();
      }
      ok := position == |words|;
      if WellFormed(coding, produces, queue, 0, start) {
        ParseIsFold(coding, produces, queue, 0, start);
      }
      SucceedsIff(coding, produces, queue, 0, start);
      ParseIsFoldBefore(coding, produces, queue, 0, start);
    }

    // Taking data out. A display that the last queue did not mention has nothing.

    method TakeErrors() returns (taking: seq<(nat, int)>)
      requires Valid()
      modifies `errors
      ensures Valid() && taking == old(errors) && errors == []
    {
      taking, errors := errors, [];
    }

    method TakeChangedCompositionTypes(d: Display) returns (layers: seq<Layer>, types: seq<int>)
      requires Valid()
      modifies `data
      ensures Valid() && |layers| == |types|
      ensures d !in old(data) ==> layers == [] && data == old(data)
      ensures d in old(data) ==>
                && layers == old(data)[d].changedLayers && types == old(data)[d].compositionTypes
                && data == old(data)[d := old(data)[d].(changedLayers := [], compositionTypes := [])]
    {
      if d !in data { return [], []; }
      layers, types := data[d].changedLayers, data[d].compositionTypes;
      var v := data[d].(changedLayers := [], compositionTypes := []);
      Emptied(View(), d, v, taken, produces);
      data := data[d := v];
    }

    method TakeDisplayRequests(d: Display) returns (mask: nat, layers: seq<Layer>, masks: seq<nat>)
      requires Valid()
      modifies `data
      ensures Valid() && |layers| == |masks|
      ensures d !in old(data) ==> mask == 0 && layers == [] && data == old(data)
      ensures d in old(data) ==>
                && mask == old(data)[d].displayRequests
                && layers == old(data)[d].requestedLayers && masks == old(data)[d].requestMasks
                && data == old(data)[d := old(data)[d].(requestedLayers := [], requestMasks := [])]
    {
      if d !in data { return 0, [], []; }
      mask, layers, masks := data[d].displayRequests, data[d].requestedLayers, data[d].requestMasks;
      var v := data[d].(requestedLayers := [], requestMasks := []);
      Emptied(View(), d, v, taken, produces);
      data := data[d := v];
    }

    /** Hands the release fences of a display, and their descriptors, to the caller. */
    method TakeReleaseFences(d: Display) returns (layers: seq<Layer>, list: seq<int>)
      requires Valid()
      modifies `data, `taken
      ensures Valid() && |layers| == |list|
      ensures taken == old(taken) + Descriptors(list)
      ensures d !in old(data) ==> layers == [] && data == old(data)
      ensures d in old(data) ==>
                && layers == old(data)[d].releasedLayers && list == old(data)[d].releaseFences
                && data == old(data)[d := old(data)[d].(releasedLayers := [], releaseFences := [])]
    {
      if d !in data { return [], []; }
      layers, list := data[d].releasedLayers, data[d].releaseFences;
      var v := data[d].(releasedLayers := [], releaseFences := []);
      forall t: nat
        ensures HeldBy(v, t) + Descriptors(list)[t] == HeldBy(data[d], t)
      {
        DescriptorsCount(list, t);
      }
      HandOut(View(), d, v, Descriptors(list), taken, produces);
      data, taken := data[d := v], taken + Descriptors(list);
    }

    /** Hands the present fence of a display, and its descriptor, to the caller. */
    method TakePresentFence(d: Display) returns (fence: int)
      requires Valid()
      modifies `data, `taken
      ensures Valid()
      ensures taken == old(taken) + Descriptor(fence)
      ensures d !in old(data) ==> fence == -1 && data == old(data)
      ensures d in old(data) ==>
                && fence == old(data)[d].presentFence
                && data == old(data)[d := old(data)[d].(presentFence := -1)]
    {
      if d !in data { return -1; }
      fence := data[d].presentFence;
      var v := data[d].(presentFence := -1);
      HandOut(View(), d, v, Descriptor(fence), taken, produces);
      data, taken := data[d := v], taken + Descriptor(fence);
    }
  }
}
