/**
 What a list of return commands leaves for each display, read off the list: which commands were meant
 for the display, what the last of each kind said, and which fences they brought.
 */
module ReturnHistory {
  import opened Options
  import opened ReturnCommands

  /** The command at i comes when display d is selected; before is what was selected at the start. */
  predicate MeantFor(before: Option<Display>, cs: seq<Command>, i: nat, d: Display) {
    i < |cs| && !cs[i].Select? && !cs[i].Fault? && LastSelected(before, cs[..i]) == Some(d)
  }

  /** The last of the first n commands that is of a kind and meant for d. */
  function LastFor(before: Option<Display>, cs: seq<Command>, n: nat, d: Display, kind: Opcode): Option<nat>
    requires n <= |cs|
  {
    if n == 0 then None
    else if OpcodeOf(cs[n - 1]) == kind && MeantFor(before, cs, n - 1, d) then Some(n - 1)
    else LastFor(before, cs, n - 1, d, kind)
  }

  lemma {:induction false} LastForIsLast(before: Option<Display>, cs: seq<Command>, n: nat, d: Display, kind: Opcode)
    requires n <= |cs|
    ensures var i := LastFor(before, cs, n, d, kind);
            && (i.Some? ==> i.value < n && OpcodeOf(cs[i.value]) == kind && MeantFor(before, cs, i.value, d))
            && forall j | 0 <= j < n && OpcodeOf(cs[j]) == kind && MeantFor(before, cs, j, d) ::
                 i.Some? && j <= i.value
  {
    if n > 0 { LastForIsLast(before, cs, n - 1, d, kind); }
  }

  /** How many fences the first n commands bring, for whichever display. */
  function FencesBefore(cs: seq<Command>, n: nat): nat
    requires n <= |cs|
  {
    if n == 0 then 0
    else FencesBefore(cs, n - 1) +
         match cs[n - 1]
         case PresentFence => 1
         case ReleaseFences(layers) => |layers|
         case _ => 0
  }

  function ChangesFor(before: Option<Display>, cs: seq<Command>, n: nat, d: Display): seq<(Layer, int)>
    requires n <= |cs|
  {
    if n == 0 then []
    else ChangesFor(before, cs, n - 1, d) +
         if MeantFor(before, cs, n - 1, d) && cs[n - 1].Changed? then cs[n - 1].changes else []
  }

  function RequestsFor(before: Option<Display>, cs: seq<Command>, n: nat, d: Display): seq<(Layer, nat)>
    requires n <= |cs|
  {
    if n == 0 then []
    else RequestsFor(before, cs, n - 1, d) +
         if MeantFor(before, cs, n - 1, d) && cs[n - 1].Requests? then cs[n - 1].layerMasks else []
  }

  /** Layers with consecutive numbers. */
  function Numbered(layers: seq<Layer>, first: nat): (r: seq<(Layer, nat)>)
    ensures |r| == |layers| && forall i :: 0 <= i < |r| ==> r[i] == (layers[i], first + i)
  {
    seq(|layers|, i requires 0 <= i < |layers| => (layers[i], (first + i) as nat))
  }

  /** Each released layer with the number of its fence. */
  function ReleasesFor(before: Option<Display>, cs: seq<Command>, n: nat, d: Display, first: nat):
      seq<(Layer, nat)>
    requires n <= |cs|
  {
    if n == 0 then [] else ReleasesFor(before, cs, n - 1, d, first) + ReleasedAt(before, cs, n - 1, d, first)
  }

  function ReleasedAt(before: Option<Display>, cs: seq<Command>, i: nat, d: Display, first: nat): seq<(Layer, nat)>
    requires i < |cs|
  {
    if MeantFor(before, cs, i, d) && cs[i].ReleaseFences?
    then Numbered(cs[i].layers, first + FencesBefore(cs, i)) else []
  }

  function FaultsIn(cs: seq<Command>, n: nat): seq<(nat, int)>
    requires n <= |cs|
  {
    if n == 0 then []
    else FaultsIn(cs, n - 1) + if cs[n - 1].Fault? then [(cs[n - 1].location, cs[n - 1].error)] else []
  }

  /** The fence of each released layer: its number if the descriptor came, else -1. */
  ghost predicate ReleasesAre(layers: seq<Layer>, fences: seq<int>, startLayers: seq<Layer>, startFences: seq<int>,
                              released: seq<(Layer, nat)>, produces: nat -> bool)
  {
    && layers == startLayers + Firsts(released)
    && |fences| == |startFences| + |released| && fences[..|startFences|] == startFences
    && forall i | 0 <= i < |released| ::
         fences[|startFences| + i] == if produces(released[i].1) then released[i].1 else -1
  }

  // A single value comes from the last command of its kind that is meant for d, else from the start.

  ghost predicate MaskLeft(before: Option<Display>, cs: seq<Command>, d: Display, start: nat, mask: nat) {
    var i := LastFor(before, cs, |cs|, d, SetDisplayRequests);
    mask == if i.Some? && i.value < |cs| && cs[i.value].Requests? then cs[i.value].mask else start
  }

  ghost predicate StageLeft(before: Option<Display>, cs: seq<Command>, d: Display, start: Option<nat>, stage: Option<nat>) {
    var i := LastFor(before, cs, |cs|, d, SetPresentOrValidateDisplayResult);
    stage == if i.Some? && i.value < |cs| && cs[i.value].Stage? then Some(cs[i.value].stage) else start
  }

  ghost predicate TargetLeft(before: Option<Display>, cs: seq<Command>, d: Display,
                             start: Option<(int, int)>, target: Option<(int, int)>)
  {
    var i := LastFor(before, cs, |cs|, d, SetClientTargetProperty);
    target == if i.Some? && i.value < |cs| && cs[i.value].ClientTarget?
              then Some((cs[i.value].pixelFormat, cs[i.value].dataspace)) else start
  }

  function FenceNumbered(produces: nat -> bool, n: nat): int { if produces(n) then n else -1 }

  ghost predicate PresentLeft(before: Option<Display>, cs: seq<Command>, d: Display, first: nat,
                              produces: nat -> bool, start: int, fence: int)
  {
    var i := LastFor(before, cs, |cs|, d, SetPresentFence);
    fence == if i.Some? && i.value < |cs| then FenceNumbered(produces, first + FencesBefore(cs, i.value)) else start
  }

  // A list has what it had at the start, and then what each command that is meant for d adds.

  ghost predicate ChangesLeft(before: Option<Display>, cs: seq<Command>, d: Display, start: ReturnData, r: ReturnData) {
    && r.changedLayers == start.changedLayers + Firsts(ChangesFor(before, cs, |cs|, d))
    && r.compositionTypes == start.compositionTypes + Seconds(ChangesFor(before, cs, |cs|, d))
  }

  ghost predicate RequestsLeft(before: Option<Display>, cs: seq<Command>, d: Display, start: ReturnData, r: ReturnData) {
    && r.requestedLayers == start.requestedLayers + Firsts(RequestsFor(before, cs, |cs|, d))
    && r.requestMasks == start.requestMasks + Seconds(RequestsFor(before, cs, |cs|, d))
  }

  ghost predicate ReleasesLeft(before: Option<Display>, cs: seq<Command>, d: Display, first: nat,
                               produces: nat -> bool, start: ReturnData, r: ReturnData)
  {
    ReleasesAre(r.releasedLayers, r.releaseFences, start.releasedLayers, start.releaseFences,
                ReleasesFor(before, cs, |cs|, d, first), produces)
  }

  /** What the commands leave of a display's data. */
  ghost predicate LeftFor(before: Option<Display>, cs: seq<Command>, d: Display, first: nat, produces: nat -> bool,
                          start: ReturnData, r: ReturnData)
  {
    && MaskLeft(before, cs, d, start.displayRequests, r.displayRequests)
    && StageLeft(before, cs, d, start.stage, r.stage)
    && TargetLeft(before, cs, d, start.clientTarget, r.clientTarget)
    && PresentLeft(before, cs, d, first, produces, start.presentFence, r.presentFence)
    && ChangesLeft(before, cs, d, start, r)
    && RequestsLeft(before, cs, d, start, r)
    && ReleasesLeft(before, cs, d, first, produces, start, r)
  }

  /** The data that a display starts with. */
  function DataOf(data: map<Display, ReturnData>, d: Display): ReturnData { if d in data then data[d] else NO_DATA }

  // ---------------------------------------------------------------------------
  // One more command

  lemma {:induction false} FoldSnoc(p: Parsed, cs: seq<Command>, c: Command, produces: nat -> bool)
    requires PointsIn(p) && AllApplicable(p, cs + [c], produces)
    ensures AllApplicable(p, cs, produces) && Applicable(Fold(p, cs, produces), c)
    ensures Fold(p, cs + [c], produces) == Apply(Fold(p, cs, produces), c, produces)
    decreases |cs|
  {
    if cs == [] {
      assert cs + [c] == [c] && [c][1..] == [];
    } else {
      assert (cs + [c])[1..] == cs[1..] + [c];
      FoldSnoc(Apply(p, cs[0], produces), cs[1..], c, produces);
    }
  }

  lemma {:induction false} MeantSnoc(before: Option<Display>, cs: seq<Command>, c: Command, i: nat, d: Display)
    requires i < |cs|
    ensures MeantFor(before, cs + [c], i, d) <==> MeantFor(before, cs, i, d)
  {
    assert (cs + [c])[..i] == cs[..i] && (cs + [c])[i] == cs[i];
  }

  lemma {:induction false} MeantLast(before: Option<Display>, cs: seq<Command>, c: Command, d: Display)
    ensures MeantFor(before, cs + [c], |cs|, d) <==>
            !c.Select? && !c.Fault? && LastSelected(before, cs) == Some(d)
  {
    assert (cs + [c])[..|cs|] == cs;
  }

  /** The display of the last select command; without one, the display that was selected at the start. */
  ghost predicate SelectedBy(before: Option<Display>, cs: seq<Command>, d: Display) {
    || (before == Some(d) && forall j | 0 <= j < |cs| :: !cs[j].Select?)
    || exists k | 0 <= k < |cs| :: cs[k] == Select(d) && forall j | k < j < |cs| :: !cs[j].Select?
  }

  lemma {:induction false} SelectedIsLast(before: Option<Display>, cs: seq<Command>, d: Display)
    ensures LastSelected(before, cs) == Some(d) <==> SelectedBy(before, cs, d)
  {
    if cs != [] {
      var n := |cs| - 1;
      SelectedIsLast(before, cs[..n], d);
      assert cs == cs[..n] + [cs[n]];
      if cs[n].Select? {
        assert cs[n] == Select(d) ==> SelectedBy(before, cs, d);
      } else {
        SelectedGoesOn(before, cs[..n], cs[n], d);
      }
    }
  }

  lemma {:induction false} SelectedGoesOn(before: Option<Display>, cs: seq<Command>, c: Command, d: Display)
    requires !c.Select?
    ensures SelectedBy(before, cs, d) <==> SelectedBy(before, cs + [c], d)
  {
    var all := cs + [c];
    assert forall j | 0 <= j < |cs| :: all[j] == cs[j];
    assert all[|cs|] == c;
    if k :| 0 <= k < |cs| && cs[k] == Select(d) && forall j | k < j < |cs| :: !cs[j].Select? {
      assert all[k] == Select(d);
    }
    if k :| 0 <= k < |all| && all[k] == Select(d) && forall j | k < j < |all| :: !all[j].Select? {
      assert cs[k] == Select(d);
    }
  }

  lemma {:induction false} FencesSnoc(cs: seq<Command>, c: Command, n: nat)
    requires n <= |cs|
    ensures FencesBefore(cs + [c], n) == FencesBefore(cs, n)
  {
    if n > 0 { FencesSnoc(cs, c, n - 1); }
  }

  lemma {:induction false} FaultsSnoc(cs: seq<Command>, c: Command, n: nat)
    requires n <= |cs|
    ensures FaultsIn(cs + [c], n) == FaultsIn(cs, n)
  {
    if n > 0 { FaultsSnoc(cs, c, n - 1); }
  }

  lemma {:induction false} ChangesGoOn(before: Option<Display>, cs: seq<Command>, c: Command, n: nat, d: Display)
    requires n <= |cs|
    ensures ChangesFor(before, cs + [c], n, d) == ChangesFor(before, cs, n, d)
  {
    if n > 0 {
      ChangesGoOn(before, cs, c, n - 1, d);
      MeantSnoc(before, cs, c, n - 1, d);
      assert (cs + [c])[n - 1] == cs[n - 1];
    }
  }

  lemma {:induction false} RequestsGoOn(before: Option<Display>, cs: seq<Command>, c: Command, n: nat, d: Display)
    requires n <= |cs|
    ensures RequestsFor(before, cs + [c], n, d) == RequestsFor(before, cs, n, d)
  {
    if n > 0 {
      RequestsGoOn(before, cs, c, n - 1, d);
      MeantSnoc(before, cs, c, n - 1, d);
      assert (cs + [c])[n - 1] == cs[n - 1];
    }
  }

  lemma {:induction false} ReleasesGoOn(before: Option<Display>, cs: seq<Command>, c: Command, n: nat, d: Display,
                                        first: nat)
    requires n <= |cs|
    ensures ReleasesFor(before, cs + [c], n, d, first) == ReleasesFor(before, cs, n, d, first)
  {
    if n > 0 {
      ReleasesGoOn(before, cs, c, n - 1, d, first);
      ReleasedGoesOn(before, cs, c, n - 1, d, first);
    }
  }

  lemma {:induction false} ReleasedGoesOn(before: Option<Display>, cs: seq<Command>, c: Command, i: nat, d: Display,
                                          first: nat)
    requires i < |cs|
    ensures ReleasedAt(before, cs + [c], i, d, first) == ReleasedAt(before, cs, i, d, first)
  {
    MeantSnoc(before, cs, c, i, d);
    FencesSnoc(cs, c, i);
    assert (cs + [c])[i] == cs[i];
  }

  /** What one more command adds to each list. */
  lemma {:induction false} ChangesAfter(before: Option<Display>, cs: seq<Command>, c: Command, d: Display)
    ensures ChangesFor(before, cs + [c], |cs + [c]|, d) ==
            ChangesFor(before, cs, |cs|, d) +
            if MeantFor(before, cs + [c], |cs|, d) && c.Changed? then c.changes else []
  {
    ChangesGoOn(before, cs, c, |cs|, d);
  }

  lemma {:induction false} RequestsAfter(before: Option<Display>, cs: seq<Command>, c: Command, d: Display)
    ensures RequestsFor(before, cs + [c], |cs + [c]|, d) ==
            RequestsFor(before, cs, |cs|, d) +
            if MeantFor(before, cs + [c], |cs|, d) && c.Requests? then c.layerMasks else []
  {
    RequestsGoOn(before, cs, c, |cs|, d);
  }

  lemma {:induction false} ReleasesAfter(before: Option<Display>, cs: seq<Command>, c: Command, d: Display, first: nat)
    ensures ReleasesFor(before, cs + [c], |cs + [c]|, d, first) ==
            ReleasesFor(before, cs, |cs|, d, first) +
            if MeantFor(before, cs + [c], |cs|, d) && c.ReleaseFences?
            then Numbered(c.layers, first + FencesBefore(cs, |cs|)) else []
  {
    ReleasesGoOn(before, cs, c, |cs|, d, first);
    FencesSnoc(cs, c, |cs|);
  }

  lemma {:induction false} LastSnoc(before: Option<Display>, cs: seq<Command>, c: Command, n: nat, d: Display, kind: Opcode)
    requires n <= |cs|
    ensures LastFor(before, cs + [c], n, d, kind) == LastFor(before, cs, n, d, kind)
  {
    if n > 0 {
      MeantSnoc(before, cs, c, n - 1, d);
      LastSnoc(before, cs, c, n - 1, d, kind);
      assert (cs + [c])[n - 1] == cs[n - 1];
    }
  }

  lemma {:induction false} FirstsConcat<T>(a: seq<(Layer, T)>, b: seq<(Layer, T)>)
    ensures Firsts(a + b) == Firsts(a) + Firsts(b) && Seconds(a + b) == Seconds(a) + Seconds(b)
  {
  }

  /** The last command of a kind after one more command. */
  lemma {:induction false} LastAfter(before: Option<Display>, cs: seq<Command>, c: Command, d: Display, kind: Opcode)
    ensures var i := LastFor(before, cs, |cs|, d, kind);
            && (i.Some? ==> i.value < |cs| && (cs + [c])[i.value] == cs[i.value] && OpcodeOf(cs[i.value]) == kind)
            && LastFor(before, cs + [c], |cs + [c]|, d, kind) ==
               if OpcodeOf(c) == kind && MeantFor(before, cs + [c], |cs|, d) then Some(|cs|) else i
  {
    LastSnoc(before, cs, c, |cs|, d, kind);
    LastForIsLast(before, cs, |cs|, d, kind);
  }

  lemma {:induction false} MaskSnoc(before: Option<Display>, cs: seq<Command>, c: Command, d: Display, start: nat, mask: nat)
    requires MaskLeft(before, cs, d, start, mask)
    ensures MaskLeft(before, cs + [c], d, start,
                     if MeantFor(before, cs + [c], |cs|, d) && c.Requests? then c.mask else mask)
  {
    LastAfter(before, cs, c, d, SetDisplayRequests);
  }

  lemma {:induction false} StageSnoc(before: Option<Display>, cs: seq<Command>, c: Command, d: Display,
                                     start: Option<nat>, stage: Option<nat>)
    requires StageLeft(before, cs, d, start, stage)
    ensures StageLeft(before, cs + [c], d, start,
                      if MeantFor(before, cs + [c], |cs|, d) && c.Stage? then Some(c.stage) else stage)
  {
    LastAfter(before, cs, c, d, SetPresentOrValidateDisplayResult);
  }

  lemma {:induction false} TargetSnoc(before: Option<Display>, cs: seq<Command>, c: Command, d: Display,
                                      start: Option<(int, int)>, target: Option<(int, int)>)
    requires TargetLeft(before, cs, d, start, target)
    ensures TargetLeft(before, cs + [c], d, start,
                       if MeantFor(before, cs + [c], |cs|, d) && c.ClientTarget?
                       then Some((c.pixelFormat, c.dataspace)) else target)
  {
    LastAfter(before, cs, c, d, SetClientTargetProperty);
  }

  lemma {:induction false} PresentSnoc(before: Option<Display>, cs: seq<Command>, c: Command, d: Display, first: nat,
                                       produces: nat -> bool, start: int, fence: int)
    requires PresentLeft(before, cs, d, first, produces, start, fence)
    ensures PresentLeft(before, cs + [c], d, first, produces, start,
                        if MeantFor(before, cs + [c], |cs|, d) && c.PresentFence?
                        then FenceOf(produces, first + FencesBefore(cs, |cs|)) else fence)
  {
    LastAfter(before, cs, c, d, SetPresentFence);
    FencesSnoc(cs, c, |cs|);
    var i := LastFor(before, cs, |cs|, d, SetPresentFence);
    if i.Some? { FencesSnoc(cs, c, i.value); }
  }

  /** The data after one more command that is meant for d, or not. */
  function AfterOne(before: Option<Display>, cs: seq<Command>, c: Command, d: Display, first: nat,
                          produces: nat -> bool, r: ReturnData): ReturnData
  {
    if MeantFor(before, cs + [c], |cs|, d) then Updated(r, c, first + FencesBefore(cs, |cs|), produces) else r
  }

  lemma {:induction false} ValuesSnoc(before: Option<Display>, cs: seq<Command>, c: Command, d: Display, first: nat,
                                      produces: nat -> bool, start: ReturnData, r: ReturnData)
    requires LeftFor(before, cs, d, first, produces, start, r)
    ensures var next := AfterOne(before, cs, c, d, first, produces, r);
            && MaskLeft(before, cs + [c], d, start.displayRequests, next.displayRequests)
            && StageLeft(before, cs + [c], d, start.stage, next.stage)
            && TargetLeft(before, cs + [c], d, start.clientTarget, next.clientTarget)
            && PresentLeft(before, cs + [c], d, first, produces, start.presentFence, next.presentFence)
  {
    MaskSnoc(before, cs, c, d, start.displayRequests, r.displayRequests);
    StageSnoc(before, cs, c, d, start.stage, r.stage);
    TargetSnoc(before, cs, c, d, start.clientTarget, r.clientTarget);
    PresentSnoc(before, cs, c, d, first, produces, start.presentFence, r.presentFence);
  }

  lemma {:induction false} BothGrow<T>(startLayers: seq<Layer>, startValues: seq<T>, ps: seq<(Layer, T)>,
                                       more: seq<(Layer, T)>)
    ensures startLayers + Firsts(ps) + Firsts(more) == startLayers + Firsts(ps + more)
    ensures startValues + Seconds(ps) + Seconds(more) == startValues + Seconds(ps + more)
  {
    FirstsConcat(ps, more);
  }

  lemma {:induction false} ChangesSnoc(before: Option<Display>, cs: seq<Command>, c: Command, d: Display, first: nat,
                                       produces: nat -> bool, start: ReturnData, r: ReturnData)
    requires ChangesLeft(before, cs, d, start, r)
    ensures ChangesLeft(before, cs + [c], d, start, AfterOne(before, cs, c, d, first, produces, r))
  {
    ChangesAfter(before, cs, c, d);
    if MeantFor(before, cs + [c], |cs|, d) && c.Changed? {
      BothGrow(start.changedLayers, start.compositionTypes, ChangesFor(before, cs, |cs|, d), c.changes);
    } else {
      assert ChangesFor(before, cs, |cs|, d) + [] == ChangesFor(before, cs, |cs|, d);
    }
  }

  lemma {:induction false} RequestsSnoc(before: Option<Display>, cs: seq<Command>, c: Command, d: Display, first: nat,
                                        produces: nat -> bool, start: ReturnData, r: ReturnData)
    requires RequestsLeft(before, cs, d, start, r)
    ensures RequestsLeft(before, cs + [c], d, start, AfterOne(before, cs, c, d, first, produces, r))
  {
    RequestsAfter(before, cs, c, d);
    if MeantFor(before, cs + [c], |cs|, d) && c.Requests? {
      BothGrow(start.requestedLayers, start.requestMasks, RequestsFor(before, cs, |cs|, d), c.layerMasks);
    } else {
      assert RequestsFor(before, cs, |cs|, d) + [] == RequestsFor(before, cs, |cs|, d);
    }
  }

  lemma {:induction false} ReleasesSnoc(layers: seq<Layer>, fences: seq<int>, startLayers: seq<Layer>, startFences: seq<int>,
                                        released: seq<(Layer, nat)>, more: seq<Layer>, n: nat, produces: nat -> bool)
    requires ReleasesAre(layers, fences, startLayers, startFences, released, produces)
    ensures ReleasesAre(layers + more, fences + FencesOf(produces, n, |more|), startLayers, startFences,
                        released + Numbered(more, n), produces)
  {
    var added := Numbered(more, n);
    FirstsConcat(released, added);
    assert Firsts(added) == more;
    var all := fences + FencesOf(produces, n, |more|);
    forall i | 0 <= i < |released + added|
      ensures all[|startFences| + i] == FenceNumbered(produces, (released + added)[i].1)
    {
      if i >= |released| { assert (released + added)[i] == added[i - |released|]; }
    }
    assert all[..|startFences|] == fences[..|startFences|];
  }

  lemma {:induction false} ReleasedSnoc(before: Option<Display>, cs: seq<Command>, c: Command, d: Display, first: nat,
                                        produces: nat -> bool, start: ReturnData, r: ReturnData)
    requires ReleasesLeft(before, cs, d, first, produces, start, r)
    ensures ReleasesLeft(before, cs + [c], d, first, produces, start, AfterOne(before, cs, c, d, first, produces, r))
  {
    var more := if MeantFor(before, cs + [c], |cs|, d) && c.ReleaseFences? then c.layers else [];
    var n, released := first + FencesBefore(cs, |cs|), ReleasesFor(before, cs, |cs|, d, first);
    ReleasesAfter(before, cs, c, d, first);
    ReleasesSnoc(r.releasedLayers, r.releaseFences, start.releasedLayers, start.releaseFences, released, more, n, produces);
    var next := AfterOne(before, cs, c, d, first, produces, r);
    assert next.releasedLayers == r.releasedLayers + more;
    assert next.releaseFences == r.releaseFences + FencesOf(produces, n, |more|);
    assert ReleasesFor(before, cs + [c], |cs + [c]|, d, first) == released + Numbered(more, n);
  }

  lemma {:induction false} OneLeft(before: Option<Display>, cs: seq<Command>, c: Command, d: Display, first: nat,
                                   produces: nat -> bool, start: ReturnData, r: ReturnData)
    requires LeftFor(before, cs, d, first, produces, start, r)
    ensures LeftFor(before, cs + [c], d, first, produces, start, AfterOne(before, cs, c, d, first, produces, r))
  {
    ValuesSnoc(before, cs, c, d, first, produces, start, r);
    ChangesSnoc(before, cs, c, d, first, produces, start, r);
    RequestsSnoc(before, cs, c, d, first, produces, start, r);
    ReleasedSnoc(before, cs, c, d, first, produces, start, r);
  }

  // ---------------------------------------------------------------------------
  // Any list of commands

  /** What a state is after some commands, read off the commands. */
  ghost predicate Left(p: Parsed, cs: seq<Command>, q: Parsed, produces: nat -> bool) {
    && q.errors == p.errors + FaultsIn(cs, |cs|)
    && q.fences == p.fences + FencesBefore(cs, |cs|)
    && (forall d: Display :: d in q.data <==> d in p.data || Select(d) in cs)
    && (forall d <- q.data :: LeftFor(p.current, cs, d, p.fences, produces, DataOf(p.data, d), q.data[d]))
  }

  lemma {:induction false} NothingLeft(p: Parsed, produces: nat -> bool)
    ensures Left(p, [], p, produces)
  {
  }

  /** Whatever the state at the start, the commands leave what can be read off them. */
  lemma {:induction false} FoldLeaves(p: Parsed, cs: seq<Command>, produces: nat -> bool)
    requires PointsIn(p) && AllApplicable(p, cs, produces)
    ensures Left(p, cs, Fold(p, cs, produces), produces)
    decreases |cs|
  {
    if cs == [] {
      NothingLeft(p, produces);
    } else {
      var n := |cs| - 1;
      var earlier, c := cs[..n], cs[n];
      assert cs == earlier + [c];
      FoldSnoc(p, earlier, c, produces);
      FoldLeaves(p, earlier, produces);
      CurrentIsLastSelected(p, earlier, produces);
      LeftSnoc(p, earlier, c, Fold(p, earlier, produces), produces);
    }
  }

  lemma {:induction false} CountsSnoc(p: Parsed, cs: seq<Command>, c: Command, q: Parsed, produces: nat -> bool)
    requires PointsIn(q) && Applicable(q, c)
    requires q.errors == p.errors + FaultsIn(cs, |cs|) && q.fences == p.fences + FencesBefore(cs, |cs|)
    ensures var r := Apply(q, c, produces);
            && r.errors == p.errors + FaultsIn(cs + [c], |cs + [c]|)
            && r.fences == p.fences + FencesBefore(cs + [c], |cs + [c]|)
  {
    FaultsSnoc(cs, c, |cs|);
    FencesSnoc(cs, c, |cs|);
  }

  lemma {:induction false} KeysSnoc(p: Parsed, cs: seq<Command>, c: Command, q: Parsed, produces: nat -> bool, d: Display)
    requires PointsIn(q) && Applicable(q, c)
    requires d in q.data <==> d in p.data || Select(d) in cs
    ensures d in Apply(q, c, produces).data <==> d in p.data || Select(d) in cs + [c]
  {
    assert Select(d) in cs + [c] <==> Select(d) in cs || Select(d) == c;
  }

  lemma {:induction false} DisplaySnoc(p: Parsed, cs: seq<Command>, c: Command, q: Parsed, produces: nat -> bool, d: Display)
    requires PointsIn(q) && Applicable(q, c) && d in Apply(q, c, produces).data
    requires q.current == LastSelected(p.current, cs) && q.fences == p.fences + FencesBefore(cs, |cs|)
    requires LeftFor(p.current, cs, d, p.fences, produces, DataOf(p.data, d), DataOf(q.data, d))
    ensures LeftFor(p.current, cs + [c], d, p.fences, produces, DataOf(p.data, d), Apply(q, c, produces).data[d])
  {
    MeantLast(p.current, cs, c, d);
    OneLeft(p.current, cs, c, d, p.fences, produces, DataOf(p.data, d), DataOf(q.data, d));
    SameData(p, cs, c, q, produces, d);
  }

  lemma {:induction false} SameData(p: Parsed, cs: seq<Command>, c: Command, q: Parsed, produces: nat -> bool, d: Display)
    requires PointsIn(q) && Applicable(q, c) && d in Apply(q, c, produces).data
    requires q.current == LastSelected(p.current, cs) && q.fences == p.fences + FencesBefore(cs, |cs|)
    ensures Apply(q, c, produces).data[d] == AfterOne(p.current, cs, c, d, p.fences, produces, DataOf(q.data, d))
  {
    MeantLast(p.current, cs, c, d);
  }

  lemma {:induction false} LeftSnoc(p: Parsed, cs: seq<Command>, c: Command, q: Parsed, produces: nat -> bool)
    requires PointsIn(p) && PointsIn(q) && Applicable(q, c) && Left(p, cs, q, produces)
    requires q.current == LastSelected(p.current, cs)
    ensures Left(p, cs + [c], Apply(q, c, produces), produces)
  {
    CountsSnoc(p, cs, c, q, produces);
    forall d: Display
      ensures d in Apply(q, c, produces).data <==> d in p.data || Select(d) in cs + [c]
    {
      KeysSnoc(p, cs, c, q, produces, d);
    }
    forall d | d in Apply(q, c, produces).data
      ensures LeftFor(p.current, cs + [c], d, p.fences, produces, DataOf(p.data, d), Apply(q, c, produces).data[d])
    {
      if d !in q.data { NewDisplay(p, cs, d, produces); }
      DisplaySnoc(p, cs, c, q, produces, d);
    }
  }

  /** Nothing is meant for a display before it is selected. */
  lemma {:induction false} NewDisplay(p: Parsed, cs: seq<Command>, d: Display, produces: nat -> bool)
    requires p.current != Some(d) && Select(d) !in cs
    ensures LeftFor(p.current, cs, d, p.fences, produces, NO_DATA, NO_DATA)
  {
    forall i: nat
      ensures !MeantFor(p.current, cs, i, d)
    {
      if i < |cs| { SelectedIsLast(p.current, cs[..i], d); }
    }
    NoneMeant(p.current, cs, |cs|, d, p.fences);
    LastForIsLast(p.current, cs, |cs|, d, SetDisplayRequests);
    LastForIsLast(p.current, cs, |cs|, d, SetPresentOrValidateDisplayResult);
    LastForIsLast(p.current, cs, |cs|, d, SetClientTargetProperty);
    LastForIsLast(p.current, cs, |cs|, d, SetPresentFence);
  }

  lemma {:induction false} NoneMeant(before: Option<Display>, cs: seq<Command>, n: nat, d: Display, first: nat)
    requires n <= |cs| && forall i: nat :: !MeantFor(before, cs, i, d)
    ensures ChangesFor(before, cs, n, d) == [] && RequestsFor(before, cs, n, d) == []
    ensures ReleasesFor(before, cs, n, d, first) == []
  {
    if n > 0 { NoneMeant(before, cs, n - 1, d, first); }
  }
}
