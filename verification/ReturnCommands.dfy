/**
 The return-command stream of compat/hwc2/HidlComposerHal.cpp: how frames decode into commands,
 and what each command does to the data kept per display.

 The base classes that read the queue are not part of the repository.  What is assumed of them: a
 frame is a header word followed by length words, beginCommand refuses a frame that does not fit
 the rest of the queue and leaves it unread, and endCommand skips to the end of the frame.  The
 numeric opcodes are a parameter.
 */
module ReturnCommands {
  import opened Options

  type Display = nat
  type Layer = nat

  const U32 := 0x1_0000_0000

  datatype Opcode =
    | SelectDisplay
    | SetError
    | SetChangedCompositionTypes
    | SetDisplayRequests
    | SetPresentFence
    | SetReleaseFences
    | SetPresentOrValidateDisplayResult
    | SetClientTargetProperty
    | Unknown

  /** What a command carries. A fence is not a value of the stream: it is made when it is read. */
  datatype Command =
    | Select(display: Display)
    | Fault(location: nat, error: int)
    | Changed(changes: seq<(Layer, int)>)
    | Requests(mask: nat, layerMasks: seq<(Layer, nat)>)
    | PresentFence
    | ReleaseFences(layers: seq<Layer>)
    | Stage(stage: nat)
    | ClientTarget(pixelFormat: int, dataspace: int)

  function OpcodeOf(c: Command): Opcode {
    match c
    case Select(_) => SelectDisplay
    case Fault(_, _) => SetError
    case Changed(_) => SetChangedCompositionTypes
    case Requests(_, _) => SetDisplayRequests
    case PresentFence => SetPresentFence
    case ReleaseFences(_) => SetReleaseFences
    case Stage(_) => SetPresentOrValidateDisplayResult
    case ClientTarget(_, _) => SetClientTargetProperty
  }

  // ---------------------------------------------------------------------------
  // Words

  function Signed(w: nat): int { if w < 0x8000_0000 then w else w - U32 }

  function Read64(words: seq<nat>, at: nat): nat
    requires at + 2 <= |words|
  {
    words[at] + words[at + 1] * U32
  }

  /** (layer, word) pairs of three words each. */
  function Pairs(words: seq<nat>, at: nat, n: nat): (r: seq<(Layer, nat)>)
    requires at + 3 * n <= |words|
    ensures |r| == n
  {
    if n == 0 then []
    else Pairs(words, at, n - 1) + [(Read64(words, at + 3 * (n - 1)), words[at + 3 * (n - 1) + 2])]
  }

  function SignedPairs(ps: seq<(Layer, nat)>): (r: seq<(Layer, int)>)
    ensures |r| == |ps|
    ensures forall i :: 0 <= i < |r| ==> r[i] == (ps[i].0, Signed(ps[i].1))
  {
    seq(|ps|, i requires 0 <= i < |ps| => (ps[i].0, Signed(ps[i].1)))
  }

  function Firsts<T>(ps: seq<(Layer, T)>): (r: seq<Layer>)
    ensures |r| == |ps|
    ensures forall i :: 0 <= i < |r| ==> r[i] == ps[i].0
  {
    seq(|ps|, i requires 0 <= i < |ps| => ps[i].0)
  }

  function Seconds<T>(ps: seq<(Layer, T)>): (r: seq<T>)
    ensures |r| == |ps|
    ensures forall i :: 0 <= i < |r| ==> r[i] == ps[i].1
  {
    seq(|ps|, i requires 0 <= i < |ps| => ps[i].1)
  }

  /** The payload of a frame as a command, when the length fits the opcode. */
  function Payload(opcode: Opcode, length: nat, words: seq<nat>, at: nat): Option<Command>
    requires at + length <= |words|
  {
    match opcode
    case SelectDisplay => if length == 2 then Some(Select(Read64(words, at))) else None
    case SetError => if length == 2 then Some(Fault(words[at], Signed(words[at + 1]))) else None
    case SetChangedCompositionTypes =>
      if length % 3 == 0 then Some(Changed(SignedPairs(Pairs(words, at, length / 3)))) else None
    case SetDisplayRequests =>
      if length % 3 == 1 then Some(Requests(words[at], Pairs(words, at + 1, (length - 1) / 3))) else None
    case SetPresentFence => if length == 1 then Some(PresentFence) else None
    case SetReleaseFences =>
      if length % 3 == 0 then Some(ReleaseFences(Firsts(Pairs(words, at, length / 3)))) else None
    case SetPresentOrValidateDisplayResult => if length == 1 then Some(Stage(words[at])) else None
    case SetClientTargetProperty =>
      if length == 2 then Some(ClientTarget(Signed(words[at]), Signed(words[at + 1]))) else None
    case Unknown => None
  }

  // ---------------------------------------------------------------------------
  // Data per display

  datatype ReturnData = ReturnData(
    displayRequests: nat,
    changedLayers: seq<Layer>, compositionTypes: seq<int>,
    requestedLayers: seq<Layer>, requestMasks: seq<nat>,
    presentFence: int,
    releasedLayers: seq<Layer>, releaseFences: seq<int>,
    stage: Option<nat>,
    clientTarget: Option<(int, int)>)

  const NO_DATA := ReturnData(0, [], [], [], [], -1, [], [], None, None)

  /** The vectors that are filled in pairs have the same length. */
  predicate Paired(d: ReturnData) {
    && |d.changedLayers| == |d.compositionTypes|
    && |d.requestedLayers| == |d.requestMasks|
    && |d.releasedLayers| == |d.releaseFences|
  }

  /** What parse builds up: data per display, the display that the cached pointer denotes, the
      errors, how many fences were read, and which were closed. */
  datatype Parsed = Parsed(
    data: map<Display, ReturnData>, current: Option<Display>, errors: seq<(nat, int)>,
    fences: nat, closed: multiset<int>)

  predicate PointsIn(p: Parsed) { p.current.Some? ==> p.current.value in p.data }

  /** The descriptor that the n-th readFence produced, or -1 if it produced none. */
  function FenceOf(produces: nat -> bool, n: nat): int { if produces(n) then n else -1 }

  function FencesOf(produces: nat -> bool, n: nat, count: nat): (r: seq<int>)
    ensures |r| == count
    ensures forall i :: 0 <= i < count ==> r[i] == FenceOf(produces, n + i)
  {
    seq(count, i requires 0 <= i => FenceOf(produces, n + i))
  }

  function Descriptor(fence: int): multiset<int> { if fence >= 0 then multiset{fence} else multiset{} }

  /** A command other than Select and Fault needs a selected display. */
  predicate Applicable(p: Parsed, c: Command) { c.Select? || c.Fault? || p.current.Some? }

  /** What a command does to the selected display's data. */
  function Updated(d: ReturnData, c: Command, fences: nat, produces: nat -> bool): ReturnData {
    match c
    case Changed(changes) =>
      d.(changedLayers := d.changedLayers + Firsts(changes), compositionTypes := d.compositionTypes + Seconds(changes))
    case Requests(mask, masks) =>
      d.(displayRequests := mask,
         requestedLayers := d.requestedLayers + Firsts(masks), requestMasks := d.requestMasks + Seconds(masks))
    case PresentFence => d.(presentFence := FenceOf(produces, fences))
    case ReleaseFences(layers) =>
      d.(releasedLayers := d.releasedLayers + layers,
         releaseFences := d.releaseFences + FencesOf(produces, fences, |layers|))
    case Stage(stage) => d.(stage := Some(stage))
    case ClientTarget(format, dataspace) => d.(clientTarget := Some((format, dataspace)))
    case _ => d
  }

  function ReadsOf(c: Command): nat {
    match c
    case PresentFence => 1
    case ReleaseFences(layers) => |layers|
    case _ => 0
  }

  /** A command that drops a descriptor from the selected display closes it. */
  function ClosedBy(closed: multiset<int>, d: ReturnData, c: Command): multiset<int> {
    match c
    case PresentFence => closed + Descriptor(d.presentFence)
    case _ => closed
  }

  function Apply(p: Parsed, c: Command, produces: nat -> bool): (q: Parsed)
    requires PointsIn(p) && Applicable(p, c)
    ensures PointsIn(q)
  {
    match c
    case Select(d) =>
      p.(data := if d in p.data then p.data else p.data[d := NO_DATA], current := Some(d))
    case Fault(location, error) => p.(errors := p.errors + [(location, error)])
    case _ =>
      var d := p.current.value;
      p.(data := p.data[d := Updated(p.data[d], c, p.fences, produces)],
         fences := p.fences + ReadsOf(c),
         closed := ClosedBy(p.closed, p.data[d], c))
  }

  // ---------------------------------------------------------------------------
  // Streams

  /** The frame at a position: its opcode and length, when it fits the rest of the queue. */
  function Frame(coding: nat -> Opcode, words: seq<nat>, at: nat): (r: Option<(Opcode, nat)>)
    requires at < |words|
    ensures r.Some? ==> at + 1 + r.value.1 <= |words|
  {
    var length := words[at] % 0x1_0000;
    if at + 1 + length <= |words| then Some((coding(words[at] / 0x1_0000), length)) else None
  }

  /** Where the frame at a position ends. */
  function After(coding: nat -> Opcode, words: seq<nat>, at: nat): (r: nat)
    requires at < |words| && Frame(coding, words, at).Some?
    ensures at < r <= |words|
  {
    at + 1 + Frame(coding, words, at).value.1
  }

  /** The frame at a position as a command. */
  function CommandAt(coding: nat -> Opcode, words: seq<nat>, at: nat): Option<Command>
    requires at < |words|
  {
    var frame := Frame(coding, words, at);
    if frame.None? then None else Payload(frame.value.0, frame.value.1, words, at + 1)
  }

  /** The whole stream as commands, if every frame is one. */
  function Decode(coding: nat -> Opcode, words: seq<nat>, at: nat): Option<seq<Command>>
    requires at <= |words|
    decreases |words| - at
  {
    if at == |words| then Some([])
    else
      var c := CommandAt(coding, words, at);
      if c.None? then None
      else
        var rest := Decode(coding, words, After(coding, words, at));
        if rest.None? then None else Some([c.value] + rest.value)
  }

  /** The frames from one position to another as commands, if they are and end there. */
  function DecodeUntil(coding: nat -> Opcode, words: seq<nat>, at: nat, stop: nat): Option<seq<Command>>
    requires at <= stop <= |words|
    decreases stop - at
  {
    if at == stop then Some([])
    else
      var c := CommandAt(coding, words, at);
      if c.None? || After(coding, words, at) > stop then None
      else
        var rest := DecodeUntil(coding, words, After(coding, words, at), stop);
        if rest.None? then None else Some([c.value] + rest.value)
  }

  /** Every command finds the display it needs. */
  predicate AllApplicable(p: Parsed, cs: seq<Command>, produces: nat -> bool)
    requires PointsIn(p)
    decreases cs
  {
    cs == [] || (Applicable(p, cs[0]) && AllApplicable(Apply(p, cs[0], produces), cs[1..], produces))
  }

  function Fold(p: Parsed, cs: seq<Command>, produces: nat -> bool): (q: Parsed)
    requires PointsIn(p) && AllApplicable(p, cs, produces)
    ensures PointsIn(q)
    decreases cs
  {
    if cs == [] then p else Fold(Apply(p, cs[0], produces), cs[1..], produces)
  }

  /** The effect of one frame, or None if the frame is refused. */
  function Step(p: Parsed, opcode: Opcode, length: nat, words: seq<nat>, at: nat, produces: nat -> bool):
      (r: Option<Parsed>)
    requires PointsIn(p) && at + length <= |words|
    ensures r.Some? ==> PointsIn(r.value)
  {
    var c := Payload(opcode, length, words, at);
    if c.Some? && Applicable(p, c.value) then Some(Apply(p, c.value, produces)) else None
  }

  /** The display of the last select command, or the one selected before. */
  function LastSelected(before: Option<Display>, cs: seq<Command>): Option<Display> {
    if cs == [] then before
    else if cs[|cs| - 1].Select? then Some(cs[|cs| - 1].display)
    else LastSelected(before, cs[..|cs| - 1])
  }

  lemma {:induction false} LastSelectedCons(before: Option<Display>, c: Command, cs: seq<Command>)
    ensures LastSelected(before, [c] + cs) == LastSelected(if c.Select? then Some(c.display) else before, cs)
    decreases cs
  {
    if cs == [] {
      assert [c] + cs == [c];
    } else {
      assert ([c] + cs)[..|cs|] == [c] + cs[..|cs| - 1];
      LastSelectedCons(before, c, cs[..|cs| - 1]);
    }
  }

  /** The cached pointer always denotes the display that was selected last. */
  lemma {:induction false} CurrentIsLastSelected(p: Parsed, cs: seq<Command>, produces: nat -> bool)
    requires PointsIn(p) && AllApplicable(p, cs, produces)
    ensures Fold(p, cs, produces).current == LastSelected(p.current, cs)
    decreases cs
  {
    if cs != [] {
      assert cs == [cs[0]] + cs[1..];
      LastSelectedCons(p.current, cs[0], cs[1..]);
      CurrentIsLastSelected(Apply(p, cs[0], produces), cs[1..], produces);
    }
  }

  /** Commands leave the data of a display alone unless it is selected. */
  lemma {:induction false} UnselectedUntouched(p: Parsed, cs: seq<Command>, produces: nat -> bool, d: Display)
    requires PointsIn(p) && AllApplicable(p, cs, produces)
    requires p.current != Some(d) && Select(d) !in cs
    ensures d in Fold(p, cs, produces).data <==> d in p.data
    ensures d in p.data ==> Fold(p, cs, produces).data[d] == p.data[d]
    decreases cs
  {
    if cs != [] {
      assert cs[0] in cs;
      UnselectedUntouched(Apply(p, cs[0], produces), cs[1..], produces, d);
    }
  }

  // ---------------------------------------------------------------------------
  // Where descriptors are

  /** How often descriptor t is in a list of fences. */
  function Count(fences: seq<int>, t: nat): nat {
    if fences == [] then 0
    else Count(fences[..|fences| - 1], t) + if fences[|fences| - 1] == t then 1 else 0
  }

  lemma {:induction false} CountConcat(a: seq<int>, b: seq<int>, t: nat)
    ensures Count(a + b, t) == Count(a, t) + Count(b, t)
    decreases |b|
  {
    if b == [] {
      assert a + b == a;
    } else {
      var n := |b| - 1;
      assert (a + b)[..|a| + n] == a + b[..n];
      CountConcat(a, b[..n], t);
    }
  }

  /** The descriptors in a list of fences. */
  function Descriptors(fences: seq<int>): multiset<int> {
    if fences == [] then multiset{}
    else Descriptors(fences[..|fences| - 1]) + Descriptor(fences[|fences| - 1])
  }

  lemma {:induction false} DescriptorsCount(fences: seq<int>, t: nat)
    ensures Descriptors(fences)[t] == Count(fences, t)
  {
    if fences != [] {
      DescriptorsCount(fences[..|fences| - 1], t);
    }
  }

  /** How often a display's data owns descriptor t. */
  function HeldBy(d: ReturnData, t: nat): nat {
    Count(d.releaseFences, t) + if d.presentFence == t then 1 else 0
  }

  /** How often the data of all displays owns descriptor t. */
  ghost function Held(data: map<Display, ReturnData>, t: nat): nat {
    if data == map[] then 0
    else
      var d :| d in data;
      HeldBy(data[d], t) + Held(data - {d}, t)
  }

  lemma {:induction false} HeldWithout(data: map<Display, ReturnData>, d: Display, t: nat)
    requires d in data
    ensures Held(data, t) == HeldBy(data[d], t) + Held(data - {d}, t)
    decreases |data|
  {
    var e :| e in data && Held(data, t) == HeldBy(data[e], t) + Held(data - {e}, t);
    if e != d {
      HeldWithout(data - {e}, d, t);
      HeldWithout(data - {d}, e, t);
      assert data - {e} - {d} == data - {d} - {e};
    }
  }

  lemma {:induction false} HeldUpdate(data: map<Display, ReturnData>, d: Display, v: ReturnData, t: nat)
    ensures d in data ==> Held(data[d := v], t) + HeldBy(data[d], t) == Held(data, t) + HeldBy(v, t)
    ensures d !in data ==> Held(data[d := v], t) == Held(data, t) + HeldBy(v, t)
  {
    HeldWithout(data[d := v], d, t);
    if d in data {
      HeldWithout(data, d, t);
      assert data[d := v] - {d} == data - {d};
    } else {
      assert data[d := v] - {d} == data;
    }
  }

  /** One if descriptor t came from one of the calls of readFence from first up to last, else zero. */
  function Produced(produces: nat -> bool, first: nat, last: nat, t: nat): nat {
    if first <= t < last && produces(t) then 1 else 0
  }

  lemma {:induction false} CountProduced(produces: nat -> bool, first: nat, count: nat, t: nat)
    ensures Count(FencesOf(produces, first, count), t) == Produced(produces, first, first + count, t)
  {
    if count > 0 {
      CountProduced(produces, first, count - 1, t);
      var fs := FencesOf(produces, first, count);
      assert fs[..count - 1] == FencesOf(produces, first, count - 1);
    }
  }

  /** Every descriptor that readFence produced is in exactly one place: owned by a display's data,
      closed, or handed to a caller. Nothing else is in any of them. */
  ghost predicate Conserved(p: Parsed, taken: multiset<int>, produces: nat -> bool) {
    forall t: nat :: Held(p.data, t) + p.closed[t] + taken[t] == Produced(produces, 0, p.fences, t)
  }

  ghost predicate AllPaired(p: Parsed) { forall d <- p.data :: Paired(p.data[d]) }

  lemma {:induction false} UpdateConserves(
    d: ReturnData, c: Command, closed: multiset<int>, fences: nat, produces: nat -> bool, t: nat)
    ensures HeldBy(Updated(d, c, fences, produces), t) + ClosedBy(closed, d, c)[t]
         == HeldBy(d, t) + closed[t] + Produced(produces, fences, fences + ReadsOf(c), t)
  {
    match c
    case PresentFence =>
    case ReleaseFences(layers) =>
      CountConcat(d.releaseFences, FencesOf(produces, fences, |layers|), t);
      CountProduced(produces, fences, |layers|, t);
    case _ =>
  }

  lemma {:induction false} ApplyConserves(p: Parsed, c: Command, taken: multiset<int>, produces: nat -> bool)
    requires PointsIn(p) && Applicable(p, c) && Conserved(p, taken, produces)
    ensures Conserved(Apply(p, c, produces), taken, produces)
  {
    var q := Apply(p, c, produces);
    forall t: nat
      ensures Held(q.data, t) + q.closed[t] + taken[t] == Produced(produces, 0, q.fences, t)
    {
      match c
      case Select(d) => HeldUpdate(p.data, d, NO_DATA, t);
      case Fault(_, _) =>
      case _ =>
        var d := p.current.value;
        UpdateConserves(p.data[d], c, p.closed, p.fences, produces, t);
        HeldUpdate(p.data, d, Updated(p.data[d], c, p.fences, produces), t);
    }
  }

  lemma {:induction false} ApplyKeepsPaired(p: Parsed, c: Command, produces: nat -> bool)
    requires PointsIn(p) && Applicable(p, c) && AllPaired(p)
    ensures AllPaired(Apply(p, c, produces))
  {
    forall d | d in Apply(p, c, produces).data
      ensures Paired(Apply(p, c, produces).data[d])
    {
      if d in p.data { assert Paired(p.data[d]); }
    }
  }

  /** Replacing a display's data keeps descriptors conserved if what it loses is handed out. */
  lemma {:induction false} HandOut(
    p: Parsed, d: Display, v: ReturnData, handed: multiset<int>, taken: multiset<int>, produces: nat -> bool)
    requires d in p.data && Paired(v) && AllPaired(p) && Conserved(p, taken, produces)
    requires forall t: nat :: HeldBy(v, t) + handed[t] == HeldBy(p.data[d], t)
    ensures AllPaired(p.(data := p.data[d := v]))
    ensures Conserved(p.(data := p.data[d := v]), taken + handed, produces)
  {
    forall t: nat
      ensures Held(p.data[d := v], t) + handed[t] == Held(p.data, t)
    {
      HeldUpdate(p.data, d, v, t);
    }
  }
}
