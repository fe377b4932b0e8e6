/**
 The words of return commands, in the order in which the composer service writes them: decoding
 gives a list of commands exactly if the words are those of the list.
 */
module ReturnEncoding {
  import opened Options
  import opened ReturnCommands

  type Words = seq<nat>

  /** The numbers of the opcodes. */
  ghost predicate Numbers(coding: nat -> Opcode, number: Opcode -> nat) {
    && (forall o: Opcode | !o.Unknown? :: coding(number(o)) == o && number(o) < 0x1_0000)
    && (forall n: nat | n < 0x1_0000 && !coding(n).Unknown? :: number(coding(n)) == n)
  }

  /** A 32-bit number in two's complement. */
  function Unsigned(v: int): nat { v % U32 }

  predicate FitsWord(w: int) { 0 <= w < U32 }
  predicate FitsSigned(v: int) { -0x8000_0000 <= v < 0x8000_0000 }
  predicate FitsTwo(x: int) { 0 <= x < U32 * U32 }

  /** A 64-bit number, low half first. */
  function TwoWords(x: nat): Words { [x % U32, x / U32] }

  /** Layers, each with one more word. */
  function LayerWords(layers: seq<Layer>, values: Words): (r: Words)
    requires |layers| == |values|
    ensures |r| == 3 * |layers|
  {
    if layers == [] then []
    else
      var n := |layers| - 1;
      LayerWords(layers[..n], values[..n]) + TwoWords(layers[n]) + [values[n]]
  }

  function UnsignedOf(values: seq<int>): (r: Words)
    ensures |r| == |values| && forall i :: 0 <= i < |r| ==> r[i] == Unsigned(values[i])
  {
    seq(|values|, i requires 0 <= i < |values| => Unsigned(values[i]))
  }

  /** The fields of a command fit their words, and there is a word for each of its fences. */
  predicate Fits(c: Command, fences: Words) {
    && |fences| == ReadsOf(c)
    && match c
       case Select(display) => FitsTwo(display)
       case Fault(location, error) => FitsWord(location) && FitsSigned(error)
       case Changed(changes) => forall p <- changes :: FitsTwo(p.0) && FitsSigned(p.1)
       case Requests(mask, masks) => FitsWord(mask) && forall p <- masks :: FitsTwo(p.0) && FitsWord(p.1)
       case PresentFence => true
       case ReleaseFences(layers) => forall l <- layers :: FitsTwo(l)
       case Stage(stage) => FitsWord(stage)
       case ClientTarget(format, dataspace) => FitsSigned(format) && FitsSigned(dataspace)
  }

  /** What follows the header. A fence is written as a word that only the transport understands. */
  function Body(c: Command, fences: Words): Words
    requires Fits(c, fences)
  {
    match c
    case Select(display) => TwoWords(display)
    case Fault(location, error) => [location, Unsigned(error)]
    case Changed(changes) => LayerWords(Firsts(changes), UnsignedOf(Seconds(changes)))
    case Requests(mask, masks) => [mask] + LayerWords(Firsts(masks), Seconds(masks))
    case PresentFence => fences
    case ReleaseFences(layers) => LayerWords(layers, fences)
    case Stage(stage) => [stage]
    case ClientTarget(format, dataspace) => [Unsigned(format), Unsigned(dataspace)]
  }

  /** A command fits a frame. */
  predicate Encodable(c: Command, fences: Words) { Fits(c, fences) && |Body(c, fences)| < 0x1_0000 }

  /** The header has the opcode in its high half and the number of words that follow in its low half. */
  function Encode(number: Opcode -> nat, c: Command, fences: Words): Words
    requires Encodable(c, fences)
  {
    [number(OpcodeOf(c)) * 0x1_0000 + |Body(c, fences)|] + Body(c, fences)
  }

  predicate AllEncodable(cs: seq<Command>, fences: seq<Words>) {
    |fences| == |cs| && forall i :: 0 <= i < |cs| ==> Encodable(cs[i], fences[i])
  }

  function EncodeAll(number: Opcode -> nat, cs: seq<Command>, fences: seq<Words>): Words
    requires AllEncodable(cs, fences)
  {
    if cs == [] then []
    else Encode(number, cs[0], fences[0]) + EncodeAll(number, cs[1..], fences[1..])
  }

  // ---------------------------------------------------------------------------
  // Encoded commands decode to themselves

  /** words has part at a position. */
  ghost predicate Has(words: Words, at: nat, part: Words) {
    at + |part| <= |words| && words[at..at + |part|] == part
  }

  lemma {:induction false} HasAt(words: Words, at: nat, part: Words, i: nat)
    requires Has(words, at, part) && i < |part|
    ensures words[at + i] == part[i]
  {
    assert words[at..at + |part|][i] == words[at + i];
  }

  lemma {:induction false} HasParts(words: Words, at: nat, a: Words, b: Words)
    requires Has(words, at, a + b)
    ensures Has(words, at, a) && Has(words, at + |a|, b)
  {
    assert words[at..at + |a|] == words[at..at + |a + b|][..|a|] == a;
    assert words[at + |a|..at + |a| + |b|] == words[at..at + |a + b|][|a|..] == b;
  }

  lemma {:induction false} HalvesJoin(x: nat)
    ensures x % U32 + x / U32 * U32 == x
  {
  }

  lemma {:induction false} SignedUnsigned(v: int)
    requires FitsSigned(v)
    ensures FitsWord(Unsigned(v)) && Signed(Unsigned(v)) == v
  {
  }

  lemma {:induction false} ReadsLayers(words: Words, at: nat, layers: seq<Layer>, values: Words)
    requires |layers| == |values| && Has(words, at, LayerWords(layers, values))
    ensures at + 3 * |layers| <= |words|
    ensures Firsts(Pairs(words, at, |layers|)) == layers && Seconds(Pairs(words, at, |layers|)) == values
    decreases |layers|
  {
    if layers != [] {
      var n := |layers| - 1;
      var before, last := LayerWords(layers[..n], values[..n]), TwoWords(layers[n]) + [values[n]];
      assert LayerWords(layers, values) == before + last;
      HasParts(words, at, before, last);
      ReadsLayers(words, at, layers[..n], values[..n]);
      HasAt(words, at + 3 * n, last, 0);
      HasAt(words, at + 3 * n, last, 1);
      HasAt(words, at + 3 * n, last, 2);
      HalvesJoin(layers[n]);
      var ps, qs := Pairs(words, at, n), Pairs(words, at, n + 1);
      assert qs == ps + [(layers[n], values[n])];
      assert Firsts(qs) == Firsts(ps) + [layers[n]] && Seconds(qs) == Seconds(ps) + [values[n]];
      assert layers == layers[..n] + [layers[n]] && values == values[..n] + [values[n]];
    }
  }

  lemma {:induction false} FirstsAndSeconds<T>(ps: seq<(Layer, T)>, qs: seq<(Layer, T)>)
    requires Firsts(ps) == Firsts(qs) && Seconds(ps) == Seconds(qs)
    ensures ps == qs
  {
    assert |ps| == |Firsts(ps)| == |qs|;
    forall i | 0 <= i < |ps|
      ensures ps[i] == qs[i]
    {
      assert Firsts(ps)[i] == Firsts(qs)[i] && Seconds(ps)[i] == Seconds(qs)[i];
    }
  }

  lemma {:induction false} ChangedDecodes(words: Words, at: nat, changes: seq<(Layer, int)>)
    requires Fits(Changed(changes), [])
    requires Has(words, at, LayerWords(Firsts(changes), UnsignedOf(Seconds(changes))))
    ensures at + 3 * |changes| <= |words|
    ensures Payload(SetChangedCompositionTypes, 3 * |changes|, words, at) == Some(Changed(changes))
  {
    var values := UnsignedOf(Seconds(changes));
    ReadsLayers(words, at, Firsts(changes), values);
    var ps := Pairs(words, at, |changes|);
    forall i | 0 <= i < |changes|
      ensures SignedPairs(ps)[i] == changes[i]
    {
      assert changes[i] in changes;
      SignedUnsigned(changes[i].1);
      assert Firsts(ps)[i] == changes[i].0 && Seconds(ps)[i] == values[i];
    }
    assert SignedPairs(ps) == changes;
  }

  lemma {:induction false} RequestsDecode(words: Words, at: nat, mask: nat, masks: seq<(Layer, nat)>)
    requires Has(words, at, [mask] + LayerWords(Firsts(masks), Seconds(masks)))
    ensures at + 1 + 3 * |masks| <= |words|
    ensures Payload(SetDisplayRequests, 1 + 3 * |masks|, words, at) == Some(Requests(mask, masks))
  {
    var rest := LayerWords(Firsts(masks), Seconds(masks));
    HasParts(words, at, [mask], rest);
    HasAt(words, at, [mask], 0);
    ReadsLayers(words, at + 1, Firsts(masks), Seconds(masks));
    FirstsAndSeconds(Pairs(words, at + 1, |masks|), masks);
  }

  lemma {:induction false} ReleaseDecodes(words: Words, at: nat, layers: seq<Layer>, fences: Words)
    requires |layers| == |fences| && Has(words, at, LayerWords(layers, fences))
    ensures at + 3 * |layers| <= |words|
    ensures Payload(SetReleaseFences, 3 * |layers|, words, at) == Some(ReleaseFences(layers))
  {
    ReadsLayers(words, at, layers, fences);
  }

  lemma {:induction false} TwoRead(words: Words, at: nat, a: nat, b: nat)
    requires Has(words, at, [a, b])
    ensures at + 2 <= |words| && words[at] == a && words[at + 1] == b
  {
    HasAt(words, at, [a, b], 0);
    HasAt(words, at, [a, b], 1);
  }

  lemma {:induction false} SelectDecodes(words: Words, at: nat, display: Display)
    requires Has(words, at, TwoWords(display))
    ensures at + 2 <= |words| && Payload(SelectDisplay, 2, words, at) == Some(Select(display))
  {
    TwoRead(words, at, display % U32, display / U32);
    HalvesJoin(display);
  }

  lemma {:induction false} FaultDecodes(words: Words, at: nat, location: nat, error: int)
    requires FitsSigned(error) && Has(words, at, [location, Unsigned(error)])
    ensures at + 2 <= |words| && Payload(SetError, 2, words, at) == Some(Fault(location, error))
  {
    TwoRead(words, at, location, Unsigned(error));
    SignedUnsigned(error);
  }

  lemma {:induction false} TargetDecodes(words: Words, at: nat, format: int, dataspace: int)
    requires FitsSigned(format) && FitsSigned(dataspace) && Has(words, at, [Unsigned(format), Unsigned(dataspace)])
    ensures at + 2 <= |words|
    ensures Payload(SetClientTargetProperty, 2, words, at) == Some(ClientTarget(format, dataspace))
  {
    TwoRead(words, at, Unsigned(format), Unsigned(dataspace));
    SignedUnsigned(format);
    SignedUnsigned(dataspace);
  }

  lemma {:induction false} StageDecodes(words: Words, at: nat, stage: nat)
    requires Has(words, at, [stage])
    ensures at + 1 <= |words| && Payload(SetPresentOrValidateDisplayResult, 1, words, at) == Some(Stage(stage))
  {
    HasAt(words, at, [stage], 0);
  }

  /** The payload of a written command is the command. */
  lemma {:induction false} BodyDecodes(words: Words, at: nat, c: Command, fences: Words)
    requires Fits(c, fences) && Has(words, at, Body(c, fences))
    ensures Payload(OpcodeOf(c), |Body(c, fences)|, words, at) == Some(c)
  {
    match c
    case Select(display) => SelectDecodes(words, at, display);
    case Fault(location, error) => FaultDecodes(words, at, location, error);
    case Changed(changes) => ChangedDecodes(words, at, changes);
    case Requests(mask, masks) => RequestsDecode(words, at, mask, masks);
    case PresentFence =>
    case ReleaseFences(layers) => ReleaseDecodes(words, at, layers, fences);
    case Stage(stage) => StageDecodes(words, at, stage);
    case ClientTarget(format, dataspace) => TargetDecodes(words, at, format, dataspace);
  }

  lemma {:induction false} HeaderParts(n: nat, length: nat)
    requires length < 0x1_0000
    ensures (n * 0x1_0000 + length) % 0x1_0000 == length && (n * 0x1_0000 + length) / 0x1_0000 == n
  {
  }

  lemma {:induction false} FrameDecodes(coding: nat -> Opcode, number: Opcode -> nat, words: Words, at: nat,
                                        c: Command, fences: Words)
    requires Numbers(coding, number) && Encodable(c, fences) && Has(words, at, Encode(number, c, fences))
    ensures at < |words| && CommandAt(coding, words, at) == Some(c)
    ensures After(coding, words, at) == at + |Encode(number, c, fences)|
  {
    var body := Body(c, fences);
    var header := number(OpcodeOf(c)) * 0x1_0000 + |body|;
    HasParts(words, at, [header], body);
    HasAt(words, at, [header], 0);
    HeaderParts(number(OpcodeOf(c)), |body|);
    BodyDecodes(words, at + 1, c, fences);
  }

  lemma {:induction false} SplitOff(words: Words, at: nat, first: Words, rest: Words)
    requires at <= |words| && words[at..] == first + rest
    ensures Has(words, at, first) && at + |first| <= |words| && words[at + |first|..] == rest
  {
    assert words[at..at + |first + rest|] == words[at..];
    HasParts(words, at, first, rest);
    assert words[at + |first|..] == words[at..][|first|..];
  }

  lemma {:induction false} DecodeCons(coding: nat -> Opcode, words: Words, at: nat, cs: seq<Command>)
    requires at < |words| && cs != [] && CommandAt(coding, words, at) == Some(cs[0])
    requires Decode(coding, words, After(coding, words, at)) == Some(cs[1..])
    ensures Decode(coding, words, at) == Some(cs)
  {
    assert [cs[0]] + cs[1..] == cs;
  }

  lemma {:induction false} FrontDecodes(coding: nat -> Opcode, number: Opcode -> nat, words: Words, at: nat,
                                        cs: seq<Command>, fences: seq<Words>)
    requires Numbers(coding, number) && cs != [] && AllEncodable(cs, fences)
    requires at <= |words| && words[at..] == EncodeAll(number, cs, fences)
    ensures at < |words| && CommandAt(coding, words, at) == Some(cs[0])
    ensures words[After(coding, words, at)..] == EncodeAll(number, cs[1..], fences[1..])
  {
    var first, rest := Encode(number, cs[0], fences[0]), EncodeAll(number, cs[1..], fences[1..]);
    SplitOff(words, at, first, rest);
    FrameDecodes(coding, number, words, at, cs[0], fences[0]);
  }

  lemma {:induction false} NothingDecodes(coding: nat -> Opcode, words: Words, at: nat)
    requires at <= |words| && words[at..] == []
    ensures Decode(coding, words, at) == Some([])
  {
  }

  /** What was written decodes to what was meant. */
  lemma {:induction false} EncodedDecodes(coding: nat -> Opcode, number: Opcode -> nat, words: Words, at: nat,
                                          cs: seq<Command>, fences: seq<Words>)
    requires Numbers(coding, number) && AllEncodable(cs, fences)
    requires at <= |words| && words[at..] == EncodeAll(number, cs, fences)
    ensures Decode(coding, words, at) == Some(cs)
    decreases |cs|
  {
    if cs == [] {
      NothingDecodes(coding, words, at);
    } else {
      FrontDecodes(coding, number, words, at, cs, fences);
      EncodedDecodes(coding, number, words, After(coding, words, at), cs[1..], fences[1..]);
      DecodeCons(coding, words, at, cs);
    }
  }

  // ---------------------------------------------------------------------------
  // Nothing else decodes

  ghost predicate AllWords(words: Words) { forall w <- words :: FitsWord(w) }

  lemma {:induction false} SignedFits(w: nat)
    requires FitsWord(w)
    ensures FitsSigned(Signed(w)) && Unsigned(Signed(w)) == w
  {
  }

  lemma {:induction false} TwoWordsOf(low: nat, high: nat)
    requires FitsWord(low) && FitsWord(high)
    ensures FitsTwo(low + high * U32) && TwoWords(low + high * U32) == [low, high]
  {
    assert (low + high * U32) / U32 == high && (low + high * U32) % U32 == low;
  }

  lemma {:induction false} LayersFit(words: Words, at: nat, n: nat)
    requires AllWords(words) && at + 3 * n <= |words|
    ensures forall p <- Pairs(words, at, n) :: FitsTwo(p.0) && FitsWord(p.1)
  {
    if n > 0 {
      LayersFit(words, at, n - 1);
      var k := at + 3 * (n - 1);
      assert words[k] in words && words[k + 1] in words && words[k + 2] in words;
      TwoWordsOf(words[k], words[k + 1]);
    }
  }

  lemma {:induction false} ThreeMore(words: Words, at: nat, k: nat)
    requires at <= k && k + 3 <= |words|
    ensures words[at..k + 3] == words[at..k] + [words[k], words[k + 1]] + [words[k + 2]]
  {
  }

  lemma {:induction false} LayersSpelled(words: Words, at: nat, n: nat)
    requires AllWords(words) && at + 3 * n <= |words|
    ensures LayerWords(Firsts(Pairs(words, at, n)), Seconds(Pairs(words, at, n))) == words[at..at + 3 * n]
  {
    if n > 0 {
      LayersSpelled(words, at, n - 1);
      var k := at + 3 * (n - 1);
      assert words[k] in words && words[k + 1] in words;
      TwoWordsOf(words[k], words[k + 1]);
      PairSpelled(Pairs(words, at, n - 1), words, at, k);
      assert Pairs(words, at, n) == Pairs(words, at, n - 1) + [(Read64(words, k), words[k + 2])];
      assert at + 3 * n == k + 3;
    }
  }

  lemma {:induction false} PairSpelled(ps: seq<(Layer, nat)>, words: Words, at: nat, k: nat)
    requires at <= k && k + 3 <= |words| && TwoWords(Read64(words, k)) == [words[k], words[k + 1]]
    requires LayerWords(Firsts(ps), Seconds(ps)) == words[at..k]
    ensures var all := ps + [(Read64(words, k), words[k + 2])];
            LayerWords(Firsts(all), Seconds(all)) == words[at..k + 3]
  {
    OneMoreLayer(ps, Read64(words, k), words[k + 2]);
    ThreeMore(words, at, k);
  }

  lemma {:induction false} LayersRead(words: Words, at: nat, n: nat)
    requires AllWords(words) && at + 3 * n <= |words|
    ensures forall p <- Pairs(words, at, n) :: FitsTwo(p.0) && FitsWord(p.1)
    ensures LayerWords(Firsts(Pairs(words, at, n)), Seconds(Pairs(words, at, n))) == words[at..at + 3 * n]
  {
    LayersFit(words, at, n);
    LayersSpelled(words, at, n);
  }

  lemma {:induction false} OneMoreLayer(ps: seq<(Layer, nat)>, layer: Layer, value: nat)
    ensures var all := ps + [(layer, value)];
            LayerWords(Firsts(all), Seconds(all)) ==
            LayerWords(Firsts(ps), Seconds(ps)) + TwoWords(layer) + [value]
  {
    var all, n := ps + [(layer, value)], |ps|;
    assert Firsts(all)[..n] == Firsts(ps) && Seconds(all)[..n] == Seconds(ps);
    assert Firsts(all)[n] == layer && Seconds(all)[n] == value;
  }

  lemma {:induction false} SignedPairsRead(ps: seq<(Layer, nat)>)
    requires forall p <- ps :: FitsTwo(p.0) && FitsWord(p.1)
    ensures Fits(Changed(SignedPairs(ps)), [])
    ensures Body(Changed(SignedPairs(ps)), []) == LayerWords(Firsts(ps), Seconds(ps))
  {
    var changes := SignedPairs(ps);
    forall p | p in changes
      ensures FitsTwo(p.0) && FitsSigned(p.1)
    {
      var i :| 0 <= i < |changes| && changes[i] == p;
      assert ps[i] in ps;
      SignedFits(ps[i].1);
    }
    forall i | 0 <= i < |ps|
      ensures UnsignedOf(Seconds(changes))[i] == Seconds(ps)[i]
    {
      assert ps[i] in ps;
      SignedFits(ps[i].1);
    }
    assert UnsignedOf(Seconds(changes)) == Seconds(ps);
    assert Firsts(changes) == Firsts(ps);
  }

  lemma {:induction false} FirstsFit(ps: seq<(Layer, nat)>)
    requires forall p <- ps :: FitsTwo(p.0) && FitsWord(p.1)
    ensures forall l <- Firsts(ps) :: FitsTwo(l)
  {
    forall i | 0 <= i < |ps|
      ensures FitsTwo(Firsts(ps)[i])
    {
      assert ps[i] in ps;
    }
  }

  /** part is what is written for c. */
  ghost predicate Spells(part: Words, opcode: Opcode, c: Command, fences: Words) {
    OpcodeOf(c) == opcode && Fits(c, fences) && Body(c, fences) == part
  }

  lemma {:induction false} ReleaseSpelled(words: Words, at: nat, n: nat)
    requires AllWords(words) && at + 3 * n <= |words|
    ensures Spells(words[at..at + 3 * n], SetReleaseFences, ReleaseFences(Firsts(Pairs(words, at, n))),
                   Seconds(Pairs(words, at, n)))
  {
    LayersRead(words, at, n);
    FirstsFit(Pairs(words, at, n));
  }

  lemma {:induction false} ChangedSpelled(words: Words, at: nat, n: nat)
    requires AllWords(words) && at + 3 * n <= |words|
    ensures Spells(words[at..at + 3 * n], SetChangedCompositionTypes, Changed(SignedPairs(Pairs(words, at, n))), [])
  {
    LayersRead(words, at, n);
    SignedPairsRead(Pairs(words, at, n));
  }

  lemma {:induction false} RequestsSpelled(words: Words, at: nat, n: nat)
    requires AllWords(words) && at + 1 + 3 * n <= |words|
    ensures Spells(words[at..at + 1 + 3 * n], SetDisplayRequests, Requests(words[at], Pairs(words, at + 1, n)), [])
  {
    LayersRead(words, at + 1, n);
    assert words[at] in words;
    assert words[at..at + 1 + 3 * n] == [words[at]] + words[at + 1..at + 1 + 3 * n];
  }

  lemma {:induction false} TwoSpelled(words: Words, at: nat)
    requires AllWords(words) && at + 2 <= |words|
    ensures Spells(words[at..at + 2], SelectDisplay, Select(Read64(words, at)), [])
    ensures Spells(words[at..at + 2], SetError, Fault(words[at], Signed(words[at + 1])), [])
    ensures Spells(words[at..at + 2], SetClientTargetProperty,
                   ClientTarget(Signed(words[at]), Signed(words[at + 1])), [])
  {
    assert words[at] in words && words[at + 1] in words;
    assert words[at..at + 2] == [words[at], words[at + 1]];
    TwoWordsOf(words[at], words[at + 1]);
    SignedFits(words[at]);
    SignedFits(words[at + 1]);
  }

  lemma {:induction false} OneSpelled(words: Words, at: nat)
    requires AllWords(words) && at + 1 <= |words|
    ensures Spells(words[at..at + 1], SetPresentOrValidateDisplayResult, Stage(words[at]), [])
    ensures Spells(words[at..at + 1], SetPresentFence, PresentFence, [words[at]])
  {
    assert words[at] in words;
    assert words[at..at + 1] == [words[at]];
  }

  /** The words of a payload that is a command are those that are written for it. */
  lemma {:induction false} PayloadIsBody(opcode: Opcode, length: nat, words: Words, at: nat) returns (fences: Words)
    requires AllWords(words) && at + length <= |words| && Payload(opcode, length, words, at).Some?
    ensures Spells(words[at..at + length], opcode, Payload(opcode, length, words, at).value, fences)
  {
    fences := [];
    match opcode
    case SelectDisplay => TwoSpelled(words, at);
    case SetError => TwoSpelled(words, at);
    case SetClientTargetProperty => TwoSpelled(words, at);
    case SetChangedCompositionTypes => ChangedSpelled(words, at, length / 3);
    case SetDisplayRequests => RequestsSpelled(words, at, (length - 1) / 3);
    case SetReleaseFences =>
      ReleaseSpelled(words, at, length / 3);
      fences := Seconds(Pairs(words, at, length / 3));
    case SetPresentFence =>
      OneSpelled(words, at);
      fences := [words[at]];
    case SetPresentOrValidateDisplayResult => OneSpelled(words, at);
  }

  lemma {:induction false} FrameIsEncoded(coding: nat -> Opcode, number: Opcode -> nat, words: Words, at: nat)
    returns (fences: Words)
    requires Numbers(coding, number) && AllWords(words) && at < |words| && CommandAt(coding, words, at).Some?
    ensures var c := CommandAt(coding, words, at).value;
            Encodable(c, fences) && Encode(number, c, fences) == words[at..After(coding, words, at)]
  {
    var frame := Frame(coding, words, at).value;
    fences := PayloadIsBody(frame.0, frame.1, words, at + 1);
    var c := CommandAt(coding, words, at).value;
    assert words[at] in words;
    assert words[at] / 0x1_0000 < 0x1_0000;
    assert number(frame.0) == words[at] / 0x1_0000;
    HeadAndRest(words, at, frame.1);
  }

  lemma {:induction false} HeadAndRest(words: Words, at: nat, n: nat)
    requires at + 1 + n <= |words|
    ensures words[at..at + 1 + n] == [words[at]] + words[at + 1..at + 1 + n]
  {
  }

  lemma {:induction false} DecodeParts(coding: nat -> Opcode, words: Words, at: nat)
    requires at < |words| && Decode(coding, words, at).Some?
    ensures CommandAt(coding, words, at).Some? && Decode(coding, words, After(coding, words, at)).Some?
    ensures Decode(coding, words, at).value ==
            [CommandAt(coding, words, at).value] + Decode(coding, words, After(coding, words, at)).value
  {
  }

  /** Words that decode are those written for what they decode to. */
  lemma {:induction false} DecodedIsEncoded(coding: nat -> Opcode, number: Opcode -> nat, words: Words, at: nat)
    returns (fences: seq<Words>)
    requires Numbers(coding, number) && AllWords(words) && at <= |words| && Decode(coding, words, at).Some?
    ensures var cs := Decode(coding, words, at).value;
            AllEncodable(cs, fences) && words[at..] == EncodeAll(number, cs, fences)
    decreases |words| - at
  {
    if at == |words| {
      fences := [];
    } else {
      DecodeParts(coding, words, at);
      var next := After(coding, words, at);
      var first := FrameIsEncoded(coding, number, words, at);
      var rest := DecodedIsEncoded(coding, number, words, next);
      fences := [first] + rest;
      EncodeCons(number, CommandAt(coding, words, at).value, Decode(coding, words, next).value, first, rest);
      SliceParts(words, at, next);
    }
  }

  lemma {:induction false} SliceParts(words: Words, at: nat, next: nat)
    requires at <= next <= |words|
    ensures words[at..] == words[at..next] + words[next..]
  {
  }

  lemma {:induction false} EncodeCons(number: Opcode -> nat, c: Command, cs: seq<Command>, first: Words, rest: seq<Words>)
    requires Encodable(c, first) && AllEncodable(cs, rest)
    ensures AllEncodable([c] + cs, [first] + rest)
    ensures EncodeAll(number, [c] + cs, [first] + rest) == Encode(number, c, first) + EncodeAll(number, cs, rest)
  {
    assert ([c] + cs)[1..] == cs && ([first] + rest)[1..] == rest;
  }

  /** A queue decodes to a list of commands exactly if its words are those of the list, whatever words
      stand for fences. */
  lemma {:induction false} DecodesIff(coding: nat -> Opcode, number: Opcode -> nat, words: Words, cs: seq<Command>)
    requires Numbers(coding, number) && AllWords(words)
    ensures Decode(coding, words, 0) == Some(cs) <==>
            exists fences: seq<Words> :: AllEncodable(cs, fences) && words == EncodeAll(number, cs, fences)
  {
    assert words[0..] == words;
    if Decode(coding, words, 0) == Some(cs) {
      var fences := DecodedIsEncoded(coding, number, words, 0);
      assert AllEncodable(cs, fences) && words == EncodeAll(number, cs, fences);
    }
    if exists fences: seq<Words> :: AllEncodable(cs, fences) && words == EncodeAll(number, cs, fences) {
      var fences: seq<Words> :| AllEncodable(cs, fences) && words == EncodeAll(number, cs, fences);
      EncodedDecodes(coding, number, words, 0, cs, fences);
    }
  }
}
