/**
 parse of compat/hwc2/HidlComposerHal.cpp from the words of a queue to the data it leaves: the queue is
 read as the commands that were written to it, up to the first frame that is none or comes too early.
 */
module ParsedQueues {
  import opened Options
  import opened ReturnCommands
  import opened ReturnEncoding
  import opened ReturnHistory
  import opened CommandReader

  /** Every command that needs a display comes after one was selected. */
  ghost predicate SelectsFirst(before: Option<Display>, cs: seq<Command>) {
    forall i | 0 <= i < |cs| && !cs[i].Select? && !cs[i].Fault? ::
      before.Some? || exists k | 0 <= k < i :: cs[k].Select?
  }

  lemma {:induction false} SelectsFirstCons(before: Option<Display>, cs: seq<Command>)
    requires cs != []
    ensures var next := if cs[0].Select? then Some(cs[0].display) else before;
            SelectsFirst(before, cs) <==>
            (cs[0].Select? || cs[0].Fault? || before.Some?) && SelectsFirst(next, cs[1..])
  {
    var next := if cs[0].Select? then Some(cs[0].display) else before;
    var rest := cs[1..];
    assert forall i | 0 <= i < |rest| :: rest[i] == cs[i + 1];
    if SelectsFirst(before, cs) {
      forall i | 0 <= i < |rest| && !rest[i].Select? && !rest[i].Fault?
        ensures next.Some? || exists k | 0 <= k < i :: rest[k].Select?
      {
        assert !cs[i + 1].Select? && !cs[i + 1].Fault?;
        if next.None? {
          var k :| 0 <= k < i + 1 && cs[k].Select?;
          assert rest[k - 1].Select?;
        }
      }
    }
    if (cs[0].Select? || cs[0].Fault? || before.Some?) && SelectsFirst(next, rest) {
      forall i | 0 <= i < |cs| && !cs[i].Select? && !cs[i].Fault?
        ensures before.Some? || exists k | 0 <= k < i :: cs[k].Select?
      {
        if i > 0 {
          assert !rest[i - 1].Select? && !rest[i - 1].Fault?;
          if next.None? {
            var k :| 0 <= k < i - 1 && rest[k].Select?;
            assert cs[k + 1].Select?;
          }
        }
      }
    }
  }

  lemma {:induction false} ApplicableIff(p: Parsed, cs: seq<Command>, produces: nat -> bool)
    requires PointsIn(p)
    ensures AllApplicable(p, cs, produces) <==> SelectsFirst(p.current, cs)
    decreases |cs|
  {
    if cs != [] {
      SelectsFirstCons(p.current, cs);
      if Applicable(p, cs[0]) { ApplicableIff(Apply(p, cs[0], produces), cs[1..], produces); }
    }
  }

  /** A queue of written commands is read to its end, and leaves what can be read off the commands. */
  lemma {:induction false} ParseReads(coding: nat -> Opcode, number: Opcode -> nat, produces: nat -> bool,
                                      cs: seq<Command>, fences: seq<Words>, start: Parsed)
    requires Numbers(coding, number) && AllEncodable(cs, fences)
    requires PointsIn(start) && SelectsFirst(start.current, cs)
    ensures var words := EncodeAll(number, cs, fences);
            var r := ParseFrom(coding, produces, words, 0, start);
            r.1 == |words| && Left(start, cs, r.0, produces)
  {
    var words := EncodeAll(number, cs, fences);
    assert words[0..] == words;
    EncodedDecodes(coding, number, words, 0, cs, fences);
    ApplicableIff(start, cs, produces);
    ParseIsFold(coding, produces, words, 0, start);
    FoldLeaves(start, cs, produces);
  }

  lemma {:induction false} SameFrame(coding: nat -> Opcode, words: Words, at: nat, stop: nat)
    requires at < stop <= |words| && CommandAt(coding, words, at).Some? && After(coding, words, at) <= stop
    ensures CommandAt(coding, words[..stop], at) == CommandAt(coding, words, at)
    ensures After(coding, words[..stop], at) == After(coding, words, at)
  {
    var frame := Frame(coding, words, at).value;
    assert Frame(coding, words[..stop], at) == Some(frame);
    SamePayload(frame.0, frame.1, words, at + 1, stop);
  }

  lemma {:induction false} SamePairs(words: Words, at: nat, n: nat, stop: nat)
    requires at + 3 * n <= stop <= |words|
    ensures Pairs(words[..stop], at, n) == Pairs(words, at, n)
  {
    if n > 0 { SamePairs(words, at, n - 1, stop); }
  }

  lemma {:induction false} SamePayload(opcode: Opcode, length: nat, words: Words, at: nat, stop: nat)
    requires at + length <= stop <= |words|
    ensures Payload(opcode, length, words[..stop], at) == Payload(opcode, length, words, at)
  {
    match opcode
    case SetChangedCompositionTypes => if length % 3 == 0 { SamePairs(words, at, length / 3, stop); }
    case SetDisplayRequests => if length % 3 == 1 { SamePairs(words, at + 1, (length - 1) / 3, stop); }
    case SetReleaseFences => if length % 3 == 0 { SamePairs(words, at, length / 3, stop); }
    case _ =>
  }

  lemma {:induction false} PrefixDecodes(coding: nat -> Opcode, words: Words, at: nat, stop: nat)
    requires at <= stop <= |words| && DecodeUntil(coding, words, at, stop).Some?
    ensures Decode(coding, words[..stop], at) == DecodeUntil(coding, words, at, stop)
    decreases stop - at
  {
    if at < stop {
      SameFrame(coding, words, at, stop);
      PrefixDecodes(coding, words, After(coding, words, at), stop);
    }
  }

  /** Some command is written at a position. */
  ghost predicate WrittenAt(number: Opcode -> nat, words: Words, at: nat, c: Command) {
    exists fences: Words :: Encodable(c, fences) && Has(words, at, Encode(number, c, fences))
  }

  lemma {:induction false} StopsAtBad(coding: nat -> Opcode, number: Opcode -> nat, produces: nat -> bool,
                                      words: Words, at: nat, p: Parsed, c: Command)
    requires Numbers(coding, number) && at <= |words| && PointsIn(p)
    requires var stop := Stop(coding, produces, words, at, p);
             stop < |words| && WrittenAt(number, words, stop, c)
    ensures !c.Select? && !c.Fault? && ParseFrom(coding, produces, words, at, p).0.current.None?
    decreases |words| - at
  {
    var next := CommandAt(coding, words, at);
    if next.Some? && Applicable(p, next.value) {
      ParseCons(coding, produces, words, at, p);
      StopsAtBad(coding, number, produces, words, After(coding, words, at), Apply(p, next.value, produces), c);
    } else {
      var fences :| Encodable(c, fences) && Has(words, at, Encode(number, c, fences));
      FrameDecodes(coding, number, words, at, c, fences);
    }
  }

  /** Whatever the queue is: it starts with the words of some commands, which leave what can be read off
      them, and what follows is no command, or one that needs a display when none is selected. */
  lemma {:induction false} ParseReadsBefore(coding: nat -> Opcode, number: Opcode -> nat, produces: nat -> bool,
                                            words: Words, start: Parsed)
    returns (cs: seq<Command>, fences: seq<Words>)
    requires Numbers(coding, number) && AllWords(words) && PointsIn(start)
    ensures AllEncodable(cs, fences) && SelectsFirst(start.current, cs)
    ensures var read := EncodeAll(number, cs, fences);
            var q := ParseFrom(coding, produces, words, 0, start).0;
            && read <= words && Left(start, cs, q, produces)
            && (read < words ==> forall c: Command | WrittenAt(number, words, |read|, c) ::
                  !c.Select? && !c.Fault? && q.current.None?)
  {
    var stop := Stop(coding, produces, words, 0, start);
    var first := words[..stop];
    ParseIsFoldBefore(coding, produces, words, 0, start);
    cs := DecodeUntil(coding, words, 0, stop).value;
    PrefixDecodes(coding, words, 0, stop);
    fences := DecodedIsEncoded(coding, number, first, 0);
    assert first[0..] == first;
    ApplicableIff(start, cs, produces);
    FoldLeaves(start, cs, produces);
    if stop < |words| {
      forall c: Command | WrittenAt(number, words, stop, c)
        ensures !c.Select? && !c.Fault? && ParseFrom(coding, produces, words, 0, start).0.current.None?
      {
        StopsAtBad(coding, number, produces, words, 0, start, c);
      }
    }
  }
}
