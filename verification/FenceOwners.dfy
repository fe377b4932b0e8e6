/**
 Who owns a fence descriptor, from the reader of compat/hwc2/HidlComposerHal.cpp to the Fence objects
 that compat/hwc2/HWC2.cpp gives its callers. A Fence object closes its descriptor when it goes.
 */
module FenceOwners {
  import opened Options
  import opened ReturnCommands
  import opened ReleaseFences
  import CommandReader

  const NO_ERROR := 0
  const HAS_CHANGES := 5
  const NO_RESOURCES := 6

  /** How an execution of the pending commands goes: it is refused on the way there or by the server,
      there is nothing to send, the returned queue cannot be read, or it can. */
  datatype Answer =
    | Refused(error: int)
    | NothingToSend
    | Unreadable
    | Answered(queue: seq<nat>)

  predicate IsAnswer(a: Answer) { a.Refused? ==> a.error != NO_ERROR }

  /** The error of the last command that validates or presents, or none. */
  function LastError(errors: seq<(nat, int)>, reports: nat -> bool): int {
    if errors == [] then NO_ERROR
    else
      var (location, code) := errors[|errors| - 1];
      if reports(location) then code else LastError(errors[..|errors| - 1], reports)
  }

  /** error is that of the last entry whose command reports, or none. */
  ghost predicate IsLastError(errors: seq<(nat, int)>, reports: nat -> bool, error: int) {
    if forall i | 0 <= i < |errors| :: !reports(errors[i].0) then error == NO_ERROR
    else exists k | 0 <= k < |errors| ::
      reports(errors[k].0) && error == errors[k].1 && forall j | k < j < |errors| :: !reports(errors[j].0)
  }

  lemma {:induction false} LastErrorIsLast(errors: seq<(nat, int)>, reports: nat -> bool)
    ensures IsLastError(errors, reports, LastError(errors, reports))
  {
    if errors != [] {
      var n := |errors| - 1;
      LastErrorIsLast(errors[..n], reports);
      assert forall i | 0 <= i < n :: errors[..n][i] == errors[i];
      if reports(errors[n].0) {
        assert errors[n].1 == LastError(errors, reports);
      } else if i :| 0 <= i < n && reports(errors[i].0) {
        assert reports(errors[..n][i].0);
        var k :| 0 <= k < n && reports(errors[..n][k].0) && LastError(errors, reports) == errors[..n][k].1 &&
                 forall j | k < j < n :: !reports(errors[..n][j].0);
        assert reports(errors[k].0);
      }
    }
  }

  /** The loop over the errors of a queue. */
  method Report(errors: seq<(nat, int)>, reports: nat -> bool) returns (error: int)
    ensures error == LastError(errors, reports) && IsLastError(errors, reports, error)
  {
    LastErrorIsLast(errors, reports);
    error := NO_ERROR;
    for i := 0 to |errors|
      invariant error == LastError(errors[..i], reports)
    {
      assert errors[..i + 1][..i] == errors[..i];
      if reports(errors[i].0) { error := errors[i].1; }
    }
    assert errors[..|errors|] == errors;
  }

  /** takePresentOrValidateStage. */
  function StageOf(data: map<Display, ReturnData>, d: Display, indeterminate: int): int {
    if d !in data then -1
    else if data[d].stage.Some? then data[d].stage.value else indeterminate
  }

  function PresentFenceOf(data: map<Display, ReturnData>, d: Display): int {
    if d in data then data[d].presentFence else -1
  }

  /** The data once the present fence of a display was taken. */
  function PresentTaken(data: map<Display, ReturnData>, d: Display): map<Display, ReturnData> {
    if d in data then data[d := data[d].(presentFence := -1)] else data
  }

  /** Where the descriptors of a list go keeps the account if each is held or closed. */
  lemma {:induction false} AccountKept(owned: multiset<int>, dropped: multiset<int>, taken: multiset<int>,
                    list: seq<int>, held: seq<int>, closed: multiset<int>)
    requires forall t: nat :: owned[t] + dropped[t] == taken[t]
    requires forall t: nat :: closed[t] + Count(held, t) == Count(list, t)
    ensures forall t: nat :: (owned + Descriptors(held))[t] + (dropped + closed)[t] == (taken + Descriptors(list))[t]
  {
    forall t: nat
      ensures (owned + Descriptors(held))[t] + (dropped + closed)[t] == (taken + Descriptors(list))[t]
    {
      DescriptorsCount(held, t);
      DescriptorsCount(list, t);
    }
  }

  class Client {
    const reader: CommandReader.CommandReader
    /** Descriptors in Fence objects that callers hold. */
    var owned: multiset<int>
    /** Descriptors that Fence objects, or the error path of getReleaseFences, closed. */
    var dropped: multiset<int>

    /** What the reader handed out is in a Fence object or closed. */
    ghost predicate HandedOut()
      reads this, reader
    {
      forall t: nat :: owned[t] + dropped[t] == reader.taken[t]
    }

    ghost predicate Valid()
      reads this, reader
    {
      reader.Valid() && HandedOut()
    }

    /** A descriptor that readFence produced is in exactly one place: in the reader's data, in a Fence
        object that a caller holds, or closed once. No other descriptor is anywhere. */
    ghost predicate OnePlace(t: nat)
      reads this, reader
    {
      Held(reader.data, t) + owned[t] + reader.closed[t] + dropped[t]
      == if t < reader.fences && reader.produces(t) then 1 else 0
    }

    lemma {:induction false} EachInOnePlace(t: nat)
      requires Valid()
      ensures OnePlace(t)
    {
      assert Conserved(reader.View(), reader.taken, reader.produces);
    }

    constructor (coding: nat -> Opcode, produces: nat -> bool)
      ensures Valid() && fresh(reader) && owned == multiset{}
    {
      reader := new CommandReader.CommandReader(coding, produces);
      owned, dropped := multiset{}, multiset{};
    }

    /** What parse makes of a queue, from a reader that was reset. */
    ghost function ParsedFrom(queue: seq<nat>, start: Parsed): (Parsed, nat)
      requires PointsIn(start)
    {
      CommandReader.ParseFrom(reader.coding, reader.produces, queue, 0, start)
    }

    /** The data that an execution leaves in the reader: that of the queue, or what was there. */
    ghost function DataAfter(answer: Answer, start: Parsed, before: map<Display, ReturnData>): map<Display, ReturnData>
      requires PointsIn(start)
    {
      if answer.Answered? then ParsedFrom(answer.queue, start).0.data else before
    }

    /** The error of an execution: its own, that of a queue that does not parse, or that of the last
        command that validates or presents. */
    ghost function ErrorAfter(answer: Answer, start: Parsed, reports: nat -> bool): int
      requires PointsIn(start)
    {
      match answer
      case Refused(error) => error
      case NothingToSend => NO_ERROR
      case Unreadable => NO_RESOURCES
      case Answered(queue) =>
        var (p, end) := ParsedFrom(queue, start);
        if end < |queue| then NO_RESOURCES else LastError(p.errors, reports)
    }

    /** What is left of a queue that can be read: the data of its commands up to the first bad frame,
        and an error if it was not read to its end, else that of the last command that validates or
        presents. */
    ghost predicate QueueRead(queue: seq<nat>, start: Parsed, reports: nat -> bool, error: int)
      requires PointsIn(start)
      reads reader
    {
      var (p, end) := CommandReader.ParseFrom(reader.coding, reader.produces, queue, 0, start);
      && reader.data == p.data
      && if end < |queue| then error == NO_RESOURCES else IsLastError(p.errors, reports, error)
    }

    /** execute. Only a queue that can be read touches the reader. */
    method Execute(answer: Answer, reports: nat -> bool) returns (error: int, ghost start: Parsed)
      requires Valid()
      modifies reader
      ensures Valid() && reader.taken == old(reader.taken)
      ensures !answer.Answered? ==> reader.View() == old(reader.View())
      ensures PointsIn(start) && start.data == map[] && start.current == None && start.errors == []
      ensures reader.data == DataAfter(answer, start, old(reader.data))
      ensures error == ErrorAfter(answer, start, reports)
      ensures answer.Refused? ==> error == answer.error
      ensures answer.NothingToSend? ==> error == NO_ERROR
      ensures answer.Unreadable? ==> error == NO_RESOURCES
      ensures answer.Answered? ==> QueueRead(answer.queue, start, reports, error)
    {
      start := Parsed(map[], None, [], 0, multiset{});
      match answer
      case Refused(refusal) => error := refusal;
      case NothingToSend => error := NO_ERROR;
      case Unreadable => error := NO_RESOURCES;
      case Answered(queue) =>
        error, start := ExecuteQueue(queue, reports);
        LastErrorIsLast(ParsedFrom(queue, start).0.errors, reports);
    }

    /** The part of execute that follows a queue that can be read. */
    method ExecuteQueue(queue: seq<nat>, reports: nat -> bool) returns (error: int, ghost start: Parsed)
      requires Valid()
      modifies reader
      ensures Valid() && reader.taken == old(reader.taken)
      ensures PointsIn(start) && start.data == map[] && start.current == None && start.errors == []
      ensures reader.data == ParsedFrom(queue, start).0.data
      ensures error == ErrorAfter(Answered(queue), start, reports)
    {
      var parsed;
      parsed, start := reader.Parse(queue);
      if !parsed { return NO_RESOURCES, start; }
      var errors := reader.TakeErrors();
      error := Report(errors, reports);
    }

    /** presentDisplay and Display::present: without an error the caller holds the present fence that
        the reader has for the display. */
    method Present(d: Display, answer: Answer, reports: nat -> bool)
      returns (error: int, fence: int, ghost start: Parsed)
      requires Valid() && IsAnswer(answer)
      modifies this, reader
      ensures Valid() && dropped == old(dropped)
      ensures PointsIn(start) && start.data == map[] && start.current == None && start.errors == []
      ensures error == ErrorAfter(answer, start, reports)
      ensures owned == old(owned) + if error == NO_ERROR then Descriptor(fence) else multiset{}
      ensures error == NO_ERROR ==> fence == PresentFenceOf(DataAfter(answer, start, old(reader.data)), d)
      ensures reader.data ==
              if error == NO_ERROR then PresentTaken(DataAfter(answer, start, old(reader.data)), d)
              else DataAfter(answer, start, old(reader.data))
    {
      error, start := Execute(answer, reports);
      if error != NO_ERROR {
        assert old(owned) + multiset{} == old(owned);
        return error, -1, start;
      }
      fence := reader.TakePresentFence(d);
      owned := owned + Descriptor(fence);
    }

    /** presentOrValidateDisplay and Display::presentOrValidate. state is what the caller's variable
        holds before the call; an error leaves it alone. A display whose data was never given a stage
        has an indeterminate one. The caller gets a Fence exactly if there is no error but changes and
        the variable is 1; it holds the reader's present fence, or after changes none. */
    method PresentOrValidate(d: Display, answer: Answer, reports: nat -> bool, state: int, indeterminate: int)
      returns (error: int, presented: bool, fence: int, ghost start: Parsed)
      requires Valid() && IsAnswer(answer)
      modifies this, reader
      ensures Valid() && dropped == old(dropped)
      ensures PointsIn(start) && start.data == map[] && start.current == None && start.errors == []
      ensures error == ErrorAfter(answer, start, reports)
      ensures owned == old(owned) + if presented then Descriptor(fence) else multiset{}
      ensures var data := DataAfter(answer, start, old(reader.data));
              && (presented <==>
                    || (error == NO_ERROR && StageOf(data, d, indeterminate) == 1)
                    || (error == HAS_CHANGES && state == 1))
              && (presented ==> fence == if error == NO_ERROR then PresentFenceOf(data, d) else -1)
              && reader.data == if presented && error == NO_ERROR then PresentTaken(data, d) else data
    {
      error, start := Execute(answer, reports);
      presented, fence := false, -1;
      assert old(owned) + multiset{} == old(owned);
      var stage := state;
      if error == NO_ERROR {
        stage := StageOf(reader.data, d, indeterminate);
        if stage == 1 { fence := reader.TakePresentFence(d); }
      }
      if error != NO_ERROR && error != HAS_CHANGES { return; }
      if stage == 1 {
        presented := true;
        owned := owned + Descriptor(fence);
      }
    }

    /** Display::getReleaseFences: the caller holds one fence per layer object; duplicates, and on an
        unknown layer all of them, are closed. */
    method GetReleaseFences(d: Display, live: map<Layer, LayerObject>) returns (result: Option<Entries>)
      requires Valid()
      modifies this, reader
      ensures Valid()
      ensures owned == old(owned) + if result.Some? then Descriptors(Fds(result.value)) else multiset{}
      ensures d !in old(reader.data) ==> result == Some([])
      ensures d in old(reader.data) ==>
                var before := old(reader.data)[d];
                && |before.releasedLayers| == |before.releaseFences|
                && (result.Some? <==> AllLive(before.releasedLayers, live))
                && (result.Some? ==> FirstOfEach(result.value, before.releasedLayers, before.releaseFences, live))
    {
      var ids, list := reader.TakeReleaseFences(d);
      result := Hand(ids, list, live, old(reader.taken));
    }

    /** The fences that the reader handed out become Fence objects or are closed. */
    method Hand(ids: seq<Layer>, list: seq<int>, live: map<Layer, LayerObject>, ghost taken: multiset<int>)
      returns (result: Option<Entries>)
      requires |ids| == |list| && reader.taken == taken + Descriptors(list)
      requires forall t: nat :: owned[t] + dropped[t] == taken[t]
      modifies this
      ensures HandedOut()
      ensures owned == old(owned) + if result.Some? then Descriptors(Fds(result.value)) else multiset{}
      ensures result.Some? <==> AllLive(ids, live)
      ensures result.Some? ==> FirstOfEach(result.value, ids, list, live)
    {
      var closed;
      result, closed := ReleaseFences.GetReleaseFences(ids, list, live);
      var held := if result.Some? then Fds(result.value) else [];
      AccountKept(owned, dropped, taken, list, held, closed);
      owned, dropped := owned + Descriptors(held), dropped + closed;
    }

    /** A caller lets a Fence object go. */
    method DropFence(fence: nat)
      requires Valid() && fence in owned
      modifies this
      ensures Valid() && owned == old(owned) - multiset{fence} && dropped == old(dropped) + multiset{fence}
    {
      owned, dropped := owned - multiset{fence}, dropped + multiset{fence};
    }
  }
}
