/**
 The maps of readers and writers in compat/hwc2/AidlComposerHal.cpp (the branch for Android 14 and
 later). Until a display can present from several threads, one reader serves all displays; from then
 on every display has its own.
 */
module AidlComposer {
  import opened Options

  type Display = nat

  /** A pending command: whether it validates or presents. */
  datatype Command = Command(validate: bool, present: bool, presentOrValidate: bool) {
    predicate Reports() { validate || present || presentOrValidate }
  }

  datatype CommandError = CommandError(index: int, code: int)
  datatype Error = NoError | BadDisplay | BadParameter | Hal(code: int)

  const SINGLE_READER_KEY: Display := 0

  /** A reader is known by the display whose results it accepts, if it is bound to one. */
  type Reader = Option<Display>

  datatype State = State(single: bool, writers: map<Display, seq<Command>>, readers: map<Display, Reader>)

  const START := State(true, map[], map[SINGLE_READER_KEY := None])

  function ReaderFor(d: Display): Reader { if d == SINGLE_READER_KEY then None else Some(d) }

  function AllReaders(writers: map<Display, seq<Command>>): map<Display, Reader> {
    map d <- writers :: ReaderFor(d)
  }

  function Emplaced<V>(m: map<Display, V>, d: Display, v: V): map<Display, V> {
    if d in m then m else m[d := v]
  }

  // ---------------------------------------------------------------------------
  // What the operations do

  function Adding(s: State, d: Display, threaded: bool): State {
    var writers := Emplaced(s.writers, d, []);
    if s.single && !threaded then s.(writers := writers)
    else if s.single then State(false, writers, AllReaders(writers))
    else s.(writers := writers, readers := Emplaced(s.readers, d, ReaderFor(d)))
  }

  function Removing(s: State, d: Display): State {
    State(s.single, s.writers - {d}, if s.single then s.readers else s.readers - {d})
  }

  function GetWriter(s: State, d: Display): Option<seq<Command>> {
    if d in s.writers then Some(s.writers[d]) else None
  }

  function GetReader(s: State, d: Display): Option<Reader> {
    var key := if s.single then SINGLE_READER_KEY else d;
    if key in s.readers then Some(s.readers[key]) else None
  }

  /** One shared reader under the reserved key, or exactly one reader per writer. */
  ghost predicate Coupled(s: State) {
    s.readers == if s.single then map[SINGLE_READER_KEY := None] else AllReaders(s.writers)
  }

  lemma {:induction false} AddingKeepsCoupled(s: State, d: Display, threaded: bool)
    requires Coupled(s)
    ensures Coupled(Adding(s, d, threaded))
    ensures Adding(s, d, threaded).single ==> s.single
    ensures Adding(s, d, threaded).writers.Keys == s.writers.Keys + {d}
  {
    if !s.single {
      assert Emplaced(s.readers, d, ReaderFor(d)) == AllReaders(Emplaced(s.writers, d, []));
    }
  }

  lemma {:induction false} RemovingKeepsCoupled(s: State, d: Display)
    requires Coupled(s)
    ensures Coupled(Removing(s, d)) && Removing(s, d).single == s.single
    ensures Removing(s, d).writers.Keys == s.writers.Keys - {d}
  {
    if !s.single {
      assert s.readers - {d} == AllReaders(s.writers - {d});
    }
  }

  // ---------------------------------------------------------------------------
  // Every run

  /** A step: a display is added, and can or cannot present from several threads, or is removed. */
  datatype Step = Add(display: Display, threaded: bool) | Remove(display: Display)

  function Apply(s: State, step: Step): State {
    match step
    case Add(d, threaded) => Adding(s, d, threaded)
    case Remove(d) => Removing(s, d)
  }

  function Run(steps: seq<Step>): State {
    if steps == [] then START else Apply(Run(steps[..|steps| - 1]), steps[|steps| - 1])
  }

  /** The last step about a display added it. */
  predicate IsAdded(steps: seq<Step>, d: Display) {
    steps != [] &&
    var last := steps[|steps| - 1];
    if last.display == d then last.Add? else IsAdded(steps[..|steps| - 1], d)
  }

  /** In every reachable state the maps are in step, the writers are those of the displays that are
      added, and the shared reader is in use exactly until a display that can present from several
      threads was added. */
  lemma {:induction false} RunCoupled(steps: seq<Step>)
    ensures Coupled(Run(steps))
    ensures forall d: Display :: d in Run(steps).writers <==> IsAdded(steps, d)
    ensures Run(steps).single <==> forall step <- steps :: step.Add? ==> !step.threaded
  {
    if steps != [] {
      var n := |steps| - 1;
      var before, last := steps[..n], steps[n];
      assert steps == before + [last];
      RunCoupled(before);
      match last {
        case Add(d, threaded) => AddingKeepsCoupled(Run(before), d, threaded);
        case Remove(d) => RemovingKeepsCoupled(Run(before), d);
      }
    }
  }

  /** Both lookups succeed exactly for a display that is added, and the reader that is found accepts
      the display's results. */
  lemma {:induction false} LookupIffAdded(steps: seq<Step>, d: Display)
    ensures GetWriter(Run(steps), d).Some? && GetReader(Run(steps), d).Some? <==> IsAdded(steps, d)
    ensures IsAdded(steps, d) ==> GetReader(Run(steps), d).value in {None, Some(d)}
    ensures IsAdded(steps, d) && !Run(steps).single && d != SINGLE_READER_KEY ==>
              GetReader(Run(steps), d).value == Some(d)
  {
    RunCoupled(steps);
  }

  // ---------------------------------------------------------------------------
  // Errors of an execution

  /** An index is cast to an unsigned type, so that a negative one is out of range as well. */
  predicate InRange(e: CommandError, commands: seq<Command>) { 0 <= e.index < |commands| }

  /** The error belongs to a command that validates or presents. */
  predicate Counts(e: CommandError, commands: seq<Command>) {
    InRange(e, commands) && commands[e.index].Reports()
  }

  /** The error that the list makes the call report: an index out of range wins, then the last error
      of a command that validates or presents. */
  ghost predicate Reported(errors: seq<CommandError>, commands: seq<Command>, r: Error) {
    if exists e <- errors :: !InRange(e, commands) then r == BadParameter
    else if exists e <- errors :: Counts(e, commands) then exists k: nat :: LastCounts(errors, commands, k, r)
    else r == NoError
  }

  ghost predicate LastCounts(errors: seq<CommandError>, commands: seq<Command>, k: nat, r: Error) {
    && k < |errors| && Counts(errors[k], commands) && r == Hal(errors[k].code)
    && forall j :: k < j < |errors| ==> !Counts(errors[j], commands)
  }

  class Composer {
    var single: bool
    var writers: map<Display, seq<Command>>
    var readers: map<Display, Reader>

    ghost function View(): State
      reads this
    {
      State(single, writers, readers)
    }

    constructor ()
      ensures View() == START
    {
      single, writers, readers := true, map[], map[];
      new;
      AddReader(SINGLE_READER_KEY);
    }

    method AddReader(d: Display)
      modifies `readers
      ensures readers == Emplaced(old(readers), d, ReaderFor(d))
    {
      var display: Reader := None;
      if d != SINGLE_READER_KEY { display := Some(d); }
      if d !in readers { readers := readers[d := display]; }
    }

    method AddDisplay(d: Display, threaded: bool)
      requires Coupled(View())
      modifies `single, `writers, `readers
      ensures View() == Adding(old(View()), d, threaded) && Coupled(View())
      ensures writers == (if d in old(writers) then old(writers) else old(writers)[d := []])
      ensures single <==> old(single) && !threaded
    {
      AddingKeepsCoupled(View(), d, threaded);
      if d !in writers { writers := writers[d := []]; }
      if single {
        if threaded {
          single := false;
          readers := readers - {SINGLE_READER_KEY};
          AddReaders();
        }
      } else {
        AddReader(d);
      }
    }

    /** A reader for every writer. */
    method AddReaders()
      requires readers == map[]
      modifies `readers
      ensures readers == AllReaders(writers)
    {
      var rest := writers.Keys;
      while rest != {}
        invariant rest <= writers.Keys
        invariant readers == map d | d in writers && d !in rest :: ReaderFor(d)
        decreases |rest|
      {
        var d :| d in rest;
        AddReader(d);
        rest := rest - {d};
      }
    }

    method RemoveDisplay(d: Display)
      requires Coupled(View())
      modifies `writers, `readers
      ensures View() == Removing(old(View()), d) && Coupled(View())
      ensures writers == old(writers) - {d} && single == old(single)
    {
      RemovingKeepsCoupled(View(), d);
      writers := writers - {d};
      if !single { readers := readers - {d}; }
    }

    /** An operation that only writes a command: it is pending until the display is executed. */
    method Queue(d: Display, command: Command) returns (error: Error)
      requires Coupled(View())
      modifies `writers
      ensures Coupled(View()) && writers.Keys == old(writers.Keys)
      ensures error == if d in writers then NoError else BadDisplay
      ensures writers == if d in old(writers) then old(writers)[d := old(writers)[d] + [command]] else old(writers)
    {
      if d !in writers { return BadDisplay; }
      writers := writers[d := writers[d] + [command]];
      assert single || readers == AllReaders(writers);
      return NoError;
    }

    /** Sends the pending commands of a display; answer is the transport's failure, or the errors that
        the reader parsed. */
    method Execute(d: Display, failure: Option<int>, errors: seq<CommandError>) returns (error: Error)
      requires Coupled(View())
      modifies `writers
      ensures Coupled(View()) && writers.Keys == old(writers.Keys)
      ensures d !in writers ==> error == BadDisplay && writers == old(writers)
      ensures d in writers ==> writers == old(writers)[d := []]
      ensures d in writers && old(writers)[d] == [] ==> error == NoError
      ensures d in writers && old(writers)[d] != [] && failure.Some? ==> error == Hal(failure.value)
      ensures d in writers && old(writers)[d] != [] && failure.None? ==> Reported(errors, old(writers)[d], error)
    {
      var writer, reader := GetWriter(State(single, writers, readers), d), GetReader(State(single, writers, readers), d);
      if writer.None? || reader.None? { return BadDisplay; }
      var commands := writer.value;
      writers := writers[d := []];
      assert single || readers == AllReaders(writers);
      if commands == [] { return NoError; }
      if failure.Some? { return Hal(failure.value); }
      error := Report(errors, commands);
    }
  }

  method Report(errors: seq<CommandError>, commands: seq<Command>) returns (error: Error)
    ensures Reported(errors, commands, error)
  {
    error := NoError;
    for i := 0 to |errors|
      invariant Reported(errors[..i], commands, error) && error != BadParameter
    {
      ghost var was := error;
      if !(0 <= errors[i].index < |commands|) {
        assert errors[i] in errors;
        return BadParameter;
      }
      if commands[errors[i].index].Reports() { error := Hal(errors[i].code); }
      OneMore(errors[..i], errors[i], commands, was);
      assert errors[..i + 1] == errors[..i] + [errors[i]];
    }
    assert errors[..|errors|] == errors;
  }

  lemma {:induction false} OneMore(errors: seq<CommandError>, e: CommandError, commands: seq<Command>, r: Error)
    requires Reported(errors, commands, r) && r != BadParameter && InRange(e, commands)
    ensures Reported(errors + [e], commands, if Counts(e, commands) then Hal(e.code) else r)
  {
    var all := errors + [e];
    assert all[|errors|] == e;
    if Counts(e, commands) {
      assert LastCounts(all, commands, |errors|, Hal(e.code));
    } else if exists x <- errors :: Counts(x, commands) {
      var k: nat :| LastCounts(errors, commands, k, r);
      assert LastCounts(all, commands, k, r);
    }
  }
}
