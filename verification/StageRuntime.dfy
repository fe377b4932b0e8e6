/**
 The worklist of tools/stage-runtime.py: stage the transitive DT_NEEDED closure of the
 installed libraries ("Shared Object Dependencies", chapter 5 of the System V gABI),
 without entering names that the installation itself provides.
 */
module StageRuntime {
  import opened Options

  /** An ELF file: its DT_NEEDED entries, in order, and its contents. */
  datatype Elf = Elf(needed: seq<string>, contents: string)

  /** Who asked for a name: the command line, or a file. */
  datatype Parent = Required | Installed(path: string) | Found(directory: string, name: string)

  /** search lists the directories; files holds the ELF files under them; installed the
      ELF files of the installation, with their path and file name. */
  datatype Job = Job(
    require: seq<string>,
    installed: seq<(string, string, Elf)>,
    search: seq<string>,
    files: map<(string, string), Elf>)

  datatype Outcome =
    | Staged(runtime: map<string, Elf>)
    | NonSoname(name: string, parent: Parent)
    | MissingDependency(name: string, parent: Parent)

  /** Path(name).name == name. */
  predicate Bare(name: string) { '/' !in name && name != "." }

  function Provided(job: Job): set<string> { set i | 0 <= i < |job.installed| :: job.installed[i].1 }

  /** The i-th search directory is the first, from the n-th on, that holds the name. */
  predicate IsFirst(job: Job, name: string, n: nat, i: nat) {
    && n <= i < |job.search| && (job.search[i], name) in job.files
    && forall j | n <= j < i :: (job.search[j], name) !in job.files
  }

  /** The first search directory that holds the name. */
  function Locate(job: Job, name: string, n: nat): (r: Option<string>)
    requires n <= |job.search|
    ensures r.Some? ==> r.value in job.search && (r.value, name) in job.files
    ensures r.Some? ==> exists i: nat :: IsFirst(job, name, n, i) && job.search[i] == r.value
    ensures r.None? ==> forall i :: n <= i < |job.search| ==> (job.search[i], name) !in job.files
    decreases |job.search| - n
  {
    if n == |job.search| then None
    else if (job.search[n], name) in job.files then Some(job.search[n])
    else Locate(job, name, n + 1)
  }

  predicate Stageable(job: Job, name: string) { Bare(name) && Locate(job, name, 0).Some? }

  function File(job: Job, name: string): Elf
    requires Stageable(job, name)
  {
    job.files[(Locate(job, name, 0).value, name)]
  }

  /** The file is that of the first search directory that holds the name. */
  ghost predicate FromFirst(job: Job, name: string, elf: Elf) {
    exists i: nat :: IsFirst(job, name, 0, i) && elf == job.files[(job.search[i], name)]
  }

  /** A name can be staged exactly if it is bare and some search directory holds it, and its file is
      that of the first one. */
  lemma {:induction false} StageableIff(job: Job, name: string)
    ensures Stageable(job, name) <==>
            Bare(name) && exists i | 0 <= i < |job.search| :: (job.search[i], name) in job.files
    ensures Stageable(job, name) ==> FromFirst(job, name, File(job, name))
  {
  }

  // ---------------------------------------------------------------------------
  // The closure

  /** The name is asked for by the command line or by an installed file. */
  ghost predicate IsRoot(job: Job, name: string) {
    name in job.require || exists i :: 0 <= i < |job.installed| && name in job.installed[i].2.needed
  }

  predicate Needs(job: Job, name: string, dependency: string) {
    Stageable(job, name) && dependency in File(job, name).needed
  }

  /** A chain of dependencies from a root to name, through stageable names only, none of
      them provided. */
  ghost predicate IsChain(job: Job, p: seq<string>, name: string) {
    && p != [] && IsRoot(job, p[0]) && p[|p| - 1] == name
    && (forall i :: 0 <= i < |p| ==> p[i] !in Provided(job))
    && (forall i :: 0 < i < |p| ==> Needs(job, p[i - 1], p[i]))
  }

  ghost predicate Wanted(job: Job, name: string) { exists p :: IsChain(job, p, name) }

  lemma {:induction false} RootWanted(job: Job, name: string)
    requires IsRoot(job, name) && name !in Provided(job)
    ensures Wanted(job, name)
  {
    assert IsChain(job, [name], name);
  }

  lemma {:induction false} NeededWanted(job: Job, name: string, dependency: string)
    requires Wanted(job, name) && Needs(job, name, dependency) && dependency !in Provided(job)
    ensures Wanted(job, dependency)
  {
    var p :| IsChain(job, p, name);
    ChainSnoc(job, p, name, dependency);
  }

  lemma {:induction false} ChainSnoc(job: Job, p: seq<string>, name: string, dependency: string)
    requires IsChain(job, p, name) && Needs(job, name, dependency) && dependency !in Provided(job)
    ensures IsChain(job, p + [dependency], dependency)
  {
    var q := p + [dependency];
    forall i | 0 < i < |q|
      ensures Needs(job, q[i - 1], q[i])
    {
      assert i < |p| ==> q[i] == p[i];
      assert q[i - 1] == p[i - 1];
    }
  }

  /** A set that holds the roots and the needs of its members holds everything wanted. */
  ghost predicate Closed(job: Job, s: set<string>) {
    && (forall name :: IsRoot(job, name) ==> name in Provided(job) || name in s)
    && (forall name, d :: name in s && Needs(job, name, d) ==>
          d in Provided(job) || d in s)
  }

  lemma {:induction false} ChainInClosed(job: Job, s: set<string>, p: seq<string>, n: nat)
    requires Closed(job, s) && p != [] && IsChain(job, p, p[|p| - 1]) && n < |p|
    ensures p[n] in s
  {
    if n > 0 {
      ChainInClosed(job, s, p, n - 1);
    }
  }

  lemma {:induction false} WantedInClosed(job: Job, s: set<string>, name: string)
    requires Closed(job, s) && Wanted(job, name)
    ensures name in s
  {
    var p :| IsChain(job, p, name);
    ChainInClosed(job, s, p, |p| - 1);
  }

  /** parent has a reason to ask for name. */
  ghost predicate Asks(job: Job, name: string, parent: Parent) {
    match parent
    case Required => name in job.require
    case Installed(path) =>
      exists i :: 0 <= i < |job.installed| && job.installed[i].0 == path && name in job.installed[i].2.needed
    case Found(d, n) =>
      Wanted(job, n) && Needs(job, n, name) && Locate(job, n, 0) == Some(d)
  }

  /** Everything that is pending was asked for. */
  ghost predicate AllAsked(job: Job, pending: seq<(string, Parent)>) {
    forall i :: 0 <= i < |pending| ==> Asks(job, pending[i].0, pending[i].1)
  }

  lemma {:induction false} AskedIsWanted(job: Job, name: string, parent: Parent)
    requires Asks(job, name, parent) && name !in Provided(job)
    ensures Wanted(job, name)
  {
    match parent {
      case Found(d, n) => NeededWanted(job, n, name);
      case _ => RootWanted(job, name);
    }
  }

  ghost predicate Queued(pending: seq<(string, Parent)>, name: string) {
    exists i :: 0 <= i < |pending| && pending[i].0 == name
  }

  /** What is still missing from a closed set is in the queue. */
  ghost predicate ClosedBut(job: Job, s: set<string>, pending: seq<(string, Parent)>) {
    && (forall name :: IsRoot(job, name) ==> name in Provided(job) || name in s || Queued(pending, name))
    && (forall name, d :: name in s && Needs(job, name, d) ==>
          d in Provided(job) || d in s || Queued(pending, d))
  }

  function Asked(names: seq<string>, parent: Parent): (r: seq<(string, Parent)>)
    ensures |r| == |names|
    ensures forall i :: 0 <= i < |r| ==> r[i] == (names[i], parent)
  {
    seq(|names|, i requires 0 <= i < |names| => (names[i], parent))
  }

  lemma {:induction false} StillQueued(a: seq<(string, Parent)>, b: seq<(string, Parent)>, name: string)
    ensures Queued(a + b, name) <==> Queued(a, name) || Queued(b, name)
  {
    if Queued(a, name) {
      var i :| 0 <= i < |a| && a[i].0 == name;
      assert (a + b)[i].0 == name;
    }
    if Queued(b, name) {
      var i :| 0 <= i < |b| && b[i].0 == name;
      assert (a + b)[|a| + i].0 == name;
    }
  }

  /** The names that some search directory holds: no other name is ever staged. */
  ghost function Universe(job: Job): set<string> { set k | k in job.files :: k.1 }

  // ---------------------------------------------------------------------------
  // The program

  method Initial(job: Job) returns (pending: seq<(string, Parent)>)
    ensures AllAsked(job, pending)
    ensures forall name :: IsRoot(job, name) ==> Queued(pending, name)
  {
    pending := Asked(job.require, Required);
    forall name | name in job.require
      ensures Queued(pending, name)
    {
      var i :| 0 <= i < |job.require| && job.require[i] == name;
      assert pending[i].0 == name;
    }
    for n := 0 to |job.installed|
      invariant AllAsked(job, pending)
      invariant forall name :: name in job.require ==> Queued(pending, name)
      invariant forall i, name :: 0 <= i < n && name in job.installed[i].2.needed ==> Queued(pending, name)
    {
      var (path, _, elf) := job.installed[n];
      var more := Asked(elf.needed, Installed(path));
      forall name
        ensures Queued(pending + more, name) <==> Queued(pending, name) || Queued(more, name)
      {
        StillQueued(pending, more, name);
      }
      forall name | name in elf.needed
        ensures Queued(more, name)
      {
        var i :| 0 <= i < |elf.needed| && elf.needed[i] == name;
        assert more[i].0 == name;
      }
      pending := pending + more;
    }
  }

  lemma {:induction false} TakeHead(job: Job, s: set<string>, pending: seq<(string, Parent)>, t: set<string>,
                                    more: seq<(string, Parent)>)
    requires pending != [] && ClosedBut(job, s, pending)
    requires pending[0].0 in Provided(job) || pending[0].0 in t
    requires s <= t <= s + {pending[0].0}
    requires pending[0].0 !in s ==> forall d :: Needs(job, pending[0].0, d) && pending[0].0 in t ==> Queued(more, d)
    ensures ClosedBut(job, t, pending[1..] + more)
  {
    var rest := pending[1..];
    forall name
      ensures Queued(pending, name) ==> name == pending[0].0 || Queued(rest + more, name)
      ensures Queued(more, name) ==> Queued(rest + more, name)
    {
      StillQueued(rest, more, name);
      if Queued(pending, name) && name != pending[0].0 {
        var i :| 0 <= i < |pending| && pending[i].0 == name;
        assert rest[i - 1].0 == name;
      }
    }
  }

  /** The names staged so far are wanted, each with its file, and the queue holds what they
      still lack. */
  ghost predicate Progress(job: Job, runtime: map<string, Elf>, pending: seq<(string, Parent)>) {
    && AllAsked(job, pending)
    && ClosedBut(job, runtime.Keys, pending)
    && AllStaged(job, runtime)
  }

  /** What is staged is wanted, and is the file that was found for it. */
  ghost predicate AllStaged(job: Job, runtime: map<string, Elf>) {
    && (forall name <- runtime :: Wanted(job, name) && name in Universe(job))
    && (forall name <- runtime :: Stageable(job, name) && runtime[name] == File(job, name))
  }

  lemma {:induction false} AllFromFirst(job: Job, runtime: map<string, Elf>)
    requires AllStaged(job, runtime)
    ensures forall name <- runtime :: FromFirst(job, name, runtime[name])
  {
    forall name | name in runtime
      ensures FromFirst(job, name, runtime[name])
    {
      StageableIff(job, name);
    }
  }

  lemma {:induction false} OneMoreStaged(job: Job, runtime: map<string, Elf>, name: string)
    requires AllStaged(job, runtime) && Wanted(job, name) && Stageable(job, name)
    ensures name in Universe(job) && AllStaged(job, runtime[name := File(job, name)])
    ensures runtime[name := File(job, name)].Keys == runtime.Keys + {name}
  {
    assert (Locate(job, name, 0).value, name) in job.files;
  }

  lemma {:induction false} SkipHead(job: Job, runtime: map<string, Elf>, pending: seq<(string, Parent)>)
    requires pending != [] && Progress(job, runtime, pending)
    requires pending[0].0 in Provided(job) || pending[0].0 in runtime
    ensures Progress(job, runtime, pending[1..])
  {
    TakeHead(job, runtime.Keys, pending, runtime.Keys, []);
    assert pending[1..] + [] == pending[1..];
  }

  lemma {:induction false} AllAskedConcat(job: Job, a: seq<(string, Parent)>, b: seq<(string, Parent)>)
    requires AllAsked(job, a) && AllAsked(job, b)
    ensures AllAsked(job, a + b)
  {
  }

  /** The needs of a staged file are queued, and it has a reason to ask for them. */
  lemma {:induction false} NeedsQueued(job: Job, name: string, directory: string)
    requires Wanted(job, name) && Stageable(job, name) && Locate(job, name, 0) == Some(directory)
    ensures forall d :: Needs(job, name, d) ==> Queued(Asked(File(job, name).needed, Found(directory, name)), d)
    ensures AllAsked(job, Asked(File(job, name).needed, Found(directory, name)))
  {
    var needed := File(job, name).needed;
    var more := Asked(needed, Found(directory, name));
    forall d | Needs(job, name, d)
      ensures Queued(more, d)
    {
      var i :| 0 <= i < |needed| && needed[i] == d;
      assert more[i].0 == d;
    }
    forall i | 0 <= i < |more|
      ensures Asks(job, more[i].0, more[i].1)
    {
      assert Needs(job, name, more[i].0);
    }
  }

  lemma {:induction false} StageHead(job: Job, runtime: map<string, Elf>, pending: seq<(string, Parent)>,
                                     directory: string)
    requires pending != [] && Progress(job, runtime, pending)
    requires pending[0].0 !in Provided(job) && pending[0].0 !in runtime
    requires Stageable(job, pending[0].0) && Locate(job, pending[0].0, 0) == Some(directory)
    ensures var name := pending[0].0;
            && Progress(job, runtime[name := File(job, name)],
                        pending[1..] + Asked(File(job, name).needed, Found(directory, name)))
            && name in Universe(job)
  {
    var (name, parent) := pending[0];
    assert Asks(job, name, parent);
    AskedIsWanted(job, name, parent);
    var more := Asked(File(job, name).needed, Found(directory, name));
    NeedsQueued(job, name, directory);
    AllAskedConcat(job, pending[1..], more);
    OneMoreStaged(job, runtime, name);
    TakeHead(job, runtime.Keys, pending, runtime.Keys + {name}, more);
  }

  /** When the queue is empty, exactly the wanted names are staged. */
  lemma {:induction false} Finished(job: Job, runtime: map<string, Elf>)
    requires Progress(job, runtime, [])
    ensures forall name :: Wanted(job, name) ==> Stageable(job, name)
    ensures forall name :: name in runtime <==> Wanted(job, name)
    ensures forall name <- runtime :: FromFirst(job, name, runtime[name])
  {
    forall name | Wanted(job, name)
      ensures name in runtime
    {
      WantedInClosed(job, runtime.Keys, name);
    }
    AllFromFirst(job, runtime);
  }

  /** The staging worklist ends. It succeeds exactly when every wanted name can be staged, and
      then stages exactly the wanted names, each from the first directory that holds it; a
      failure names a wanted file that cannot be staged and a file that needs it. */
  method Stage(job: Job) returns (r: Outcome)
    ensures r.Staged? <==> forall name :: Wanted(job, name) ==> Stageable(job, name)
    ensures r.Staged? ==> forall name :: name in r.runtime <==> Wanted(job, name)
    ensures r.Staged? ==> forall name :: name in r.runtime ==>
              Stageable(job, name) && r.runtime[name] == File(job, name)
    ensures r.Staged? ==> forall name <- r.runtime :: FromFirst(job, name, r.runtime[name])
    ensures !r.Staged? ==> Wanted(job, r.name) && Asks(job, r.name, r.parent)
    ensures r.NonSoname? ==> !Bare(r.name)
    ensures r.MissingDependency? ==> Bare(r.name) && Locate(job, r.name, 0).None?
  {
    var provided := Provided(job);
    var pending := Initial(job);
    var runtime: map<string, Elf> := map[];
    while pending != []
      invariant Progress(job, runtime, pending)
      decreases Universe(job) - runtime.Keys, |pending|
    {
      var (name, parent) := pending[0];
      if name in provided || name in runtime {
        SkipHead(job, runtime, pending);
        pending := pending[1..];
        continue;
      }
      assert Asks(job, name, parent);
      AskedIsWanted(job, name, parent);
      if !Bare(name) {
        return NonSoname(name, parent);
      }
      var directory := Locate(job, name, 0);
      if directory.None? {
        return MissingDependency(name, parent);
      }
      var elf := job.files[(directory.value, name)];
      StageHead(job, runtime, pending, directory.value);
      runtime := runtime[name := elf];
      pending := pending[1..] + Asked(elf.needed, Found(directory.value, name));
    }
    Finished(job, runtime);
    return Staged(runtime);
  }
}
