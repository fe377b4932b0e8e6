/**
 Directory trees, and how a path is looked up in one: links above the last component are followed, as
 the kernel follows them, and the last component itself is not.
 */
module WorkTree {
  import opened Options

  /** A path inside a tree, as its components. */
  type Path = seq<string>

  datatype Entry =
    | File(contents: string, executable: bool, mtime: nat)
    | Link(target: string)
    | Directory

  type Tree = map<Path, Entry>

  predicate StrictlyBelow(p: Path, q: Path) { |q| < |p| && p[..|q|] == q }

  predicate AtOrBelow(p: Path, q: Path) { |q| <= |p| && p[..|q|] == q }

  /** Everything above an entry is a directory. The root itself is not an entry. */
  ghost predicate IsTree(tree: Tree) {
    && [] !in tree
    && forall p <- tree, n | 0 < n < |p| :: p[..n] in tree && tree[p[..n]].Directory?
  }

  /** The tree has an entry e or none at q. */
  function At(tree: Tree, q: Path): Option<Entry> { if q in tree then Some(tree[q]) else None }

  // ---------------------------------------------------------------------------
  // Looking up a path

  /** The kernel gives up after this many links. */
  const MAX_LINKS: nat := 40

  /** A component that is still to be looked up: of the path itself, or of a link's target. */
  datatype Step = Own(name: string) | Via(name: string)

  /** Where a path leads: to a place in the tree, whether or not something is there; nowhere, because
      something above it is not a directory; or out of the tree. */
  datatype Where = Found(path: Path) | Nowhere | Outside

  /** The text between slashes, from position n on; word is what was read since the last slash. */
  function Split(target: string, n: nat, word: string): seq<string>
    requires n <= |target|
    decreases |target| - n
  {
    if n == |target| then [word]
    else if target[n] == '/' then [word] + Split(target, n + 1, "")
    else Split(target, n + 1, word + [target[n]])
  }

  function Joined(words: seq<string>): string
    requires words != []
  {
    if |words| == 1 then words[0] else words[0] + "/" + Joined(words[1..])
  }

  /** The words of a target have no slashes, and with slashes between them they are the target. */
  lemma {:induction false} SplitJoins(target: string, n: nat, word: string)
    requires n <= |target| && '/' !in word
    ensures var words := Split(target, n, word);
            words != [] && Joined(words) == word + target[n..] && forall w <- words :: '/' !in w
    decreases |target| - n
  {
    if n < |target| {
      assert target[n..] == [target[n]] + target[n + 1..];
      if target[n] == '/' {
        SplitJoins(target, n + 1, "");
        assert Split(target, n, word)[1..] == Split(target, n + 1, "");
      } else {
        SplitJoins(target, n + 1, word + [target[n]]);
      }
    }
  }

  predicate IsAbsolute(target: string) { target != "" && target[0] == '/' }

  function Owns(p: Path): (r: seq<Step>)
    ensures |r| == |p| && forall i :: 0 <= i < |r| ==> r[i] == Own(p[i])
  {
    seq(|p|, i requires 0 <= i < |p| => Own(p[i]))
  }

  function Vias(names: seq<string>): (r: seq<Step>)
    ensures |r| == |names| && forall i :: 0 <= i < |r| ==> r[i] == Via(names[i])
  {
    seq(|names|, i requires 0 <= i < |names| => Via(names[i]))
  }

  function Names(todo: seq<Step>): (r: Path)
    ensures |r| == |todo| && forall i :: 0 <= i < |r| ==> r[i] == todo[i].name
  {
    seq(|todo|, i requires 0 <= i < |todo| => todo[i].name)
  }

  /** The directory that the steps lead to from the directory at, with so many links left to follow.
      A directory of the path itself that is missing counts as one that can be made. */
  function Walk(tree: Tree, at: Path, todo: seq<Step>, links: nat): Where
    decreases links, |todo|
  {
    if todo == [] then Found(at)
    else if todo[0] == Via("") || todo[0] == Via(".") then Walk(tree, at, todo[1..], links)
    else if todo[0] == Via("..") then
      if at == [] then Outside else Walk(tree, at[..|at| - 1], todo[1..], links)
    else
      var next := at + [todo[0].name];
      if next !in tree then if todo[0].Own? then Found(at + Names(todo)) else Nowhere
      else
        match tree[next]
        case File(_, _, _) => Nowhere
        case Directory => Walk(tree, next, todo[1..], links)
        case Link(target) =>
          if links == 0 then Nowhere
          else if IsAbsolute(target) then Outside
          else Walk(tree, at, Vias(Split(target, 0, "")) + todo[1..], links - 1)
  }

  /** Every place that the walk looks at, or passes once what is missing is made. */
  function Reads(tree: Tree, at: Path, todo: seq<Step>, links: nat): set<Path>
    decreases links, |todo|
  {
    if todo == [] then {}
    else if todo[0] == Via("") || todo[0] == Via(".") then Reads(tree, at, todo[1..], links)
    else if todo[0] == Via("..") then
      if at == [] then {} else Reads(tree, at[..|at| - 1], todo[1..], links)
    else
      var next := at + [todo[0].name];
      if next !in tree then (set n | 0 < n <= |todo| :: at + Names(todo)[..n])
      else
        match tree[next]
        case File(_, _, _) => {next}
        case Directory => {next} + Reads(tree, next, todo[1..], links)
        case Link(target) =>
          if links == 0 || IsAbsolute(target) then {next}
          else {next} + Reads(tree, at, Vias(Split(target, 0, "")) + todo[1..], links - 1)
  }

  /** The place in the target of a link where the walk finds nothing, if that is how it ends. */
  function Lacks(tree: Tree, at: Path, todo: seq<Step>, links: nat): Option<Path>
    decreases links, |todo|
  {
    if todo == [] then None
    else if todo[0] == Via("") || todo[0] == Via(".") then Lacks(tree, at, todo[1..], links)
    else if todo[0] == Via("..") then
      if at == [] then None else Lacks(tree, at[..|at| - 1], todo[1..], links)
    else
      var next := at + [todo[0].name];
      if next !in tree then if todo[0].Own? then None else Some(next)
      else
        match tree[next]
        case File(_, _, _) => None
        case Directory => Lacks(tree, next, todo[1..], links)
        case Link(target) =>
          if links == 0 || IsAbsolute(target) then None
          else Lacks(tree, at, Vias(Split(target, 0, "")) + todo[1..], links - 1)
  }

  /** The place of a path's own entry. */
  function Place(tree: Tree, p: Path): Where {
    if p == [] then Nowhere
    else
      var parent := Walk(tree, [], Owns(p[..|p| - 1]), MAX_LINKS);
      if parent.Found? then Found(parent.path + [p[|p| - 1]]) else parent
  }

  /** What the place of a path depends on. */
  function PlaceReads(tree: Tree, p: Path): set<Path> {
    if p == [] then {} else Reads(tree, [], Owns(p[..|p| - 1]), MAX_LINKS)
  }

  function PlaceLacks(tree: Tree, p: Path): Option<Path> {
    if p == [] then None else Lacks(tree, [], Owns(p[..|p| - 1]), MAX_LINKS)
  }

  // ---------------------------------------------------------------------------
  // Changes that do not move a path

  /** x is as before, or a directory was made where nothing was. */
  predicate Kept(before: Tree, after: Tree, x: Path) {
    At(after, x) == At(before, x) || (x !in before && x in after && after[x] == Directory)
  }

  /** Components of link targets come before the path's own. */
  ghost predicate OwnLast(todo: seq<Step>) {
    forall i, j :: 0 <= i < j < |todo| && todo[j].Via? ==> todo[i].Via?
  }

  /** Through directories that are missing or were made, a path leads where it says. */
  lemma {:induction false} WalkMade(tree: Tree, at: Path, todo: seq<Step>, links: nat)
    requires forall i :: 0 <= i < |todo| ==> todo[i].Own?
    requires forall n | 0 < n <= |todo| :: at + Names(todo)[..n] in tree ==> tree[at + Names(todo)[..n]] == Directory
    ensures Walk(tree, at, todo, links) == Found(at + Names(todo))
    decreases |todo|
  {
    var names := Names(todo);
    if todo == [] {
      assert at + names == at;
    } else {
      var next := at + [todo[0].name];
      assert at + names[..1] == next;
      assert at + names == next + Names(todo[1..]);
      if next in tree {
        forall n | 0 < n <= |todo[1..]|
          ensures next + Names(todo[1..])[..n] in tree ==> tree[next + Names(todo[1..])[..n]] == Directory
        {
          assert next + Names(todo[1..])[..n] == at + names[..n + 1];
        }
        WalkMade(tree, next, todo[1..], links);
      }
    }
  }

  /** Nothing is below what is missing. */
  lemma {:induction false} MissingBelow(tree: Tree, x: Path, y: Path)
    requires IsTree(tree) && x != [] && AtOrBelow(y, x)
    ensures y in tree ==> x in tree
  {
    if |x| < |y| {
      assert y in tree ==> y[..|x|] in tree;
    } else {
      assert y[..|x|] == y;
    }
  }

  /** A path whose reads are kept, and whose links still lack what they lacked, leads where it did. */
  lemma {:induction false} WalkStable(before: Tree, after: Tree, at: Path, todo: seq<Step>, links: nat)
    requires IsTree(before) && OwnLast(todo)
    requires forall x <- Reads(before, at, todo, links) :: Kept(before, after, x)
    requires Lacks(before, at, todo, links).Some? ==> Lacks(before, at, todo, links).value !in after
    ensures Walk(after, at, todo, links) == Walk(before, at, todo, links)
    decreases links, |todo|
  {
    if todo == [] {
    } else if todo[0] == Via("") || todo[0] == Via(".") {
      WalkStable(before, after, at, todo[1..], links);
    } else if todo[0] == Via("..") {
      if at != [] { WalkStable(before, after, at[..|at| - 1], todo[1..], links); }
    } else {
      var next := at + [todo[0].name];
      if next !in before {
        WalkStableMissing(before, after, at, todo, links);
      } else {
        assert next in Reads(before, at, todo, links);
        match before[next]
        case File(_, _, _) =>
        case Directory => WalkStable(before, after, next, todo[1..], links);
        case Link(target) =>
          if links > 0 && !IsAbsolute(target) {
            WalkStable(before, after, at, Vias(Split(target, 0, "")) + todo[1..], links - 1);
          }
      }
    }
  }

  lemma {:induction false} WalkStableMissing(before: Tree, after: Tree, at: Path, todo: seq<Step>, links: nat)
    requires IsTree(before) && OwnLast(todo) && todo != [] && todo[0] !in {Via(""), Via("."), Via("..")}
    requires at + [todo[0].name] !in before
    requires forall x <- Reads(before, at, todo, links) :: Kept(before, after, x)
    requires Lacks(before, at, todo, links).Some? ==> Lacks(before, at, todo, links).value !in after
    ensures Walk(after, at, todo, links) == Walk(before, at, todo, links)
  {
    var next, names := at + [todo[0].name], Names(todo);
    assert at + names[..1] == next;
    forall n | 0 < n <= |todo|
      ensures at + names[..n] in after ==> after[at + names[..n]] == Directory
    {
      var x := at + names[..n];
      assert x in Reads(before, at, todo, links);
      assert x[..|next|] == next;
      MissingBelow(before, next, x);
    }
    if todo[0].Own? {
      WalkMade(after, at, todo, links);
    }
  }

  lemma {:induction false} PlaceStable(before: Tree, after: Tree, p: Path)
    requires IsTree(before)
    requires forall x <- PlaceReads(before, p) :: Kept(before, after, x)
    requires PlaceLacks(before, p).Some? ==> PlaceLacks(before, p).value !in after
    ensures Place(after, p) == Place(before, p)
  {
    if p != [] {
      WalkStable(before, after, [], Owns(p[..|p| - 1]), MAX_LINKS);
    }
  }

  // ---------------------------------------------------------------------------
  // Above a place

  /** Everything above and at a directory path is a directory or missing. */
  ghost predicate IsClear(tree: Tree, d: Path) {
    forall n | 0 < n <= |d| :: d[..n] in tree ==> tree[d[..n]] == Directory
  }

  /** Everything above and at a directory path is a directory. */
  ghost predicate IsThere(tree: Tree, d: Path) {
    forall n | 0 < n <= |d| :: d[..n] in tree && tree[d[..n]] == Directory
  }

  /** The place of a path has only directories above it, there or still to be made. */
  lemma {:induction false} WalkClear(tree: Tree, at: Path, todo: seq<Step>, links: nat)
    requires IsTree(tree) && IsThere(tree, at) && Walk(tree, at, todo, links).Found?
    ensures IsClear(tree, Walk(tree, at, todo, links).path)
    decreases links, |todo|
  {
    if todo == [] {
    } else if todo[0] == Via("") || todo[0] == Via(".") {
      WalkClear(tree, at, todo[1..], links);
    } else if todo[0] == Via("..") {
      var up := at[..|at| - 1];
      assert forall n | 0 < n <= |up| :: up[..n] == at[..n];
      WalkClear(tree, up, todo[1..], links);
    } else {
      var next := at + [todo[0].name];
      if next !in tree {
        MissingClear(tree, at, todo[0].name, Names(todo));
      } else {
        match tree[next]
        case Directory =>
          forall n | 0 < n <= |next|
            ensures next[..n] in tree && tree[next[..n]] == Directory
          {
            assert n <= |at| ==> next[..n] == at[..n];
            assert next[..|next|] == next;
          }
          WalkClear(tree, next, todo[1..], links);
        case Link(target) =>
          WalkClear(tree, at, Vias(Split(target, 0, "")) + todo[1..], links - 1);
        case File(_, _, _) =>
      }
    }
  }

  lemma {:induction false} MissingClear(tree: Tree, at: Path, name: string, names: Path)
    requires IsTree(tree) && IsThere(tree, at) && at + [name] !in tree && names != [] && names[0] == name
    ensures IsClear(tree, at + names)
  {
    var d := at + names;
    forall n | 0 < n <= |d|
      ensures d[..n] in tree ==> tree[d[..n]] == Directory
    {
      if n <= |at| {
        assert d[..n] == at[..n];
      } else {
        assert d[..n][..|at| + 1] == at + [name];
        MissingBelow(tree, at + [name], d[..n]);
      }
    }
  }

  /** Everything above a place is a directory or missing. */
  ghost predicate ClearAbove(tree: Tree, l: Path) {
    forall n | 0 < n < |l| :: l[..n] in tree ==> tree[l[..n]] == Directory
  }

  lemma {:induction false} PlaceClear(tree: Tree, p: Path)
    requires IsTree(tree) && Place(tree, p).Found?
    ensures Place(tree, p).path != [] && ClearAbove(tree, Place(tree, p).path)
  {
    WalkClear(tree, [], Owns(p[..|p| - 1]), MAX_LINKS);
    var d := Walk(tree, [], Owns(p[..|p| - 1]), MAX_LINKS).path;
    var l := d + [p[|p| - 1]];
    forall n | 0 < n < |l|
      ensures l[..n] in tree ==> tree[l[..n]] == Directory
    {
      assert l[..n] == d[..n];
    }
  }
}
