/**
 prepare of tools/prepare-build.py: bring the work tree in line with the input snapshot,
 either by a clean copy or by an incremental pass over the cached tree.
 */
module PrepareBuild {
  import opened Options
  import opened WorkTree

  /** An input of the snapshot: what tree_identity records. Digests stand for contents. */
  datatype Input = Blob(contents: string, executable: bool) | Symlink(target: string)

  type Inputs = map<Path, Input>

  /** The paths of a snapshot are leaves: none lies below another. */
  ghost predicate Leaves(files: Inputs) {
    forall p, q :: p in files && q in files ==> !StrictlyBelow(p, q)
  }

  /** target.is_symlink/is_file, contents, link target and executable bit all agree. */
  predicate Matches(tree: Tree, p: Path, item: Input) {
    p in tree &&
    match item
    case Symlink(target) => tree[p] == Link(target)
    case Blob(contents, executable) =>
      tree[p].File? && tree[p].contents == contents && tree[p].executable == executable
  }

  /** Every input is in place. */
  ghost predicate Agrees(tree: Tree, files: Inputs) {
    forall p :: p in files ==> Matches(tree, p, files[p])
  }

  /** The same as a reader of the tree sees it, who follows the links above an input. */
  predicate MatchesThrough(tree: Tree, p: Path, item: Input) {
    Place(tree, p).Found? && Matches(tree, Place(tree, p).path, item)
  }

  ghost predicate AgreesThrough(tree: Tree, files: Inputs) {
    forall p <- files :: MatchesThrough(tree, p, files[p])
  }

  // ---------------------------------------------------------------------------
  // The identity of a snapshot

  function InputOf(e: Entry): Input
    requires !e.Directory?
  {
    match e
    case File(contents, executable, _) => Blob(contents, executable)
    case Link(target) => Symlink(target)
  }

  /** tree_identity: the files and links of a tree, except below .git. */
  function Identity(tree: Tree): Inputs {
    map p | p in tree && !tree[p].Directory? && ".git" !in p :: InputOf(tree[p])
  }

  /** No input of a tree lies below another, and the tree agrees with its own inputs. */
  lemma {:induction false} IdentityAgrees(tree: Tree)
    requires IsTree(tree)
    ensures [] !in Identity(tree) && Leaves(Identity(tree)) && Agrees(tree, Identity(tree))
  {
    var files := Identity(tree);
    forall p, q | p in files && q in files
      ensures !StrictlyBelow(p, q)
    {
      assert 0 < |q| < |p| ==> tree[p[..|q|]].Directory?;
    }
  }

  /** p lies in no .git directory, and e is what stands there apart from its time. */
  ghost predicate Holds(tree: Tree, p: Path, e: Entry) {
    && ".git" !in p && p in tree && !tree[p].Directory?
    && (e.File? ==> tree[p].File? && tree[p].contents == e.contents && tree[p].executable == e.executable)
    && (e.Link? ==> tree[p] == e)
  }

  /** Trees have the same identity exactly if they hold the same files and links. */
  lemma {:induction false} IdentityDecides(a: Tree, b: Tree)
    ensures Identity(a) == Identity(b) <==>
            forall p: Path, e: Entry | !e.Directory? :: Holds(a, p, e) <==> Holds(b, p, e)
  {
    if Identity(a) == Identity(b) {
      forall p: Path, e: Entry | !e.Directory?
        ensures Holds(a, p, e) <==> Holds(b, p, e)
      {
        assert p in Identity(a) <==> p in Identity(b);
        if p in Identity(a) { assert Identity(a)[p] == Identity(b)[p]; }
      }
    }
    if forall p: Path, e: Entry | !e.Directory? :: Holds(a, p, e) <==> Holds(b, p, e) {
      forall p: Path
        ensures p in Identity(a) <==> p in Identity(b)
        ensures p in Identity(a) && p in Identity(b) ==> Identity(a)[p] == Identity(b)[p]
      {
        assert p in Identity(a) ==> Holds(a, p, a[p]) && Holds(b, p, a[p]);
        assert p in Identity(b) ==> Holds(b, p, b[p]) && Holds(a, p, b[p]);
      }
    }
  }

  // ---------------------------------------------------------------------------
  // One place

  /** rmtree or unlink: the entry and everything below it. */
  function Without(tree: Tree, p: Path): (r: Tree)
    ensures forall q :: q in r <==> q in tree && q != p && !StrictlyBelow(q, p)
    ensures forall q :: q in r ==> r[q] == tree[q]
  {
    map q | q in tree && q != p && !StrictlyBelow(q, p) :: tree[q]
  }

  function Ancestors(p: Path): set<Path> { set n | 0 < n < |p| :: p[..n] }

  /** parent.mkdir(parents=True, exist_ok=True). */
  function WithParents(tree: Tree, p: Path): (r: Tree)
    ensures forall q :: q in r <==> q in tree || q in Ancestors(p)
    ensures forall q :: q in r ==> r[q] == if q in tree then tree[q] else Directory
  {
    (map q | q in Ancestors(p) :: Directory) + tree
  }

  function Fresh(item: Input, now: nat): Entry {
    match item
    case Blob(contents, executable) => File(contents, executable, now)
    case Symlink(target) => Link(target)
  }

  /** The work tree after one place was rewritten. */
  function Rewritten(tree: Tree, p: Path, item: Input, now: nat): Tree {
    WithParents(Without(tree, p), p)[p := Fresh(item, now)]
  }

  // ---------------------------------------------------------------------------
  // The incremental pass

  /** The pass ends with a tree and the inputs that it rewrote; it fails at an input above which
      something is not a directory; or an input leads out of the tree, to what is not modelled. */
  datatype Passed = Done(tree: Tree, rewritten: set<Path>) | Failed | Escapes

  /** One input of the cached tree. */
  function PassOne(tree: Tree, rewritten: set<Path>, p: Path, item: Input, now: nat): Passed {
    match Place(tree, p)
    case Nowhere => Failed
    case Outside => Escapes
    case Found(l) =>
      if Matches(tree, l, item) then Done(tree, rewritten)
      else Done(Rewritten(tree, l, item, now), rewritten + {p})
  }

  function Pass(tree: Tree, order: seq<Path>, files: Inputs, now: nat): Passed
    requires forall p <- order :: p in files
  {
    if order == [] then Done(tree, {})
    else
      var before, p := Pass(tree, order[..|order| - 1], files, now), order[|order| - 1];
      if before.Done? then PassOne(before.tree, before.rewritten, p, files[p], now) else before
  }

  /** The inputs that are not in place. */
  function Stale(tree: Tree, files: Inputs): set<Path> {
    set p | p in files && !MatchesThrough(tree, p, files[p])
  }

  /** q is not in place, and its place is l. */
  predicate StaleAt(work: Tree, files: Inputs, q: Path, l: Path) {
    q in Stale(work, files) && Place(work, q) == Found(l)
  }

  /** Rewriting the place l cannot change where p leads. */
  ghost predicate Unmoved(work: Tree, p: Path, l: Path) {
    && (forall x <- PlaceReads(work, p) :: !AtOrBelow(x, l))
    && (PlaceLacks(work, p).Some? ==>
          !AtOrBelow(PlaceLacks(work, p).value, l) && !AtOrBelow(l, PlaceLacks(work, p).value))
    && (Place(work, p).Found? ==>
          forall n | 0 < n < |Place(work, p).path| :: !AtOrBelow(Place(work, p).path[..n], l))
  }

  /** No input leads through a place that the pass rewrites. */
  ghost predicate Steady(work: Tree, files: Inputs) {
    forall p <- files, q, l | StaleAt(work, files, q, l) :: Unmoved(work, p, l)
  }

  /** Two inputs that differ have the same place. */
  ghost predicate Conflict(work: Tree, files: Inputs) {
    exists p <- files, q <- files ::
      Place(work, p).Found? && Place(work, p) == Place(work, q) && files[p] != files[q]
  }

  ghost predicate UnderStale(work: Tree, files: Inputs, x: Path) {
    exists q, l :: StaleAt(work, files, q, l) && AtOrBelow(x, l)
  }

  ghost predicate AboveStale(work: Tree, files: Inputs, x: Path) {
    exists q, l :: StaleAt(work, files, q, l) && AtOrBelow(l, x)
  }

  /** Only the places of inputs that are not in place have changed, with what was below them, and
      directories were made above them. */
  ghost predicate OnlyStaleChanged(work: Tree, tree: Tree, files: Inputs) {
    && (forall x: Path :: Kept(work, tree, x) || UnderStale(work, files, x))
    && (forall x <- tree | x !in work :: UnderStale(work, files, x) || AboveStale(work, files, x))
  }

  lemma {:induction false} RewriteChanges(work: Tree, tree: Tree, files: Inputs, q: Path, l: Path, item: Input, now: nat)
    requires OnlyStaleChanged(work, tree, files) && StaleAt(work, files, q, l)
    ensures OnlyStaleChanged(work, Rewritten(tree, l, item, now), files)
  {
    var after := Rewritten(tree, l, item, now);
    forall x: Path
      ensures Kept(work, after, x) || UnderStale(work, files, x)
      ensures x in after && x !in work ==> UnderStale(work, files, x) || AboveStale(work, files, x)
    {
      if AtOrBelow(x, l) {
        assert UnderStale(work, files, x);
      } else {
        assert x != l && !StrictlyBelow(x, l);
        if x in Ancestors(l) {
          assert AtOrBelow(l, x);
          assert AboveStale(work, files, x);
        }
      }
    }
  }

  lemma {:induction false} LacksMissing(tree: Tree, at: Path, todo: seq<Step>, links: nat)
    ensures Lacks(tree, at, todo, links).Some? ==> Lacks(tree, at, todo, links).value !in tree
    decreases links, |todo|
  {
    if todo == [] {
    } else if todo[0] == Via("") || todo[0] == Via(".") {
      LacksMissing(tree, at, todo[1..], links);
    } else if todo[0] == Via("..") {
      if at != [] { LacksMissing(tree, at[..|at| - 1], todo[1..], links); }
    } else {
      var next := at + [todo[0].name];
      if next in tree {
        match tree[next]
        case File(_, _, _) =>
        case Directory => LacksMissing(tree, next, todo[1..], links);
        case Link(target) =>
          if links > 0 { LacksMissing(tree, at, Vias(Split(target, 0, "")) + todo[1..], links - 1); }
      }
    }
  }

  /** While only such places change, every input leads where it did. */
  lemma {:induction false} StaysPut(work: Tree, tree: Tree, files: Inputs, p: Path)
    requires IsTree(work) && Steady(work, files) && OnlyStaleChanged(work, tree, files) && p in files
    ensures Place(tree, p) == Place(work, p)
  {
    forall x | x in PlaceReads(work, p)
      ensures Kept(work, tree, x)
    {
      assert !UnderStale(work, files, x) by {
        forall q, l | StaleAt(work, files, q, l)
          ensures !AtOrBelow(x, l)
        {
          assert Unmoved(work, p, l);
        }
      }
    }
    if p != [] { LacksMissing(work, [], Owns(p[..|p| - 1]), MAX_LINKS); }
    forall q, l | StaleAt(work, files, q, l)
      ensures PlaceLacks(work, p).Some? ==>
                !AtOrBelow(PlaceLacks(work, p).value, l) && !AtOrBelow(l, PlaceLacks(work, p).value)
    {
      assert Unmoved(work, p, l);
    }
    PlaceStable(work, tree, p);
  }

  /** The place of an input that changed is the place of one that was not in place. */
  lemma {:induction false} ChangedIsStale(work: Tree, tree: Tree, files: Inputs, p: Path, l: Path) returns (q: Path)
    requires IsTree(work) && Steady(work, files) && OnlyStaleChanged(work, tree, files) && p in files
    requires Place(work, p) == Found(l) && !Matches(tree, l, files[p])
    ensures StaleAt(work, files, q, l)
  {
    if p in Stale(work, files) {
      q := p;
    } else {
      assert !Kept(work, tree, l);
      var k;
      q, k :| StaleAt(work, files, q, k) && AtOrBelow(l, k);
      PlaceClear(work, q);
      assert Unmoved(work, p, k);
      assert |k| < |l| ==> !AtOrBelow(l[..|k|], k);
      assert l[..|k|] == k;
      assert k[..|k|] == k;
    }
  }

  /** What is known after a part of the pass, if no input leads through a place that it rewrites. */
  ghost predicate PassedSo(work: Tree, tree: Tree, order: seq<Path>, files: Inputs) {
    && OnlyStaleChanged(work, tree, files)
    && (forall p <- order :: p in files && Place(work, p).Found?)
  }

  /** The pass fails at the first input that leads nowhere, and at nothing else. */
  lemma {:induction false} PassSteady(work: Tree, order: seq<Path>, files: Inputs, now: nat)
    requires IsTree(work) && Steady(work, files) && forall p <- order :: p in files
    ensures var r := Pass(work, order, files, now);
            && (r.Done? ==> PassedSo(work, r.tree, order, files))
            && (r.Failed? ==> exists p <- order :: Place(work, p).Nowhere?)
            && (r.Escapes? ==> exists p <- order :: Place(work, p).Outside?)
  {
    if order == [] {
    } else {
      var earlier, p := order[..|order| - 1], order[|order| - 1];
      assert order == earlier + [p];
      PassSteady(work, earlier, files, now);
      var before := Pass(work, earlier, files, now);
      if before.Done? {
        StaysPut(work, before.tree, files, p);
        assert p in order;
        if Place(work, p).Found? && !Matches(before.tree, Place(work, p).path, files[p]) {
          var q := ChangedIsStale(work, before.tree, files, p, Place(work, p).path);
          RewriteChanges(work, before.tree, files, q, Place(work, p).path, files[p], now);
        }
      }
    }
  }

  // ---------------------------------------------------------------------------
  // Inputs that do not conflict

  /** The inputs dealt with stand at their places: as before if they were in place, else fresh. */
  ghost predicate Settled(work: Tree, tree: Tree, order: seq<Path>, files: Inputs, now: nat) {
    forall p <- order :: p in files && Place(work, p).Found? &&
      At(tree, Place(work, p).path) ==
      if MatchesThrough(work, p, files[p]) then At(work, Place(work, p).path)
      else if files[p].Blob? then Some(File(files[p].contents, files[p].executable, now))
      else Some(Link(files[p].target))
  }

  /** Exactly inputs that were not in place are reported, one for each place at least. */
  ghost predicate Reported(work: Tree, rewritten: set<Path>, order: seq<Path>, files: Inputs) {
    && rewritten <= Stale(work, files)
    && (forall p <- order :: p in Stale(work, files) ==> exists q <- rewritten :: Place(work, q) == Place(work, p))
  }

  /** The place of an input in place is not rewritten, unless it conflicts with another. */
  lemma {:induction false} InPlaceKept(work: Tree, tree: Tree, files: Inputs, p: Path)
    requires IsTree(work) && Steady(work, files) && !Conflict(work, files)
    requires OnlyStaleChanged(work, tree, files) && p in files && MatchesThrough(work, p, files[p])
    ensures At(tree, Place(work, p).path) == At(work, Place(work, p).path)
  {
    var l := Place(work, p).path;
    forall q, k | StaleAt(work, files, q, k)
      ensures !AtOrBelow(l, k)
    {
      PlaceClear(work, q);
      assert Unmoved(work, p, k);
      assert k[..|k|] == k;
      if |k| < |l| {
        assert !AtOrBelow(l[..|k|], k);
      } else {
        assert l[..|l|] == l;
      }
    }
    assert !UnderStale(work, files, l);
  }

  /** Rewriting one place leaves the places of the inputs with other places alone. */
  lemma {:induction false} OtherPlaceKept(work: Tree, tree: Tree, files: Inputs, p: Path, q: Path, k: Path, now: nat)
    requires IsTree(work) && Steady(work, files) && p in files && Place(work, p).Found? && StaleAt(work, files, q, k)
    requires Place(work, p).path != k && Place(work, p).path in tree
    ensures At(Rewritten(tree, k, files[q], now), Place(work, p).path) == At(tree, Place(work, p).path)
  {
    var l := Place(work, p).path;
    PlaceClear(work, q);
    assert Unmoved(work, p, k);
    assert k[..|k|] == k;
    assert |k| < |l| ==> !AtOrBelow(l[..|k|], k);
  }

  /** The place of an input is as before, or a directory was made there, until an input with that
      place is dealt with. */
  ghost predicate Waiting(work: Tree, tree: Tree, order: seq<Path>, files: Inputs) {
    forall p <- files :: Place(work, p).Found? && (forall q <- order :: Place(work, q) != Place(work, p)) ==>
      Kept(work, tree, Place(work, p).path)
  }

  ghost predicate SettledSo(work: Tree, r: Passed, order: seq<Path>, files: Inputs, now: nat)
    requires r.Done?
  {
    && Settled(work, r.tree, order, files, now) && Reported(work, r.rewritten, order, files)
    && Waiting(work, r.tree, order, files)
  }

  lemma {:induction false} PassSettles(work: Tree, order: seq<Path>, files: Inputs, now: nat)
    requires IsTree(work) && Steady(work, files) && !Conflict(work, files) && forall p <- order :: p in files
    ensures var r := Pass(work, order, files, now);
            r.Done? ==> SettledSo(work, r, order, files, now)
  {
    if order != [] && Pass(work, order, files, now).Done? {
      var earlier, p := order[..|order| - 1], order[|order| - 1];
      assert order == earlier + [p];
      PassSettles(work, earlier, files, now);
      PassSteady(work, earlier, files, now);
      SettleOne(work, Pass(work, earlier, files, now), earlier, p, files, now);
    }
  }

  lemma {:induction false} SettleOne(work: Tree, before: Passed, earlier: seq<Path>, p: Path, files: Inputs, now: nat)
    requires IsTree(work) && Steady(work, files) && !Conflict(work, files) && p in files && before.Done?
    requires PassedSo(work, before.tree, earlier, files) && SettledSo(work, before, earlier, files, now)
    ensures var r := PassOne(before.tree, before.rewritten, p, files[p], now);
            r.Done? ==> SettledSo(work, r, earlier + [p], files, now)
  {
    StaysPut(work, before.tree, files, p);
    if Place(work, p).Found? {
      if Matches(before.tree, Place(work, p).path, files[p]) {
        SettleMatching(work, before, earlier, p, files, now);
      } else {
        SettleRewriting(work, before, earlier, p, files, now);
      }
    }
  }

  /** A stale input that matches by now shares its place with one that was dealt with. */
  lemma {:induction false} SharedPlace(work: Tree, tree: Tree, earlier: seq<Path>, p: Path, files: Inputs)
    returns (q: Path)
    requires Waiting(work, tree, earlier, files) && p in Stale(work, files) && Place(work, p).Found?
    requires Matches(tree, Place(work, p).path, files[p])
    ensures q in earlier && Place(work, q) == Place(work, p)
  {
    assert !Kept(work, tree, Place(work, p).path);
    q :| q in earlier && Place(work, q) == Place(work, p);
  }

  lemma {:induction false} SettleMatching(work: Tree, before: Passed, earlier: seq<Path>, p: Path, files: Inputs, now: nat)
    requires IsTree(work) && Steady(work, files) && !Conflict(work, files) && p in files && before.Done?
    requires PassedSo(work, before.tree, earlier, files) && SettledSo(work, before, earlier, files, now)
    requires Place(work, p).Found? && Matches(before.tree, Place(work, p).path, files[p])
    ensures SettledSo(work, before, earlier + [p], files, now)
  {
    var order := earlier + [p];
    assert forall q <- order :: q in earlier || q == p;
    assert forall q <- earlier :: q in order;
    if p in Stale(work, files) {
      var q := SharedPlace(work, before.tree, earlier, p, files);
      assert files[q] == files[p];
    } else {
      InPlaceKept(work, before.tree, files, p);
    }
  }

  lemma {:induction false} FreshMatches(tree: Tree, l: Path, item: Input, now: nat)
    requires At(tree, l) == Some(Fresh(item, now))
    ensures Matches(tree, l, item)
  {
  }

  /** No input that was dealt with has the place of one that does not match, nor is it touched when
      that one is rewritten. */
  lemma {:induction false} OthersKept(work: Tree, tree: Tree, earlier: seq<Path>, p: Path, l: Path, files: Inputs, now: nat)
    requires IsTree(work) && Steady(work, files) && !Conflict(work, files) && StaleAt(work, files, p, l)
    requires Settled(work, tree, earlier, files, now) && !Matches(tree, l, files[p])
    ensures forall q <- earlier ::
              Place(work, q) != Found(l) &&
              At(Rewritten(tree, l, files[p], now), Place(work, q).path) == At(tree, Place(work, q).path)
  {
    forall q | q in earlier
      ensures Place(work, q) != Found(l)
      ensures At(Rewritten(tree, l, files[p], now), Place(work, q).path) == At(tree, Place(work, q).path)
    {
      if Place(work, q) == Found(l) {
        assert files[q] == files[p];
        FreshMatches(tree, l, files[p], now);
      } else {
        OtherPlaceKept(work, tree, files, q, p, l, now);
      }
    }
  }

  lemma {:induction false} RewritingSettles(work: Tree, before: Passed, earlier: seq<Path>, p: Path, l: Path,
                                          files: Inputs, now: nat)
    requires IsTree(work) && Steady(work, files) && !Conflict(work, files) && StaleAt(work, files, p, l)
    requires before.Done? && SettledSo(work, before, earlier, files, now) && !Matches(before.tree, l, files[p])
    ensures Settled(work, Rewritten(before.tree, l, files[p], now), earlier + [p], files, now)
  {
    assert forall q <- earlier + [p] :: q in earlier || q == p;
    OthersKept(work, before.tree, earlier, p, l, files, now);
  }

  lemma {:induction false} RewritingReports(work: Tree, rewritten: set<Path>, earlier: seq<Path>, p: Path, files: Inputs)
    requires Reported(work, rewritten, earlier, files) && p in Stale(work, files)
    ensures Reported(work, rewritten + {p}, earlier + [p], files)
  {
    forall q | q in earlier + [p] && q in Stale(work, files)
      ensures exists r <- rewritten + {p} :: Place(work, r) == Place(work, q)
    {
      if q in earlier {
        var r :| r in rewritten && Place(work, r) == Place(work, q);
        assert r in rewritten + {p};
      } else {
        assert p in rewritten + {p};
      }
    }
  }

  lemma {:induction false} RewritingWaits(work: Tree, before: Passed, earlier: seq<Path>, p: Path, l: Path,
                                          files: Inputs, now: nat)
    requires IsTree(work) && Steady(work, files) && !Conflict(work, files) && StaleAt(work, files, p, l)
    requires before.Done? && SettledSo(work, before, earlier, files, now) && !Matches(before.tree, l, files[p])
    ensures Waiting(work, Rewritten(before.tree, l, files[p], now), earlier + [p], files)
  {
    var order := earlier + [p];
    assert p in order && forall q <- earlier :: q in order;
    forall r | r in files && Place(work, r).Found? && forall q <- order :: Place(work, q) != Place(work, r)
      ensures Kept(work, Rewritten(before.tree, l, files[p], now), Place(work, r).path)
    {
      WaitingKept(work, before.tree, files, r, p, l, now);
    }
  }

  lemma {:induction false} SettleRewriting(work: Tree, before: Passed, earlier: seq<Path>, p: Path, files: Inputs, now: nat)
    requires IsTree(work) && Steady(work, files) && !Conflict(work, files) && p in files && before.Done?
    requires PassedSo(work, before.tree, earlier, files) && SettledSo(work, before, earlier, files, now)
    requires Place(work, p).Found? && !Matches(before.tree, Place(work, p).path, files[p])
    ensures SettledSo(work, Done(Rewritten(before.tree, Place(work, p).path, files[p], now), before.rewritten + {p}),
                      earlier + [p], files, now)
  {
    var l := Place(work, p).path;
    if MatchesThrough(work, p, files[p]) { InPlaceKept(work, before.tree, files, p); }
    assert StaleAt(work, files, p, l);
    RewritingSettles(work, before, earlier, p, l, files, now);
    RewritingReports(work, before.rewritten, earlier, p, files);
    RewritingWaits(work, before, earlier, p, l, files, now);
  }

  lemma {:induction false} WaitingKept(work: Tree, tree: Tree, files: Inputs, r: Path, p: Path, l: Path, now: nat)
    requires IsTree(work) && Steady(work, files) && StaleAt(work, files, p, l) && r in files
    requires Place(work, r).Found? && Place(work, r).path != l && Kept(work, tree, Place(work, r).path)
    ensures Kept(work, Rewritten(tree, l, files[p], now), Place(work, r).path)
  {
    var m := Place(work, r).path;
    PlaceClear(work, p);
    assert Unmoved(work, r, l);
    assert l[..|l|] == l;
    assert |l| < |m| ==> !AtOrBelow(m[..|l|], l);
  }

  // ---------------------------------------------------------------------------
  // When the pass does what a clean copy does

  ghost predicate Lists(order: seq<Path>, files: Inputs) { forall p :: p in order <==> p in files }

  lemma {:induction false} MatchUnique(tree: Tree, l: Path, a: Input, b: Input)
    requires Matches(tree, l, a) && Matches(tree, l, b)
    ensures a == b
  {
  }

  /** If no input leads through a place that the pass rewrites, the pass ends exactly when every input
      leads to a place. The tree then agrees with the snapshot exactly when no two inputs that differ
      have the same place. */
  lemma {:induction false} PassAgreesIff(work: Tree, order: seq<Path>, files: Inputs, now: nat)
    requires IsTree(work) && Steady(work, files) && Lists(order, files)
    ensures var r := Pass(work, order, files, now);
            && (r.Done? <==> forall p <- files :: Place(work, p).Found?)
            && (r.Done? ==> (AgreesThrough(r.tree, files) <==> !Conflict(work, files)))
  {
    PassSteady(work, order, files, now);
    var r := Pass(work, order, files, now);
    if r.Done? {
      forall p | p in files
        ensures Place(r.tree, p) == Place(work, p) && Place(work, p).Found?
      {
        StaysPut(work, r.tree, files, p);
      }
      if Conflict(work, files) {
        ConflictShows(work, r.tree, files);
      } else {
        PassSettles(work, order, files, now);
        SettledAgrees(work, r.tree, order, files, now);
      }
    }
  }

  lemma {:induction false} SettledAgrees(work: Tree, tree: Tree, order: seq<Path>, files: Inputs, now: nat)
    requires Lists(order, files) && Settled(work, tree, order, files, now)
    requires forall p <- files :: Place(tree, p) == Place(work, p)
    ensures AgreesThrough(tree, files)
  {
    forall p | p in files
      ensures MatchesThrough(tree, p, files[p])
    {
      assert p in order;
      if !MatchesThrough(work, p, files[p]) {
        FreshMatches(tree, Place(work, p).path, files[p], now);
      }
    }
  }

  lemma {:induction false} ConflictShows(work: Tree, tree: Tree, files: Inputs)
    requires Conflict(work, files) && forall p <- files :: Place(tree, p) == Place(work, p)
    ensures !AgreesThrough(tree, files)
  {
    var p, q :| p in files && q in files && Place(work, p).Found? && Place(work, p) == Place(work, q) &&
                files[p] != files[q];
    if MatchesThrough(tree, p, files[p]) && Matches(tree, Place(tree, q).path, files[q]) {
      MatchUnique(tree, Place(tree, p).path, files[p], files[q]);
    }
  }

  // ---------------------------------------------------------------------------
  // Trees without links above inputs

  ghost predicate NoLinkAbove(tree: Tree, files: Inputs) {
    forall p <- files, n | 0 < n < |p| :: p[..n] in tree ==> !tree[p[..n]].Link?
  }

  predicate FileAbove(tree: Tree, p: Path) {
    exists n :: 0 < n < |p| && p[..n] in tree && tree[p[..n]].File?
  }

  ghost predicate FileOn(tree: Tree, at: Path, rest: Path) {
    exists n :: 0 < n <= |rest| && at + rest[..n] in tree && tree[at + rest[..n]].File?
  }

  lemma {:induction false} PlainWalk(tree: Tree, at: Path, rest: Path, links: nat)
    requires IsTree(tree)
    requires forall n | 0 < n <= |rest| :: at + rest[..n] in tree ==> !tree[at + rest[..n]].Link?
    ensures Walk(tree, at, Owns(rest), links) == if FileOn(tree, at, rest) then Nowhere else Found(at + rest)
    ensures Lacks(tree, at, Owns(rest), links) == None
    ensures forall x <- Reads(tree, at, Owns(rest), links) :: exists n :: 0 < n <= |rest| && x == at + rest[..n]
    decreases |rest|
  {
    if rest == [] {
      assert at + rest == at;
    } else {
      var next := at + [rest[0]];
      assert at + rest[..1] == next;
      assert Names(Owns(rest)) == rest;
      if next !in tree {
        forall n | 0 < n <= |rest|
          ensures at + rest[..n] !in tree
        {
          assert (at + rest[..n])[..|next|] == next;
          MissingBelow(tree, next, at + rest[..n]);
        }
      } else if tree[next].Directory? {
        PlainStep(tree, at, rest);
        PlainWalk(tree, next, rest[1..], links);
        assert Owns(rest)[1..] == Owns(rest[1..]);
        assert next + rest[1..] == at + rest;
        forall x | x in Reads(tree, next, Owns(rest[1..]), links)
          ensures exists n :: 0 < n <= |rest| && x == at + rest[..n]
        {
          var n :| 0 < n <= |rest[1..]| && x == next + rest[1..][..n];
          assert x == at + rest[..n + 1];
        }
      }
    }
  }

  /** Behind a directory the same files are in the way. */
  lemma {:induction false} PlainStep(tree: Tree, at: Path, rest: Path)
    requires rest != [] && at + [rest[0]] in tree && tree[at + [rest[0]]].Directory?
    ensures FileOn(tree, at, rest) <==> FileOn(tree, at + [rest[0]], rest[1..])
    ensures forall n | 0 < n <= |rest[1..]| :: at + [rest[0]] + rest[1..][..n] == at + rest[..n + 1]
  {
    var next, tail := at + [rest[0]], rest[1..];
    forall n | 0 < n <= |tail|
      ensures next + tail[..n] == at + rest[..n + 1]
    {
    }
    assert at + rest[..1] == next;
    if FileOn(tree, at, rest) {
      var n :| 0 < n <= |rest| && at + rest[..n] in tree && tree[at + rest[..n]].File?;
      assert n > 1;
      assert next + tail[..n - 1] == at + rest[..n];
    }
    if FileOn(tree, next, tail) {
      var n :| 0 < n <= |tail| && next + tail[..n] in tree && tree[next + tail[..n]].File?;
      assert next + tail[..n] == at + rest[..n + 1];
    }
  }

  /** Without links above inputs, an input is at its own path, or a file is above it. */
  lemma {:induction false} PlainPlace(tree: Tree, p: Path)
    requires IsTree(tree) && p != [] && forall n | 0 < n < |p| :: p[..n] in tree ==> !tree[p[..n]].Link?
    ensures Place(tree, p) == if FileAbove(tree, p) then Nowhere else Found(p)
    ensures PlaceLacks(tree, p) == None
    ensures forall x <- PlaceReads(tree, p) :: StrictlyBelow(p, x)
  {
    var rest := p[..|p| - 1];
    forall n | 0 < n <= |rest|
      ensures [] + rest[..n] == p[..n]
    {
    }
    PlainWalk(tree, [], rest, MAX_LINKS);
    assert [] + rest + [p[|p| - 1]] == p;
    if FileAbove(tree, p) {
      var n :| 0 < n < |p| && p[..n] in tree && tree[p[..n]].File?;
      assert [] + rest[..n] == p[..n];
    }
    if FileOn(tree, [], rest) {
      var n :| 0 < n <= |rest| && [] + rest[..n] in tree && tree[[] + rest[..n]].File?;
      assert [] + rest[..n] == p[..n];
    }
  }

  lemma {:induction false} BelowBoth(p: Path, x: Path, q: Path)
    requires StrictlyBelow(p, x) && AtOrBelow(x, q)
    ensures StrictlyBelow(p, q)
  {
    assert p[..|q|] == x[..|q|];
  }

  lemma {:induction false} PlainUnmoved(work: Tree, p: Path, q: Path)
    requires !StrictlyBelow(p, q) && PlaceLacks(work, p) == None && Place(work, p) in {Nowhere, Found(p)}
    requires forall x <- PlaceReads(work, p) :: StrictlyBelow(p, x)
    ensures Unmoved(work, p, q)
  {
    forall x: Path | StrictlyBelow(p, x)
      ensures !AtOrBelow(x, q)
    {
      if AtOrBelow(x, q) { BelowBoth(p, x, q); }
    }
    forall n | 0 < n < |p|
      ensures StrictlyBelow(p, p[..n])
    {
    }
  }

  /** Every input is at its own path, or a file is above it. */
  ghost predicate PlainPlaces(work: Tree, files: Inputs) {
    forall p <- files :: Place(work, p) == if FileAbove(work, p) then Nowhere else Found(p)
  }

  /** Without links above inputs, no input leads through another, and none shares a place. */
  lemma {:induction false} PlainSteady(work: Tree, files: Inputs)
    requires IsTree(work) && [] !in files && Leaves(files) && NoLinkAbove(work, files)
    ensures Steady(work, files) && !Conflict(work, files) && PlainPlaces(work, files)
  {
    forall p | p in files
      ensures Place(work, p) == if FileAbove(work, p) then Nowhere else Found(p)
    {
      PlainPlace(work, p);
    }
    forall p, q, l | p in files && StaleAt(work, files, q, l)
      ensures Unmoved(work, p, l)
    {
      PlainPlace(work, p);
      PlainPlace(work, q);
      PlainUnmoved(work, p, q);
    }
  }

  lemma {:induction false} PlainSettled(work: Tree, r: Passed, order: seq<Path>, files: Inputs, now: nat)
    requires r.Done? && Lists(order, files) && PlainPlaces(work, files) && forall p <- files :: !FileAbove(work, p)
    requires Settled(work, r.tree, order, files, now) && Reported(work, r.rewritten, order, files)
    ensures Agrees(r.tree, files) && r.rewritten == Stale(work, files)
  {
    forall p | p in files
      ensures Matches(r.tree, p, files[p])
    {
      assert p in order && Place(work, p) == Found(p);
      if !MatchesThrough(work, p, files[p]) { FreshMatches(r.tree, p, files[p], now); }
    }
    forall p | p in Stale(work, files)
      ensures p in r.rewritten
    {
      assert p in order;
      var q :| q in r.rewritten && Place(work, q) == Place(work, p);
      assert Place(work, p) == Found(p) && Place(work, q) == Found(q);
    }
  }

  /** Without links above inputs the pass ends exactly when no file is above an input; it then leaves
      every input in place and reports exactly those that were not. */
  ghost predicate PlainResult(work: Tree, r: Passed, files: Inputs) {
    && !r.Escapes? && (r.Done? <==> forall p <- files :: !FileAbove(work, p))
    && (r.Done? ==> Agrees(r.tree, files) && r.rewritten == Stale(work, files))
  }

  lemma {:induction false} PlainPass(work: Tree, order: seq<Path>, files: Inputs, now: nat)
    requires IsTree(work) && [] !in files && Leaves(files) && NoLinkAbove(work, files) && Lists(order, files)
    ensures PlainResult(work, Pass(work, order, files, now), files)
  {
    PlainSteady(work, files);
    var r := Pass(work, order, files, now);
    PassSteady(work, order, files, now);
    PassAgreesIff(work, order, files, now);
    PlainEnds(work, r, files);
    if r.Done? {
      PassSettles(work, order, files, now);
      PlainSettled(work, r, order, files, now);
    }
  }

  lemma {:induction false} PlainEnds(work: Tree, r: Passed, files: Inputs)
    requires PlainPlaces(work, files) && (r.Done? <==> forall p <- files :: Place(work, p).Found?)
    requires r.Escapes? ==> exists p <- files :: Place(work, p).Outside?
    ensures !r.Escapes? && (r.Done? <==> forall p <- files :: !FileAbove(work, p))
  {
  }

  /** If no input leads through a place that the pass rewrites, it ends exactly when every input leads to
      a place, and changes only the places of inputs that were not in place. The tree then agrees with
      the snapshot exactly when no two inputs that differ have the same place; each input is as before
      if it was in place and fresh if not, and what was rewritten is reported. */
  ghost predicate SteadyResult(work: Tree, r: Passed, order: seq<Path>, files: Inputs, now: nat) {
    && (r.Done? <==> forall p <- files :: Place(work, p).Found?)
    && (r.Done? ==> OnlyStaleChanged(work, r.tree, files))
    && (r.Done? ==> (AgreesThrough(r.tree, files) <==> !Conflict(work, files)))
    && (r.Done? && !Conflict(work, files) ==>
          Settled(work, r.tree, order, files, now) && Reported(work, r.rewritten, order, files))
  }

  /** Rewriting a place below directories leaves a tree: nothing is below a file, and no directory is
      missing. */
  lemma {:induction false} RewrittenIsTree(tree: Tree, l: Path, item: Input, now: nat)
    requires IsTree(tree) && l != [] && forall n | 0 < n < |l| :: l[..n] in tree ==> tree[l[..n]].Directory?
    ensures IsTree(Rewritten(tree, l, item, now))
  {
    var after := Rewritten(tree, l, item, now);
    forall p, n | p in after && 0 < n < |p|
      ensures p[..n] in after && after[p[..n]].Directory?
    {
      if p == l || p in Ancestors(l) {
        AboveAncestor(l, p, n);
      } else {
        assert p in tree && !StrictlyBelow(p, l) && p[..n] in tree;
        assert p[..n] == l ==> StrictlyBelow(p, l);
        NotBelow(p, n, l);
      }
    }
  }

  lemma {:induction false} AboveAncestor(l: Path, p: Path, n: nat)
    requires 0 < n < |p| && (p == l || p in Ancestors(l))
    ensures n < |l| && p[..n] == l[..n] && p[..n] in Ancestors(l) && !AtOrBelow(p[..n], l)
  {
    if p != l {
      var m :| 0 < m < |l| && p == l[..m];
    }
  }

  lemma {:induction false} NotBelow(p: Path, n: nat, l: Path)
    requires 0 < n < |p| && !StrictlyBelow(p, l)
    ensures p[..n] != l && !StrictlyBelow(p[..n], l)
  {
    if |l| <= n { assert p[..n][..|l|] == p[..|l|]; }
  }

  lemma {:induction false} PassKeepsTree(work: Tree, order: seq<Path>, files: Inputs, now: nat)
    requires IsTree(work) && forall p <- order :: p in files
    ensures var r := Pass(work, order, files, now); r.Done? ==> IsTree(r.tree)
  {
    if order != [] {
      var earlier, p := order[..|order| - 1], order[|order| - 1];
      PassKeepsTree(work, earlier, files, now);
      var before := Pass(work, earlier, files, now);
      if before.Done? && Place(before.tree, p).Found? {
        PlaceClear(before.tree, p);
        RewrittenIsTree(before.tree, Place(before.tree, p).path, files[p], now);
      }
    }
  }

  /** The loop over the inputs of the cached tree. */
  method RewriteInputs(work: Tree, order: seq<Path>, files: Inputs, changed0: set<Path>, now: nat)
    returns (r: Passed, changed: set<Path>)
    requires forall p <- order :: p in files
    ensures r == Pass(work, order, files, now)
    ensures r.Done? ==> changed == changed0 + r.rewritten
  {
    var tree := work;
    var rewritten: set<Path> := {};
    changed := changed0;
    for i := 0 to |order|
      invariant Pass(work, order[..i], files, now) == Done(tree, rewritten)
      invariant changed == changed0 + rewritten
    {
      var p := order[i];
      assert p in order && order[..i + 1][..i] == order[..i];
      StopsHere(work, order, i + 1, files, now);
      var place := Place(tree, p);
      if place.Nowhere? { return Failed, changed; }
      if place.Outside? { return Escapes, changed; }
      if !Matches(tree, place.path, files[p]) {
        tree := Rewritten(tree, place.path, files[p], now);
        rewritten, changed := rewritten + {p}, changed + {p};
      }
    }
    assert order[..|order|] == order;
    return Done(tree, rewritten), changed;
  }

  /** The pass over the cached tree. */
  method IncrementalPass(work: Tree, order: seq<Path>, files: Inputs, changed0: set<Path>, now: nat)
    returns (r: Passed, changed: set<Path>)
    requires IsTree(work) && Lists(order, files)
    ensures r == Pass(work, order, files, now)
    ensures r.Done? ==> changed == changed0 + r.rewritten && IsTree(r.tree)
    ensures Steady(work, files) ==> SteadyResult(work, r, order, files, now)
    ensures [] !in files && Leaves(files) && NoLinkAbove(work, files) ==> PlainResult(work, r, files)
  {
    r, changed := RewriteInputs(work, order, files, changed0, now);
    PassKeepsTree(work, order, files, now);
    PassTheorems(work, order, files, now);
  }

  /** A pass that stops early does not go on. */
  lemma {:induction false} StopsHere(work: Tree, order: seq<Path>, n: nat, files: Inputs, now: nat)
    requires n <= |order| && forall p <- order :: p in files
    ensures !Pass(work, order[..n], files, now).Done? ==>
              Pass(work, order, files, now) == Pass(work, order[..n], files, now)
    decreases |order|
  {
    if n == |order| {
      assert order[..n] == order;
    } else {
      var earlier := order[..|order| - 1];
      assert earlier[..n] == order[..n];
      StopsHere(work, earlier, n, files, now);
    }
  }

  lemma {:induction false} PassTheorems(work: Tree, order: seq<Path>, files: Inputs, now: nat)
    requires IsTree(work) && Lists(order, files)
    ensures Steady(work, files) ==> SteadyResult(work, Pass(work, order, files, now), order, files, now)
    ensures [] !in files && Leaves(files) && NoLinkAbove(work, files) ==>
              PlainResult(work, Pass(work, order, files, now), files)
  {
    if Steady(work, files) {
      PassSteady(work, order, files, now);
      PassAgreesIff(work, order, files, now);
      if !Conflict(work, files) { PassSettles(work, order, files, now); }
    }
    if [] !in files && Leaves(files) && NoLinkAbove(work, files) { PlainPass(work, order, files, now); }
  }

  // ---------------------------------------------------------------------------
  // Clean or incremental

  /** What build-cache.json holds: the configuration key and the inputs of a build. */
  datatype Record = Record(key: string, files: Inputs)

  datatype Reason =
    | CleanRequested
    | NoCache
    | ConfigurationChanged
    | FilesAddedOrRemoved
    | OtherInputsChanged

  function InputAt(files: Inputs, p: Path): Option<Input> { if p in files then Some(files[p]) else None }

  /** The inputs that differ from the recorded ones, added and removed ones included. */
  function Differing(files: Inputs, recorded: Inputs): set<Path> {
    set p | p in files.Keys + recorded.Keys && InputAt(files, p) != InputAt(recorded, p)
  }

  /** changed has the inputs that were added, removed or altered since the recorded build, and extra. */
  ghost predicate Changes(changed: set<Path>, files: Inputs, recorded: Inputs, extra: set<Path>) {
    forall p: Path :: p in changed <==>
      || (p in files && p !in recorded) || (p in recorded && p !in files)
      || (p in files && p in recorded && files[p] != recorded[p]) || p in extra
  }

  /** The position of the last dot in name[..n], if any. */
  function LastDot(name: string, n: nat): Option<nat>
    requires n <= |name|
  {
    if n == 0 then None else if name[n - 1] == '.' then Some(n - 1) else LastDot(name, n - 1)
  }

  /** Path(name).suffix: from the last dot, unless it starts or ends the name. */
  function Suffix(name: string): string {
    var dot := LastDot(name, |name|);
    if dot.Some? && 0 < dot.value < |name| - 1 then name[dot.value..] else ""
  }

  /** A change to this input can be left to the compiler's own dependency tracking. */
  predicate CompilerInput(files: Inputs, p: Path) {
    && p in files && files[p].Blob? && p != []
    && Suffix(p[|p| - 1]) in {".c", ".cc", ".cpp", ".cxx", ".S", ".s"}
  }

  function WhyClean(
    incremental: bool, previous: Option<Record>, cached: bool, key: string, files: Inputs): Option<Reason>
  {
    if !incremental then Some(CleanRequested)
    else if previous.None? || !cached then Some(NoCache)
    else if previous.value.key != key then Some(ConfigurationChanged)
    else if files.Keys != previous.value.files.Keys then Some(FilesAddedOrRemoved)
    else if exists p :: p in Differing(files, previous.value.files) && !CompilerInput(files, p)
    then Some(OtherInputsChanged)
    else None
  }

  const COMPILER_SUFFIXES := {"c", "cc", "cpp", "cxx", "S", "s"}

  lemma {:induction false} LastDotIsLast(name: string, n: nat)
    requires n <= |name|
    ensures LastDot(name, n).Some? ==> LastDot(name, n).value < n && name[LastDot(name, n).value] == '.'
    ensures forall i | 0 <= i < n && name[i] == '.' :: LastDot(name, n).Some? && i <= LastDot(name, n).value
  {
    if n > 0 && name[n - 1] != '.' { LastDotIsLast(name, n - 1); }
  }

  /** The file name is something, a dot, and one of the compiler's suffixes. */
  ghost predicate NamedForCompiler(name: string) {
    exists stem: string, suffix <- COMPILER_SUFFIXES :: stem != "" && name == stem + "." + suffix
  }

  lemma {:induction false} NoDotInSuffix(suffix: string)
    requires suffix in COMPILER_SUFFIXES
    ensures suffix != "" && '.' !in suffix
    ensures "." + suffix in {".c", ".cc", ".cpp", ".cxx", ".S", ".s"}
  {
    assert "." + "c" == ".c" && "." + "cc" == ".cc" && "." + "cpp" == ".cpp";
    assert "." + "cxx" == ".cxx" && "." + "S" == ".S" && "." + "s" == ".s";
  }

  lemma {:induction false} SuffixOfDotted(suffix: string)
    requires "." + suffix in {".c", ".cc", ".cpp", ".cxx", ".S", ".s"}
    ensures suffix in COMPILER_SUFFIXES
  {
    assert ("." + suffix)[1..] == suffix;
    assert ".c"[1..] == "c" && ".cc"[1..] == "cc" && ".cpp"[1..] == "cpp";
    assert ".cxx"[1..] == "cxx" && ".S"[1..] == "S" && ".s"[1..] == "s";
  }

  lemma {:induction false} SuffixOfName(stem: string, suffix: string)
    requires stem != "" && suffix in COMPILER_SUFFIXES
    ensures Suffix(stem + "." + suffix) == "." + suffix
  {
    var name := stem + "." + suffix;
    NoDotInSuffix(suffix);
    LastDotIsLast(name, |name|);
    assert name[|stem|] == '.';
    forall i | |stem| < i < |name|
      ensures name[i] != '.'
    {
      assert name[i] == suffix[i - |stem| - 1];
    }
    assert name[|stem|..] == "." + suffix;
  }

  lemma {:induction false} NameOfSuffix(name: string)
    requires Suffix(name) in {".c", ".cc", ".cpp", ".cxx", ".S", ".s"}
    ensures NamedForCompiler(name)
  {
    LastDotIsLast(name, |name|);
    var dot := LastDot(name, |name|).value;
    var stem, suffix := name[..dot], name[dot + 1..];
    assert name[dot..] == "." + suffix;
    SuffixOfDotted(suffix);
    assert name == stem + "." + suffix;
  }

  /** A change may be left to the compiler exactly if the input is a file, not a link, with such a name. */
  lemma {:induction false} CompilerInputIff(files: Inputs, p: Path)
    ensures CompilerInput(files, p) <==>
            p in files && files[p].Blob? && p != [] && NamedForCompiler(p[|p| - 1])
  {
    if p != [] {
      var name := p[|p| - 1];
      if NamedForCompiler(name) {
        var stem, suffix :| suffix in COMPILER_SUFFIXES && stem != "" && name == stem + "." + suffix;
        SuffixOfName(stem, suffix);
        NoDotInSuffix(suffix);
      }
      if CompilerInput(files, p) { NameOfSuffix(name); }
    }
  }

  /** Some input is not what it was, and is not a file that the compiler tracks. */
  ghost predicate OtherChange(files: Inputs, recorded: Inputs) {
    exists p <- files :: p in recorded && files[p] != recorded[p] &&
                         !(files[p].Blob? && p != [] && NamedForCompiler(p[|p| - 1]))
  }

  /** When each reason is given, and when the cached tree is used: the first of these that holds. */
  ghost predicate Decided(reason: Option<Reason>, incremental: bool, previous: Option<Record>, cached: bool,
                          key: string, files: Inputs)
  {
    var completed := previous.Some? && cached;
    var sameKey := completed && previous.value.key == key;
    var sameNames := completed && forall p: Path :: p in files <==> p in previous.value.files;
    && (reason == Some(CleanRequested) <==> !incremental)
    && (reason == Some(NoCache) <==> incremental && !completed)
    && (reason == Some(ConfigurationChanged) <==> incremental && completed && !sameKey)
    && (reason == Some(FilesAddedOrRemoved) <==> incremental && sameKey && !sameNames)
    && (reason == Some(OtherInputsChanged) <==>
        incremental && sameKey && sameNames && OtherChange(files, previous.value.files))
    && (reason.None? <==> incremental && sameKey && sameNames && !OtherChange(files, previous.value.files))
  }

  lemma {:induction false} OtherChangeIff(files: Inputs, recorded: Inputs)
    requires files.Keys == recorded.Keys
    ensures (exists p :: p in Differing(files, recorded) && !CompilerInput(files, p)) <==> OtherChange(files, recorded)
  {
    forall p | p in files {
      CompilerInputIff(files, p);
    }
    if p :| p in Differing(files, recorded) && !CompilerInput(files, p) {
      assert p in files && p in recorded && files[p] != recorded[p];
    }
    if OtherChange(files, recorded) {
      var p :| p in files && p in recorded && files[p] != recorded[p] &&
               !(files[p].Blob? && p != [] && NamedForCompiler(p[|p| - 1]));
      assert p in Differing(files, recorded);
    }
  }

  lemma {:induction false} WhyCleanDecides(
    incremental: bool, previous: Option<Record>, cached: bool, key: string, files: Inputs)
    ensures Decided(WhyClean(incremental, previous, cached, key, files), incremental, previous, cached, key, files)
  {
    if previous.Some? {
      var recorded := previous.value.files;
      assert files.Keys == recorded.Keys <==> forall p: Path :: p in files <==> p in recorded;
      if files.Keys == recorded.Keys { OtherChangeIff(files, recorded); }
    }
  }

  /** Above the inputs of a tree that has them in place there are only directories. */
  lemma {:induction false} AgreeingIsPlain(work: Tree, files: Inputs, recorded: Inputs)
    requires IsTree(work) && Agrees(work, recorded) && files.Keys == recorded.Keys
    ensures NoLinkAbove(work, files) && forall p <- files :: !FileAbove(work, p)
  {
    forall p, n | p in files && 0 < n < |p|
      ensures p[..n] in work && work[p[..n]].Directory?
    {
      assert p in recorded;
      assert Matches(work, p, recorded[p]);
    }
  }

  /** The inputs that are not in place in such a tree are those that differ from the recorded ones. */
  lemma {:induction false} StaleIsDiffering(work: Tree, files: Inputs, recorded: Inputs)
    requires Agrees(work, recorded) && files.Keys == recorded.Keys
    requires forall p <- files :: Place(work, p) == Found(p)
    ensures Stale(work, files) == Differing(files, recorded)
  {
    forall p | p in files
      ensures MatchesThrough(work, p, files[p]) <==> files[p] == recorded[p]
    {
      assert p in recorded;
      assert Matches(work, p, recorded[p]);
      if MatchesThrough(work, p, files[p]) { MatchUnique(work, p, files[p], recorded[p]); }
    }
  }

  /** Over a tree that still has the recorded inputs the pass always ends, brings every input in place,
      and rewrites exactly the inputs that differ from the recorded ones. */
  lemma {:induction false} CachedPass(work: Tree, order: seq<Path>, files: Inputs, recorded: Inputs, now: nat)
    requires IsTree(work) && [] !in files && Leaves(files) && Lists(order, files)
    requires Agrees(work, recorded) && files.Keys == recorded.Keys
    ensures var r := Pass(work, order, files, now);
            r.Done? && Agrees(r.tree, files) && r.rewritten == Differing(files, recorded)
  {
    AgreeingIsPlain(work, files, recorded);
    PlainPass(work, order, files, now);
    PlainSteady(work, files);
    StaleIsDiffering(work, files, recorded);
  }

  /** Both modes bring the work tree in line with the snapshot, the incremental one under the
      conditions of the pass. A clean run copies the snapshot; an incremental one is taken only over a
      completed build of the same configuration and the same set of inputs, when only compiler inputs
      changed. changed_inputs has every input that differs from that build, and in an incremental run
      every one that had to be rewritten. order is the order in which the inputs are listed. */
  method Prepare(snapshot: Tree, order: seq<Path>, previous: Option<Record>, work: Option<Tree>, key: string,
                 incremental: bool, now: nat)
    returns (r: Passed, reason: Option<Reason>, changed: set<Path>)
    requires IsTree(snapshot) && Lists(order, Identity(snapshot)) && (work.Some? ==> IsTree(work.value))
    ensures r.Done? ==> IsTree(r.tree)
    ensures Decided(reason, incremental, previous, work.Some?, key, Identity(snapshot))
    ensures reason.Some? ==>
              && r.Done? && r.tree == snapshot && Agrees(r.tree, Identity(snapshot))
              && Changes(changed, Identity(snapshot), if previous.Some? then previous.value.files else map[], {})
    ensures reason.None? ==>
              var files := Identity(snapshot);
              && previous.Some? && work.Some?
              && r == Pass(work.value, order, files, now)
              && (r.Done? ==> Changes(changed, files, previous.value.files, r.rewritten))
              && (Steady(work.value, files) ==> SteadyResult(work.value, r, order, files, now))
              && (NoLinkAbove(work.value, files) ==> PlainResult(work.value, r, files))
              && (Agrees(work.value, previous.value.files) ==>
                    r.Done? && Agrees(r.tree, files) && Changes(changed, files, previous.value.files, {}))
  {
    var files := Identity(snapshot);
    IdentityAgrees(snapshot);
    var recorded := if previous.Some? then previous.value.files else map[];
    changed := Differing(files, recorded);
    reason := WhyClean(incremental, previous, work.Some?, key, files);
    WhyCleanDecides(incremental, previous, work.Some?, key, files);
    if reason.Some? {
      return Done(snapshot, {}), reason, changed;
    }
    r, changed := IncrementalPass(work.value, order, files, changed, now);
    if Agrees(work.value, recorded) { CachedPass(work.value, order, files, recorded, now); }
  }

  // ---------------------------------------------------------------------------
  // Inputs at which the pass does not do what a clean copy does

  lemma {:induction false} PassOfOne(tree: Tree, p: Path, files: Inputs, now: nat)
    requires p in files
    ensures Pass(tree, [p], files, now) == PassOne(tree, {}, p, files[p], now)
  {
    assert [p][..0] == [];
  }

  lemma {:induction false} PassOfTwo(tree: Tree, p: Path, q: Path, files: Inputs, now: nat)
    requires p in files && q in files
    ensures var first := PassOne(tree, {}, p, files[p], now);
            Pass(tree, [p, q], files, now) ==
            if first.Done? then PassOne(first.tree, first.rewritten, q, files[q], now) else first
  {
    assert [p, q][..1] == [p];
    PassOfOne(tree, p, files, now);
  }

  /** A path of two components behind a directory or nothing is its own place; below a file it leads
      nowhere. */
  lemma {:induction false} PlaceOfTwo(tree: Tree, a: string, f: string)
    ensures [a] !in tree || tree[[a]].Directory? ==> Place(tree, [a, f]) == Found([a, f])
    ensures [a] in tree && tree[[a]].File? ==> Place(tree, [a, f]) == Nowhere
  {
    var todo := Owns([a, f][..1]);
    assert todo == [Own(a)] && todo[1..] == [] && [] + [a] == [a];
    assert Names(todo) == [a];
    assert [a] !in tree || tree[[a]].Directory? ==> Walk(tree, [], todo, MAX_LINKS) == Found([a]);
    assert [a] + [f] == [a, f] && [a, f][1] == f;
  }

  /** Behind a link to a name, its place is below that name if a directory is there. */
  lemma {:induction false} PlaceBehindLink(tree: Tree, a: string, b: string, f: string)
    requires |b| == 1 && b[0] != '/' && b != "."
    requires [a] in tree && tree[[a]] == Link(b)
    ensures [b] in tree && tree[[b]].Directory? ==> Place(tree, [a, f]) == Found([b, f])
    ensures [b] !in tree ==> Place(tree, [a, f]) == Nowhere
  {
    var todo := Owns([a, f][..1]);
    assert todo == [Own(a)] && todo[1..] == [] && [] + [a] == [a] && [] + [b] == [b];
    assert Split(b, 1, "" + [b[0]]) == [b] by { assert "" + [b[0]] == b; }
    assert Split(b, 0, "") == [b];
    var via := Vias([b]) + todo[1..];
    assert via == [Via(b)] && via[1..] == [];
    assert Walk(tree, [], todo, MAX_LINKS) == Walk(tree, [], via, MAX_LINKS - 1);
    assert b != "" && b != "..";
    assert [b] in tree && tree[[b]].Directory? ==> Walk(tree, [], via, MAX_LINKS - 1) == Found([b]);
    assert [b] + [f] == [b, f] && [a, f][1] == f;
  }

  /** A file where the cached tree should have a directory stops the pass. */
  lemma {:induction false} FileAboveInputBlocks(now: nat)
    ensures var files: Inputs := map[["a", "b.c"] := Blob("x", false)];
            var work: Tree := map[["a"] := File("y", false, 0)];
            Leaves(files) && IsTree(work) && Pass(work, [["a", "b.c"]], files, now) == Failed
  {
    var files: Inputs := map[["a", "b.c"] := Blob("x", false)];
    var work: Tree := map[["a"] := File("y", false, 0)];
    PlaceOfTwo(work, "a", "b.c");
    PassOfOne(work, ["a", "b.c"], files, now);
  }

  /** A link a to the directory b, and a file f in it. */
  function LinkedTree(contents: string, mtime: nat): Tree {
    map[["a"] := Link("b"), ["b"] := Directory, ["b", "f"] := File(contents, false, mtime)]
  }

  lemma {:induction false} LinkedPlaces(contents: string, mtime: nat)
    ensures var tree := LinkedTree(contents, mtime);
            IsTree(tree) && Place(tree, ["a", "f"]) == Place(tree, ["b", "f"]) == Found(["b", "f"])
  {
    var tree := LinkedTree(contents, mtime);
    assert ["b", "f"][..1] == ["b"];
    PlaceBehindLink(tree, "a", "b", "f");
    PlaceOfTwo(tree, "b", "f");
  }

  lemma {:induction false} LinkedRewritten(contents: string, mtime: nat, other: string, now: nat)
    ensures Rewritten(LinkedTree(contents, mtime), ["b", "f"], Blob(other, false), now) == LinkedTree(other, now)
  {
    var q: Path := ["b", "f"];
    var after := Rewritten(LinkedTree(contents, mtime), q, Blob(other, false), now);
    assert q[..1] == ["b"] && Ancestors(q) == {["b"]};
    assert ["a"] != q && !StrictlyBelow(["a"], q) && !StrictlyBelow(["b"], q);
    assert after.Keys == {["a"], ["b"], q};
  }

  /** A link to a directory above an input makes two inputs share a place: the pass ends, the input that
      came last has its contents there, and the other has not. */
  lemma {:induction false} LinkAboveOverwrites(now: nat)
    ensures var p, q := ["a", "f"], ["b", "f"];
            var files: Inputs := map[p := Blob("x", false), q := Blob("y", false)];
            var r := Pass(LinkedTree("y", 0), [p, q], files, now);
            && Leaves(files) && IsTree(LinkedTree("y", 0)) && Conflict(LinkedTree("y", 0), files)
            && r.Done? && r.tree == LinkedTree("y", now) && !MatchesThrough(r.tree, p, files[p])
  {
    var p: Path, q: Path := ["a", "f"], ["b", "f"];
    var files: Inputs := map[p := Blob("x", false), q := Blob("y", false)];
    assert p[0] != q[0];
    LinkedPlaces("y", 0);
    LinkedPlaces("x", now);
    LinkedPlaces("y", now);
    LinkedRewritten("y", 0, "x", now);
    LinkedRewritten("x", now, "y", now);
    PassOfTwo(LinkedTree("y", 0), p, q, files, now);
  }

  /** Behind a dangling link an input leads nowhere. */
  lemma {:induction false} DanglingFails(work: Tree, files: Inputs, q: Path, now: nat)
    requires ["a", "f"] in files && q in files
    requires ["a"] in work && work[["a"]] == Link("b") && ["b"] !in work
    ensures Pass(work, [["a", "f"], q], files, now) == Failed
  {
    PlaceBehindLink(work, "a", "b", "f");
    PassOfTwo(work, ["a", "f"], q, files, now);
  }

  /** Once the directory that it names was made for another input, it leads there. */
  lemma {:induction false} MadeEnds(work: Tree, files: Inputs, now: nat)
    requires ["a", "f"] in files && ["b", "g"] in files
    requires ["a"] in work && work[["a"]] == Link("b") && ["b"] !in work && ["b", "g"] !in work
    ensures Pass(work, [["b", "g"], ["a", "f"]], files, now).Done?
  {
    var q: Path := ["b", "g"];
    PlaceOfTwo(work, "b", "g");
    PassOfTwo(work, q, ["a", "f"], files, now);
    var first := Rewritten(work, q, files[q], now);
    assert q[..1] == ["b"] && ["b"] in Ancestors(q);
    assert first[["a"]] == Link("b") && first[["b"]] == Directory;
    PlaceBehindLink(first, "a", "b", "f");
  }

  /** One input leads through a place where another is made: the order of the inputs decides whether the
      pass ends. */
  lemma {:induction false} OrderDecides(now: nat)
    ensures var p, q := ["a", "f"], ["b", "g"];
            var files: Inputs := map[p := Blob("x", false), q := Blob("y", false)];
            var work: Tree := map[["a"] := Link("b")];
            && Leaves(files) && IsTree(work)
            && Pass(work, [p, q], files, now) == Failed && Pass(work, [q, p], files, now).Done?
  {
    var p: Path, q: Path := ["a", "f"], ["b", "g"];
    var files: Inputs := map[p := Blob("x", false), q := Blob("y", false)];
    var work: Tree := map[["a"] := Link("b")];
    assert ["a"][0] != ["b"][0];
    DanglingFails(work, files, q, now);
    MadeEnds(work, files, now);
  }
}
