/**
 Display::getReleaseFences of compat/hwc2/HWC2.cpp: turns the parallel lists of layer ids and fence
 descriptors into fences owned per layer object.

 A Fence object closes its descriptor when the last reference to it goes. The unordered_map of the
 source is the list of its entries; its keys are layer objects.
 */
module ReleaseFences {
  import opened Options
  import opened ReturnCommands

  type LayerObject = nat
  type Entries = seq<(LayerObject, int)>

  predicate AllLive(ids: seq<Layer>, live: map<Layer, LayerObject>) { forall id <- ids :: id in live }

  predicate HasKey(entries: Entries, o: LayerObject) { exists e <- entries :: e.0 == o }

  predicate DistinctKeys(entries: Entries) {
    forall i, j :: 0 <= i < j < |entries| ==> entries[i].0 != entries[j].0
  }

  function Fds(entries: Entries): (r: seq<int>)
    ensures |r| == |entries|
  {
    seq(|entries|, i requires 0 <= i < |entries| => entries[i].1)
  }

  /** Position k is the first at which object o is listed. */
  predicate FirstAt(ids: seq<Layer>, live: map<Layer, LayerObject>, o: LayerObject, k: nat)
    requires AllLive(ids, live)
  {
    k < |ids| && live[ids[k]] == o && forall j :: 0 <= j < k ==> live[ids[j]] != o
  }

  /** The entries are, for every object that is listed, the descriptor first listed with it. */
  ghost predicate FirstOfEach(entries: Entries, ids: seq<Layer>, fds: seq<int>, live: map<Layer, LayerObject>)
    requires |ids| == |fds| && AllLive(ids, live)
  {
    && DistinctKeys(entries)
    && (forall k: nat | k < |ids| :: HasKey(entries, live[ids[k]]))
    && (forall e <- entries :: exists k: nat :: FirstAt(ids, live, e.0, k) && fds[k] == e.1)
  }

  lemma {:induction false} CountSnoc(s: seq<int>, i: nat, t: nat)
    requires i < |s|
    ensures Count(s[..i + 1], t) == Count(s[..i], t) + if s[i] == t then 1 else 0
  {
    assert s[..i + 1][..i] == s[..i];
  }

  lemma {:induction false} CountEntry(entries: Entries, e: (LayerObject, int), t: nat)
    ensures Count(Fds(entries + [e]), t) == Count(Fds(entries), t) + if e.1 == t then 1 else 0
  {
    assert Fds(entries + [e])[..|entries|] == Fds(entries);
  }

  /** emplace: an object that is a key already keeps its entry. */
  function Added(entries: Entries, o: LayerObject, fd: int): Entries {
    if HasKey(entries, o) then entries else entries + [(o, fd)]
  }

  lemma {:induction false} FirstStays(
    ids: seq<Layer>, fds: seq<int>, live: map<Layer, LayerObject>, id: Layer, fd: int, e: (LayerObject, int))
    requires |ids| == |fds| && AllLive(ids, live) && id in live
    requires exists k: nat :: FirstAt(ids, live, e.0, k) && fds[k] == e.1
    ensures exists k: nat :: FirstAt(ids + [id], live, e.0, k) && (fds + [fd])[k] == e.1
  {
    var k: nat :| FirstAt(ids, live, e.0, k) && fds[k] == e.1;
    assert FirstAt(ids + [id], live, e.0, k) && (fds + [fd])[k] == e.1;
  }

  lemma {:induction false} AddedIsFirst(
    entries: Entries, ids: seq<Layer>, fds: seq<int>, live: map<Layer, LayerObject>, id: Layer, fd: int)
    requires |ids| == |fds| && AllLive(ids, live) && id in live
    requires FirstOfEach(entries, ids, fds, live) && !HasKey(entries, live[id])
    ensures FirstAt(ids + [id], live, live[id], |ids|)
  {
    forall k: nat | k < |ids|
      ensures live[ids[k]] != live[id]
    {
      assert HasKey(entries, live[ids[k]]);
    }
  }

  lemma {:induction false} KeysStay(entries: Entries, o: LayerObject, fd: int, key: LayerObject)
    requires HasKey(entries, key) || key == o
    ensures HasKey(Added(entries, o, fd), key)
  {
    var added := Added(entries, o, fd);
    if HasKey(entries, key) {
      var e :| e in entries && e.0 == key;
      assert e in added;
    } else {
      assert added[|entries|] in added;
    }
  }

  lemma {:induction false} AddedFirstOfEach(
    entries: Entries, ids: seq<Layer>, fds: seq<int>, live: map<Layer, LayerObject>, id: Layer, fd: int)
    requires |ids| == |fds| && AllLive(ids, live) && id in live
    requires FirstOfEach(entries, ids, fds, live)
    ensures FirstOfEach(Added(entries, live[id], fd), ids + [id], fds + [fd], live)
  {
    var o := live[id];
    var added := Added(entries, o, fd);
    forall k: nat | k < |ids + [id]|
      ensures HasKey(added, live[(ids + [id])[k]])
    {
      KeysStay(entries, o, fd, live[(ids + [id])[k]]);
    }
    forall e | e in added
      ensures exists k: nat :: FirstAt(ids + [id], live, e.0, k) && (fds + [fd])[k] == e.1
    {
      if e in entries {
        FirstStays(ids, fds, live, id, fd, e);
      } else {
        AddedIsFirst(entries, ids, fds, live, id, fd);
      }
    }
  }

  method CloseAll(list: seq<int>) returns (closed: multiset<int>)
    ensures forall t: nat :: closed[t] == Count(list, t)
  {
    closed := multiset{};
    for i := 0 to |list|
      invariant forall t: nat :: closed[t] == Count(list[..i], t)
    {
      forall t: nat { CountSnoc(list, i, t); }
      closed := closed + Descriptor(list[i]);
    }
    assert list[..|list|] == list;
  }

  /** A fence that finds its object in the map already goes out of scope, which closes it. */
  method Emplace(entries: Entries, o: LayerObject, fd: int) returns (added: Entries, closed: multiset<int>)
    ensures added == Added(entries, o, fd)
    ensures forall t: nat ::
              closed[t] + Count(Fds(added), t) == Count(Fds(entries), t) + if fd == t then 1 else 0
  {
    if HasKey(entries, o) {
      return entries, Descriptor(fd);
    }
    forall t: nat { CountEntry(entries, (o, fd), t); }
    return entries + [(o, fd)], multiset{};
  }

  /** Every descriptor in the list ends up in exactly one place: a fence that the caller owns, or
      closed. A layer that is not live fails the call, and then all are closed. */
  method GetReleaseFences(ids: seq<Layer>, fds: seq<int>, live: map<Layer, LayerObject>)
    returns (result: Option<Entries>, closed: multiset<int>)
    requires |ids| == |fds|
    ensures result.Some? <==> AllLive(ids, live)
    ensures result.Some? ==> FirstOfEach(result.value, ids, fds, live)
    ensures forall t: nat ::
              closed[t] + (if result.Some? then Count(Fds(result.value), t) else 0) == Count(fds, t)
  {
    closed := multiset{};
    var entries: Entries := [];
    for i := 0 to |ids|
      invariant AllLive(ids[..i], live) && FirstOfEach(entries, ids[..i], fds[..i], live)
      invariant forall t: nat :: closed[t] + Count(Fds(entries), t) == Count(fds[..i], t)
    {
      if ids[i] in live {
        forall t: nat { CountSnoc(fds, i, t); }
        AddedFirstOfEach(entries, ids[..i], fds[..i], live, ids[i], fds[i]);
        assert ids[..i + 1] == ids[..i] + [ids[i]] && fds[..i + 1] == fds[..i] + [fds[i]];
        var dropped;
        entries, dropped := Emplace(entries, live[ids[i]], fds[i]);
        closed := closed + dropped;
      } else {
        var rest := CloseAll(fds[i..]);
        var owned := CloseAll(Fds(entries));
        forall t: nat { CountConcat(fds[..i], fds[i..], t); }
        assert fds[..i] + fds[i..] == fds;
        return None, closed + rest + owned;
      }
    }
    assert ids[..|ids|] == ids && fds[..|fds|] == fds;
    result := Some(entries);
  }
}
