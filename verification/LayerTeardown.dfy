/**
 Ownership of displays and layers in compat/hwc2/HWC2.cpp. A Device owns its Display objects. A
 Display has weak references to its Layer objects, which clients own, and a Layer has a plain pointer
 back to its Display. Either side may go first.

 Objects are numbered, and an object that has been destroyed is in none of the maps: a pointer that
 dangles is a number without an object.
 */
module LayerTeardown {
  import opened Options

  type DisplayId = nat
  type LayerId = nat
  type Pointer = nat

  datatype DisplayObject = DisplayObject(id: DisplayId, connected: bool, layers: map<LayerId, Pointer>)
  datatype LayerObject = LayerObject(display: Option<Pointer>, id: LayerId)

  /** A call of destroyLayer, and the layer object that it was made for. */
  datatype Call = Call(layer: Pointer, display: DisplayId, id: LayerId)

  datatype Heap = Heap(
    table: map<DisplayId, Pointer>,
    displays: map<Pointer, DisplayObject>,
    layers: map<Pointer, LayerObject>,
    births: map<Pointer, (DisplayId, LayerId)>,
    calls: multiset<Call>,
    next: Pointer)

  predicate Attached(h: Heap, l: Pointer) { l in h.layers && h.layers[l].display.Some? }

  /** The device owns every display object, under its id. */
  ghost predicate Owned(h: Heap) {
    && (forall d <- h.table :: h.table[d] in h.displays && h.displays[h.table[d]].id == d)
    && (forall p <- h.displays :: h.displays[p].id in h.table && h.table[h.displays[p].id] == p)
  }

  /** The display pointer of a layer never dangles, and that display lists the layer under its id. */
  ghost predicate LayersListed(h: Heap) {
    forall l <- h.layers | h.layers[l].display.Some? ::
      && h.layers[l].display.value in h.displays
      && h.layers[l].id in h.displays[h.layers[l].display.value].layers
      && h.displays[h.layers[l].display.value].layers[h.layers[l].id] == l
  }

  /** Every layer that a display lists exists, and points back. */
  ghost predicate ListsPointBack(h: Heap) {
    forall p <- h.displays, id <- h.displays[p].layers ::
      h.displays[p].layers[id] in h.layers && h.layers[h.displays[p].layers[id]] == LayerObject(Some(p), id)
  }

  /** Layers are the ones that were created, and an attached one is still on the display and under
      the id that it was created with. */
  ghost predicate BirthsKept(h: Heap) {
    && (forall l <- h.layers :: l in h.births && h.births[l].1 == h.layers[l].id)
    && (forall l <- h.layers | h.layers[l].display.Some? ::
          h.layers[l].display.value in h.displays ==>
          h.births[l].0 == h.displays[h.layers[l].display.value].id)
  }

  /** destroyLayer was called once for every layer that is no longer attached, with the ids that the
      layer was created with, and never for an attached one. */
  ghost predicate DestroyedOnce(h: Heap) {
    && (forall l <- h.births ::
          h.calls[Call(l, h.births[l].0, h.births[l].1)] == if Attached(h, l) then 0 else 1)
    && (forall c <- h.calls :: c.layer in h.births && h.births[c.layer] == (c.display, c.id))
  }

  /** New objects get new numbers. */
  ghost predicate Numbered(h: Heap) {
    (forall p <- h.displays :: p < h.next) && (forall l <- h.births :: l < h.next)
  }

  ghost predicate Sound(h: Heap) {
    Numbered(h) && Owned(h) && LayersListed(h) && ListsPointBack(h) && BirthsKept(h) && DestroyedOnce(h)
  }

  /** A layer object that is gone does not come back, and one that lost its display stays without. */
  ghost predicate DetachedStays(h: Heap, k: Heap) {
    forall l <- k.layers :: l in h.births ==>
      l in h.layers && (h.layers[l].display.None? ==> k.layers[l].display.None?)
  }

  // ---------------------------------------------------------------------------
  // Detaching one layer

  /** The layer leaves its display's list, destroyLayer is called, and the pointer is cleared. */
  function Detach(h: Heap, l: Pointer): Heap
    requires Attached(h, l) && h.layers[l].display.value in h.displays
  {
    var layer := h.layers[l];
    var p := layer.display.value;
    var d := h.displays[p];
    h.(displays := h.displays[p := d.(layers := d.layers - {layer.id})],
       layers := h.layers[l := layer.(display := None)],
       calls := h.calls + multiset{Call(l, d.id, layer.id)})
  }

  lemma {:induction false} DetachKeepsLists(h: Heap, l: Pointer)
    requires Sound(h) && Attached(h, l)
    ensures Owned(Detach(h, l)) && LayersListed(Detach(h, l)) && ListsPointBack(Detach(h, l))
  {
    var k := Detach(h, l);
    assert Owned(k);
    forall m | m in k.layers && k.layers[m].display.Some?
      ensures k.layers[m].display.value in k.displays
      ensures k.layers[m].id in k.displays[k.layers[m].display.value].layers
      ensures k.displays[k.layers[m].display.value].layers[k.layers[m].id] == m
    {
      assert h.layers[m].display.Some?;
    }
  }

  lemma {:induction false} DetachKeepsCalls(h: Heap, l: Pointer)
    requires Sound(h) && Attached(h, l)
    ensures BirthsKept(Detach(h, l)) && DestroyedOnce(Detach(h, l))
  {
  }

  lemma {:induction false} DetachSound(h: Heap, l: Pointer)
    requires Sound(h) && Attached(h, l)
    ensures Sound(Detach(h, l))
  {
    DetachKeepsLists(h, l);
    DetachKeepsCalls(h, l);
  }

  /** The heap without a layer, which is detached first if it is attached. */
  function Dropped(h: Heap, l: Pointer): Heap
    requires Attached(h, l) ==> h.layers[l].display.value in h.displays
  {
    (if Attached(h, l) then Detach(h, l) else h).(layers := h.layers - {l})
  }

  // ---------------------------------------------------------------------------
  // Displays that come and go

  /** A display that lists no layers can go. */
  lemma {:induction false} RemoveSound(h: Heap, d: DisplayId)
    requires Sound(h) && d in h.table && h.displays[h.table[d]].layers == map[]
    ensures Sound(h.(table := h.table - {d}, displays := h.displays - {h.table[d]}))
  {
    var p := h.table[d];
    var k := h.(table := h.table - {d}, displays := h.displays - {p});
    forall l | l in h.layers && h.layers[l].display.Some?
      ensures h.layers[l].display.value != p
    {
      assert h.layers[l].id in h.displays[h.layers[l].display.value].layers;
    }
    assert LayersListed(k);
    assert BirthsKept(k);
    assert DestroyedOnce(k) by {
      forall l | l in k.births
        ensures Attached(k, l) == Attached(h, l)
      {
      }
    }
  }

  /** The heap with the list of display p put back as it is in a destructor's local variable. */
  function Listing(h: Heap, p: Pointer, list: map<LayerId, Pointer>): Heap
    requires p in h.displays
  {
    h.(displays := h.displays[p := h.displays[p].(layers := list)])
  }

  lemma {:induction false} ListingSame(h: Heap, p: Pointer)
    requires p in h.displays
    ensures Listing(h, p, h.displays[p].layers) == h
    ensures Listing(Listing(h, p, map[]), p, h.displays[p].layers) == h
  {
  }

  lemma {:induction false} WithoutTwice(displays: map<Pointer, DisplayObject>, p: Pointer)
    requires p in displays
    ensures displays[p := displays[p].(layers := map[])] - {p} == displays - {p}
  {
  }

  lemma {:induction false} Gone(layers: map<Pointer, LayerObject>, l: Pointer, v: LayerObject)
    requires l in layers
    ensures layers[l := v] - {l} == layers - {l}
  {
  }

  lemma {:induction false} Fewer(list: map<LayerId, Pointer>, id: LayerId)
    requires id in list
    ensures |list - {id}| < |list|
  {
    assert (list - {id}).Keys == list.Keys - {id};
  }

  /** Inside a destructor, detaching a layer on an emptied list is detaching it on the swapped-out
      list. */
  lemma {:induction false} DetachListing(h: Heap, k: Heap, p: Pointer, list: map<LayerId, Pointer>, id: LayerId)
    requires p in h.displays && h.displays[p].layers == map[] && id in list
    requires Sound(Listing(h, p, list))
    requires list[id] in h.layers && h.layers[list[id]] == LayerObject(Some(p), id)
    requires k == Detach(h, list[id])
    ensures Attached(Listing(h, p, list), list[id])
    ensures Listing(k, p, list - {id}) == Detach(Listing(h, p, list), list[id])
  {
    var g := Listing(h, p, list);
    assert g.displays[p].layers[id] == list[id];
    assert g.displays[p := g.displays[p].(layers := list - {id})]
        == k.displays[p := k.displays[p].(layers := list - {id})];
  }

  type Layers = map<Pointer, LayerObject>

  /** Layers of display p may have lost it, and nothing else happened to any layer. */
  ghost predicate OnlyLost(before: Layers, after: Layers, p: Pointer) {
    && after.Keys == before.Keys
    && forall l <- before ::
         after[l] == before[l] || (before[l].display == Some(p) && after[l] == before[l].(display := None))
  }

  /** Every layer of display p has lost it, and nothing else happened to any layer. */
  ghost predicate AllLost(before: Layers, after: Layers, p: Pointer) {
    OnlyLost(before, after, p) && forall l <- after :: after[l].display != Some(p)
  }

  lemma {:induction false} OneMoreLost(before: Layers, after: Layers, p: Pointer, l: Pointer)
    requires OnlyLost(before, after, p) && l in after && after[l].display == Some(p)
    ensures OnlyLost(before, after[l := after[l].(display := None)], p)
  {
  }

  lemma {:induction false} NoneLeft(h: Heap, p: Pointer)
    requires LayersListed(h) && p in h.displays && h.displays[p].layers == map[]
    ensures forall l <- h.layers :: h.layers[l].display != Some(p)
  {
    forall l | l in h.layers
      ensures h.layers[l].display != Some(p)
    {
      if h.layers[l].display.Some? {
        assert h.layers[l].id in h.displays[h.layers[l].display.value].layers;
      }
    }
  }

  // ---------------------------------------------------------------------------
  // Layers that come and go, displays that come

  /** The HAL numbers a new layer unlike any that it has on that display. */
  ghost predicate UnusedId(h: Heap, d: DisplayId, id: LayerId) {
    forall l <- h.births :: Attached(h, l) ==> h.births[l] != (d, id)
  }

  /** A new display object under an unused id, with no layers. */
  function WithDisplay(h: Heap, d: DisplayId): Heap {
    h.(table := h.table[d := h.next], displays := h.displays[h.next := DisplayObject(d, true, map[])],
       next := h.next + 1)
  }

  lemma {:induction false} SameAttached(h: Heap, k: Heap)
    requires DestroyedOnce(h) && k.births == h.births && k.calls == h.calls
    requires forall l <- h.births :: Attached(k, l) == Attached(h, l)
    ensures DestroyedOnce(k)
  {
  }

  lemma {:induction false} WithDisplaySound(h: Heap, d: DisplayId)
    requires Sound(h) && d !in h.table
    ensures Sound(WithDisplay(h, d))
  {
    var k := WithDisplay(h, d);
    assert LayersListed(k) && ListsPointBack(k);
    SameAttached(h, k);
  }

  lemma {:induction false} DisconnectSound(h: Heap, p: Pointer)
    requires Sound(h) && p in h.displays
    ensures Sound(h.(displays := h.displays[p := h.displays[p].(connected := false)]))
  {
    var k := h.(displays := h.displays[p := h.displays[p].(connected := false)]);
    assert LayersListed(k) && ListsPointBack(k);
    SameAttached(h, k);
  }

  /** A new layer object, listed by its display. */
  function WithLayer(h: Heap, p: Pointer, id: LayerId): Heap
    requires p in h.displays
  {
    var d := h.displays[p];
    h.(displays := h.displays[p := d.(layers := if id in d.layers then d.layers else d.layers[id := h.next])],
       layers := h.layers[h.next := LayerObject(Some(p), id)],
       births := h.births[h.next := (d.id, id)],
       next := h.next + 1)
  }

  /** The display did not list an id that the HAL does not use, so that listing it displaces no
      other layer. */
  lemma {:induction false} IdIsNew(h: Heap, p: Pointer, id: LayerId)
    requires Sound(h) && p in h.displays
    ensures UnusedId(h, h.displays[p].id, id) ==> id !in h.displays[p].layers
  {
    if id in h.displays[p].layers {
      var l := h.displays[p].layers[id];
      assert h.layers[l] == LayerObject(Some(p), id);
      assert Attached(h, l) && h.births[l] == (h.displays[p].id, id);
    }
  }

  lemma {:induction false} WithLayerLists(h: Heap, p: Pointer, id: LayerId)
    requires Sound(h) && p in h.displays && id !in h.displays[p].layers
    ensures Numbered(WithLayer(h, p, id)) && Owned(WithLayer(h, p, id))
    ensures LayersListed(WithLayer(h, p, id)) && ListsPointBack(WithLayer(h, p, id))
  {
    var k := WithLayer(h, p, id);
    assert Owned(k);
    forall m | m in k.layers && k.layers[m].display.Some?
      ensures k.layers[m].display.value in k.displays
      ensures k.layers[m].id in k.displays[k.layers[m].display.value].layers
      ensures k.displays[k.layers[m].display.value].layers[k.layers[m].id] == m
    {
      if m != h.next { assert h.layers[m].display.Some?; }
    }
  }

  lemma {:induction false} WithLayerCalls(h: Heap, p: Pointer, id: LayerId)
    requires Sound(h) && p in h.displays && id !in h.displays[p].layers
    ensures BirthsKept(WithLayer(h, p, id)) && DestroyedOnce(WithLayer(h, p, id))
  {
    var k := WithLayer(h, p, id);
    forall m | m in k.births
      ensures k.calls[Call(m, k.births[m].0, k.births[m].1)] == if Attached(k, m) then 0 else 1
    {
      if m != h.next { assert Attached(k, m) == Attached(h, m); }
    }
  }

  lemma {:induction false} WithLayerSound(h: Heap, p: Pointer, id: LayerId)
    requires Sound(h) && p in h.displays && UnusedId(h, h.displays[p].id, id)
    ensures Sound(WithLayer(h, p, id))
  {
    IdIsNew(h, p, id);
    WithLayerLists(h, p, id);
    WithLayerCalls(h, p, id);
  }

  /** A layer without a display can go. */
  lemma {:induction false} DropSound(h: Heap, l: Pointer)
    requires Sound(h) && l in h.layers && h.layers[l].display.None?
    ensures Sound(h.(layers := h.layers - {l}))
  {
    var k := h.(layers := h.layers - {l});
    assert LayersListed(k);
    assert ListsPointBack(k);
    assert DestroyedOnce(k) by {
      forall m | m in k.births
        ensures Attached(k, m) == Attached(h, m)
      {
      }
    }
  }

  // ---------------------------------------------------------------------------
  // Operations and runs

  /** The calls of destroyLayer that a display makes when it goes: one for each layer that it lists. */
  function ToldCalls(h: Heap, p: Pointer): set<Call>
    requires p in h.displays
  {
    set id | id in h.displays[p].layers :: Call(h.displays[p].layers[id], h.displays[p].id, id)
  }

  /** The heap once the layers of display p were told that it goes. */
  function Told(h: Heap, p: Pointer): Heap
    requires p in h.displays
  {
    h.(displays := h.displays[p := h.displays[p].(layers := map[])],
       layers := map l | l in h.layers ::
                   if h.layers[l].display == Some(p) then h.layers[l].(display := None) else h.layers[l],
       calls := h.calls + multiset(ToldCalls(h, p)))
  }

  lemma {:induction false} ToldLists(h: Heap, p: Pointer)
    requires Sound(h) && p in h.displays
    ensures Numbered(Told(h, p)) && Owned(Told(h, p)) && BirthsKept(Told(h, p))
    ensures LayersListed(Told(h, p)) && ListsPointBack(Told(h, p))
  {
    var k := Told(h, p);
    forall l | l in k.layers && k.layers[l].display.Some?
      ensures k.layers[l].display.value in k.displays
      ensures k.layers[l].id in k.displays[k.layers[l].display.value].layers
      ensures k.displays[k.layers[l].display.value].layers[k.layers[l].id] == l
    {
      assert h.layers[l].display.Some? && h.layers[l].display.value != p;
    }
  }

  lemma {:induction false} ToldCallsCount(h: Heap, p: Pointer, l: Pointer)
    requires Sound(h) && p in h.displays && l in h.births
    ensures Call(l, h.births[l].0, h.births[l].1) in ToldCalls(h, p) <==> l in h.layers && h.layers[l].display == Some(p)
  {
    if l in h.layers && h.layers[l].display == Some(p) {
      assert h.displays[p].layers[h.layers[l].id] == l;
    }
  }

  lemma {:induction false} ToldOnce(h: Heap, p: Pointer)
    requires Sound(h) && p in h.displays
    ensures DestroyedOnce(Told(h, p))
  {
    var k := Told(h, p);
    forall l | l in k.births
      ensures k.calls[Call(l, k.births[l].0, k.births[l].1)] == if Attached(k, l) then 0 else 1
    {
      ToldCallsCount(h, p, l);
    }
    forall c | c in k.calls
      ensures c.layer in k.births && k.births[c.layer] == (c.display, c.id)
    {
      if c in ToldCalls(h, p) {
        assert h.layers[h.displays[p].layers[c.id]] == LayerObject(Some(p), c.id);
      }
    }
  }

  lemma {:induction false} ToldSound(h: Heap, p: Pointer)
    requires Sound(h) && p in h.displays
    ensures Sound(Told(h, p))
  {
    ToldLists(h, p);
    ToldOnce(h, p);
  }

  /** Which layers are attached decides which calls were made. */
  lemma {:induction false} SameCalls(h: Heap, k: Heap)
    requires DestroyedOnce(h) && DestroyedOnce(k) && h.births == k.births && h.layers == k.layers
    ensures h.calls == k.calls
  {
    forall c: Call
      ensures h.calls[c] == k.calls[c]
    {
      if c in h.calls || c in k.calls {
        assert h.calls[Call(c.layer, c.display, c.id)] == k.calls[Call(c.layer, c.display, c.id)];
      }
    }
  }

  /** A heap in which the layers of p lost it and nothing else changed is the one that Told gives. */
  lemma {:induction false} IsTold(h: Heap, k: Heap, p: Pointer)
    requires Sound(h) && Sound(k) && p in h.displays && AllLost(h.layers, k.layers, p)
    requires k.table == h.table && k.births == h.births && k.next == h.next
    requires k.displays == h.displays[p := h.displays[p].(layers := map[])]
    ensures k == Told(h, p)
  {
    assert k.layers == Told(h, p).layers;
    ToldSound(h, p);
    SameCalls(k, Told(h, p));
  }

  /** The heap without a display, whose layers were told. */
  function Removed(h: Heap, d: DisplayId): Heap
    requires d in h.table ==> h.table[d] in h.displays
  {
    if d !in h.table then h
    else
      var p := h.table[d];
      Told(h, p).(table := h.table - {d}, displays := h.displays - {p})
  }

  lemma {:induction false} RemovedSound(h: Heap, d: DisplayId)
    requires Sound(h)
    ensures Sound(Removed(h, d))
  {
    if d in h.table {
      ToldSound(h, h.table[d]);
      RemoveSound(Told(h, h.table[d]), d);
      WithoutTwice(h.displays, h.table[d]);
    }
  }

  function Disconnected(h: Heap, d: DisplayId): Heap
    requires d in h.table ==> h.table[d] in h.displays
  {
    if d in h.table
    then h.(displays := h.displays[h.table[d] := h.displays[h.table[d]].(connected := false)]) else h
  }

  datatype Operation =
    | Connect(display: DisplayId)
    | Disconnect(display: DisplayId)
    | Destroy(display: DisplayId)
    | Create(on: Pointer, id: LayerId)
    | Drop(layer: Pointer)

  /** What an operation does. The HAL numbers a new layer unlike any that it has on that display. */
  ghost predicate Takes(h: Heap, op: Operation, k: Heap)
    requires Sound(h)
  {
    match op
    case Connect(d) => k == WithDisplay(Removed(h, d), d)
    case Disconnect(d) => k == Disconnected(h, d)
    case Destroy(d) => k == Removed(h, d)
    case Create(p, id) => p in h.displays && UnusedId(h, h.displays[p].id, id) && k == WithLayer(h, p, id)
    case Drop(l) => l in h.layers && k == Dropped(h, l)
  }

  ghost predicate BirthsGrow(h: Heap, k: Heap) {
    forall l <- h.births :: l in k.births && k.births[l] == h.births[l]
  }

  /** An operation keeps all invariants. */
  lemma {:induction false} TakesSound(h: Heap, op: Operation, k: Heap)
    requires Sound(h) && Takes(h, op, k)
    ensures Sound(k)
  {
    match op
    case Connect(d) =>
      RemovedSound(h, d);
      WithDisplaySound(Removed(h, d), d);
    case Disconnect(d) => if d in h.table { DisconnectSound(h, h.table[d]); }
    case Destroy(d) => RemovedSound(h, d);
    case Create(p, id) => WithLayerSound(h, p, id);
    case Drop(l) => DroppedSound(h, l);
  }

  /** An operation remembers every layer that was created, and brings none back. */
  lemma {:induction false} TakesDetached(h: Heap, op: Operation, k: Heap)
    requires Sound(h) && Takes(h, op, k)
    ensures DetachedStays(h, k) && BirthsGrow(h, k)
  {
    match op
    case Create(p, id) => NewBirth(h, p, id);
    case Connect(d) =>
    case Disconnect(d) =>
    case Destroy(d) =>
    case Drop(l) =>
  }

  lemma {:induction false} NewBirth(h: Heap, p: Pointer, id: LayerId)
    requires Sound(h) && p in h.displays && UnusedId(h, h.displays[p].id, id)
    ensures DetachedStays(h, WithLayer(h, p, id)) && BirthsGrow(h, WithLayer(h, p, id))
  {
    assert h.next !in h.births;
  }

  lemma {:induction false} DroppedSound(h: Heap, l: Pointer)
    requires Sound(h) && l in h.layers
    ensures Sound(Dropped(h, l))
  {
    if Attached(h, l) {
      DetachSound(h, l);
      DropSound(Detach(h, l), l);
      Gone(h.layers, l, h.layers[l].(display := None));
    } else {
      DropSound(h, l);
    }
  }

  const NOTHING := Heap(map[], map[], map[], map[], multiset{}, 0)

  /** A run: the heaps between operations, and the operations. */
  ghost predicate IsRun(heaps: seq<Heap>, ops: seq<Operation>) {
    && |heaps| == |ops| + 1 && heaps[0] == NOTHING
    && forall i :: 0 <= i < |ops| ==> Sound(heaps[i]) ==> Takes(heaps[i], ops[i], heaps[i + 1])
  }

  lemma {:induction false} RunSound(heaps: seq<Heap>, ops: seq<Operation>, n: nat)
    requires IsRun(heaps, ops) && n < |heaps|
    ensures Sound(heaps[n])
  {
    if n > 0 {
      RunSound(heaps, ops, n - 1);
      TakesSound(heaps[n - 1], ops[n - 1], heaps[n]);
    }
  }

  /** l is detached or gone, and its birth is known. */
  ghost predicate Left(h: Heap, l: Pointer, birth: (DisplayId, LayerId)) {
    l in h.births && h.births[l] == birth && !Attached(h, l)
  }

  lemma {:induction false} StillLeft(h: Heap, op: Operation, k: Heap, l: Pointer, birth: (DisplayId, LayerId))
    requires Sound(h) && Takes(h, op, k) && Left(h, l, birth)
    ensures Left(k, l, birth) && (l !in h.layers ==> l !in k.layers)
  {
    TakesDetached(h, op, k);
    assert l in k.layers ==> l in h.layers;
  }

  lemma {:induction false} LeftForever(heaps: seq<Heap>, ops: seq<Operation>, i: nat, j: nat, l: Pointer)
    requires IsRun(heaps, ops) && i <= j < |heaps| && l in heaps[i].births && !Attached(heaps[i], l)
    ensures Left(heaps[j], l, heaps[i].births[l]) && (l !in heaps[i].layers ==> l !in heaps[j].layers)
    decreases j
  {
    if i < j {
      RunSound(heaps, ops, j - 1);
      LeftForever(heaps, ops, i, j - 1, l);
      StillLeft(heaps[j - 1], ops[j - 1], heaps[j], l, heaps[i].births[l]);
    }
  }

  /** In every run, a layer that is detached or gone at one point is so at every later one, an object
      that is gone stays gone, and destroyLayer was called for the layer exactly once, with the ids
      that it was created with. */
  lemma {:induction false} DetachedForever(heaps: seq<Heap>, ops: seq<Operation>, i: nat, j: nat, l: Pointer)
    requires IsRun(heaps, ops) && i <= j < |heaps| && l in heaps[i].births && !Attached(heaps[i], l)
    ensures !Attached(heaps[j], l) && (l !in heaps[i].layers ==> l !in heaps[j].layers)
    ensures heaps[j].calls[Call(l, heaps[i].births[l].0, heaps[i].births[l].1)] == 1
  {
    RunSound(heaps, ops, j);
    LeftForever(heaps, ops, i, j, l);
  }

  // What a run leaves, told by its operations

  /** The last of the first n operations to connect or destroy display d connected it. */
  ghost predicate InTable(ops: seq<Operation>, n: nat, d: DisplayId)
    requires n <= |ops|
  {
    exists k | 0 <= k < n :: ops[k] == Connect(d) && forall j | k < j < n :: ops[j] != Destroy(d)
  }

  /** It was connected, and not disconnected since. */
  ghost predicate IsConnected(ops: seq<Operation>, n: nat, d: DisplayId)
    requires n <= |ops|
  {
    exists k | 0 <= k < n :: ops[k] == Connect(d) && forall j | k < j < n :: ops[j] != Disconnect(d)
  }

  lemma {:induction false} InTableSnoc(ops: seq<Operation>, n: nat, d: DisplayId)
    requires n < |ops|
    ensures InTable(ops, n + 1, d) <==> ops[n] == Connect(d) || (InTable(ops, n, d) && ops[n] != Destroy(d))
    ensures IsConnected(ops, n + 1, d) <==> ops[n] == Connect(d) || (IsConnected(ops, n, d) && ops[n] != Disconnect(d))
  {
    if k :| 0 <= k < n && ops[k] == Connect(d) && forall j | k < j < n :: ops[j] != Destroy(d) {
      if ops[n] != Destroy(d) { assert ops[k] == Connect(d); }
    }
    if k :| 0 <= k < n && ops[k] == Connect(d) && forall j | k < j < n :: ops[j] != Disconnect(d) {
      if ops[n] != Disconnect(d) { assert ops[k] == Connect(d); }
    }
  }

  /** The display under an id: whether there is one, and whether it counts as connected. */
  ghost predicate DisplaySo(h: Heap, d: DisplayId, there: bool, connected: bool) {
    && (d in h.table <==> there)
    && (d in h.table ==> h.table[d] in h.displays && (h.displays[h.table[d]].connected <==> connected))
  }

  lemma {:induction false} RemovedTable(h: Heap, d: DisplayId, e: DisplayId, there: bool, connected: bool)
    requires Sound(h) && DisplaySo(h, e, there, connected)
    ensures DisplaySo(Removed(h, d), e, there && e != d, connected)
  {
    if d in h.table && e in h.table && e != d { assert h.table[e] != h.table[d]; }
  }

  lemma {:induction false} AddedTable(h: Heap, d: DisplayId, e: DisplayId, there: bool, connected: bool)
    requires Sound(h) && DisplaySo(h, e, there, connected)
    ensures DisplaySo(WithDisplay(h, d), e, there || e == d, connected || e == d)
  {
  }

  lemma {:induction false} DisconnectedTable(h: Heap, d: DisplayId, e: DisplayId, there: bool, connected: bool)
    requires Sound(h) && DisplaySo(h, e, there, connected)
    ensures DisplaySo(Disconnected(h, d), e, there, connected && e != d)
  {
    if d in h.table && e in h.table && e != d { assert h.table[e] != h.table[d]; }
  }

  lemma {:induction false} LayersKeepTable(h: Heap, op: Operation, k: Heap, e: DisplayId, there: bool, connected: bool)
    requires Sound(h) && Takes(h, op, k) && DisplaySo(h, e, there, connected) && (op.Create? || op.Drop?)
    ensures DisplaySo(k, e, there, connected)
  {
  }

  lemma {:induction false} TableAfter(h: Heap, op: Operation, k: Heap, d: DisplayId, there: bool, connected: bool)
    requires Sound(h) && Takes(h, op, k) && DisplaySo(h, d, there, connected)
    ensures DisplaySo(k, d, op == Connect(d) || (there && op != Destroy(d)),
                      op == Connect(d) || (connected && op != Disconnect(d)))
  {
    match op
    case Connect(e) =>
      RemovedSound(h, e);
      RemovedTable(h, e, d, there, connected);
      AddedTable(Removed(h, e), e, d, there && e != d, connected);
    case Disconnect(e) => DisconnectedTable(h, e, d, there, connected);
    case Destroy(e) => RemovedTable(h, e, d, there, connected);
    case Create(_, _) => LayersKeepTable(h, op, k, d, there, connected);
    case Drop(_) => LayersKeepTable(h, op, k, d, there, connected);
  }

  /** In every run a display is in the table exactly if it was connected and not destroyed since, and it
      counts as connected exactly if it was not disconnected since. */
  lemma {:induction false} TableIsHistory(heaps: seq<Heap>, ops: seq<Operation>, n: nat, d: DisplayId)
    requires IsRun(heaps, ops) && n < |heaps|
    ensures DisplaySo(heaps[n], d, InTable(ops, n, d), IsConnected(ops, n, d))
  {
    if n > 0 {
      RunSound(heaps, ops, n - 1);
      TableIsHistory(heaps, ops, n - 1, d);
      TableAfter(heaps[n - 1], ops[n - 1], heaps[n], d, InTable(ops, n - 1, d), IsConnected(ops, n - 1, d));
      InTableSnoc(ops, n - 1, d);
    }
  }

  /** A layer after an operation: it is gone if it was dropped, and loses its display if that is
      destroyed or connected anew. */
  lemma {:induction false} LayerAfter(h: Heap, op: Operation, k: Heap, l: Pointer)
    requires Sound(h) && Takes(h, op, k) && l in h.births
    ensures l in k.layers <==> l in h.layers && op != Drop(l)
    ensures var d := h.births[l].0;
            Attached(k, l) <==> Attached(h, l) && op !in {Drop(l), Connect(d), Destroy(d)}
  {
    match op
    case Connect(d) => LayerAfterRemoval(h, d, l);
    case Destroy(d) => LayerAfterRemoval(h, d, l);
    case Disconnect(d) =>
    case Create(p, id) => assert l != h.next;
    case Drop(m) =>
  }

  lemma {:induction false} LayerAfterRemoval(h: Heap, d: DisplayId, l: Pointer)
    requires Sound(h) && l in h.births
    ensures l in Removed(h, d).layers <==> l in h.layers
    ensures Attached(Removed(h, d), l) <==> Attached(h, l) && h.births[l].0 != d
  {
    if Attached(h, l) {
      var p := h.layers[l].display.value;
      assert p in h.displays && h.displays[p].id == h.births[l].0;
      assert h.table[h.displays[p].id] == p;
    }
  }

  /** A layer with the ids it was created with: whether it is there, and whether it is attached. */
  ghost predicate LayerSo(h: Heap, l: Pointer, birth: (DisplayId, LayerId), there: bool, attached: bool) {
    l in h.births && h.births[l] == birth && (l in h.layers <==> there) && (Attached(h, l) <==> attached)
  }

  lemma {:induction false} LayerStep(h: Heap, op: Operation, k: Heap, l: Pointer, birth: (DisplayId, LayerId), there: bool,
                                     attached: bool)
    requires Sound(h) && Takes(h, op, k) && LayerSo(h, l, birth, there, attached)
    ensures LayerSo(k, l, birth, there && op != Drop(l),
                    attached && op !in {Drop(l), Connect(birth.0), Destroy(birth.0)})
  {
    LayerAfter(h, op, k, l);
    TakesDetached(h, op, k);
  }

  lemma {:induction false} LayerCreated(h: Heap, op: Operation, k: Heap)
    requires Sound(h) && op.Create? && Takes(h, op, k)
    ensures LayerSo(k, h.next, (h.displays[op.on].id, op.id), true, true)
  {
  }

  ghost predicate NotDropped(ops: seq<Operation>, i: nat, n: nat, l: Pointer)
    requires n <= |ops|
  {
    forall j | i < j < n :: ops[j] != Drop(l)
  }

  ghost predicate NotDetached(ops: seq<Operation>, i: nat, n: nat, l: Pointer, d: DisplayId)
    requires n <= |ops|
  {
    forall j | i < j < n :: ops[j] !in {Drop(l), Connect(d), Destroy(d)}
  }

  lemma {:induction false} RunTakes(heaps: seq<Heap>, ops: seq<Operation>, n: nat)
    requires IsRun(heaps, ops) && n < |ops|
    ensures Sound(heaps[n]) && Takes(heaps[n], ops[n], heaps[n + 1])
  {
    RunSound(heaps, ops, n);
  }

  lemma {:induction false} LayerRunStep(heaps: seq<Heap>, ops: seq<Operation>, n: nat, l: Pointer,
                                        birth: (DisplayId, LayerId), there: bool, attached: bool)
    requires IsRun(heaps, ops) && n < |ops| && LayerSo(heaps[n], l, birth, there, attached)
    ensures LayerSo(heaps[n + 1], l, birth, there && ops[n] != Drop(l),
                    attached && ops[n] !in {Drop(l), Connect(birth.0), Destroy(birth.0)})
  {
    RunTakes(heaps, ops, n);
    LayerStep(heaps[n], ops[n], heaps[n + 1], l, birth, there, attached);
  }

  lemma {:induction false} LayerRunStart(heaps: seq<Heap>, ops: seq<Operation>, i: nat)
    requires IsRun(heaps, ops) && i < |ops| && ops[i].Create?
    ensures ops[i].on in heaps[i].displays
    ensures LayerSo(heaps[i + 1], heaps[i].next, (heaps[i].displays[ops[i].on].id, ops[i].id), true, true)
  {
    RunTakes(heaps, ops, i);
    LayerCreated(heaps[i], ops[i], heaps[i + 1]);
  }

  lemma {:induction false} NotYet(ops: seq<Operation>, i: nat, n: nat, l: Pointer, d: DisplayId)
    requires i < n < |ops|
    ensures NotDropped(ops, i, n + 1, l) <==> NotDropped(ops, i, n, l) && ops[n] != Drop(l)
    ensures NotDetached(ops, i, n + 1, l, d) <==>
            NotDetached(ops, i, n, l, d) && ops[n] !in {Drop(l), Connect(d), Destroy(d)}
  {
  }

  /** In every run a layer object is there until it is dropped, and attached until it is dropped or its
      display is destroyed or connected anew; it keeps the ids that it was created with. */
  lemma {:induction false} LayerIsHistory(heaps: seq<Heap>, ops: seq<Operation>, i: nat, n: nat, l: Pointer,
                                          d: DisplayId)
    requires IsRun(heaps, ops) && i < n < |heaps| && ops[i].Create? && l == heaps[i].next
    requires ops[i].on in heaps[i].displays && d == heaps[i].displays[ops[i].on].id
    ensures LayerSo(heaps[n], l, (d, ops[i].id), NotDropped(ops, i, n, l), NotDetached(ops, i, n, l, d))
    decreases n
  {
    if i == n - 1 {
      LayerRunStart(heaps, ops, i);
    } else {
      LayerIsHistory(heaps, ops, i, n - 1, l, d);
      LayerRunStep(heaps, ops, n - 1, l, (d, ops[i].id), NotDropped(ops, i, n - 1, l), NotDetached(ops, i, n - 1, l, d));
      NotYet(ops, i, n - 1, l, d);
    }
  }

  class Device {
    var table: map<DisplayId, Pointer>
    var displays: map<Pointer, DisplayObject>
    var layers: map<Pointer, LayerObject>
    var births: map<Pointer, (DisplayId, LayerId)>
    var calls: multiset<Call>
    var next: Pointer

    ghost function View(): Heap
      reads this
    {
      Heap(table, displays, layers, births, calls, next)
    }

    ghost predicate Valid()
      reads this
    {
      Sound(View())
    }

    constructor ()
      ensures Valid() && table == map[] && births == map[]
    {
      table, displays, layers, births, calls, next := map[], map[], map[], map[], multiset{}, 0;
    }

    /** Layer::onOwningDisplayDestroyed. The list that the layer leaves may already be empty. */
    method OnOwningDisplayDestroyed(l: Pointer)
      requires l in layers
      requires layers[l].display.Some? ==> layers[l].display.value in displays
      modifies `displays, `layers, `calls
      ensures View() == if old(layers[l].display.None?) then old(View()) else Detach(old(View()), l)
    {
      var layer := layers[l];
      if layer.display.None? { return; }
      var p := layer.display.value;
      displays := displays[p := displays[p].(layers := displays[p].layers - {layer.id})];
      calls := calls + multiset{Call(l, displays[p].id, layer.id)};
      layers := layers[l := layer.(display := None)];
    }

    /** One round of the destructor's loop. The weak reference is never stale. */
    method TellLayer(p: Pointer, list: map<LayerId, Pointer>, id: LayerId)
      requires p in displays && displays[p].layers == map[] && id in list
      requires Sound(Listing(View(), p, list))
      modifies `displays, `layers, `calls
      ensures displays == old(displays)
      ensures list[id] in old(layers) && old(layers)[list[id]].display == Some(p)
      ensures layers == old(layers)[list[id] := old(layers)[list[id]].(display := None)]
      ensures Sound(Listing(View(), p, list - {id}))
    {
      ghost var h := View();
      var l := list[id];
      assert Listing(h, p, list).displays[p].layers[id] == l;
      assert l in layers;
      OnOwningDisplayDestroyed(l);
      DetachListing(h, View(), p, list, id);
      DetachSound(Listing(h, p, list), l);
    }

    /** Display::~Display: the list of layers is swapped out, and every layer in it is told. */
    method TellLayers(p: Pointer)
      requires Sound(View()) && p in displays
      modifies `displays, `layers, `calls
      ensures Sound(View()) && p in displays && displays[p].layers == map[]
      ensures displays == old(displays)[p := old(displays)[p].(layers := map[])]
      ensures AllLost(old(layers), layers, p) && View() == Told(old(View()), p)
    {
      var doomed := displays[p].layers;
      displays := displays[p := displays[p].(layers := map[])];
      ghost var was := displays;
      ListingSame(old(View()), p);
      while doomed != map[]
        invariant displays == was
        invariant Sound(Listing(View(), p, doomed))
        invariant OnlyLost(old(layers), layers, p)
        decreases |doomed|
      {
        var id :| id in doomed;
        Fewer(doomed, id);
        ghost var current := layers;
        TellLayer(p, doomed, id);
        OneMoreLost(old(layers), current, p, doomed[id]);
        doomed := doomed - {id};
      }
      ListingSame(View(), p);
      NoneLeft(View(), p);
      IsTold(old(View()), View(), p);
    }

    /** A display that has told its layers is removed. */
    method Erase(d: DisplayId)
      requires Valid() && d in table && displays[table[d]].layers == map[]
      modifies `table, `displays
      ensures Valid() && table == old(table) - {d} && displays == old(displays) - {old(table)[d]}
    {
      var p := table[d];
      ghost var k := View().(table := table - {d}, displays := displays - {p});
      RemoveSound(View(), d);
      table, displays := table - {d}, displays - {p};
      assert View() == k;
    }

    /** Device::destroyDisplay: erasing a display from the table destroys it. */
    method DestroyDisplay(d: DisplayId)
      requires Valid()
      modifies `table, `displays, `layers, `calls
      ensures Valid() && table == old(table) - {d}
      ensures View() == Removed(old(View()), d) && DetachedStays(old(View()), View())
      ensures d in old(table) ==>
                displays == old(displays) - {old(table)[d]} && AllLost(old(layers), layers, old(table)[d])
    {
      if d !in table {
        assert table - {d} == table;
        return;
      }
      WithoutTwice(displays, table[d]);
      TellLayers(table[d]);
      Erase(d);
    }

    /** A new display object, connected and without layers. */
    method AddDisplay(d: DisplayId)
      requires Valid() && d !in table
      modifies `table, `displays, `next
      ensures Valid() && View() == WithDisplay(old(View()), d)
    {
      ghost var k := WithDisplay(View(), d);
      WithDisplaySound(View(), d);
      table, displays, next := table[d := next], displays[next := DisplayObject(d, true, map[])], next + 1;
      assert View() == k;
    }

    /** Device::onHotplug, connected: an old display under the id is destroyed first. */
    method Connect(d: DisplayId)
      requires Valid()
      modifies `table, `displays, `layers, `calls, `next
      ensures Valid() && old(next) in displays && displays[old(next)] == DisplayObject(d, true, map[])
      ensures table == old(table)[d := old(next)]
      ensures View() == WithDisplay(Removed(old(View()), d), d) && DetachedStays(old(View()), View())
      ensures d !in old(table) ==> layers == old(layers)
      ensures d in old(table) ==> AllLost(old(layers), layers, old(table)[d])
    {
      DestroyDisplay(d);
      AddDisplay(d);
    }

    /** Device::onHotplug, disconnected: the display is only marked. */
    method Disconnect(d: DisplayId)
      requires Valid()
      modifies `displays
      ensures Valid() && View() == Disconnected(old(View()), d) && DetachedStays(old(View()), View())
    {
      if d !in table { return; }
      DisconnectSound(View(), table[d]);
      displays := displays[table[d] := displays[table[d]].(connected := false)];
    }

    /** A new layer object, listed by its display. */
    method AddLayer(p: Pointer, id: LayerId)
      requires p in displays
      modifies `displays, `layers, `births, `next
      ensures View() == WithLayer(old(View()), p, id)
    {
      var d := displays[p];
      layers, births := layers[next := LayerObject(Some(p), id)], births[next := (d.id, id)];
      displays, next := displays[p := d.(layers := if id in d.layers then d.layers else d.layers[id := next])], next + 1;
    }

    /** Display::createLayer, with the answer of the HAL. */
    method CreateLayer(p: Pointer, answer: Option<LayerId>) returns (layer: Option<Pointer>)
      requires Valid() && p in displays
      requires answer.Some? ==> UnusedId(View(), displays[p].id, answer.value)
      modifies `displays, `layers, `births, `next
      ensures Valid() && DetachedStays(old(View()), View())
      ensures layer == if answer.None? then None else Some(old(next))
      ensures View() == if answer.None? then old(View()) else WithLayer(old(View()), p, answer.value)
    {
      if answer.None? { return None; }
      WithLayerSound(View(), p, answer.value);
      layer := Some(next);
      AddLayer(p, answer.value);
    }

    method FreeLayer(l: Pointer)
      requires Valid() && l in layers && layers[l].display.None?
      modifies `layers
      ensures Valid() && layers == old(layers) - {l}
    {
      ghost var k := View().(layers := layers - {l});
      DropSound(View(), l);
      layers := layers - {l};
      assert View() == k;
    }

    /** The last owner of a layer lets it go, which runs Layer::~Layer. */
    method DropLayer(l: Pointer)
      requires Valid() && l in layers
      modifies `displays, `layers, `calls
      ensures Valid() && View() == Dropped(old(View()), l) && DetachedStays(old(View()), View())
    {
      ghost var h := View();
      if layers[l].display.Some? { DetachSound(h, l); }
      OnOwningDisplayDestroyed(l);
      Gone(h.layers, l, layers[l]);
      FreeLayer(l);
    }

    /** Any operation on a layer: BAD_DISPLAY once the display is gone, else a call to the HAL with
        the ids the layer was created with. */
    method Forward(l: Pointer) returns (target: Option<(DisplayId, LayerId)>)
      requires Valid() && l in layers
      ensures target == if Attached(View(), l) then Some(births[l]) else None
    {
      if layers[l].display.None? { return None; }
      return Some((displays[layers[l].display.value].id, layers[l].id));
    }
  }
}
