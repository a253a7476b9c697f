/** The layers of the state tree (chain/state/statetree.go, `stateSnaps`) as values,
    and the full maps they stand for. */
module StateLayers {
  import opened Wrappers

  type Id = nat
  type Key = nat
  type Head = nat

  /** An ID address names an actor; any other address is a key the init actor resolves. */
  datatype Address = ById(id: Id) | ByKey(key: Key)

  const UNDEF: Address := ByKey(0)

  /** `rest` stands for code, nonce and balance. */
  datatype Actor = Actor(head: Head, rest: int)

  type Actors = map<Id, Actor>

  const INIT_ACTOR: Id := 1

  datatype Op = Put(act: Actor) | Delete

  datatype Layer = Layer(actors: map<Id, Op>, resolved: map<Key, Id>)

  type Layers = seq<Layer>

  const EMPTY_LAYER: Layer := Layer(map[], map[])

  // ----- views -----------------------------------------------------------

  /** A map with a layer's operations applied. */
  ghost function Overlay(m: Actors, ops: map<Id, Op>): Actors {
    map a | a in m.Keys + ops.Keys && !(a in ops && ops[a].Delete?) :: if a in ops then ops[a].act else m[a]
  }

  ghost function View(root: Actors, layers: Layers): Actors {
    if layers == [] then root else Overlay(View(root, layers[..|layers| - 1]), layers[|layers| - 1].actors)
  }

  /** The stack of full copies the layers stand for, one per layer. */
  ghost function Stack(root: Actors, layers: Layers): (s: seq<Actors>)
    ensures |s| == |layers|
  {
    seq(|layers|, i requires 0 <= i < |layers| => View(root, layers[..i + 1]))
  }

  /** The map below the topmost copy. */
  ghost function Beneath(root: Actors, stack: seq<Actors>): Actors
    requires stack != []
  {
    if |stack| == 1 then root else stack[|stack| - 2]
  }

  ghost function Top(stack: seq<Actors>): Actors
    requires stack != []
  {
    stack[|stack| - 1]
  }

  ghost function Replaced(stack: seq<Actors>, m: Actors): seq<Actors>
    requires stack != []
  {
    stack[|stack| - 1 := m]
  }

  // ----- overlays --------------------------------------------------------

  lemma OverlayPut(m: Actors, ops: map<Id, Op>, id: Id, act: Actor)
    ensures Overlay(m, ops[id := Put(act)]) == Overlay(m, ops)[id := act]
  {
  }

  lemma OverlayDelete(m: Actors, ops: map<Id, Op>, id: Id)
    ensures Overlay(m, ops[id := Delete]) == Overlay(m, ops) - {id}
  {
  }

  lemma OverlayMerge(m: Actors, low: map<Id, Op>, high: map<Id, Op>)
    ensures Overlay(Overlay(m, low), high) == Overlay(m, low + high)
  {
  }

  lemma OverlayNothing(m: Actors)
    ensures Overlay(m, map[]) == m
  {
  }

  // ----- stacks ----------------------------------------------------------

  lemma TopIsView(root: Actors, layers: Layers)
    requires layers != []
    ensures Top(Stack(root, layers)) == View(root, layers)
    ensures Beneath(root, Stack(root, layers)) == View(root, layers[..|layers| - 1])
  {
    assert layers[..|layers|] == layers;
  }

  lemma StackPush(root: Actors, layers: Layers, top: Layer, more: Layers)
    requires more == layers + [top]
    ensures Stack(root, more) == Stack(root, layers) + [Overlay(View(root, layers), top.actors)]
  {
    assert more[..|layers|] == layers && more[..|more|] == more;
    forall i | 0 <= i < |layers|
      ensures Stack(root, more)[i] == Stack(root, layers)[i]
    {
      assert more[..i + 1] == layers[..i + 1];
    }
  }

  /** Layers taken apart at the top. */
  lemma StackSplit(root: Actors, layers: Layers, front: Layers, top: Layer)
    requires layers == front + [top]
    ensures Stack(root, layers) == Stack(root, front) + [View(root, layers)]
    ensures View(root, layers) == Overlay(View(root, front), top.actors)
  {
    StackPush(root, front, top, layers);
    assert layers[..|layers| - 1] == front;
  }

  // ----- address resolution ----------------------------------------------

  type Resolutions = map<Key, Id>

  /** The states of the init actor by the CID of its head. */
  type Store = map<Head, Resolutions>

  function InitMap(m: Actors, store: Store): Option<Resolutions> {
    if INIT_ACTOR in m && m[INIT_ACTOR].head in store then Some(store[m[INIT_ACTOR].head]) else None
  }

  function Resolve(m: Actors, store: Store, addr: Address): Option<Id> {
    match addr
    case ById(id) => Some(id)
    case ByKey(key) =>
      var ids := InitMap(m, store);
      if ids.Some? && key in ids.value then Some(ids.value[key]) else None
  }

  /** Everything resolved before is still resolved the same way. */
  ghost predicate Grows(old_: Option<Resolutions>, new_: Option<Resolutions>) {
    old_.Some? ==> new_.Some? && forall k :: k in old_.value ==> k in new_.value && new_.value[k] == old_.value[k]
  }

  ghost predicate Agrees(m: Actors, resolved: Resolutions, store: Store) {
    forall k :: k in resolved ==> Resolve(m, store, ByKey(k)) == Some(resolved[k])
  }

  /** Every layer's cached resolutions are those of the init actor in its copy, and
      the init actor's map grows from copy to copy. */
  ghost predicate CachesOk(stack: seq<Actors>, layers: Layers, store: Store) {
    && |stack| == |layers|
    && (forall i :: 0 <= i < |stack| ==> Agrees(stack[i], layers[i].resolved, store))
    && (forall i, j :: 0 <= i <= j < |stack| ==> Grows(InitMap(stack[i], store), InitMap(stack[j], store)))
  }

  lemma GrownAgrees(m: Actors, m': Actors, resolved: Resolutions, store: Store)
    requires Agrees(m, resolved, store) && Grows(InitMap(m, store), InitMap(m', store))
    ensures Agrees(m', resolved, store)
  {
    forall k | k in resolved
      ensures Resolve(m', store, ByKey(k)) == Some(resolved[k])
    {
      assert Resolve(m, store, ByKey(k)) == Some(resolved[k]);
    }
  }

  lemma GrowsOn(a: Option<Resolutions>, b: Option<Resolutions>, c: Option<Resolutions>)
    requires Grows(a, b) && Grows(b, c)
    ensures Grows(a, c)
  {
  }

  /** A cached resolution is the one the topmost copy gives. */
  lemma CacheHit(stack: seq<Actors>, layers: Layers, store: Store, i: nat, key: Key)
    requires CachesOk(stack, layers, store) && i < |layers| && key in layers[i].resolved
    ensures Resolve(Top(stack), store, ByKey(key)) == Some(layers[i].resolved[key])
  {
    assert Agrees(stack[i], layers[i].resolved, store);
    GrownAgrees(stack[i], Top(stack), layers[i].resolved, store);
  }

  /** The topmost copy changed, and the init actor's map did not lose anything. */
  lemma ChangeTop(stack: seq<Actors>, layers: Layers, store: Store, m: Actors, layers': Layers)
    requires CachesOk(stack, layers, store) && stack != [] && |layers'| == |layers|
    requires forall i :: 0 <= i < |layers| ==> layers'[i].resolved == layers[i].resolved
    requires Grows(InitMap(Top(stack), store), InitMap(m, store))
    ensures CachesOk(Replaced(stack, m), layers', store)
  {
    var n, stack' := |stack| - 1, Replaced(stack, m);
    forall i, j | 0 <= i <= j < |stack|
      ensures Grows(InitMap(stack'[i], store), InitMap(stack'[j], store))
    {
      GrowsOn(InitMap(stack[i], store), InitMap(stack[n], store), InitMap(m, store));
    }
    assert Agrees(stack[n], layers[n].resolved, store);
    GrownAgrees(stack[n], m, layers[n].resolved, store);
  }

  lemma AddToCache(stack: seq<Actors>, layers: Layers, store: Store, key: Key, id: Id, layers': Layers)
    requires CachesOk(stack, layers, store) && layers != []
    requires Resolve(Top(stack), store, ByKey(key)) == Some(id)
    requires layers' == layers[|layers| - 1 := layers[|layers| - 1].(resolved := layers[|layers| - 1].resolved[key := id])]
    ensures CachesOk(stack, layers', store)
  {
    assert Agrees(Top(stack), layers[|layers| - 1].resolved, store);
  }

  lemma PushCopy(stack: seq<Actors>, layers: Layers, store: Store, m: Actors)
    requires CachesOk(stack, layers, store)
    requires stack != [] ==> Grows(InitMap(Top(stack), store), InitMap(m, store))
    ensures CachesOk(stack + [m], layers + [EMPTY_LAYER], store)
  {
    var n, more := |stack|, stack + [m];
    forall i, j | 0 <= i <= j < |more|
      ensures Grows(InitMap(more[i], store), InitMap(more[j], store))
    {
      if i < j == n {
        GrowsOn(InitMap(stack[i], store), InitMap(stack[n - 1], store), InitMap(m, store));
      }
    }
  }

  lemma DropTop(stack: seq<Actors>, layers: Layers, store: Store)
    requires CachesOk(stack, layers, store) && stack != []
    ensures CachesOk(stack[..|stack| - 1], layers[..|layers| - 1], store)
  {
  }

  /** Two layers merged into one. */
  lemma MergeCaches(stack: seq<Actors>, layers: Layers, store: Store, n: nat, merged: Layer)
    requires CachesOk(stack, layers, store) && |stack| == n + 2
    requires merged.resolved == layers[n].resolved + layers[n + 1].resolved
    ensures CachesOk(stack[..n] + [stack[n + 1]], layers[..n] + [merged], store)
  {
    var m := stack[n + 1];
    assert Agrees(stack[n], layers[n].resolved, store) && Agrees(m, layers[n + 1].resolved, store);
    GrownAgrees(stack[n], m, layers[n].resolved, store);
  }
}
