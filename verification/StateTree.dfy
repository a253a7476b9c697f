/** The state tree (chain/state/statetree.go): actors under snapshots. Whatever the
    nesting of snapshots, the layers show the same actors as a stack of full copies. */
module StateTree {
  import opened Wrappers
  import opened StateLayers

  // ----- looking through the layers --------------------------------------

  ghost function LastOp(layers: Layers, id: Id): Option<Op> {
    if layers == [] then None
    else if id in layers[|layers| - 1].actors then Some(layers[|layers| - 1].actors[id])
    else LastOp(layers[..|layers| - 1], id)
  }

  /** The view holds what the topmost operation on the actor left, else what the root holds. */
  lemma {:induction false} ViewAt(root: Actors, layers: Layers, id: Id)
    ensures LastOp(layers, id) == None ==> (id in View(root, layers) <==> id in root)
    ensures LastOp(layers, id) == None && id in root ==> View(root, layers)[id] == root[id]
    ensures LastOp(layers, id) == Some(Delete) ==> id !in View(root, layers)
    ensures LastOp(layers, id).Some? && LastOp(layers, id).value.Put? ==>
              id in View(root, layers) && View(root, layers)[id] == LastOp(layers, id).value.act
  {
    if layers != [] {
      ViewAt(root, layers[..|layers| - 1], id);
    }
  }

  method FindOp(layers: Layers, id: Id) returns (op: Option<Op>)
    ensures op == LastOp(layers, id)
  {
    var i := |layers|;
    assert layers[..i] == layers;
    while i > 0
      invariant 0 <= i <= |layers| && LastOp(layers, id) == LastOp(layers[..i], id)
    {
      assert layers[..i][..i - 1] == layers[..i - 1];
      i := i - 1;
      if id in layers[i].actors {
        return Some(layers[i].actors[id]);
      }
    }
    return None;
  }

  /** The topmost cached resolution of a key. */
  ghost function LastResolved(layers: Layers, key: Key): Option<Id> {
    if layers == [] then None
    else if key in layers[|layers| - 1].resolved then Some(layers[|layers| - 1].resolved[key])
    else LastResolved(layers[..|layers| - 1], key)
  }

  /** What an address resolves to: the cache goes before the init actor's map. */
  ghost function Lookup(layers: Layers, m: Actors, store: Store, addr: Address): Option<Id> {
    if addr.ById? then Some(addr.id)
    else if LastResolved(layers, addr.key).Some? then LastResolved(layers, addr.key)
    else Resolve(m, store, addr)
  }

  method FindResolved(layers: Layers, key: Key) returns (id: Option<Id>)
    ensures id == LastResolved(layers, key)
  {
    var i := |layers|;
    assert layers[..i] == layers;
    while i > 0
      invariant 0 <= i <= |layers| && LastResolved(layers, key) == LastResolved(layers[..i], key)
    {
      assert layers[..i][..i - 1] == layers[..i - 1];
      i := i - 1;
      if key in layers[i].resolved {
        return Some(layers[i].resolved[key]);
      }
    }
    return None;
  }

  lemma {:induction false} ResolvedSomewhere(layers: Layers, key: Key) returns (i: nat)
    requires LastResolved(layers, key).Some?
    ensures i < |layers| && key in layers[i].resolved && Some(layers[i].resolved[key]) == LastResolved(layers, key)
    decreases |layers|
  {
    i := |layers| - 1;
    if key !in layers[i].resolved {
      i := ResolvedSomewhere(layers[..i], key);
    }
  }

  /** With right caches the cache makes no difference. */
  lemma LookupIsResolve(stack: seq<Actors>, layers: Layers, store: Store, addr: Address)
    requires CachesOk(stack, layers, store) && layers != []
    ensures Lookup(layers, Top(stack), store, addr) == Resolve(Top(stack), store, addr)
  {
    if addr.ByKey? && LastResolved(layers, addr.key).Some? {
      var i := ResolvedSomewhere(layers, addr.key);
      CacheHit(stack, layers, store, i, addr.key);
    }
  }

  // ----- changing the layers ---------------------------------------------

  function WithOp(layers: Layers, id: Id, op: Op): (r: Layers)
    requires layers != []
    ensures |r| == |layers| && forall i :: 0 <= i < |layers| ==> r[i].resolved == layers[i].resolved
  {
    var top := layers[|layers| - 1];
    layers[|layers| - 1 := top.(actors := top.actors[id := op])]
  }

  /** Another topmost layer over the same layers. */
  lemma TopChanged(root: Actors, front: Layers, top: Layer, top': Layer, layers: Layers, layers': Layers, m': Actors)
    requires layers == front + [top] && layers' == front + [top']
    requires m' == Overlay(View(root, front), top'.actors)
    ensures Stack(root, layers') == Replaced(Stack(root, layers), m')
  {
    StackSplit(root, layers, front, top);
    StackSplit(root, layers', front, top');
  }

  lemma WithOpStack(root: Actors, layers: Layers, id: Id, op: Op, m: Actors, layers': Layers)
    requires layers != [] && m == View(root, layers) && layers' == WithOp(layers, id, op)
    ensures Stack(root, layers') == Replaced(Stack(root, layers), if op.Put? then m[id := op.act] else m - {id})
  {
    var front, top := layers[..|layers| - 1], layers[|layers| - 1];
    var under, ops := View(root, front), top.actors;
    if op.Put? {
      OverlayPut(under, ops, id, op.act);
    } else {
      OverlayDelete(under, ops, id);
    }
    TopChanged(root, front, top, top.(actors := ops[id := op]), layers, layers', if op.Put? then m[id := op.act] else m - {id});
  }

  /** Remembering an actor that was read from the root changes no copy. */
  lemma ReadCaching(root: Actors, layers: Layers, id: Id)
    requires layers != [] && LastOp(layers, id) == None && id in root
    ensures Stack(root, WithOp(layers, id, Put(root[id]))) == Stack(root, layers)
  {
    var m := View(root, layers);
    ViewAt(root, layers, id);
    TopIsView(root, layers);
    WithOpStack(root, layers, id, Put(root[id]), m, WithOp(layers, id, Put(root[id])));
    assert m[id := root[id]] == m;
  }

  method Merge<K(==), V>(low: map<K, V>, high: map<K, V>) returns (r: map<K, V>)
    ensures r == low + high
  {
    r := low;
    var todo := high.Keys;
    while todo != {}
      invariant todo <= high.Keys && r == low + (high - todo)
      decreases todo
    {
      var k := Pick(todo);
      r := r[k := high[k]];
      todo := todo - {k};
    }
    assert high - {} == high;
  }

  lemma MergeStack(root: Actors, front: Layers, low: Layer, high: Layer, merged: Layer, two: Layers, three: Layers, after: Layers)
    requires merged.actors == low.actors + high.actors
    requires two == front + [low] && three == two + [high] && after == front + [merged]
    ensures Stack(root, three) == Stack(root, front) + [View(root, two)] + [View(root, three)]
    ensures Stack(root, after) == Stack(root, front) + [View(root, three)]
  {
    StackSplit(root, after, front, merged);
    StackSplit(root, two, front, low);
    StackSplit(root, three, two, high);
    OverlayMerge(View(root, front), low.actors, high.actors);
  }

  // ----- flushing --------------------------------------------------------

  /** Part of a layer's operations applied to the root. */
  ghost predicate Written(root: Actors, root': Actors, ops: map<Id, Op>, todo: set<Id>) {
    forall a :: if a in ops && a !in todo then (a in root' <==> ops[a].Put?) && (ops[a].Put? ==> root'[a] == ops[a].act)
                else (a in root' <==> a in root) && (a in root ==> root'[a] == root[a])
  }

  lemma WrittenAll(root: Actors, root': Actors, ops: map<Id, Op>)
    requires Written(root, root', ops, {})
    ensures root' == Overlay(root, ops)
  {
  }

  /** The layer still covers whatever was written. */
  lemma WrittenUnder(root: Actors, root': Actors, ops: map<Id, Op>, todo: set<Id>)
    requires Written(root, root', ops, todo)
    ensures Overlay(root', ops) == Overlay(root, ops)
  {
  }

  /** All operations can be written: the map takes them, and what is deleted is there. */
  ghost predicate Writable(root: Actors, ops: map<Id, Op>, works: Id -> bool) {
    forall a :: a in ops ==> works(a) && (ops[a].Delete? ==> a in root)
  }

  /** Writes the operations to the root in any order. Deleting what the root does not
      hold fails; `works` says which other writes the map takes. */
  method WriteAll(root: Actors, ops: map<Id, Op>, works: Id -> bool) returns (root': Actors, ok: bool)
    ensures ok <==> Writable(root, ops, works)
    ensures ok ==> root' == Overlay(root, ops)
    ensures Overlay(root', ops) == Overlay(root, ops)
  {
    root', ok := root, true;
    var todo := ops.Keys;
    while todo != {}
      invariant todo <= ops.Keys && ok && Written(root, root', ops, todo)
      invariant forall a :: a in ops && a !in todo ==> works(a) && (ops[a].Delete? ==> a in root)
      decreases todo
    {
      var a := Pick(todo);
      if !works(a) || (ops[a].Delete? && a !in root') {
        WrittenUnder(root, root', ops, todo);
        return root', false;
      }
      if ops[a].Delete? {
        root' := root' - {a};
      } else {
        root' := root'[a := ops[a].act];
      }
      todo := todo - {a};
    }
    WrittenAll(root, root', ops);
    WrittenUnder(root, root', ops, {});
  }

  // ----- the tree --------------------------------------------------------

  lemma Pushed(root: Actors, layers: Layers, more: Layers)
    requires more == layers + [EMPTY_LAYER]
    ensures Stack(root, more) == Stack(root, layers) + [View(root, layers)]
  {
    StackPush(root, layers, EMPTY_LAYER, more);
    OverlayNothing(View(root, layers));
  }

  lemma Fresh(root: Actors, store: Store)
    ensures Stack(root, [EMPTY_LAYER]) == [root] && CachesOk([root], [EMPTY_LAYER], store)
  {
    assert [] + [EMPTY_LAYER] == [EMPTY_LAYER];
    Pushed(root, [], [EMPTY_LAYER]);
  }

  lemma FlushedStack(root: Actors, root': Actors, layers: Layers)
    requires |layers| == 1 && Overlay(root', layers[0].actors) == Overlay(root, layers[0].actors)
    ensures Stack(root', layers) == Stack(root, layers) && Top(Stack(root, layers)) == Overlay(root, layers[0].actors)
  {
    StackSplit(root, layers, [], layers[0]);
    StackSplit(root', layers, [], layers[0]);
  }

  class Tree {
    var root: Actors
    var layers: Layers
    const store: Store

    ghost function Copies(): seq<Actors>
      reads this
    {
      Stack(root, layers)
    }

    ghost predicate Valid()
      reads this
    {
      layers != []
    }

    /** Cached resolutions are those of the init actor, whose map only grew. */
    ghost predicate Exact()
      reads this
    {
      CachesOk(Copies(), layers, store)
    }

    constructor (root0: Actors, store0: Store)
      ensures Valid() && Exact() && root == root0 && store == store0 && Copies() == [root0]
    {
      root, layers, store := root0, [EMPTY_LAYER], store0;
      new;
      Fresh(root0, store0);
    }

    /** An actor by ID, remembered in the top layer when it came from the root. */
    method GetById(id: Id) returns (act: Option<Actor>)
      requires Valid()
      modifies this`layers
      ensures Valid() && Copies() == old(Copies()) && SameResolved(layers, old(layers))
      ensures act == if id in Top(Copies()) then Some(Top(Copies())[id]) else None
      ensures act.Some? ==> LastOp(layers, id) == Some(Put(act.value))
    {
      TopIsView(root, layers);
      ViewAt(root, layers, id);
      var op := FindOp(layers, id);
      if op.Some? {
        return if op.value.Delete? then None else Some(op.value.act);
      }
      if id !in root {
        return None;
      }
      ReadCaching(root, layers, id);
      layers := WithOp(layers, id, Put(root[id]));
      TopIsView(root, layers);
      return Some(root[id]);
    }

    /** Resolution goes through the caches first. With right caches it gives what the init
        actor's map gives, and caches stay right. */
    method LookupID(addr: Address) returns (id: Option<Id>)
      requires Valid()
      modifies this`layers
      ensures Valid() && Copies() == old(Copies())
      ensures id == Lookup(old(layers), Top(Copies()), store, addr)
      ensures old(Exact()) ==> Exact() && id == Resolve(Top(Copies()), store, addr)
    {
      if Exact() {
        LookupIsResolve(Copies(), layers, store, addr);
      }
      if addr.ById? {
        return Some(addr.id);
      }
      id := FindResolved(layers, addr.key);
      if id.Some? {
        return;
      }
      var act := GetById(INIT_ACTOR);
      if act.None? {
        return None;
      }
      if act.value.head !in store {
        return None;
      }
      var ids := store[act.value.head];
      if addr.key !in ids {
        return None;
      }
      id := Some(ids[addr.key]);
      Remember(addr.key, ids[addr.key]);
    }

    method Remember(key: Key, id: Id)
      requires Valid() && Resolve(Top(Copies()), store, ByKey(key)) == Some(id)
      modifies this`layers
      ensures Valid() && Copies() == old(Copies()) && (old(Exact()) ==> Exact())
      ensures layers[|layers| - 1].resolved == old(layers)[|old(layers)| - 1].resolved[key := id]
    {
      var top := layers[|layers| - 1];
      var layers' := layers[|layers| - 1 := top.(resolved := top.resolved[key := id])];
      if Exact() {
        AddToCache(Copies(), layers, store, key, id, layers');
      }
      SameActors(root, layers, layers');
      layers := layers';
    }

    method GetActor(addr: Address) returns (act: Option<Actor>)
      requires Valid()
      modifies this`layers
      ensures Valid() && Copies() == old(Copies())
      ensures act == if addr == UNDEF then None else ActorOf(Top(Copies()), Lookup(old(layers), Top(Copies()), store, addr))
      ensures old(Exact()) ==> Exact() && act == if addr == UNDEF then None else ActorAt(Top(Copies()), store, addr)
    {
      if addr == UNDEF {
        return None;
      }
      var id := LookupID(addr);
      if id.None? {
        return None;
      }
      act := GetById(id.value);
    }

    /** Setting an actor sets it in the topmost copy. Caches stay right unless the init actor's
        map lost something. */
    method SetActor(addr: Address, act: Actor) returns (ok: bool)
      requires Valid()
      modifies this`layers
      ensures Valid() && (ok <==> Lookup(old(layers), Top(old(Copies())), store, addr).Some?)
      ensures if ok then Copies() == Replaced(old(Copies()), Top(old(Copies()))[Lookup(old(layers), Top(old(Copies())), store, addr).value := act])
              else Copies() == old(Copies())
      ensures old(Exact()) ==> Lookup(old(layers), Top(old(Copies())), store, addr) == Resolve(Top(old(Copies())), store, addr)
      ensures old(Exact()) && Grows(InitMap(Top(old(Copies())), store), InitMap(Top(Copies()), store)) ==> Exact()
    {
      var id := LookupID(addr);
      if id.None? {
        return false;
      }
      Apply(id.value, Put(act));
      return true;
    }

    method DeleteActor(addr: Address) returns (ok: bool)
      requires Valid()
      modifies this`layers
      ensures Valid() && (ok <==> addr != UNDEF && ActorOf(Top(old(Copies())), Lookup(old(layers), Top(old(Copies())), store, addr)).Some?)
      ensures if ok then Copies() == Replaced(old(Copies()), Top(old(Copies())) - {Lookup(old(layers), Top(old(Copies())), store, addr).value})
              else Copies() == old(Copies())
      ensures old(Exact()) ==> Lookup(old(layers), Top(old(Copies())), store, addr) == Resolve(Top(old(Copies())), store, addr)
      ensures old(Exact()) && Grows(InitMap(Top(old(Copies())), store), InitMap(Top(Copies()), store)) ==> Exact()
    {
      if Exact() {
        LookupIsResolve(Copies(), layers, store, addr);
      }
      if addr == UNDEF {
        return false;
      }
      var id := LookupID(addr);
      if id.None? {
        return false;
      }
      var act := GetById(id.value);
      if act.None? {
        return false;
      }
      Apply(id.value, Delete);
      return true;
    }

    /** Records an operation in the top layer. */
    method Apply(id: Id, op: Op)
      requires Valid()
      modifies this`layers
      ensures Valid() && Copies() == Replaced(old(Copies()), Applied(Top(old(Copies())), id, op))
      ensures old(Exact()) && Grows(InitMap(Top(old(Copies())), store), InitMap(Top(Copies()), store)) ==> Exact()
    {
      var layers' := WithOp(layers, id, op);
      ghost var m := View(root, layers);
      TopIsView(root, layers);
      WithOpStack(root, layers, id, op, m, layers');
      if Exact() && Grows(InitMap(m, store), InitMap(Applied(m, id, op), store)) {
        ChangeTop(Copies(), layers, store, Applied(m, id, op), layers');
      }
      layers := layers';
    }

    /** A snapshot pushes a copy. */
    method Snapshot()
      requires Valid()
      modifies this`layers
      ensures Valid() && Copies() == old(Copies()) + [Top(old(Copies()))] && (old(Exact()) ==> Exact())
    {
      TopIsView(root, layers);
      Pushed(root, layers, layers + [EMPTY_LAYER]);
      if Exact() {
        PushCopy(Copies(), layers, store, Top(Copies()));
      }
      layers := layers + [EMPTY_LAYER];
    }

    /** A revert goes back to the copy beneath, or to the root when there is none. */
    method Revert()
      requires Valid()
      modifies this`layers
      ensures Valid() && Copies() == Replaced(old(Copies()), Beneath(root, old(Copies()))) && (old(Exact()) ==> Exact())
    {
      var front := layers[..|layers| - 1];
      RevertLayers(root, layers, front, front + [EMPTY_LAYER], store);
      layers := front + [EMPTY_LAYER];
    }

    /** Clearing a snapshot keeps the topmost copy in place of the one beneath. */
    method ClearSnapshot()
      requires Valid() && |layers| >= 2
      modifies this`layers
      ensures Valid() && Copies() == old(Copies())[..|old(Copies())| - 2] + [Top(old(Copies()))] && (old(Exact()) ==> Exact())
    {
      var n := |layers| - 2;
      var low, high := layers[n], layers[n + 1];
      var actors := Merge(low.actors, high.actors);
      var resolved := Merge(low.resolved, high.resolved);
      var merged, front := Layer(actors, resolved), layers[..n];
      var two, after := front + [low], front + [merged];
      assert layers == two + [high];
      MergeStack(root, front, low, high, merged, two, layers, after);
      if Exact() {
        MergeCaches(Copies(), layers, store, n, merged);
      }
      assert Copies()[..n] == Stack(root, front);
      layers := after;
    }

    /** A flush needs all snapshots cleared, and everything deleted must be in the root.
        It never changes what the tree shows, and when it succeeds the root holds
        exactly that. */
    method Flush(works: Id -> bool) returns (ok: bool)
      requires Valid()
      modifies this`root
      ensures Valid() && Copies() == old(Copies()) && (old(Exact()) ==> Exact())
      ensures ok <==> |layers| == 1 && Writable(old(root), layers[0].actors, works)
      ensures ok ==> root == Top(Copies())
      ensures |layers| != 1 ==> root == old(root)
    {
      if |layers| != 1 {
        return false;
      }
      var root';
      root', ok := WriteAll(root, layers[0].actors, works);
      FlushedStack(root, root', layers);
      root := root';
    }
  }

  function ActorOf(m: Actors, id: Option<Id>): Option<Actor> {
    if id.Some? && id.value in m then Some(m[id.value]) else None
  }

  function ActorAt(m: Actors, store: Store, addr: Address): Option<Actor> {
    ActorOf(m, Resolve(m, store, addr))
  }

  ghost predicate SameResolved(layers: Layers, layers': Layers) {
    |layers'| == |layers| && forall i :: 0 <= i < |layers| ==> layers'[i].resolved == layers[i].resolved
  }

  function Applied(m: Actors, id: Id, op: Op): Actors {
    if op.Put? then m[id := op.act] else m - {id}
  }

  lemma SameActors(root: Actors, layers: Layers, layers': Layers)
    requires layers != [] && |layers'| == |layers| && layers'[..|layers| - 1] == layers[..|layers| - 1]
    requires layers'[|layers| - 1].actors == layers[|layers| - 1].actors
    ensures Stack(root, layers') == Stack(root, layers)
  {
    var front, top, top' := layers[..|layers| - 1], layers[|layers| - 1], layers'[|layers| - 1];
    StackSplit(root, layers, front, top);
    StackSplit(root, layers', front, top');
  }

  lemma RevertLayers(root: Actors, layers: Layers, front: Layers, after: Layers, store: Store)
    requires layers != [] && front == layers[..|layers| - 1] && after == front + [EMPTY_LAYER]
    ensures Stack(root, after) == Replaced(Stack(root, layers), Beneath(root, Stack(root, layers)))
    ensures CachesOk(Stack(root, layers), layers, store) ==> CachesOk(Stack(root, after), after, store)
  {
    var stack, m := Stack(root, layers), View(root, front);
    TopIsView(root, layers);
    OverlayNothing(m);
    TopChanged(root, front, layers[|layers| - 1], EMPTY_LAYER, layers, after, m);
    if CachesOk(stack, layers, store) {
      RevertCaches(stack, layers, front, after, store, m);
    }
  }

  lemma RevertCaches(stack: seq<Actors>, layers: Layers, front: Layers, after: Layers, store: Store, m: Actors)
    requires layers != [] && CachesOk(stack, layers, store) && (|stack| > 1 ==> m == stack[|stack| - 2])
    requires front == layers[..|layers| - 1] && after == front + [EMPTY_LAYER]
    ensures CachesOk(Replaced(stack, m), after, store)
  {
    var rest := stack[..|stack| - 1];
    DropTop(stack, layers, store);
    PushCopy(rest, front, store, m);
    assert Replaced(stack, m) == rest + [m];
  }
}
