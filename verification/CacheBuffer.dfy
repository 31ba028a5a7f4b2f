/** The readers of a cache share one buffer of updates. What each of them has yet to read, as
    the cache has it, is at any time exactly what the buffer would give it. */
module CacheBuffer {
  import opened LinkedChunkModel
  import opened Wrappers
  import opened LinkedChunkOps
  import opened Tables
  import opened Relational
  import RelationalTruth
  import opened RelationalLoad
  import opened ChunkMetadata
  import opened LazyLoader
  import opened EventCache
  import opened UpdatesBuffer

  /** The store reads as reader 0, the order tracker as `order`, each vector by its token. */
  ghost predicate Tied(q: Queues<Update>, order: nat, c: Cache) {
    && order != 0 && order !in c.vectors && 0 !in c.vectors
    && 0 in q && q[0] == c.toStore
    && order in q && q[order] == c.order.queue
    && forall t | t in c.vectors :: t in q && q[t] == c.vectors[t].queue
  }

  /** A reader that nobody reads with. */
  ghost predicate Abandoned(q: Queues<Update>, order: nat, c: Cache, t: nat) {
    t in q && t != 0 && t != order && t !in c.vectors
  }

  function PushedAll(q: Queues<Update>, us: seq<Update>): Queues<Update> {
    map t | t in q :: q[t] + us
  }

  lemma PushedMore(q: Queues<Update>, us: seq<Update>, i: nat)
    requires i < |us|
    ensures UpdatesBuffer.Pushed(PushedAll(q, us[..i]), us[i]) == PushedAll(q, us[..i + 1])
  {
    forall t | t in q ensures q[t] + us[..i] + [us[i]] == q[t] + us[..i + 1] {
      assert us[..i + 1] == us[..i] + [us[i]];
    }
  }

  lemma PushedNone(q: Queues<Update>)
    ensures PushedAll(q, []) == q
  {
    assert forall t | t in q :: q[t] + [] == q[t];
  }

  method PushAll(inner: UpdatesInner<Update>, us: seq<Update>)
    requires inner.Valid()
    modifies inner
    ensures inner.Valid() && inner.Queues() == PushedAll(old(inner.Queues()), us)
    ensures inner.lastToken == old(inner.lastToken)
  {
    ghost var q := inner.Queues();
    PushedNone(q);
    for i := 0 to |us|
      invariant inner.Valid() && inner.Queues() == PushedAll(q, us[..i]) && inner.lastToken == old(inner.lastToken)
    {
      inner.Push(us[i]);
      PushedMore(q, us, i);
    }
    assert us[..|us|] == us;
  }

  function Uniform(q: Queues<Update>, us: seq<Update>): Queues<Update> {
    map t | t in q :: us
  }

  /** `clear_pending`, then new updates. */
  method PushOnly(inner: UpdatesInner<Update>, us: seq<Update>)
    requires inner.Valid()
    modifies inner
    ensures inner.Valid() && inner.Queues() == Uniform(old(inner.Queues()), us)
    ensures inner.lastToken == old(inner.lastToken)
  {
    inner.ClearPending();
    PushAll(inner, us);
    assert [] + us == us;
  }

  method Take(inner: UpdatesInner<Update>, token: nat) returns (us: seq<Update>)
    requires inner.Valid() && token in inner.Queues()
    modifies inner
    ensures inner.Valid() && us == old(inner.Queues())[token] && inner.Queues() == old(inner.Queues())[token := []]
    ensures inner.lastToken == old(inner.lastToken)
  {
    us := inner.TakeWithToken(token);
  }

  method NewReader(inner: UpdatesInner<Update>) returns (token: nat, ghost us: seq<Update>)
    requires inner.Valid()
    modifies inner
    ensures inner.Valid() && token !in old(inner.Queues()) && token == inner.lastToken == old(inner.lastToken) + 1
    ensures inner.Queues() == old(inner.Queues())[token := us]
  {
    token := inner.NewReaderToken();
    us := inner.updates;
  }

  // --- Actions -------------------------------------------------------------------------------

  /** Readers that nobody reads with stay, and have ever more to read, until a restart; only
      a shrink adds one, that of the tracker it replaces. */
  ghost predicate OthersGrow(q: Queues<Update>, order: nat, c: Cache, q': Queues<Update>, order': nat, c': Cache,
                             a: Action)
  {
    && (forall t | Abandoned(q, order, c, t) ::
          Abandoned(q', order', c', t) && if a.Reset? || a.Shrink? then q'[t] != [] else q[t] <= q'[t])
    && (forall t | Abandoned(q', order', c', t) :: Abandoned(q, order, c, t) || (a.Shrink? && t == order))
  }

  /** The readers of `c'` are those of `c`, and all have these updates to read, too. */
  ghost predicate Enqueued(c: Cache, c': Cache, us: seq<Update>) {
    && c'.toStore == c.toStore + us && c'.order.queue == c.order.queue + us
    && c'.vectors.Keys == c.vectors.Keys && forall t | t in c.vectors :: c'.vectors[t].queue == c.vectors[t].queue + us
  }

  method Operated(inner: UpdatesInner<Update>, order: nat, c: Cache, op: Op, c': Cache)
    requires inner.Valid() && Tied(inner.Queues(), order, c) && Goes(c, Operate(op), c')
    modifies inner
    ensures inner.Valid() && Tied(inner.Queues(), order, c')
    ensures OthersGrow(old(inner.Queues()), order, c, inner.Queues(), order, c', Operate(op))
  {
    hide LinkedChunkOps.Step;
    var us := LinkedChunkOps.Step(c.cap, c.lc, op).updates;
    assert Enqueued(c, c', us);
    PushAll(inner, us);
  }

  method WasReset(inner: UpdatesInner<Update>, order: nat, c: Cache, c': Cache)
    requires inner.Valid() && Tied(inner.Queues(), order, c) && Goes(c, Reset, c')
    modifies inner
    ensures inner.Valid() && Tied(inner.Queues(), order, c')
    ensures OthersGrow(old(inner.Queues()), order, c, inner.Queues(), order, c', Reset)
  {
    PushOnly(inner, [Clear]);
  }

  /** The store gets exactly the updates that it is then brought up to date with. */
  method Propagated(inner: UpdatesInner<Update>, order: nat, c: Cache, c': Cache) returns (us: seq<Update>)
    requires inner.Valid() && Tied(inner.Queues(), order, c) && Goes(c, Propagate, c')
    modifies inner
    ensures inner.Valid() && Tied(inner.Queues(), order, c') && us == c.toStore
    ensures OthersGrow(old(inner.Queues()), order, c, inner.Queues(), order, c', Propagate)
  {
    hide Relational.ApplyUpdates;
    us := Take(inner, 0);
  }

  method Observed(inner: UpdatesInner<Update>, order: nat, c: Cache, token: nat, c': Cache)
    requires inner.Valid() && Tied(inner.Queues(), order, c) && Goes(c, Observe(token), c')
             && token == inner.lastToken + 1
    requires token !in c.vectors
    modifies inner
    ensures inner.Valid() && Tied(inner.Queues(), order, c')
    ensures OthersGrow(old(inner.Queues()), order, c, inner.Queues(), order, c', Observe(token))
  {
    hide Goes, InitUpdates, OthersGrow, UpdatesInner.Queues, UpdatesInner.Valid;
    ghost var q := inner.Queues();
    var new_, buffered := NewReader(inner);
    ObservedTied(q, order, c, token, c', buffered);
    PushAll(inner, InitUpdates(c.lc));
    var seen := Take(inner, new_);
  }

  lemma ObservedTied(q: Queues<Update>, order: nat, c: Cache, token: nat, c': Cache, buffered: seq<Update>)
    requires Tied(q, order, c) && Goes(c, Observe(token), c') && token !in q && token !in c.vectors
    ensures var q' := PushedAll(q[token := buffered], InitUpdates(c.lc))[token := []];
            Tied(q', order, c') && OthersGrow(q, order, c, q', order, c', Observe(token))
  {
    hide InitUpdates;
  }

  /** A vector, and the tracker, get exactly what they then map. */
  method Took(inner: UpdatesInner<Update>, order: nat, c: Cache, token: nat, c': Cache) returns (us: seq<Update>)
    requires inner.Valid() && Tied(inner.Queues(), order, c) && token in c.vectors && Goes(c, Action.Take(token), c')
    modifies inner
    ensures inner.Valid() && Tied(inner.Queues(), order, c') && us == c.vectors[token].queue
    ensures OthersGrow(old(inner.Queues()), order, c, inner.Queues(), order, c', Action.Take(token))
  {
    TakenIsRead(c.vectors[token]);
    us := Take(inner, token);
  }

  lemma TakenIsRead(r: Reader)
    ensures Taken(r).Some? ==> Taken(r).value.queue == []
  {
  }

  method Flushed(inner: UpdatesInner<Update>, order: nat, c: Cache, c': Cache) returns (us: seq<Update>)
    requires inner.Valid() && Tied(inner.Queues(), order, c) && Goes(c, FlushOrder, c')
    modifies inner
    ensures inner.Valid() && Tied(inner.Queues(), order, c') && us == c.order.queue
    ensures OthersGrow(old(inner.Queues()), order, c, inner.Queues(), order, c', FlushOrder)
  {
    TakenIsRead(c.order);
    us := Take(inner, order);
  }

  function PassedOver(q: Queues<Update>, order: nat, us: seq<Update>): Queues<Update> {
    map t | t in q :: if t == 0 || t == order then [] else q[t] + us
  }

  /** The tracker flushes, updates are pushed, and store and tracker pass over them. */
  method PassOver(inner: UpdatesInner<Update>, order: nat, us: seq<Update>)
    requires inner.Valid() && 0 in inner.Queues() && order in inner.Queues()
    modifies inner
    ensures inner.Valid() && inner.Queues() == PassedOver(old(inner.Queues()), order, us)
  {
    hide UpdatesInner.Queues, UpdatesInner.Valid, PushedAll, PassedOver;
    PassedOverIs(inner.Queues(), order, us);
    var seen := Take(inner, order);
    PushAll(inner, us);
    seen := Take(inner, 0);
    seen := Take(inner, order);
  }

  lemma PassedOverIs(q: Queues<Update>, order: nat, us: seq<Update>)
    requires 0 in q && order in q
    ensures var pushed := PushedAll(q[order := []], us);
            0 in pushed && order in pushed[0 := []] && pushed[0 := []][order := []] == PassedOver(q, order, us)
  {
  }

  lemma LoadedQueues(c: Cache, row: Row<nat, Links>, c': Cache, us: seq<Update>)
    requires Goes(c, LoadPrevious(row), c') && LoadRaw(c.store, row).Ok?
    requires us == FirstChunkUpdates(LoadRaw(c.store, row).value, Some(c.lc.chunks[0].id))
    ensures c'.toStore == [] && c'.order.queue == [] && c'.vectors == EnqueueAll(c.vectors, us)
  {
    hide LoadRaw, InsertNewFirstChunk, FirstChunkUpdates, Taken, EnqueueAll;
    TakenIsRead(c.order);
  }

  lemma LoadedIsOk(c: Cache, row: Row<nat, Links>, c': Cache)
    requires Goes(c, LoadPrevious(row), c')
    ensures LoadRaw(c.store, row).Ok? && c.lc.chunks != []
  {
    hide LoadRaw, InsertNewFirstChunk, FirstChunkUpdates, Taken, EnqueueAll;
  }

  method LoadedPrevious(inner: UpdatesInner<Update>, order: nat, c: Cache, row: Row<nat, Links>, c': Cache)
    requires inner.Valid() && Tied(inner.Queues(), order, c) && Goes(c, LoadPrevious(row), c')
    modifies inner
    ensures inner.Valid() && Tied(inner.Queues(), order, c')
    ensures OthersGrow(old(inner.Queues()), order, c, inner.Queues(), order, c', LoadPrevious(row))
  {
    hide LoadRaw, FirstChunkUpdates, Goes, PassedOver, OthersGrow, UpdatesInner.Queues, UpdatesInner.Valid;
    LoadedIsOk(c, row, c');
    var us := FirstChunkUpdates(LoadRaw(c.store, row).value, Some(c.lc.chunks[0].id));
    LoadedQueues(c, row, c', us);
    PassedTied(inner.Queues(), order, c, c', us, LoadPrevious(row));
    PassOver(inner, order, us);
  }

  lemma PassedTied(q: Queues<Update>, order: nat, c: Cache, c': Cache, us: seq<Update>, a: Action)
    requires Tied(q, order, c) && a.LoadPrevious?
    requires c'.toStore == [] && c'.order.queue == [] && c'.vectors == EnqueueAll(c.vectors, us)
    ensures Tied(PassedOver(q, order, us), order, c') && OthersGrow(q, order, c, PassedOver(q, order, us), order, c', a)
  {
  }

  /** After a restart with `us`, which the store passes over, and then `more`; `new_` is the
      reader of the new tracker. */
  function Anew(q: Queues<Update>, new_: nat, us: seq<Update>, more: seq<Update>): Queues<Update> {
    map t | t in q.Keys + {new_} :: if t == new_ then [] else if t == 0 then more else us + more
  }

  /** The old tracker flushes; its reader stays, although nobody will read with it. */
  method StartAnew(inner: UpdatesInner<Update>, order: nat, us: seq<Update>, more: seq<Update>) returns (order': nat)
    requires inner.Valid() && 0 in inner.Queues() && order in inner.Queues()
    modifies inner
    ensures inner.Valid() && order' !in old(inner.Queues())
    ensures inner.Queues() == Anew(old(inner.Queues()), order', us, more)
  {
    hide UpdatesInner.Queues, UpdatesInner.Valid, PushedAll, Anew, Uniform;
    ghost var q := inner.Queues();
    UniformHas(q, order, us);
    var seen := Take(inner, order);
    PushOnly(inner, us);
    seen := Take(inner, 0);
    ghost var buffered;
    order', buffered := NewReader(inner);
    AnewIs(q, order, order', us, more, buffered);
    PushAll(inner, more);
    seen := Take(inner, order');
    seen := Take(inner, order');
  }

  lemma UniformHas(q: Queues<Update>, order: nat, us: seq<Update>)
    requires 0 in q && order in q
    ensures 0 in Uniform(q[order := []], us) && Uniform(q[order := []], us)[0 := []].Keys == q.Keys
  {
  }

  lemma AnewIs(q: Queues<Update>, order: nat, new_: nat, us: seq<Update>, more: seq<Update>, buffered: seq<Update>)
    requires 0 in q && order in q && new_ !in q
    ensures var pushed := PushedAll(Uniform(q[order := []], us)[0 := []][new_ := buffered], more);
            new_ in pushed && pushed[new_ := []] == pushed[new_ := []][new_ := []] == Anew(q, new_, us, more)
  {
    assert [] + more == more;
  }

  /** What a shrink does to the queues: `us` are the updates of the restart. */
  ghost predicate Restarted(c: Cache, c': Cache, us: seq<Update>, more: seq<Update>) {
    && c'.toStore == more && c'.order.queue == []
    && c'.vectors == RestartAll(c.vectors, us + more)
  }

  lemma RestartTied(q: Queues<Update>, order: nat, c: Cache, c': Cache, new_: nat, us: seq<Update>, more: seq<Update>)
    requires Tied(q, order, c) && Restarted(c, c', us, more) && new_ !in q && us != []
    ensures var q' := Anew(q, new_, us, more);
            && Tied(q', new_, c') && Abandoned(q', new_, c', order) && q'[order] != []
            && (forall t | Abandoned(q, order, c, t) :: Abandoned(q', new_, c', t) && q'[t] != [])
            && (forall t | Abandoned(q', new_, c', t) :: Abandoned(q, order, c, t) || t == order)
  {
  }

  lemma ShrunkQueues(c: Cache, row: Row<nat, Links>, largest: nat, metas: seq<Meta>, c': Cache)
    requires Goes(c, Shrink(Some(row), largest, metas), c')
    ensures LoadRaw(c.store, row).Ok?
    ensures Restarted(c, c', [Clear] + FirstChunkUpdates(LoadRaw(c.store, row).value, None), [])
  {
    hide LoadRaw, FirstChunkUpdates, Taken, PairsOf, RestartAll;
    var us := [Clear] + FirstChunkUpdates(LoadRaw(c.store, row).value, None);
    assert us + [] == us;
  }

  lemma EmptiedQueues(c: Cache, largest: nat, metas: seq<Meta>, c': Cache)
    requires Goes(c, Shrink(None, largest, metas), c')
    ensures Restarted(c, c', [Clear], InitUpdates(Fresh))
  {
    hide Taken, RestartAll;
  }

  method Shrunk(inner: UpdatesInner<Update>, order: nat, c: Cache, a: Action, c': Cache) returns (order': nat)
    requires inner.Valid() && Tied(inner.Queues(), order, c) && a.Shrink? && Goes(c, a, c')
    modifies inner
    ensures inner.Valid() && Tied(inner.Queues(), order', c')
    ensures OthersGrow(old(inner.Queues()), order, c, inner.Queues(), order', c', a)
    ensures Abandoned(inner.Queues(), order', c', order) && inner.Queues()[order] != []
  {
    hide Goes, LoadRaw, FirstChunkUpdates, Restarted, Anew, InitUpdates;
    var us, more := [Clear], InitUpdates(Fresh);
    match a.last {
      case None => EmptiedQueues(c, a.largest, a.metas, c');
      case Some(row) =>
        ShrunkQueues(c, row, a.largest, a.metas, c');
        us, more := [Clear] + FirstChunkUpdates(LoadRaw(c.store, row).value, None), [];
    }
    order' := StartAnew(inner, order, us, more);
    RestartTied(old(inner.Queues()), order, c, c', order', us, more);
  }

  /** What any action does to the buffer; afterwards every queue of the cache is what the
      buffer has for that reader. */
  method Act(inner: UpdatesInner<Update>, order: nat, c: Cache, a: Action) returns (c': Cache, order': nat)
    requires inner.Valid() && Tied(inner.Queues(), order, c) && Inv(c) && Allowed(c, a)
    requires a.Observe? ==> a.token == inner.lastToken + 1
    modifies inner
    ensures inner.Valid() && Tied(inner.Queues(), order', c') && Goes(c, a, c') && Inv(c')
    ensures OthersGrow(old(inner.Queues()), order, c, inner.Queues(), order', c', a)
    ensures if a.Shrink? then Abandoned(inner.Queues(), order', c', order) && inner.Queues()[order] != []
            else order' == order
  {
    hide Inv, Do;
    ghost var kept := ActionKeeps(c, a);
    c' := Do(c, a).value;
    order' := order;
    var us;
    match a
    case Operate(op) => Operated(inner, order, c, op, c');
    case Reset => WasReset(inner, order, c, c');
    case Propagate => us := Propagated(inner, order, c, c');
    case Observe(token) => Observed(inner, order, c, token, c');
    case Take(token) => us := Took(inner, order, c, token, c');
    case FlushOrder => us := Flushed(inner, order, c, c');
    case LoadPrevious(row) => LoadedPrevious(inner, order, c, row, c');
    case Shrink(_, _, _) => order' := Shrunk(inner, order, c, a, c');
    case Foreign(other, update) => ForeignIsTied(inner.Queues(), order, c, other, update, c');
  }

  lemma ForeignIsTied(q: Queues<Update>, order: nat, c: Cache, other: string, u: Update, c': Cache)
    requires Tied(q, order, c) && Goes(c, Foreign(other, u), c')
    ensures Tied(q, order, c') && OthersGrow(q, order, c, q, order, c', Foreign(other, u))
  {
    hide Relational.ApplyUpdate;
  }

  // --- Whole runs ----------------------------------------------------------------------------

  /** The buffer of an opened cache: the store and the tracker read it, with nothing to read. */
  method Start(name: string, cap: nat, store: Store, full: seq<Chunk>, largest: nat)
    returns (inner: UpdatesInner<Update>, order: nat)
    ensures fresh(inner) && inner.Valid() && Tied(inner.Queues(), order, Opened(name, cap, store, full, largest))
    ensures AbandonedIn(inner.Queues(), order, Opened(name, cap, store, full, largest)) == {}
  {
    inner := new UpdatesInner();
    ghost var buffered;
    order, buffered := NewReader(inner);
    var seen := Take(inner, order);
  }

  ghost function AbandonedIn(q: Queues<Update>, order: nat, c: Cache): set<nat> {
    set t | t in q && Abandoned(q, order, c, t)
  }

  function Shrinks(actions: seq<Action>): nat {
    if actions == [] then 0
    else Shrinks(actions[..|actions| - 1]) + if actions[|actions| - 1].Shrink? then 1 else 0
  }

  /** Each shrink so far has abandoned a reader, and none of them has read everything. */
  ghost predicate OnePerShrink(q: Queues<Update>, order: nat, c: Cache, actions: seq<Action>) {
    && |AbandonedIn(q, order, c)| == Shrinks(actions)
    && forall t | Abandoned(q, order, c, t) :: q[t] != []
  }

  lemma OneMorePerShrink(q: Queues<Update>, order: nat, c: Cache, q': Queues<Update>, order': nat, c': Cache,
                         actions: seq<Action>, a: Action)
    requires OnePerShrink(q, order, c, actions) && OthersGrow(q, order, c, q', order', c', a)
    requires a.Shrink? ==> Abandoned(q', order', c', order) && q'[order] != []
    ensures OnePerShrink(q', order', c', actions + [a])
  {
    hide Shrinks;
    assert Shrinks(actions + [a]) == Shrinks(actions) + if a.Shrink? then 1 else 0 by { ShrinksMore(actions, a); }
    var before, now := AbandonedIn(q, order, c), AbandonedIn(q', order', c');
    assert order !in before;
    assert now == before + if a.Shrink? then {order} else {};
  }

  lemma ShrinksMore(actions: seq<Action>, a: Action)
    ensures Shrinks(actions + [a]) == Shrinks(actions) + if a.Shrink? then 1 else 0
  {
    assert (actions + [a])[..|actions|] == actions;
  }

  lemma {:induction false} ShrinksSome(actions: seq<Action>)
    ensures Shrinks(actions) > 0 <==> exists i :: 0 <= i < |actions| && actions[i].Shrink?
  {
    if actions != [] { ShrinksSome(actions[..|actions| - 1]); }
  }

  /** Any run of a cache, from whatever linked chunk the store holds: however far it gets, each
      reader's queue is what the buffer has for it, and each shrink has left a reader behind.
      It stops only at an action that is not allowed, or a vector whose token is not the next
      one. */
  method Run(name: string, cap: nat, store: Store, full: seq<Chunk>, largest: nat, actions: seq<Action>)
    returns (inner: UpdatesInner<Update>, order: nat, c: Cache, done: nat, ghost caches: seq<Cache>)
    requires 0 < cap && Holds(store, name, full) && WithinCapacity(full, cap) && IdsUpTo(full, largest)
    ensures done <= |actions| && IsRun(caches, actions[..done])
    ensures caches[0] == Opened(name, cap, store, full, largest) && caches[done] == c
    ensures fresh(inner) && inner.Valid() && Tied(inner.Queues(), order, c)
    ensures OnePerShrink(inner.Queues(), order, c, actions[..done])
    ensures done < |actions| ==>
              !Allowed(c, actions[done]) || (actions[done].Observe? && actions[done].token != inner.lastToken + 1)
  {
    hide Inv, Allowed, Goes, Tied, Opened, Holds, UpdatesInner.Valid, UpdatesInner.Queues, OnePerShrink, OthersGrow;
    hide Abandoned;
    inner, order := Start(name, cap, store, full, largest);
    OpenedIsInSync(name, cap, store, full, largest);
    c, done := Opened(name, cap, store, full, largest), 0;
    caches := [c];
    assert OnePerShrink(inner.Queues(), order, c, actions[..0]) by { NoneAbandoned(inner.Queues(), order, c); }
    while done < |actions|
      invariant done <= |actions| && fresh(inner) && inner.Valid() && Tied(inner.Queues(), order, c) && Inv(c)
      invariant IsRun(caches, actions[..done]) && caches[done] == c
      invariant OnePerShrink(inner.Queues(), order, c, actions[..done])
      invariant caches[0] == Opened(name, cap, store, full, largest)
    {
      var a := actions[done];
      if !Allowed(c, a) || (a.Observe? && a.token != inner.lastToken + 1) { return; }
      ghost var before, q, order0 := c, inner.Queues(), order;
      c, order := Act(inner, order, c, a);
      assert actions[..done + 1] == actions[..done] + [a];
      OneMorePerShrink(q, order0, before, inner.Queues(), order, c, actions[..done], a);
      RunGoesOn(caches, actions[..done], a, c);
      caches, done := caches + [c], done + 1;
    }
  }

  lemma NoneAbandoned(q: Queues<Update>, order: nat, c: Cache)
    requires AbandonedIn(q, order, c) == {}
    ensures OnePerShrink(q, order, c, [])
  {
    forall t ensures !Abandoned(q, order, c, t) { assert t !in AbandonedIn(q, order, c); }
  }

  lemma {:induction false} RunGoesOn(caches: seq<Cache>, actions: seq<Action>, a: Action, c: Cache)
    requires IsRun(caches, actions) && Allowed(caches[|actions|], a) && Goes(caches[|actions|], a, c)
    ensures IsRun(caches + [c], actions + [a])
  {
    hide Allowed, Goes;
    var caches', actions' := caches + [c], actions + [a];
    forall i | 0 <= i < |actions'| ensures ActsAt(caches', actions', i) {
      if i < |actions| { assert ActsAt(caches, actions, i); }
    }
  }

  // --- What the buffer keeps ---------------------------------------------------------------

  lemma {:induction false} KeptIff(updates: seq<Update>, indices: map<nat, nat>, live: set<nat>)
    requires (forall t | t in indices :: indices[t] <= |updates|) && exists t :: t in indices && indices[t] == 0
    requires forall t | t in live :: t in indices && updates[indices[t]..] == []
    ensures updates != [] <==> exists t :: t in indices && t !in live && updates[indices[t]..] != []
  {
    var t :| t in indices && indices[t] == 0;
    assert updates[indices[t]..] == updates;
  }

  /** Once everybody else has read everything and the buffer has been tidied, updates are
      left in it if and only if an abandoned reader has not read them. */
  lemma {:induction false} KeepsForAbandonedIff(inner: UpdatesInner<Update>, order: nat, c: Cache)
    requires inner.Valid() && Tied(inner.Queues(), order, c)
    requires exists t :: t in inner.lastIndexPerReader && inner.lastIndexPerReader[t] == 0
    requires AllRead(c)
    ensures inner.updates != [] <==>
            exists t :: Abandoned(inner.Queues(), order, c, t) && inner.Queues()[t] != []
  {
    var live, q := {0, order} + c.vectors.Keys, inner.Queues();
    KeptIff(inner.updates, inner.lastIndexPerReader, live);
    forall t ensures t in inner.lastIndexPerReader && t !in live <==> Abandoned(q, order, c, t) {
    }
  }

  /** Any run after which store, tracker and vectors have read everything: when the buffer
      is tidied, updates are left in it if and only if there was a shrink. */
  method RunThenTidy(name: string, cap: nat, store: Store, full: seq<Chunk>, largest: nat, actions: seq<Action>)
    returns (inner: UpdatesInner<Update>, order: nat, c: Cache, done: nat, ghost caches: seq<Cache>)
    requires 0 < cap && Holds(store, name, full) && WithinCapacity(full, cap) && IdsUpTo(full, largest)
    ensures done <= |actions| && IsRun(caches, actions[..done])
    ensures caches[0] == Opened(name, cap, store, full, largest) && caches[done] == c
    ensures inner.Valid() && Tied(inner.Queues(), order, c)
    ensures AllRead(c) ==> (inner.updates != [] <==> exists i :: 0 <= i < done && actions[i].Shrink?)
  {
    hide Inv, Allowed, Goes, Tied, Opened, Holds, UpdatesInner.Queues, IsRun, WithinCapacity, IdsUpTo;
    inner, order, c, done, caches := Run(name, cap, store, full, largest, actions);
    inner.GarbageCollect();
    if AllRead(c) {
      KeepsForAbandonedIff(inner, order, c);
      ShrinksSome(actions[..done]);
      SomeAbandoned(inner.Queues(), order, c, actions[..done]);
      assert forall i | 0 <= i < done :: actions[..done][i] == actions[i];
    }
  }

  ghost predicate AllRead(c: Cache) {
    c.toStore == [] && c.order.queue == [] && forall t | t in c.vectors :: c.vectors[t].queue == []
  }

  lemma SomeAbandoned(q: Queues<Update>, order: nat, c: Cache, actions: seq<Action>)
    requires OnePerShrink(q, order, c, actions)
    ensures Shrinks(actions) > 0 <==> exists t :: Abandoned(q, order, c, t) && q[t] != []
  {
    var abandoned := AbandonedIn(q, order, c);
    if Shrinks(actions) > 0 {
      var t :| t in abandoned;
    }
    if t :| Abandoned(q, order, c, t) && q[t] != [] { assert t in abandoned by { InQueues(q, order, c, t); } }
  }

  lemma InQueues(q: Queues<Update>, order: nat, c: Cache, t: nat)
    requires Abandoned(q, order, c, t)
    ensures t in AbandonedIn(q, order, c)
  {
  }

  lemma MayShrink(name: string)
    ensures Allowed(Opened(name, 1, Empty, [], 0), Shrink(None, 0, []))
  {
  }

  lemma AfterShrink(c: Cache, c1: Cache)
    requires Goes(c, Shrink(None, 0, []), c1)
    ensures c1.order.queue == [] && c1.vectors.Keys == c.vectors.Keys && Allowed(c1, Propagate)
  {
    hide Taken;
  }

  lemma AfterPropagate(c: Cache, c1: Cache)
    requires Goes(c, Propagate, c1)
    ensures c1.toStore == [] && c1.order == c.order && c1.vectors == c.vectors
  {
    hide Relational.ApplyUpdates;
  }

  /** A cache that is shrunk once: store and tracker have read everything, there is no other
      reader, and yet the buffer is not empty when it has been tidied. */
  method ShrinkLeavesUpdates(name: string) returns (inner: UpdatesInner<Update>, order: nat, c: Cache)
    ensures inner.Valid() && Tied(inner.Queues(), order, c)
    ensures c.toStore == [] && c.order.queue == [] && c.vectors == map[]
    ensures inner.updates != []
  {
    hide Inv, Allowed, Goes, UpdatesInner.Valid, UpdatesInner.Queues, Holds;
    RelationalTruth.EmptyHolds(name);
    inner, order := Start(name, 1, Empty, [], 0);
    OpenedIsInSync(name, 1, Empty, [], 0);
    MayShrink(name);
    ghost var old_ := order;
    var c0 := Opened(name, 1, Empty, [], 0);
    var c1;
    c1, order := Act(inner, order, c0, Shrink(None, 0, []));
    AfterShrink(c0, c1);
    c, order := Act(inner, order, c1, Propagate);
    AfterPropagate(c1, c);
    assert Abandoned(inner.Queues(), order, c, old_) && inner.Queues()[old_] != [];
    inner.GarbageCollect();
    KeepsForAbandonedIff(inner, order, c);
  }
}
